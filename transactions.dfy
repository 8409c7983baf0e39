/** The transaction viewer's normalisation: the transactions a state log holds are
    gathered from the places different MetaMask versions keep them, merged with the
    transaction history without repeating an id, ordered newest first and searched. */
module TransactionList {
  import opened Text
  import opened Json
  import opened Lists

  predicate IsTruthy(v: Value) { Truthy(Some(v)) }

  const MobileAccountsPath := ["engine", "backgroundState", "AccountTrackerController", "accounts"]
  const MobileTransactionsPath := ["engine", "backgroundState", "TransactionController", "transactions"]

  /** The transactions one source field contributes: all elements of an array, the
      truthy values of an object, and nothing for a falsy field or any other value. */
  function Items(v: Option<Value>): (r: seq<Value>)
    ensures Truthy(v) && v.value.Arr? ==> r == v.value.items
    ensures Truthy(v) && v.value.Obj? ==> r == Filter(Values(v), IsTruthy)
    ensures !(Truthy(v) && v.value.Arr?) ==> forall i | 0 <= i < |r| :: IsTruthy(r[i])
    ensures !IsContainer(v) ==> r == []
  {
    if !Truthy(v) then []
    else if v.value.Arr? then v.value.items
    else if v.value.Obj? then Filter(Values(v), IsTruthy)
    else []
  }

  /** An object contributes its truthy values in their order, each as often as it
      occurs, and nothing else. */
  lemma ItemsOfObject(v: Option<Value>)
    requires v.Some? && v.value.Obj?
    ensures IsSubsequence(Items(v), Values(v))
    ensures forall x :: multiset(Items(v))[x] == if IsTruthy(x) then multiset(Values(v))[x] else 0
  {
    FilterKeeps(Values(v), IsTruthy);
  }

  /** The candidate history entries: the values of an array or object, else none. */
  function HistoryCandidates(h: Option<Value>): (r: seq<Value>)
    ensures !IsContainer(h) ==> r == []
    ensures IsContainer(h) ==> r == Values(h)
  {
    if IsContainer(h) then Values(h) else []
  }

  /** `tx?.id`; the id of anything but an object is `undefined`. */
  function IdOf(tx: Value): Option<Value>
  {
    Get(Some(tx), "id")
  }

  /** `list.some(existing => existing?.id === tx.id)`. */
  predicate IdTaken(list: seq<Value>, tx: Value)
  {
    exists k | 0 <= k < |list| :: StrictEq(IdOf(list[k]), IdOf(tx))
  }

  /** The history merge: each truthy history entry, in order, is appended unless an
      entry already in the list (including one appended before it) has the same id. */
  function AdmitHistory(list: seq<Value>, hist: seq<Value>): seq<Value>
    decreases |hist|
  {
    if hist == [] then list
    else
      var acc := AdmitHistory(list, hist[..|hist| - 1]);
      var tx := hist[|hist| - 1];
      if IsTruthy(tx) && !IdTaken(acc, tx) then acc + [tx] else acc
  }

  /** `tx.time || 0`, the sort key; a missing or non-numeric time counts as 0. */
  function TimeOf(tx: Value): int
  {
    NumOr(Get(Some(tx), "time"), 0)
  }

  /** The extension log's transactions before sorting: `transactions`, then
      `txListItems`, then the admitted history entries. */
  function Gathered(mm: Option<Value>): seq<Value>
  {
    AdmitHistory(Items(Get(mm, "transactions")) + Items(Get(mm, "txListItems")),
                 HistoryCandidates(Get(mm, "transactionHistory")))
  }

  /** A log without a `metamask` section: transactions at the top level, then those of
      the mobile transaction controller when the mobile account tracker holds accounts. */
  function RootTransactions(doc: Option<Value>): seq<Value>
  {
    Items(Get(doc, "transactions")) +
    (if Truthy(Path(doc, MobileAccountsPath)) then Items(Path(doc, MobileTransactionsPath)) else [])
  }

  /** The transaction list shown for a state log. */
  function Transactions(doc: Option<Value>): (r: seq<Value>)
    ensures !Truthy(doc) ==> r == []
    ensures Truthy(doc) && !Truthy(Get(doc, "metamask")) ==> r == RootTransactions(doc)
  {
    if !Truthy(doc) then []
    else
      var mm := Get(doc, "metamask");
      if !Truthy(mm) then RootTransactions(doc)
      else SortDesc(Gathered(mm), TimeOf)
  }

  /** For an extension log the list is the gathered transactions reordered newest
      first: a permutation, sorted by time, with equal times in gathering order. */
  lemma TransactionsOrdered(doc: Option<Value>)
    requires Truthy(doc) && Truthy(Get(doc, "metamask"))
    ensures var r := Transactions(doc);
            var g := Gathered(Get(doc, "metamask"));
              && SortedDesc(r, TimeOf)
              && |r| == |g| && multiset(r) == multiset(g)
              && forall k :: WithKey(r, TimeOf, k) == WithKey(g, TimeOf, k)
  {
    var g := Gathered(Get(doc, "metamask"));
    SortDescSorted(g, TimeOf);
    SortDescPermutes(g, TimeOf);
    forall k ensures WithKey(SortDesc(g, TimeOf), TimeOf, k) == WithKey(g, TimeOf, k) {
      SortDescStable(g, TimeOf, k);
    }
  }

  /** An empty or absent log has no transactions. */
  lemma TransactionsOfEmptyLog()
    ensures Transactions(None) == []
    ensures Transactions(Some(Null)) == []
    ensures Transactions(Some(Obj([]))) == []
  {
  }

  lemma {:induction false} IdTakenGrows(a: seq<Value>, b: seq<Value>, tx: Value)
    requires IdTaken(a, tx)
    ensures IdTaken(a + b, tx)
  {
    var k :| 0 <= k < |a| && StrictEq(IdOf(a[k]), IdOf(tx));
    assert (a + b)[k] == a[k];
  }

  /** The merge keeps the gathered list as a prefix and only appends truthy history entries. */
  lemma {:induction false} AdmitHistoryExtends(list: seq<Value>, hist: seq<Value>)
    ensures var r := AdmitHistory(list, hist);
              && |list| <= |r| <= |list| + |hist|
              && r[..|list|] == list
              && forall j | |list| <= j < |r| :: IsTruthy(r[j]) && r[j] in hist
    decreases |hist|
  {
    if hist != [] {
      var init := hist[..|hist| - 1];
      AdmitHistoryExtends(list, init);
      var acc := AdmitHistory(list, init);
      forall j | |list| <= j < |acc| ensures acc[j] in hist {
        assert acc[j] in init;
      }
    }
  }

  /** No appended history entry shares its id with an entry before it. */
  lemma {:induction false} AdmitHistoryFresh(list: seq<Value>, hist: seq<Value>)
    ensures var r := AdmitHistory(list, hist);
              forall j | |list| <= j < |r| :: !IdTaken(r[..j], r[j])
    decreases |hist|
  {
    if hist != [] {
      var init := hist[..|hist| - 1];
      AdmitHistoryFresh(list, init);
      var acc := AdmitHistory(list, init);
      var r := AdmitHistory(list, hist);
      AdmitHistoryExtends(list, init);
      forall j | |list| <= j < |r| ensures !IdTaken(r[..j], r[j]) {
        if j < |acc| {
          assert r[..j] == acc[..j];
          assert r[j] == acc[j];
        } else {
          assert r[..j] == acc;
        }
      }
    }
  }

  /** Every truthy history entry is in the result, or its id was already taken there. */
  lemma {:induction false} AdmitHistoryCovers(list: seq<Value>, hist: seq<Value>)
    ensures var r := AdmitHistory(list, hist);
              forall x | x in hist && IsTruthy(x) :: x in r || IdTaken(r, x)
    decreases |hist|
  {
    if hist != [] {
      var init := hist[..|hist| - 1];
      AdmitHistoryCovers(list, init);
      var acc := AdmitHistory(list, init);
      var r := AdmitHistory(list, hist);
      var tx := hist[|hist| - 1];
      forall x | x in hist && IsTruthy(x) ensures x in r || IdTaken(r, x) {
        if x in init {
          if x in acc {
            assert x in r;
          } else {
            IdTakenGrows(acc, r[|acc|..], x);
            assert acc + r[|acc|..] == r;
          }
        } else {
          assert hist == init + [tx];
          assert x == tx;
        }
      }
    }
  }

  /** The merge only ever appends: the result over a prefix of the history is a
      prefix of the result over all of it, so admitted entries stay in history order. */
  lemma {:induction false} AdmitHistoryPrefix(list: seq<Value>, hist: seq<Value>, i: nat)
    requires i <= |hist|
    ensures AdmitHistory(list, hist[..i]) <= AdmitHistory(list, hist)
    decreases |hist|
  {
    if i < |hist| {
      var init := hist[..|hist| - 1];
      assert init[..i] == hist[..i];
      AdmitHistoryPrefix(list, init, i);
    } else {
      assert hist[..i] == hist;
    }
  }

  /** First wins: history entry i is appended, right after what the entries before it
      produced, exactly when no transaction collected before it has its id. */
  lemma AdmitHistoryFirstWins(list: seq<Value>, hist: seq<Value>, i: nat)
    requires i < |hist| && IsTruthy(hist[i])
    ensures var before := AdmitHistory(list, hist[..i]);
            !IdTaken(before, hist[i]) <==> before + [hist[i]] <= AdmitHistory(list, hist)
  {
    var before := AdmitHistory(list, hist[..i]);
    var r := AdmitHistory(list, hist);
    assert hist[..i + 1][..i] == hist[..i];
    AdmitHistoryPrefix(list, hist, i + 1);
    if before + [hist[i]] <= r {
      AdmitHistoryExtends(list, hist[..i]);
      AdmitHistoryFresh(list, hist);
      AdmitHistoryPrefix(list, hist, i);
      assert r[..|before|] == before;
      assert r[|before|] == hist[i];
    }
  }

  /** Appends the transactions `v` contributes (the source's array spread or its loop
      over the object's values). */
  method AppendItems(list: seq<Value>, v: Option<Value>) returns (out: seq<Value>)
    ensures out == list + Items(v)
  {
    out := list;
    if !Truthy(v) {
      return;
    }
    match v.value {
      case Arr(items) =>
        out := out + items;
      case Obj(_) =>
        var vals := Values(v);
        for i := 0 to |vals|
          invariant out == list + Filter(vals[..i], IsTruthy)
        {
          assert vals[..i + 1] == vals[..i] + [vals[i]];
          FilterAppend(vals[..i], [vals[i]], IsTruthy);
          assert Filter([vals[i]], IsTruthy) == Filter([], IsTruthy) + (if IsTruthy(vals[i]) then [vals[i]] else []) by {
            assert [vals[i]][1..] == [];
          }
          if IsTruthy(vals[i]) {
            out := out + [vals[i]];
          }
        }
        assert vals[..|vals|] == vals;
      case _ =>
    }
  }

  /** `list.some(existing => existing?.id === tx.id)`, scanning until a match. */
  method SomeHasId(list: seq<Value>, tx: Value) returns (found: bool)
    ensures found <==> IdTaken(list, tx)
  {
    found := false;
    var i := 0;
    while i < |list| && !found
      invariant 0 <= i <= |list|
      invariant found <==> exists k | 0 <= k < i :: StrictEq(IdOf(list[k]), IdOf(tx))
    {
      found := StrictEq(IdOf(list[i]), IdOf(tx));
      i := i + 1;
    }
  }

  /** The loop over the history values. */
  method AdmitHistoryEntries(list: seq<Value>, hist: seq<Value>) returns (out: seq<Value>)
    ensures out == AdmitHistory(list, hist)
  {
    out := list;
    for i := 0 to |hist|
      invariant out == AdmitHistory(list, hist[..i])
    {
      assert hist[..i + 1][..i] == hist[..i];
      var tx := hist[i];
      if IsTruthy(tx) {
        var taken := SomeHasId(out, tx);
        if !taken {
          out := out + [tx];
        }
      }
    }
    assert hist[..|hist|] == hist;
  }

  /** The transaction list computation of the viewer. */
  method ExtractTransactions(doc: Option<Value>) returns (txs: seq<Value>)
    ensures txs == Transactions(doc)
  {
    if !Truthy(doc) {
      return [];
    }
    var mm := Get(doc, "metamask");
    if !Truthy(mm) {
      txs := ExtractRootTransactions(doc);
    } else {
      txs := GatherTransactions(mm);
      txs := SortDesc(txs, TimeOf);
    }
  }

  /** The branch for a log without a `metamask` section. */
  method ExtractRootTransactions(doc: Option<Value>) returns (txs: seq<Value>)
    ensures txs == RootTransactions(doc)
  {
    txs := AppendItems([], Get(doc, "transactions"));
    assert txs == Items(Get(doc, "transactions"));
    if Truthy(Path(doc, MobileAccountsPath)) {
      txs := AppendItems(txs, Path(doc, MobileTransactionsPath));
    }
  }

  /** The three sources of an extension log, before sorting. */
  method GatherTransactions(mm: Option<Value>) returns (txs: seq<Value>)
    ensures txs == Gathered(mm)
  {
    var listed := AppendItems([], Get(mm, "transactions"));
    assert listed == Items(Get(mm, "transactions"));
    listed := AppendItems(listed, Get(mm, "txListItems"));
    txs := AdmitHistoryEntries(listed, HistoryCandidates(Get(mm, "transactionHistory")));
  }

  /** The search test: the lower-cased term occurs in the hash, the sender, the
      recipient or the origin. */
  predicate Matches(tx: Value, term: string)
  {
    || StrIncludes(Get(Some(tx), "hash"), term)
    || StrIncludes(Path(Some(tx), ["txParams", "from"]), term)
    || StrIncludes(Path(Some(tx), ["txParams", "to"]), term)
    || StrIncludes(Get(Some(tx), "origin"), term)
  }

  /** The search box: an empty term keeps the list; otherwise the matching
      transactions, in order. */
  function FilterTransactions(txs: seq<Value>, searchTerm: string): (r: seq<Value>)
    ensures searchTerm == "" ==> r == txs
    ensures searchTerm != "" ==> IsSubsequence(r, txs)
    ensures searchTerm != "" ==> forall i | 0 <= i < |r| :: Matches(r[i], Lower(searchTerm))
    ensures searchTerm != "" ==>
              forall x :: multiset(r)[x] == if Matches(x, Lower(searchTerm)) then multiset(txs)[x] else 0
  {
    if searchTerm == "" then txs
    else
      FilterKeeps(txs, tx => Matches(tx, Lower(searchTerm)));
      Filter(txs, tx => Matches(tx, Lower(searchTerm)))
  }

  /** The search ignores the case of the term. */
  lemma SearchIgnoresCase(txs: seq<Value>, searchTerm: string)
    ensures FilterTransactions(txs, Lower(searchTerm)) == FilterTransactions(txs, searchTerm)
  {
    LowerIdempotent(searchTerm);
    if searchTerm != "" {
      FilterExtensional(txs, tx => Matches(tx, Lower(Lower(searchTerm))), tx => Matches(tx, Lower(searchTerm)));
    }
  }

  /** Searching for a transaction's full hash, in any case, finds it. */
  lemma SearchFindsHash(txs: seq<Value>, tx: Value, searchTerm: string)
    requires tx in txs
    requires Get(Some(tx), "hash") == Some(Str(searchTerm))
    ensures tx in FilterTransactions(txs, searchTerm)
  {
    if searchTerm != "" {
      ContainsTrivial(Lower(searchTerm));
      assert Matches(tx, Lower(searchTerm));
      assert multiset(txs)[tx] > 0;
    }
  }
}
