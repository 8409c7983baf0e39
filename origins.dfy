/** The origins viewer's aggregation: every origin (dapp URL) that a transaction, a
    pending approval or a visited-dapps entry names gets one row with a use count,
    the time it was last used and which of the three sources named it; rows are
    ordered by last use, searched and rated for risk. */
module OriginsList {
  import opened Text
  import opened Json
  import opened Lists
  import opened Risk

  /** The per-origin record kept in the aggregation map. */
  datatype Usage = Usage(count: nat, lastUsed: int, isVisited: bool, hasTransactions: bool, hasApprovals: bool)

  /** The record `origins.get(key) || {...}` starts from; a missing `lastUsed` is 0. */
  const Unused := Usage(0, 0, false, false, false)

  /** One row: the origin (the map key) and its record. */
  datatype Origin = Origin(url: Value, usage: Usage)

  /** One use of an origin, in the order the aggregation meets it. A transaction's
      missing time is 0; an approval's missing time is None. */
  datatype Event =
    | TxUse(key: Value, time: int)
    | ApprovalUse(key: Value, at: Option<int>)
    | Visit(key: Value)

  /** The update the aggregation applies to an origin's record for one use. */
  function Step(u: Usage, e: Event): (r: Usage)
    ensures e.Visit? ==> r.count == (if u.count == 0 then 1 else u.count) && r.lastUsed == u.lastUsed
    ensures !e.Visit? ==> r.count == u.count + 1
    ensures r.hasTransactions == (u.hasTransactions || e.TxUse?)
    ensures r.hasApprovals == (u.hasApprovals || e.ApprovalUse?)
    ensures r.isVisited == (u.isVisited || e.Visit?)
  {
    match e
    case TxUse(_, t) =>
      u.(count := u.count + 1, hasTransactions := true,
         lastUsed := if u.lastUsed == 0 || (t != 0 && t > u.lastUsed) then t else u.lastUsed)
    case ApprovalUse(_, at) =>
      u.(count := u.count + 1, hasApprovals := true,
         lastUsed := if u.lastUsed == 0 then (if at.Some? then at.value else 0)
                     else if at.Some? && at.value > u.lastUsed then at.value
                     else u.lastUsed)
    case Visit(_) =>
      u.(isVisited := true, count := if u.count == 0 then 1 else u.count)
  }

  function UrlOf(o: Origin): Value { o.url }

  /** The position of `key` in the map's insertion order, or |index| when absent. */
  function Find(index: seq<Origin>, key: Value): (r: nat)
    ensures r <= |index|
    ensures r < |index| ==> index[r].url == key
    ensures forall i | 0 <= i < r :: index[i].url != key
    decreases |index|
  {
    if index == [] then 0
    else if index[0].url == key then 0
    else 1 + Find(index[1..], key)
  }

  /** `origins.set(key, step(origins.get(key) || unused))`: an existing key is updated
      in place, a new key is appended. */
  function Record(index: seq<Origin>, e: Event): (r: seq<Origin>)
    ensures |r| == |index| || |r| == |index| + 1
  {
    var i := Find(index, e.key);
    if i < |index| then index[i := Origin(e.key, Step(index[i].usage, e))]
    else index + [Origin(e.key, Step(Unused, e))]
  }

  /** The map after the given uses. */
  function Apply(index: seq<Origin>, evs: seq<Event>): seq<Origin>
    decreases |evs|
  {
    if evs == [] then index else Record(Apply(index, evs[..|evs| - 1]), evs[|evs| - 1])
  }

  /** The record of one origin after the given uses, starting from `start`. */
  function UsageFrom(start: Usage, evs: seq<Event>, key: Value): Usage
    decreases |evs|
  {
    if evs == [] then start
    else
      var prev := UsageFrom(start, evs[..|evs| - 1], key);
      if evs[|evs| - 1].key == key then Step(prev, evs[|evs| - 1]) else prev
  }

  function UsageOf(evs: seq<Event>, key: Value): Usage
  {
    UsageFrom(Unused, evs, key)
  }

  predicate Mentions(evs: seq<Event>, key: Value)
  {
    exists j | 0 <= j < |evs| :: evs[j].key == key
  }

  predicate Listed(index: seq<Origin>, key: Value)
  {
    exists i | 0 <= i < |index| :: index[i].url == key
  }

  lemma {:induction false} UsageOfUnmentioned(evs: seq<Event>, key: Value)
    requires !Mentions(evs, key)
    ensures UsageOf(evs, key) == Unused
    decreases |evs|
  {
    if evs != [] {
      var init := evs[..|evs| - 1];
      assert !Mentions(init, key) by {
        forall j | 0 <= j < |init| ensures init[j].key != key {
          assert init[j] == evs[j];
        }
      }
      UsageOfUnmentioned(init, key);
    }
  }

  /** The aggregation map lists each origin named by some use exactly once, and the
      record kept for it is the one its own uses produce. */
  lemma {:induction false} ApplyTracks(evs: seq<Event>)
    ensures var r := Apply([], evs);
              && DistinctBy(r, UrlOf)
              && (forall i | 0 <= i < |r| :: r[i].usage == UsageOf(evs, r[i].url))
              && (forall k :: Listed(r, k) <==> Mentions(evs, k))
    decreases |evs|
  {
    if evs != [] {
      var init := evs[..|evs| - 1];
      var e := evs[|evs| - 1];
      ApplyTracks(init);
      var acc := Apply([], init);
      assert evs == init + [e];
      assert Apply([], evs) == Record(acc, e);
      MentionsSnoc(init, e);
      RecordListed(acc, e);
      RecordDistinct(acc, e);
      RecordUsage(acc, init, e);
    }
  }

  /** The position of the first use of `key`, or |evs| when none names it. */
  function FirstUse(evs: seq<Event>, key: Value): (r: nat)
    ensures r <= |evs|
    ensures r < |evs| ==> evs[r].key == key
    ensures forall j | 0 <= j < r :: evs[j].key != key
    ensures r < |evs| <==> Mentions(evs, key)
    decreases |evs|
  {
    if evs == [] then 0
    else if evs[0].key == key then 0
    else 1 + FirstUse(evs[1..], key)
  }

  /** The first use is the one position that names the key with no earlier one. */
  lemma FirstUseIs(evs: seq<Event>, key: Value, n: nat)
    requires n <= |evs|
    requires n < |evs| ==> evs[n].key == key
    requires forall j | 0 <= j < n :: evs[j].key != key
    ensures FirstUse(evs, key) == n
  {
  }

  /** One more use leaves the first use of a key already named in place, makes the
      new use the first use of its key otherwise, and names nothing else. */
  lemma FirstUseSnoc(init: seq<Event>, e: Event, key: Value)
    ensures FirstUse(init + [e], key)
              == if Mentions(init, key) then FirstUse(init, key) else if e.key == key then |init| else |init| + 1
  {
    var evs := init + [e];
    assert forall j | 0 <= j < |init| :: evs[j] == init[j];
    if Mentions(init, key) {
      FirstUseIs(evs, key, FirstUse(init, key));
    } else if e.key == key {
      assert evs[|init|] == e;
      FirstUseIs(evs, key, |init|);
    } else {
      FirstUseIs(evs, key, |evs|);
    }
  }

  /** The rows are listed in the order of their origins' first uses. */
  ghost predicate FirstUseOrdered(a: seq<Origin>, evs: seq<Event>)
  {
    forall i, j | 0 <= i < j < |a| :: FirstUse(evs, a[i].url) < FirstUse(evs, a[j].url)
  }

  /** The aggregation map lists origins in the order of their first use. */
  lemma {:induction false} ApplyOrder(evs: seq<Event>)
    ensures FirstUseOrdered(Apply([], evs), evs)
    decreases |evs|
  {
    if evs != [] {
      var init := evs[..|evs| - 1];
      var e := evs[|evs| - 1];
      ApplyOrder(init);
      ApplyTracks(init);
      assert evs == init + [e];
      RecordOrder(Apply([], init), init, e);
    }
  }

  lemma RecordOrder(acc: seq<Origin>, init: seq<Event>, e: Event)
    requires FirstUseOrdered(acc, init)
    requires forall k :: Listed(acc, k) <==> Mentions(init, k)
    ensures FirstUseOrdered(Record(acc, e), init + [e])
  {
    var a := Record(acc, e);
    forall i, j | 0 <= i < j < |a| ensures FirstUse(init + [e], a[i].url) < FirstUse(init + [e], a[j].url) {
      FirstUseSnoc(init, e, a[i].url);
      FirstUseSnoc(init, e, a[j].url);
      assert a[i].url == acc[i].url;
      assert Listed(acc, acc[i].url);
      if j < |acc| {
        assert a[j].url == acc[j].url;
        assert Listed(acc, acc[j].url);
      } else {
        assert a[j].url == e.key;
        assert !Listed(acc, e.key);
      }
    }
  }

  lemma MentionsSnoc(init: seq<Event>, e: Event)
    ensures forall k :: Mentions(init + [e], k) <==> Mentions(init, k) || e.key == k
  {
    var evs := init + [e];
    forall k ensures Mentions(evs, k) <==> Mentions(init, k) || e.key == k {
      if Mentions(evs, k) {
        var j :| 0 <= j < |evs| && evs[j].key == k;
        if j < |init| { assert init[j] == evs[j]; }
      }
      if Mentions(init, k) {
        var j :| 0 <= j < |init| && init[j].key == k;
        assert evs[j] == init[j];
      }
      if e.key == k {
        assert evs[|init|] == e;
      }
    }
  }

  lemma RecordListed(acc: seq<Origin>, e: Event)
    ensures forall k :: Listed(Record(acc, e), k) <==> Listed(acc, k) || k == e.key
  {
    var r := Record(acc, e);
    var i := Find(acc, e.key);
    forall k ensures Listed(r, k) <==> Listed(acc, k) || k == e.key {
      if Listed(r, k) {
        var j :| 0 <= j < |r| && r[j].url == k;
        if j < |acc| && j != i { assert acc[j].url == k; }
      }
      if Listed(acc, k) {
        var j :| 0 <= j < |acc| && acc[j].url == k;
        if j != i { assert r[j].url == k; }
      }
      if k == e.key {
        if i < |acc| { assert r[i].url == k; } else { assert r[|acc|].url == k; }
      }
    }
  }

  lemma RecordDistinct(acc: seq<Origin>, e: Event)
    requires DistinctBy(acc, UrlOf)
    ensures DistinctBy(Record(acc, e), UrlOf)
  {
    var r := Record(acc, e);
    var i := Find(acc, e.key);
    forall a, b | 0 <= a < b < |r| ensures UrlOf(r[a]) != UrlOf(r[b]) {
      if b == |acc| {
        assert r[a] == acc[a];
      } else {
        assert r[a].url == acc[a].url && r[b].url == acc[b].url;
      }
    }
  }

  lemma UsageSnoc(init: seq<Event>, e: Event, key: Value)
    ensures UsageOf(init + [e], key) == if e.key == key then Step(UsageOf(init, key), e) else UsageOf(init, key)
  {
    assert (init + [e])[..|init|] == init;
  }

  lemma RecordUsage(acc: seq<Origin>, init: seq<Event>, e: Event)
    requires DistinctBy(acc, UrlOf)
    requires forall i | 0 <= i < |acc| :: acc[i].usage == UsageOf(init, acc[i].url)
    requires forall k :: Listed(acc, k) <==> Mentions(init, k)
    ensures var r := Record(acc, e);
              forall i | 0 <= i < |r| :: r[i].usage == UsageOf(init + [e], r[i].url)
  {
    var r := Record(acc, e);
    var i := Find(acc, e.key);
    forall j | 0 <= j < |r| ensures r[j].usage == UsageOf(init + [e], r[j].url) {
      UsageSnoc(init, e, r[j].url);
      if j == |acc| {
        assert !Listed(acc, e.key);
        UsageOfUnmentioned(init, e.key);
      } else if j != i {
        assert r[j] == acc[j];
      }
    }
  }

  lemma {:induction false} UsageFromAppend(start: Usage, a: seq<Event>, b: seq<Event>, key: Value)
    ensures UsageFrom(start, a + b, key) == UsageFrom(UsageFrom(start, a, key), b, key)
    decreases |b|
  {
    if b == [] {
      assert a + b == a;
    } else {
      UsageFromAppend(start, a, b[..|b| - 1], key);
      assert (a + b)[..|a + b| - 1] == a + b[..|b| - 1];
      assert (a + b)[|a + b| - 1] == b[|b| - 1];
    }
  }

  /** The three kinds of use, and the record flag each one sets. */
  datatype Kind = Transaction | Approval | Visited

  function KindOf(e: Event): Kind
  {
    match e
    case TxUse(_, _) => Transaction
    case ApprovalUse(_, _) => Approval
    case Visit(_) => Visited
  }

  function Flag(u: Usage, kind: Kind): bool
  {
    match kind
    case Transaction => u.hasTransactions
    case Approval => u.hasApprovals
    case Visited => u.isVisited
  }

  /** Some use of `key` is of the given kind. */
  predicate HasKind(evs: seq<Event>, key: Value, kind: Kind)
  {
    exists j | 0 <= j < |evs| :: evs[j].key == key && KindOf(evs[j]) == kind
  }

  predicate HasTx(evs: seq<Event>, key: Value) { HasKind(evs, key, Transaction) }
  predicate HasApproval(evs: seq<Event>, key: Value) { HasKind(evs, key, Approval) }
  predicate HasVisit(evs: seq<Event>, key: Value) { HasKind(evs, key, Visited) }

  /** Each flag of a record says exactly whether a use of its kind named the origin. */
  lemma {:induction false} UsageFlag(start: Usage, evs: seq<Event>, key: Value, kind: Kind)
    ensures Flag(UsageFrom(start, evs, key), kind) <==> Flag(start, kind) || HasKind(evs, key, kind)
    decreases |evs|
  {
    if evs != [] {
      var init := evs[..|evs| - 1];
      var e := evs[|evs| - 1];
      UsageFlag(start, init, key, kind);
      var prev := UsageFrom(start, init, key);
      assert Flag(Step(prev, e), kind) == (Flag(prev, kind) || KindOf(e) == kind);
      HasKindLast(evs, key, kind);
    }
  }

  /** The number of transaction and approval uses of `key`. */
  function Uses(evs: seq<Event>, key: Value): nat
    decreases |evs|
  {
    if evs == [] then 0
    else Uses(evs[..|evs| - 1], key) + (if evs[|evs| - 1].key == key && !evs[|evs| - 1].Visit? then 1 else 0)
  }

  /** Without visits, each use adds one to the count. */
  lemma {:induction false} CountWithoutVisits(start: Usage, evs: seq<Event>, key: Value)
    requires forall j | 0 <= j < |evs| :: !evs[j].Visit?
    ensures UsageFrom(start, evs, key).count == start.count + Uses(evs, key)
    decreases |evs|
  {
    if evs != [] {
      var init := evs[..|evs| - 1];
      assert forall j | 0 <= j < |init| :: init[j] == evs[j];
      CountWithoutVisits(start, init, key);
    }
  }

  /** A use of a kind occurs in a sequence exactly when it occurs before the last
      element or is the last element. */
  lemma HasKindLast(evs: seq<Event>, key: Value, kind: Kind)
    requires evs != []
    ensures HasKind(evs, key, kind) <==>
              HasKind(evs[..|evs| - 1], key, kind) ||
              (evs[|evs| - 1].key == key && KindOf(evs[|evs| - 1]) == kind)
  {
    var init := evs[..|evs| - 1];
    if HasKind(evs, key, kind) {
      var j :| 0 <= j < |evs| && evs[j].key == key && KindOf(evs[j]) == kind;
      if j < |init| {
        assert init[j] == evs[j];
      }
    }
    if HasKind(init, key, kind) {
      var j :| 0 <= j < |init| && init[j].key == key && KindOf(init[j]) == kind;
      assert evs[j] == init[j];
    }
  }

  /** Visits only turn a zero count into one. */
  lemma {:induction false} CountOfVisits(start: Usage, evs: seq<Event>, key: Value)
    requires forall j | 0 <= j < |evs| :: evs[j].Visit?
    ensures UsageFrom(start, evs, key).count == if start.count == 0 && HasVisit(evs, key) then 1 else start.count
    decreases |evs|
  {
    if evs != [] {
      var init := evs[..|evs| - 1];
      assert forall j | 0 <= j < |init| :: init[j] == evs[j];
      CountOfVisits(start, init, key);
      HasKindLast(evs, key, Visited);
    }
  }

  /** The time a use records, 0 when it has none. */
  function EventTime(e: Event): int
  {
    match e
    case TxUse(_, t) => t
    case ApprovalUse(_, at) => if at.Some? then at.value else 0
    case Visit(_) => 0
  }

  /** The latest time among the uses of `key`, and 0 when there is none later. */
  function MaxTime(evs: seq<Event>, key: Value): int
    decreases |evs|
  {
    if evs == [] then 0
    else
      var m := MaxTime(evs[..|evs| - 1], key);
      if evs[|evs| - 1].key == key && EventTime(evs[|evs| - 1]) > m then EventTime(evs[|evs| - 1]) else m
  }

  predicate NoNegativeTimes(evs: seq<Event>)
  {
    forall j | 0 <= j < |evs| :: EventTime(evs[j]) >= 0
  }

  /** With no negative times, `lastUsed` is the latest time among the origin's uses. */
  lemma {:induction false} LastUsedIsLatest(evs: seq<Event>, key: Value)
    requires NoNegativeTimes(evs)
    ensures UsageOf(evs, key).lastUsed == MaxTime(evs, key)
    ensures MaxTime(evs, key) >= 0
    decreases |evs|
  {
    if evs != [] {
      var init := evs[..|evs| - 1];
      assert forall j | 0 <= j < |init| :: init[j] == evs[j];
      LastUsedIsLatest(init, key);
      assert EventTime(evs[|evs| - 1]) >= 0;
    }
  }

  /** A transaction's `time`, 0 when missing or not a number. */
  function TxTime(tx: Value): int
  {
    NumOr(Get(Some(tx), "time"), 0)
  }

  /** An approval's `time`, None when missing or not a number. */
  function ApprovalTime(approval: Value): (r: Option<int>)
    ensures r.Some? <==> Get(Some(approval), "time").Some? && Get(Some(approval), "time").value.Num?
  {
    var t := Get(Some(approval), "time");
    if t.Some? && t.value.Num? then Some(t.value.n) else None
  }

  /** The uses the transactions loop makes: one per transaction with a truthy origin. */
  function TxEvents(txs: seq<Value>): seq<Event>
    decreases |txs|
  {
    if txs == [] then []
    else
      var tx := txs[|txs| - 1];
      var origin := Get(Some(tx), "origin");
      TxEvents(txs[..|txs| - 1]) + (if Truthy(origin) then [TxUse(origin.value, TxTime(tx))] else [])
  }

  /** The uses the approvals loop makes: one per approval with a truthy origin. */
  function ApprovalEvents(approvals: seq<Value>): seq<Event>
    decreases |approvals|
  {
    if approvals == [] then []
    else
      var a := approvals[|approvals| - 1];
      var origin := Get(Some(a), "origin");
      ApprovalEvents(approvals[..|approvals| - 1]) + (if Truthy(origin) then [ApprovalUse(origin.value, ApprovalTime(a))] else [])
  }

  /** The uses the visited-dapps loop makes: one per truthy hostname. */
  function VisitEvents(hosts: seq<Value>): seq<Event>
    decreases |hosts|
  {
    if hosts == [] then []
    else
      var h := hosts[|hosts| - 1];
      VisitEvents(hosts[..|hosts| - 1]) + (if Truthy(Some(h)) then [Visit(h)] else [])
  }

  lemma {:induction false} TxEventsShape(txs: seq<Value>)
    ensures forall j | 0 <= j < |TxEvents(txs)| :: TxEvents(txs)[j].TxUse?
    decreases |txs|
  {
    if txs != [] { TxEventsShape(txs[..|txs| - 1]); }
  }

  lemma {:induction false} ApprovalEventsShape(approvals: seq<Value>)
    ensures forall j | 0 <= j < |ApprovalEvents(approvals)| :: ApprovalEvents(approvals)[j].ApprovalUse?
    decreases |approvals|
  {
    if approvals != [] { ApprovalEventsShape(approvals[..|approvals| - 1]); }
  }

  lemma {:induction false} VisitEventsShape(hosts: seq<Value>)
    ensures forall j | 0 <= j < |VisitEvents(hosts)| :: VisitEvents(hosts)[j].Visit?
    decreases |hosts|
  {
    if hosts != [] { VisitEventsShape(hosts[..|hosts| - 1]); }
  }

  /** The elements of an array-valued field, or none for anything else. */
  function ArrayItems(v: Option<Value>): seq<Value>
  {
    if Truthy(v) && v.value.Arr? then v.value.items else []
  }

  /** The values of an object- or array-valued field, or none for anything else. */
  function ObjectValues(v: Option<Value>): seq<Value>
  {
    if IsContainer(v) then Values(v) else []
  }

  /** Every use the three loops make, in order. */
  function Events(mm: Option<Value>): seq<Event>
  {
    TxEvents(ArrayItems(Get(mm, "transactions"))) +
    ApprovalEvents(ObjectValues(Get(mm, "pendingApprovals"))) +
    VisitEvents(ArrayItems(Get(mm, "visitedDappsByHostname")))
  }

  /** `b.lastUsed || 0`, the sort key. */
  function LastUsedKey(o: Origin): int { o.usage.lastUsed }

  /** The origin rows shown for a state log. */
  function Origins(doc: Option<Value>): (r: seq<Origin>)
    ensures !Truthy(Get(doc, "metamask")) ==> r == []
  {
    var mm := Get(doc, "metamask");
    if !Truthy(mm) then [] else SortDesc(Apply([], Events(mm)), LastUsedKey)
  }

  /** The rows are ordered by last use, name each origin of the log exactly once,
      and each carries the record its own uses produce. */
  lemma OriginsRows(doc: Option<Value>)
    requires Truthy(Get(doc, "metamask"))
    ensures var evs := Events(Get(doc, "metamask"));
            var r := Origins(doc);
              && SortedDesc(r, LastUsedKey)
              && DistinctBy(r, UrlOf)
              && (forall i | 0 <= i < |r| :: r[i].usage == UsageOf(evs, r[i].url))
              && (forall k :: Listed(r, k) <==> Mentions(evs, k))
              && (forall i, j | 0 <= i < j < |r| && LastUsedKey(r[i]) == LastUsedKey(r[j]) ::
                    FirstUse(evs, r[i].url) < FirstUse(evs, r[j].url))
  {
    var evs := Events(Get(doc, "metamask"));
    var a := Apply([], evs);
    var r := SortDesc(a, LastUsedKey);
    ApplyTracks(evs);
    SortDescSorted(a, LastUsedKey);
    SortDescPermutes(a, LastUsedKey);
    SortDescDistinct(a, LastUsedKey, UrlOf);
    PermutedRows(a, r, evs);
    TiesInFirstUseOrder(a, evs);
  }

  /** Rows with equal last use keep the map's order, which is the order of first use. */
  lemma TiesInFirstUseOrder(a: seq<Origin>, evs: seq<Event>)
    requires a == Apply([], evs)
    ensures var r := SortDesc(a, LastUsedKey);
            forall i, j | 0 <= i < j < |r| && LastUsedKey(r[i]) == LastUsedKey(r[j]) ::
              FirstUse(evs, r[i].url) < FirstUse(evs, r[j].url)
  {
    var rank := (o: Origin) => FirstUse(evs, o.url);
    ApplyOrder(evs);
    assert Increasing(a, rank) by {
      forall i, j | 0 <= i < j < |a| ensures rank(a[i]) < rank(a[j]) { }
    }
    SortDescTiesOrdered(a, LastUsedKey, rank);
  }

  /** Reordering the rows keeps every record tied to its uses and the listed origins. */
  lemma PermutedRows(a: seq<Origin>, r: seq<Origin>, evs: seq<Event>)
    requires multiset(r) == multiset(a)
    requires forall i | 0 <= i < |a| :: a[i].usage == UsageOf(evs, a[i].url)
    ensures forall i | 0 <= i < |r| :: r[i].usage == UsageOf(evs, r[i].url)
    ensures forall k :: Listed(r, k) <==> Listed(a, k)
  {
    forall i | 0 <= i < |r| ensures r[i].usage == UsageOf(evs, r[i].url) {
      assert r[i] in multiset(a);
      var j :| 0 <= j < |a| && a[j] == r[i];
    }
    forall k ensures Listed(r, k) <==> Listed(a, k) {
      if Listed(r, k) {
        var i :| 0 <= i < |r| && r[i].url == k;
        assert r[i] in multiset(a);
        var j :| 0 <= j < |a| && a[j] == r[i];
      }
      if Listed(a, k) {
        var j :| 0 <= j < |a| && a[j].url == k;
        assert a[j] in multiset(r);
        var i :| 0 <= i < |r| && r[i] == a[j];
      }
    }
  }

  /** The flags of an origin's record name exactly the sources that mention it. */
  lemma OriginFlags(mm: Option<Value>, key: Value)
    ensures var evs := Events(mm);
            var u := UsageOf(evs, key);
              && (u.hasTransactions <==> HasTx(evs, key))
              && (u.hasApprovals <==> HasApproval(evs, key))
              && (u.isVisited <==> HasVisit(evs, key))
  {
    var evs := Events(mm);
    UsageFlag(Unused, evs, key, Transaction);
    UsageFlag(Unused, evs, key, Approval);
    UsageFlag(Unused, evs, key, Visited);
  }

  /** An origin's count is its number of transaction and approval uses, or 1 when
      it was only visited. */
  lemma OriginCount(mm: Option<Value>, key: Value)
    ensures var used := TxEvents(ArrayItems(Get(mm, "transactions"))) +
                        ApprovalEvents(ObjectValues(Get(mm, "pendingApprovals")));
            var visits := VisitEvents(ArrayItems(Get(mm, "visitedDappsByHostname")));
              UsageOf(Events(mm), key).count ==
                if Uses(used, key) > 0 then Uses(used, key) else if HasVisit(visits, key) then 1 else 0
  {
    CountFromSources(ArrayItems(Get(mm, "transactions")), ObjectValues(Get(mm, "pendingApprovals")),
                     ArrayItems(Get(mm, "visitedDappsByHostname")), key);
  }

  lemma CountFromSources(txs: seq<Value>, approvals: seq<Value>, hosts: seq<Value>, key: Value)
    ensures var used := TxEvents(txs) + ApprovalEvents(approvals);
            var visits := VisitEvents(hosts);
              UsageOf(used + visits, key).count ==
                if Uses(used, key) > 0 then Uses(used, key) else if HasVisit(visits, key) then 1 else 0
  {
    var t, a, v := TxEvents(txs), ApprovalEvents(approvals), VisitEvents(hosts);
    TxEventsShape(txs);
    ApprovalEventsShape(approvals);
    VisitEventsShape(hosts);
    var used := t + a;
    forall j | 0 <= j < |used| ensures !used[j].Visit? {
      if j < |t| { assert used[j] == t[j]; } else { assert used[j] == a[j - |t|]; }
    }
    CountOfUsesThenVisits(used, v, key);
  }

  /** Uses without visits followed by visits only: the count is the number of uses,
      or 1 when there were none but a visit. */
  lemma CountOfUsesThenVisits(used: seq<Event>, visits: seq<Event>, key: Value)
    requires forall j | 0 <= j < |used| :: !used[j].Visit?
    requires forall j | 0 <= j < |visits| :: visits[j].Visit?
    ensures UsageOf(used + visits, key).count ==
              if Uses(used, key) > 0 then Uses(used, key) else if HasVisit(visits, key) then 1 else 0
  {
    UsageFromAppend(Unused, used, visits, key);
    CountWithoutVisits(Unused, used, key);
    CountOfVisits(UsageFrom(Unused, used, key), visits, key);
  }

  /** `getRiskIndicator`: approvals without transactions are high risk, approvals with
      transactions medium, anything else low. */
  function OriginRisk(o: Origin): (r: Level)
    ensures r == High <==> o.usage.hasApprovals && !o.usage.hasTransactions
    ensures r == Medium <==> o.usage.hasApprovals && o.usage.hasTransactions
    ensures r == Low <==> !o.usage.hasApprovals
  {
    if o.usage.hasApprovals && !o.usage.hasTransactions then High
    else if o.usage.hasApprovals then Medium
    else Low
  }

  /** An origin that only approvals name is high risk, and one that no approval names
      is low risk. */
  lemma OriginRiskFromLog(doc: Option<Value>, o: Origin)
    requires Truthy(Get(doc, "metamask"))
    requires o in Origins(doc)
    ensures var evs := Events(Get(doc, "metamask"));
              && (OriginRisk(o) == High <==> HasApproval(evs, o.url) && !HasTx(evs, o.url))
              && (OriginRisk(o) == Low <==> !HasApproval(evs, o.url))
  {
    OriginsRows(doc);
    var i :| 0 <= i < |Origins(doc)| && Origins(doc)[i] == o;
    OriginFlags(Get(doc, "metamask"), o.url);
  }

  /** The search box: an empty term keeps the rows; otherwise the rows whose URL
      contains the lower-cased term. */
  predicate UrlMatches(o: Origin, term: string)
  {
    StrIncludes(Some(o.url), term)
  }

  function FilterOrigins(origins: seq<Origin>, searchTerm: string): (r: seq<Origin>)
    ensures searchTerm == "" ==> r == origins
    ensures searchTerm != "" ==> IsSubsequence(r, origins)
    ensures searchTerm != "" ==> forall i | 0 <= i < |r| :: UrlMatches(r[i], Lower(searchTerm))
    ensures searchTerm != "" ==>
              forall x :: multiset(r)[x] == if UrlMatches(x, Lower(searchTerm)) then multiset(origins)[x] else 0
  {
    if searchTerm == "" then origins
    else
      FilterKeeps(origins, o => UrlMatches(o, Lower(searchTerm)));
      Filter(origins, o => UrlMatches(o, Lower(searchTerm)))
  }

  /** The aggregation loops of the viewer: transactions, then pending approvals,
      then visited hostnames, each use recorded in the map. */
  method AggregateOrigins(mm: Option<Value>) returns (index: seq<Origin>)
    ensures index == Apply([], Events(mm))
  {
    var txs := TxEvents(ArrayItems(Get(mm, "transactions")));
    var apps := ApprovalEvents(ObjectValues(Get(mm, "pendingApprovals")));
    var visits := VisitEvents(ArrayItems(Get(mm, "visitedDappsByHostname")));
    index := RecordTransactions([], ArrayItems(Get(mm, "transactions")));
    index := RecordApprovals(index, ObjectValues(Get(mm, "pendingApprovals")));
    ApplyAppend([], txs, apps);
    index := RecordVisits(index, ArrayItems(Get(mm, "visitedDappsByHostname")));
    ApplyAppend([], txs + apps, visits);
  }

  /** The loop over `metamask.transactions`. */
  method RecordTransactions(start: seq<Origin>, txs: seq<Value>) returns (index: seq<Origin>)
    ensures index == Apply(start, TxEvents(txs))
  {
    index := start;
    for i := 0 to |txs|
      invariant index == Apply(start, TxEvents(txs[..i]))
    {
      assert txs[..i + 1][..i] == txs[..i];
      var origin := Get(Some(txs[i]), "origin");
      var uses := if Truthy(origin) then [TxUse(origin.value, TxTime(txs[i]))] else [];
      ApplyAppend(start, TxEvents(txs[..i]), uses);
      if Truthy(origin) {
        assert uses[..0] == [];
        index := Record(index, TxUse(origin.value, TxTime(txs[i])));
      }
    }
    assert txs[..|txs|] == txs;
  }

  /** The loop over the values of `metamask.pendingApprovals`. */
  method RecordApprovals(start: seq<Origin>, approvals: seq<Value>) returns (index: seq<Origin>)
    ensures index == Apply(start, ApprovalEvents(approvals))
  {
    index := start;
    for i := 0 to |approvals|
      invariant index == Apply(start, ApprovalEvents(approvals[..i]))
    {
      assert approvals[..i + 1][..i] == approvals[..i];
      var origin := Get(Some(approvals[i]), "origin");
      var uses := if Truthy(origin) then [ApprovalUse(origin.value, ApprovalTime(approvals[i]))] else [];
      ApplyAppend(start, ApprovalEvents(approvals[..i]), uses);
      if Truthy(origin) {
        assert uses[..0] == [];
        index := Record(index, ApprovalUse(origin.value, ApprovalTime(approvals[i])));
      }
    }
    assert approvals[..|approvals|] == approvals;
  }

  /** The loop over `metamask.visitedDappsByHostname`. */
  method RecordVisits(start: seq<Origin>, hosts: seq<Value>) returns (index: seq<Origin>)
    ensures index == Apply(start, VisitEvents(hosts))
  {
    index := start;
    for i := 0 to |hosts|
      invariant index == Apply(start, VisitEvents(hosts[..i]))
    {
      assert hosts[..i + 1][..i] == hosts[..i];
      var uses := if Truthy(Some(hosts[i])) then [Visit(hosts[i])] else [];
      ApplyAppend(start, VisitEvents(hosts[..i]), uses);
      if Truthy(Some(hosts[i])) {
        assert uses[..0] == [];
        index := Record(index, Visit(hosts[i]));
      }
    }
    assert hosts[..|hosts|] == hosts;
  }

  /** Recording two runs of uses is recording their concatenation. */
  lemma {:induction false} ApplyAppend(index: seq<Origin>, a: seq<Event>, b: seq<Event>)
    ensures Apply(index, a + b) == Apply(Apply(index, a), b)
    decreases |b|
  {
    if b == [] {
      assert a + b == a;
    } else {
      ApplyAppend(index, a, b[..|b| - 1]);
      assert (a + b)[..|a + b| - 1] == a + b[..|b| - 1];
      assert (a + b)[|a + b| - 1] == b[|b| - 1];
    }
  }

  /** The origin rows computation of the viewer. */
  method ExtractOrigins(doc: Option<Value>) returns (origins: seq<Origin>)
    ensures origins == Origins(doc)
  {
    var mm := Get(doc, "metamask");
    if !Truthy(mm) {
      return [];
    }
    var index := AggregateOrigins(mm);
    origins := SortDesc(index, LastUsedKey);
  }
}
