/** The accounts viewer's normalisation: the extension's accounts, named from its
    identities, followed by the mobile app's accounts that the extension does not
    already list under any letter case. */
module AccountsList {
  import opened Text
  import opened Json
  import opened Lists

  /** One row of the accounts table; the name and balance keep the logged value. */
  datatype Account = Account(address: string, name: Option<Value>, balance: Option<Value>)

  const MobileAccountsPath := ["engine", "backgroundState", "AccountTrackerController", "accounts"]
  const MobileIdentitiesPath := ["engine", "backgroundState", "PreferencesController", "identities"]

  /** The name shown for an address: `identities[address].name` when the identity
      entry is truthy (even if it has no name), else the address itself. */
  function NameOf(identities: Option<Value>, address: string): (r: Option<Value>)
    ensures !Truthy(Get(identities, address)) ==> r == Some(Str(address))
    ensures Truthy(Get(identities, address)) ==> r == Get(Get(identities, address), "name")
  {
    var identity := Get(identities, address);
    if Truthy(identity) then Get(identity, "name") else Some(Str(address))
  }

  /** The loop over the extension's accounts: every entry, its value as the balance. */
  function ExtensionRows(entries: seq<(string, Value)>, identities: Option<Value>): (r: seq<Account>)
    ensures |r| == |entries|
    ensures forall i | 0 <= i < |r| ::
              r[i] == Account(entries[i].0, NameOf(identities, entries[i].0), Some(entries[i].1))
    decreases |entries|
  {
    if entries == [] then []
    else
      var (address, value) := entries[|entries| - 1];
      ExtensionRows(entries[..|entries| - 1], identities) + [Account(address, NameOf(identities, address), Some(value))]
  }

  /** The extension's accounts, when `metamask.accounts` is a truthy object or array. */
  function ExtensionAccounts(mm: Option<Value>): seq<Account>
  {
    var accounts := Get(mm, "accounts");
    if IsContainer(accounts) then ExtensionRows(Entries(accounts), Get(mm, "identities")) else []
  }

  /** The address compared case-insensitively. */
  function AddressKey(a: Account): string
  {
    Lower(a.address)
  }

  /** `list.some(acct => acct.address.toLowerCase() === address.toLowerCase())`. */
  predicate AddressTaken(list: seq<Account>, address: string)
  {
    exists k | 0 <= k < |list| :: AddressKey(list[k]) == Lower(address)
  }

  /** The row added for one mobile account entry, with `accountInfo.balance` as its balance. */
  function MobileRow(entry: (string, Value), identities: Option<Value>): (r: Account)
    ensures r.address == entry.0 && r.balance == Get(Some(entry.1), "balance")
  {
    Account(entry.0, NameOf(identities, entry.0), Get(Some(entry.1), "balance"))
  }

  /** The loop over the mobile accounts: each is appended, with `accountInfo.balance`
      as its balance, unless its address is already listed under any case. */
  function MobileRows(list: seq<Account>, entries: seq<(string, Value)>, identities: Option<Value>): seq<Account>
    decreases |entries|
  {
    if entries == [] then list
    else
      var acc := MobileRows(list, entries[..|entries| - 1], identities);
      var (address, info) := entries[|entries| - 1];
      if AddressTaken(acc, address) then acc
      else acc + [MobileRow((address, info), identities)]
  }

  /** One step of the merge: entry `i` is appended, as its own row, exactly when its
      address is not yet listed under any case after the entries before it. */
  lemma MobileRowsStep(list: seq<Account>, entries: seq<(string, Value)>, identities: Option<Value>, i: nat)
    requires i < |entries|
    ensures var before := MobileRows(list, entries[..i], identities);
            MobileRows(list, entries[..i + 1], identities)
              == if AddressTaken(before, entries[i].0) then before
                 else before + [Account(entries[i].0, NameOf(identities, entries[i].0), Get(Some(entries[i].1), "balance"))]
  {
    assert entries[..i + 1][..i] == entries[..i];
  }

  /** The accounts shown for a state log. */
  function Accounts(doc: Option<Value>): (r: seq<Account>)
    ensures !Truthy(doc) ==> r == []
  {
    if !Truthy(doc) then []
    else MobileRows(ExtensionAccounts(Get(doc, "metamask")),
                    Entries(Path(doc, MobileAccountsPath)),
                    Path(doc, MobileIdentitiesPath))
  }

  /** Extension accounts come first and are all kept; every mobile address then
      appears, added or already present up to case, and at most one row per mobile entry is added. */
  lemma AccountsLayout(doc: Option<Value>)
    requires Truthy(doc)
    ensures var ext := ExtensionAccounts(Get(doc, "metamask"));
            var mobile := Entries(Path(doc, MobileAccountsPath));
            var r := Accounts(doc);
              && |ext| <= |r| <= |ext| + |mobile|
              && r[..|ext|] == ext
              && forall i | 0 <= i < |mobile| :: AddressTaken(r, mobile[i].0)
  {
    var ext := ExtensionAccounts(Get(doc, "metamask"));
    var mobile := Entries(Path(doc, MobileAccountsPath));
    MobileRowsExtends(ext, mobile, Path(doc, MobileIdentitiesPath));
    MobileRowsCover(ext, mobile, Path(doc, MobileIdentitiesPath));
  }

  /** An empty or absent log has no accounts. */
  lemma AccountsOfEmptyLog()
    ensures Accounts(None) == []
    ensures Accounts(Some(Null)) == []
    ensures Accounts(Some(Obj([]))) == []
  {
  }

  lemma {:induction false} AddressTakenGrows(a: seq<Account>, b: seq<Account>, address: string)
    requires AddressTaken(a, address)
    ensures AddressTaken(a + b, address)
  {
    var k :| 0 <= k < |a| && AddressKey(a[k]) == Lower(address);
    assert (a + b)[k] == a[k];
  }

  /** The mobile merge keeps the list before it as a prefix and adds at most one row
      per mobile entry, each for one of the mobile addresses. */
  lemma {:induction false} MobileRowsExtends(list: seq<Account>, entries: seq<(string, Value)>, identities: Option<Value>)
    ensures var r := MobileRows(list, entries, identities);
              && |list| <= |r| <= |list| + |entries|
              && r[..|list|] == list
              && forall j | |list| <= j < |r| :: exists i :: 0 <= i < |entries| && r[j].address == entries[i].0
    decreases |entries|
  {
    if entries != [] {
      var init := entries[..|entries| - 1];
      MobileRowsExtends(list, init, identities);
      var acc := MobileRows(list, init, identities);
      var r := MobileRows(list, entries, identities);
      forall j | |list| <= j < |r| ensures exists i :: 0 <= i < |entries| && r[j].address == entries[i].0 {
        if j < |acc| {
          var i: nat :| i < |init| && acc[j].address == init[i].0;
          assert entries[i] == init[i];
        } else {
          assert r[j].address == entries[|entries| - 1].0;
        }
      }
    }
  }

  /** After the merge every mobile address is listed under some case. */
  lemma {:induction false} MobileRowsCover(list: seq<Account>, entries: seq<(string, Value)>, identities: Option<Value>)
    ensures forall i | 0 <= i < |entries| :: AddressTaken(MobileRows(list, entries, identities), entries[i].0)
    decreases |entries|
  {
    if entries != [] {
      var init := entries[..|entries| - 1];
      MobileRowsCover(list, init, identities);
      var acc := MobileRows(list, init, identities);
      var r := MobileRows(list, entries, identities);
      var (address, info) := entries[|entries| - 1];
      assert r == acc + r[|acc|..];
      forall i | 0 <= i < |entries| ensures AddressTaken(r, entries[i].0) {
        if i < |init| {
          assert entries[i] == init[i];
          AddressTakenGrows(acc, r[|acc|..], entries[i].0);
        } else if !AddressTaken(acc, address) {
          assert AddressKey(r[|acc|]) == Lower(address);
        }
      }
    }
  }

  /** Entry `i` is the first mobile entry with its address under case folding. */
  predicate FirstSpelling(entries: seq<(string, Value)>, i: nat)
    requires i < |entries|
  {
    forall k | 0 <= k < i :: Lower(entries[k].0) != Lower(entries[i].0)
  }

  /** Entry `i` is a mobile account the merge appends as its own row. */
  predicate AppendedEntry(list: seq<Account>, entries: seq<(string, Value)>, i: nat)
    requires i < |entries|
  {
    !AddressTaken(list, entries[i].0) && FirstSpelling(entries, i)
  }

  /** `row` is the row of a mobile entry the merge appends. */
  predicate AppendedRow(row: Account, list: seq<Account>, entries: seq<(string, Value)>, identities: Option<Value>)
  {
    exists i: nat :: i < |entries| && row == MobileRow(entries[i], identities) && AppendedEntry(list, entries, i)
  }

  /** Every row the merge appends is the row of a mobile entry whose address the
      list before the merge does not hold and that is the first mobile entry with
      that address under case folding: the first spelling of an address wins. */
  lemma {:induction false} MobileRowsAppended(list: seq<Account>, entries: seq<(string, Value)>, identities: Option<Value>)
    ensures forall j | |list| <= j < |MobileRows(list, entries, identities)| ::
              AppendedRow(MobileRows(list, entries, identities)[j], list, entries, identities)
    decreases |entries|
  {
    if entries != [] {
      var init := entries[..|entries| - 1];
      MobileRowsAppended(list, init, identities);
      var acc := MobileRows(list, init, identities);
      var r := MobileRows(list, entries, identities);
      forall j | |list| <= j < |r| ensures AppendedRow(r[j], list, entries, identities) {
        if j < |acc| {
          assert AppendedRow(acc[j], list, init, identities);
          var i: nat :| i < |init| && acc[j] == MobileRow(init[i], identities) && AppendedEntry(list, init, i);
          AppendedEntryInPrefix(list, entries, i);
          assert r[j] == acc[j];
          assert entries[i] == init[i];
        } else {
          LastEntryAppended(list, entries, identities);
          assert r[j] == MobileRow(entries[|entries| - 1], identities);
        }
      }
    } else {
      assert MobileRows(list, entries, identities) == list;
    }
  }

  /** An entry appended by the merge of a prefix keeps that standing in the whole. */
  lemma AppendedEntryInPrefix(list: seq<Account>, entries: seq<(string, Value)>, i: nat)
    requires 0 < |entries| && i < |entries| - 1
    requires AppendedEntry(list, entries[..|entries| - 1], i)
    ensures AppendedEntry(list, entries, i)
  {
    var init := entries[..|entries| - 1];
    assert entries[i] == init[i];
    forall k | 0 <= k < i ensures Lower(entries[k].0) != Lower(entries[i].0) {
      assert entries[k] == init[k];
    }
  }

  /** When the last entry's address is new, the last entry is appended as its own row. */
  lemma LastEntryAppended(list: seq<Account>, entries: seq<(string, Value)>, identities: Option<Value>)
    requires 0 < |entries|
    requires !AddressTaken(MobileRows(list, entries[..|entries| - 1], identities), entries[|entries| - 1].0)
    ensures AppendedEntry(list, entries, |entries| - 1)
  {
    var init := entries[..|entries| - 1];
    var last := |entries| - 1;
    var acc := MobileRows(list, init, identities);
    MobileRowsExtends(list, init, identities);
    MobileRowsCover(list, init, identities);
    NotTakenInPrefix(acc, |list|, entries[last].0);
    forall k | 0 <= k < last ensures Lower(entries[k].0) != Lower(entries[last].0) {
      assert entries[k] == init[k];
      assert AddressTaken(acc, init[k].0);
    }
  }

  /** An address missing from a list is missing from each of its prefixes. */
  lemma NotTakenInPrefix(a: seq<Account>, n: nat, address: string)
    requires n <= |a| && !AddressTaken(a, address)
    ensures !AddressTaken(a[..n], address)
  {
    forall k | 0 <= k < n ensures AddressKey(a[..n][k]) != Lower(address) {
      assert a[..n][k] == a[k];
    }
  }

  /** A row the merge appends never repeats, under any case, an address listed before it. */
  lemma {:induction false} MobileRowsFresh(list: seq<Account>, entries: seq<(string, Value)>, identities: Option<Value>)
    ensures var r := MobileRows(list, entries, identities);
              forall j | |list| <= j < |r| :: !AddressTaken(r[..j], r[j].address)
    decreases |entries|
  {
    if entries != [] {
      var init := entries[..|entries| - 1];
      MobileRowsFresh(list, init, identities);
      MobileRowsExtends(list, init, identities);
      var acc := MobileRows(list, init, identities);
      var r := MobileRows(list, entries, identities);
      forall j | |list| <= j < |r| ensures !AddressTaken(r[..j], r[j].address) {
        if j < |acc| {
          assert r[..j] == acc[..j];
          assert r[j] == acc[j];
        } else {
          assert r[..j] == acc;
        }
      }
    }
  }

  /** Consequently, when the extension's addresses are distinct under case folding,
      so are all the addresses shown. */
  lemma MobileRowsDistinct(list: seq<Account>, entries: seq<(string, Value)>, identities: Option<Value>)
    requires DistinctBy(list, AddressKey)
    ensures DistinctBy(MobileRows(list, entries, identities), AddressKey)
  {
    var r := MobileRows(list, entries, identities);
    MobileRowsExtends(list, entries, identities);
    MobileRowsFresh(list, entries, identities);
    forall i, j | 0 <= i < j < |r| ensures AddressKey(r[i]) != AddressKey(r[j]) {
      if j < |list| {
        assert r[i] == list[i] && r[j] == list[j];
      } else {
        assert r[..j][i] == r[i];
      }
    }
  }

  /** `accountsList.some(...)` over the rows so far, scanning until a match. */
  method SomeHasAddress(list: seq<Account>, address: string) returns (found: bool)
    ensures found <==> AddressTaken(list, address)
  {
    found := false;
    var key := Lower(address);
    var i := 0;
    while i < |list| && !found
      invariant 0 <= i <= |list|
      invariant found <==> exists k | 0 <= k < i :: AddressKey(list[k]) == key
    {
      found := Lower(list[i].address) == key;
      i := i + 1;
    }
  }

  /** The accounts computation of the viewer. */
  method ExtractAccounts(doc: Option<Value>) returns (accounts: seq<Account>)
    ensures accounts == Accounts(doc)
  {
    if !Truthy(doc) {
      return [];
    }
    var mm := Get(doc, "metamask");
    accounts := [];
    var extension := Get(mm, "accounts");
    if IsContainer(extension) {
      var entries := Entries(extension);
      var identities := Get(mm, "identities");
      for i := 0 to |entries|
        invariant accounts == ExtensionRows(entries[..i], identities)
      {
        assert entries[..i + 1][..i] == entries[..i];
        var (address, value) := entries[i];
        accounts := accounts + [Account(address, NameOf(identities, address), Some(value))];
      }
      assert entries[..|entries|] == entries;
    }
    assert accounts == ExtensionAccounts(mm);
    accounts := AppendMobile(accounts, Entries(Path(doc, MobileAccountsPath)), Path(doc, MobileIdentitiesPath));
  }

  /** The loop over the mobile accounts. */
  method AppendMobile(list: seq<Account>, entries: seq<(string, Value)>, identities: Option<Value>) returns (accounts: seq<Account>)
    ensures accounts == MobileRows(list, entries, identities)
  {
    accounts := list;
    for i := 0 to |entries|
      invariant accounts == MobileRows(list, entries[..i], identities)
    {
      assert entries[..i + 1][..i] == entries[..i];
      var (address, info) := entries[i];
      var taken := SomeHasAddress(accounts, address);
      if !taken {
        accounts := accounts + [MobileRow((address, info), identities)];
      }
    }
    assert entries[..|entries|] == entries;
  }
}
