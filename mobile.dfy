/** The mobile information card: a list of labelled values read from the top level
    of a mobile state log and from its engine's background state, of which the
    defined ones are shown. */
module MobileInfo {
  import opened Json
  import opened Lists

  /** One entry of the card: its id, caption, raw value and display type. */
  datatype Variable = Variable(id: string, caption: string, value: Option<Value>, kind: string)

  const BackgroundState := ["engine", "backgroundState"]

  /** `engine?.backgroundState?.<controller>`. */
  function Controller(doc: Option<Value>, name: string): Option<Value>
  {
    Path(doc, BackgroundState + [name])
  }

  /** `metamask?.visitedDappsByHostname?.join(', ') || 'None'`. */
  function VisitedDapps(doc: Option<Value>): (r: Value)
    ensures r.Str?
    ensures r != Str("None") ==>
              var v := Get(Get(doc, "metamask"), "visitedDappsByHostname");
              v.Some? && v.value.Arr? && r == Str(JoinValues(v.value.items, ", ")) && r.s != ""
    ensures var v := Get(Get(doc, "metamask"), "visitedDappsByHostname");
            v.Some? && v.value.Arr? && JoinValues(v.value.items, ", ") != "" ==>
              r == Str(JoinValues(v.value.items, ", "))
  {
    var v := Get(Get(doc, "metamask"), "visitedDappsByHostname");
    var joined := if v.Some? && v.value.Arr? then Some(Str(JoinValues(v.value.items, ", "))) else None;
    OrElse(joined, Str("None"))
  }

  /** The `origin` of the first entry of a transaction collection: element 0 of a
      non-empty array, or the value under the first key of anything else whose first
      key is non-empty; None when there is no such entry. */
  function FirstOrigin(txs: Option<Value>): (r: Option<Option<Value>>)
    ensures r.Some? ==> Truthy(txs)
    ensures txs.Some? && txs.value.Arr? && txs.value.items != [] ==>
              r == Some(Get(Some(txs.value.items[0]), "origin"))
    ensures txs.Some? && txs.value.Arr? && txs.value.items == [] ==> r.None?
    ensures txs.Some? && txs.value.Obj? && txs.value.members != [] && txs.value.members[0].0 != "" ==>
              r == Some(Get(Some(txs.value.members[0].1), "origin"))
    ensures txs.Some? && txs.value.Obj? && (txs.value.members == [] || txs.value.members[0].0 == "") ==>
              r.None?
  {
    if !Truthy(txs) then None
    else if txs.value.Arr? then
      if txs.value.items != [] then Some(Get(Some(txs.value.items[0]), "origin")) else None
    else
      var entries := Entries(txs);
      if entries != [] && entries[0].0 != "" then Some(Get(Some(entries[0].1), "origin")) else None
  }

  function MobileTransactions(doc: Option<Value>): Option<Value>
  {
    Get(Controller(doc, "TransactionController"), "transactions")
  }

  function DesktopTransactions(doc: Option<Value>): Option<Value>
  {
    Get(Get(doc, "metamask"), "transactions")
  }

  /** `getFirstTransactionOrigin`: the mobile transactions are consulted first, then
      the extension's. */
  function FirstTransactionOrigin(doc: Option<Value>): Option<Value>
  {
    var mobile := FirstOrigin(MobileTransactions(doc));
    var desktop := FirstOrigin(DesktopTransactions(doc));
    if mobile.Some? then mobile.value
    else if desktop.Some? then desktop.value
    else None
  }

  /** A non-empty mobile transaction array decides the origin, whatever the extension holds. */
  lemma MobileOriginFirst(doc: Option<Value>)
    requires MobileTransactions(doc).Some? && MobileTransactions(doc).value.Arr?
    requires MobileTransactions(doc).value.items != []
    ensures FirstTransactionOrigin(doc) == Get(Some(MobileTransactions(doc).value.items[0]), "origin")
  {
  }

  /** When the mobile collection yields no first transaction (it is falsy, an empty
      array, or an object without a non-empty first key, `{}` included), the
      extension's first transaction gives the origin: element 0 of a non-empty array,
      or the value under a non-empty first key; a falsy collection gives none. */
  lemma DesktopOriginFallback(doc: Option<Value>)
    requires FirstOrigin(MobileTransactions(doc)).None?
    ensures var txs := DesktopTransactions(doc);
            txs.Some? && txs.value.Arr? && txs.value.items != [] ==>
              FirstTransactionOrigin(doc) == Get(Some(txs.value.items[0]), "origin")
    ensures var txs := DesktopTransactions(doc);
            txs.Some? && txs.value.Obj? && txs.value.members != [] && txs.value.members[0].0 != "" ==>
              FirstTransactionOrigin(doc) == Get(Some(txs.value.members[0].1), "origin")
    ensures !Truthy(DesktopTransactions(doc)) ==> FirstTransactionOrigin(doc).None?
  {
  }

  /** A log with no transaction collection anywhere has no origin. */
  lemma NoTransactionsNoOrigin(doc: Option<Value>)
    requires !Truthy(MobileTransactions(doc)) && !Truthy(DesktopTransactions(doc))
    ensures FirstTransactionOrigin(doc).None?
  {
  }

  /** The five top-level boolean settings of the card, as (id, caption) pairs in order. */
  const BooleanSettings: seq<(string, string)> := [
    ("seedphraseBackedUp", "Seedphrase Backed Up"),
    ("automaticSecurityChecksEnabled", "Automatic Security Checks Enabled"),
    ("securityAlertsEnabled", "Security Alerts Enabled"),
    ("isProfileSyncingEnabled", "Profile Syncing Enabled"),
    ("hasAccountSyncingSyncedAtLeastOnce", "Account Syncing Has Synced At Least Once")
  ]

  /** The eight entries every log gets, before undefined values are dropped. */
  function BaseVariables(doc: Option<Value>): (r: seq<Variable>)
    ensures |r| == 8
    ensures r[0] == Variable("submittedTime", "Submitted Time", Get(doc, "submittedTime"), "date")
    ensures r[1] == Variable("visitedDappsByHostname", "Visited Dapps", Some(VisitedDapps(doc)), "string")
    ensures r[2] == Variable("origin", "TX Origin", FirstTransactionOrigin(doc), "site")
    ensures forall i | 3 <= i < 8 ::
              && r[i].id == BooleanSettings[i - 3].0 && r[i].caption == BooleanSettings[i - 3].1
              && r[i].kind == "boolean" && r[i].value == Get(doc, r[i].id)
  {
    [ Variable("submittedTime", "Submitted Time", Get(doc, "submittedTime"), "date"),
      Variable("visitedDappsByHostname", "Visited Dapps", Some(VisitedDapps(doc)), "string"),
      Variable("origin", "TX Origin", FirstTransactionOrigin(doc), "site") ]
    + seq(|BooleanSettings|, i requires 0 <= i < |BooleanSettings| =>
        Variable(BooleanSettings[i].0, BooleanSettings[i].1, Get(doc, BooleanSettings[i].0), "boolean"))
  }

  /** A value is shown when it is not `undefined`. */
  predicate Defined(v: Variable) { v.value.Some? }

  /** The network type, chain id and network name entries of a network controller. */
  function NetworkType(network: Option<Value>): Variable
  {
    Variable("networkType", "Network Type", Get(network, "network"), "string")
  }

  function ChainId(network: Option<Value>): Variable
  {
    Variable("chainId", "Chain ID", Get(Get(network, "provider"), "chainId"), "string")
  }

  function NetworkName(network: Option<Value>): Variable
  {
    Variable("networkName", "Network Name", Get(Get(network, "provider"), "nickname"), "string")
  }

  /** The network entries: each present exactly when its field is truthy, in the
      order type, chain id, name. */
  function NetworkVariables(network: Option<Value>): (r: seq<Variable>)
    ensures |r| <= 3
    ensures forall i | 0 <= i < |r| :: Truthy(r[i].value)
  {
    var provider := Get(network, "provider");
    (if Truthy(Get(network, "network")) then [Variable("networkType", "Network Type", Get(network, "network"), "string")] else [])
    + (if Truthy(Get(provider, "chainId")) then [Variable("chainId", "Chain ID", Get(provider, "chainId"), "string")] else [])
    + (if Truthy(Get(provider, "nickname")) then [Variable("networkName", "Network Name", Get(provider, "nickname"), "string")] else [])
  }

  /** The entry a boolean feature flag contributes. */
  function FlagVariable(key: string, on: bool): (r: Variable)
    ensures r.value == Some(Bool(on)) && r.kind == "boolean"
    ensures r.id == "featureFlag_" + key && r.caption == "Feature Flag: " + key
  {
    Variable("featureFlag_" + key, "Feature Flag: " + key, Some(Bool(on)), "boolean")
  }

  /** One entry per boolean-valued flag, in the flags' order; other values are skipped. */
  function FlagVariables(flags: seq<(string, Value)>): (r: seq<Variable>)
    ensures |r| <= |flags|
    ensures forall i | 0 <= i < |r| :: r[i].kind == "boolean" && r[i].value.Some? && r[i].value.value.Bool?
    decreases |flags|
  {
    if flags == [] then []
    else
      var last := flags[|flags| - 1];
      FlagVariables(flags[..|flags| - 1]) + (if last.1.Bool? then [FlagVariable(last.0, last.1.b)] else [])
  }

  /** Every boolean flag is listed, and every listed entry is a boolean flag. */
  lemma {:induction false} FlagVariablesComplete(flags: seq<(string, Value)>, key: string, on: bool)
    ensures FlagVariable(key, on) in FlagVariables(flags) <==> (key, Bool(on)) in flags
    decreases |flags|
  {
    if flags != [] {
      var init := flags[..|flags| - 1];
      FlagVariablesComplete(init, key, on);
      assert flags == init + [flags[|flags| - 1]];
      var last := flags[|flags| - 1];
      if last.1.Bool? && FlagVariable(last.0, last.1.b) == FlagVariable(key, on) {
        assert "featureFlag_" + last.0 == "featureFlag_" + key;
        assert last.0 == ("featureFlag_" + last.0)[12..];
      }
    }
  }

  /** `Object.keys(x).length` for the account count; an array's length or its key
      count for the transaction count. */
  function CountVariable(id: string, caption: string, collection: Option<Value>): (r: Variable)
    ensures r.value == Some(Num(|Entries(collection)|)) && r.kind == "number"
  {
    Variable(id, caption, Some(Num(|Entries(collection)|)), "number")
  }

  function NetworkPart(doc: Option<Value>): seq<Variable>
  {
    var network := Controller(doc, "NetworkController");
    if Truthy(network) then NetworkVariables(network) else []
  }

  function FlagPart(doc: Option<Value>): seq<Variable>
  {
    var flags := Get(Controller(doc, "PreferencesController"), "featureFlags");
    if Truthy(flags) then FlagVariables(Entries(flags)) else []
  }

  function AccountPart(doc: Option<Value>): seq<Variable>
  {
    var accounts := Get(Controller(doc, "AccountTrackerController"), "accounts");
    if Truthy(accounts) then [CountVariable("accountCount", "Number of Accounts", accounts)] else []
  }

  function TransactionPart(doc: Option<Value>): seq<Variable>
  {
    var txs := Get(Controller(doc, "TransactionController"), "transactions");
    if Truthy(txs) then [CountVariable("transactionCount", "Number of Transactions", txs)] else []
  }

  /** An entry is a network entry exactly when it is the type, chain id or name
      entry and its field is truthy. */
  lemma NetworkVariablesMembers(network: Option<Value>, x: Variable)
    ensures x in NetworkVariables(network) <==>
              || (x == NetworkType(network) && Truthy(Get(network, "network")))
              || (x == ChainId(network) && Truthy(Get(Get(network, "provider"), "chainId")))
              || (x == NetworkName(network) && Truthy(Get(Get(network, "provider"), "nickname")))
  {
    var t := if Truthy(Get(network, "network")) then [NetworkType(network)] else [];
    var c := if Truthy(Get(Get(network, "provider"), "chainId")) then [ChainId(network)] else [];
    var n := if Truthy(Get(Get(network, "provider"), "nickname")) then [NetworkName(network)] else [];
    assert NetworkVariables(network) == t + c + n;
    assert x in t + c + n <==> x in t || x in c || x in n;
  }

  /** The entries read from the mobile engine, present only when it is: network
      details, boolean feature flags, then the account and transaction counts. */
  function EngineVariables(doc: Option<Value>): seq<Variable>
  {
    if !Truthy(Path(doc, BackgroundState)) then []
    else NetworkPart(doc) + FlagPart(doc) + AccountPart(doc) + TransactionPart(doc)
  }

  /** The entries the card shows: nothing for a falsy log, else the defined ones. */
  function MobileVariables(doc: Option<Value>): (r: seq<Variable>)
    ensures !Truthy(doc) ==> r == []
    ensures forall i | 0 <= i < |r| :: Defined(r[i])
  {
    if !Truthy(doc) then [] else Filter(BaseVariables(doc) + EngineVariables(doc), Defined)
  }

  predicate AllDefined(s: seq<Variable>) { forall i | 0 <= i < |s| :: Defined(s[i]) }

  lemma AllDefinedAppend(a: seq<Variable>, b: seq<Variable>)
    requires AllDefined(a) && AllDefined(b)
    ensures AllDefined(a + b)
  {
    forall i | 0 <= i < |a + b| ensures Defined((a + b)[i]) {
      if i >= |a| {
        assert (a + b)[i] == b[i - |a|];
      }
    }
  }

  /** Every engine entry is defined, so only base entries are ever dropped. */
  lemma EngineVariablesDefined(doc: Option<Value>)
    ensures forall i | 0 <= i < |EngineVariables(doc)| :: Defined(EngineVariables(doc)[i])
  {
    if Truthy(Path(doc, BackgroundState)) {
      var n, f, a, t := NetworkPart(doc), FlagPart(doc), AccountPart(doc), TransactionPart(doc);
      assert AllDefined(n);
      assert AllDefined(f);
      AllDefinedAppend(n, f);
      AllDefinedAppend(n + f, a);
      AllDefinedAppend(n + f + a, t);
      assert AllDefined(EngineVariables(doc));
    }
  }

  lemma {:induction false} FilterAllPass<T>(s: seq<T>, p: T -> bool)
    requires forall i | 0 <= i < |s| :: p(s[i])
    ensures Filter(s, p) == s
  {
    if s != [] {
      FilterAllPass(s[1..], p);
    }
  }

  lemma {:induction false} FilterNonePass<T>(s: seq<T>, p: T -> bool)
    requires forall i | 0 <= i < |s| :: !p(s[i])
    ensures Filter(s, p) == []
  {
    if s != [] {
      FilterNonePass(s[1..], p);
    }
  }

  /** The card lists the defined base entries in order, then every engine entry. */
  lemma MobileVariablesSplit(doc: Option<Value>)
    requires Truthy(doc)
    ensures MobileVariables(doc) == Filter(BaseVariables(doc), Defined) + EngineVariables(doc)
  {
    FilterAppend(BaseVariables(doc), EngineVariables(doc), Defined);
    EngineVariablesDefined(doc);
    FilterAllPass(EngineVariables(doc), Defined);
  }

  /** The visited-dapps entry is always shown for a log. */
  lemma VisitedDappsShown(doc: Option<Value>)
    requires Truthy(doc)
    ensures Variable("visitedDappsByHostname", "Visited Dapps", Some(VisitedDapps(doc)), "string")
              in MobileVariables(doc)
  {
    var s := BaseVariables(doc) + EngineVariables(doc);
    FilterKeeps(s, Defined);
    assert s[1] in multiset(s);
  }

  /** In a mobile log every boolean feature flag is shown under its own id. */
  lemma FeatureFlagShown(doc: Option<Value>, key: string, on: bool)
    requires Truthy(doc) && Truthy(Path(doc, BackgroundState))
    requires (key, Bool(on)) in Entries(Get(Controller(doc, "PreferencesController"), "featureFlags"))
    ensures FlagVariable(key, on) in MobileVariables(doc)
  {
    var flags := Get(Controller(doc, "PreferencesController"), "featureFlags");
    FlagVariablesComplete(Entries(flags), key, on);
    MobileVariablesSplit(doc);
    assert FlagVariable(key, on) in FlagPart(doc);
  }

  /** In a mobile log with an accounts record, the number of its keys is shown. */
  lemma AccountCountShown(doc: Option<Value>)
    requires Truthy(doc) && Truthy(Path(doc, BackgroundState))
    requires Truthy(Get(Controller(doc, "AccountTrackerController"), "accounts"))
    ensures var accounts := Get(Controller(doc, "AccountTrackerController"), "accounts");
            Variable("accountCount", "Number of Accounts", Some(Num(|Entries(accounts)|)), "number")
              in MobileVariables(doc)
  {
    MobileVariablesSplit(doc);
    assert AccountPart(doc)[0] in EngineVariables(doc);
  }

  /** In a mobile log with a network controller, each network entry is shown exactly
      when its field is truthy. */
  lemma NetworkRowsShown(doc: Option<Value>)
    requires Truthy(doc) && Truthy(Path(doc, BackgroundState))
    requires Truthy(Controller(doc, "NetworkController"))
    ensures var network := Controller(doc, "NetworkController");
            && (NetworkType(network) in NetworkPart(doc) <==> Truthy(Get(network, "network")))
            && (ChainId(network) in NetworkPart(doc) <==> Truthy(Get(Get(network, "provider"), "chainId")))
            && (NetworkName(network) in NetworkPart(doc) <==> Truthy(Get(Get(network, "provider"), "nickname")))
            && (Truthy(Get(network, "network")) ==> NetworkType(network) in MobileVariables(doc))
            && (Truthy(Get(Get(network, "provider"), "chainId")) ==> ChainId(network) in MobileVariables(doc))
            && (Truthy(Get(Get(network, "provider"), "nickname")) ==> NetworkName(network) in MobileVariables(doc))
  {
    var network := Controller(doc, "NetworkController");
    NetworkVariablesMembers(network, NetworkType(network));
    NetworkVariablesMembers(network, ChainId(network));
    NetworkVariablesMembers(network, NetworkName(network));
    if Truthy(Get(network, "network")) {
      NetworkPartShown(doc, NetworkType(network));
    }
    if Truthy(Get(Get(network, "provider"), "chainId")) {
      NetworkPartShown(doc, ChainId(network));
    }
    if Truthy(Get(Get(network, "provider"), "nickname")) {
      NetworkPartShown(doc, NetworkName(network));
    }
  }

  /** Every network entry of a mobile log is shown. */
  lemma NetworkPartShown(doc: Option<Value>, x: Variable)
    requires Truthy(doc) && Truthy(Path(doc, BackgroundState))
    requires x in NetworkPart(doc)
    ensures x in MobileVariables(doc)
  {
    MobileVariablesSplit(doc);
    var n, f, a, t := NetworkPart(doc), FlagPart(doc), AccountPart(doc), TransactionPart(doc);
    InPrefix(n, f, x);
    InPrefix(n + f, a, x);
    InPrefix(n + f + a, t, x);
    InSuffix(Filter(BaseVariables(doc), Defined), EngineVariables(doc), x);
  }

  lemma InPrefix<T>(a: seq<T>, b: seq<T>, x: T)
    requires x in a
    ensures x in a + b
  {
    var i :| 0 <= i < |a| && a[i] == x;
    assert (a + b)[i] == x;
  }

  lemma InSuffix<T>(a: seq<T>, b: seq<T>, x: T)
    requires x in b
    ensures x in a + b
  {
    var i :| 0 <= i < |b| && b[i] == x;
    assert (a + b)[|a| + i] == x;
  }

  /** In a mobile log with a transaction collection, its size is shown: an array's
      length or an object's key count. */
  lemma TransactionCountShown(doc: Option<Value>)
    requires Truthy(doc) && Truthy(Path(doc, BackgroundState))
    requires Truthy(Get(Controller(doc, "TransactionController"), "transactions"))
    ensures var txs := Get(Controller(doc, "TransactionController"), "transactions");
            Variable("transactionCount", "Number of Transactions", Some(Num(|Entries(txs)|)), "number")
              in MobileVariables(doc)
  {
    MobileVariablesSplit(doc);
    assert TransactionPart(doc)[0] in EngineVariables(doc);
  }

  /** `formatValue`: undefined and null read "Not available"; booleans by truthiness,
      dates through the locale's rendering, anything else as `String(value)`. */
  function FormatValue(v: Variable, dateString: string -> string): (r: string)
    ensures v.value.None? || v.value == Some(Null) ==> r == "Not available"
    ensures v.kind == "boolean" && v.value.Some? && !v.value.value.Null? ==>
              (r == "Yes" <==> Truthy(v.value)) && (r == "No" <==> !Truthy(v.value))
    ensures v.kind != "boolean" && v.kind != "date" && v.value.Some? && !v.value.value.Null? ==>
              r == JsString(v.value.value)
  {
    if v.value.None? || v.value == Some(Null) then "Not available"
    else if v.kind == "boolean" then (if Truthy(v.value) then "Yes" else "No")
    else if v.kind == "date" then dateString(JsString(v.value.value))
    else JsString(v.value.value)
  }

  /** `isMobileStateLog`: three or more entries, or an engine background state. */
  predicate IsMobileStateLog(doc: Option<Value>)
  {
    |MobileVariables(doc)| >= 3 || Truthy(Path(doc, BackgroundState))
  }

  /** A log with an engine background state is always taken for a mobile log. */
  lemma EngineMeansMobile(doc: Option<Value>)
    requires Truthy(Path(doc, BackgroundState))
    ensures IsMobileStateLog(doc)
  {
  }

  /** The empty log has no engine entries and no transaction origin. */
  lemma EmptyLogNoEngine()
    ensures EngineVariables(Some(Obj([]))) == []
    ensures FirstTransactionOrigin(Some(Obj([]))).None?
  {
    var doc := Some(Obj([]));
    PathOfNone(BackgroundState[1..]);
    PathOfNone((BackgroundState + ["TransactionController"])[1..]);
    NoTransactionsNoOrigin(doc);
  }

  /** Of the empty log's base entries only "Visited Dapps: None" is defined. */
  lemma EmptyLogBase()
    ensures Filter(BaseVariables(Some(Obj([]))), Defined) ==
              [Variable("visitedDappsByHostname", "Visited Dapps", Some(Str("None")), "string")]
  {
    var doc := Some(Obj([]));
    var base := BaseVariables(doc);
    EmptyLogNoEngine();
    assert !Defined(base[0]) && Defined(base[1]);
    FilterNonePass(base[2..], Defined);
    assert base[1..][1..] == base[2..];
  }

  /** The empty log shows only "Visited Dapps: None" and is not taken for a mobile log. */
  lemma EmptyLogMobileInfo()
    ensures MobileVariables(Some(Obj([]))) ==
              [Variable("visitedDappsByHostname", "Visited Dapps", Some(Str("None")), "string")]
    ensures !IsMobileStateLog(Some(Obj([])))
  {
    var doc := Some(Obj([]));
    EmptyLogNoEngine();
    EmptyLogBase();
    PathOfNone(BackgroundState[1..]);
    assert BaseVariables(doc) + EngineVariables(doc) == BaseVariables(doc);
  }

  /** The card's list as the viewer builds it: the base entries, then the engine
      entries pushed one condition at a time, the flags in a loop, and the final
      filter that drops undefined values. */
  method CollectMobileVariables(doc: Option<Value>) returns (shown: seq<Variable>)
    ensures shown == MobileVariables(doc)
  {
    if !Truthy(doc) {
      return [];
    }
    var variables := BaseVariables(doc);
    var pushed := CollectEngineVariables(doc);
    variables := variables + pushed;
    shown := Filter(variables, Defined);
  }

  /** The entries pushed when the log has an engine background state. */
  method CollectEngineVariables(doc: Option<Value>) returns (pushed: seq<Variable>)
    ensures pushed == EngineVariables(doc)
  {
    pushed := [];
    if !Truthy(Path(doc, BackgroundState)) {
      return;
    }
    var network := Controller(doc, "NetworkController");
    if Truthy(network) {
      pushed := pushed + NetworkVariables(network);
    }
    assert pushed == NetworkPart(doc);
    var flags := Get(Controller(doc, "PreferencesController"), "featureFlags");
    if Truthy(flags) {
      pushed := PushFlags(pushed, Entries(flags));
    }
    assert pushed == NetworkPart(doc) + FlagPart(doc);
    var accounts := Get(Controller(doc, "AccountTrackerController"), "accounts");
    if Truthy(accounts) {
      pushed := pushed + [CountVariable("accountCount", "Number of Accounts", accounts)];
    }
    assert pushed == NetworkPart(doc) + FlagPart(doc) + AccountPart(doc);
    var txs := Get(Controller(doc, "TransactionController"), "transactions");
    if Truthy(txs) {
      pushed := pushed + [CountVariable("transactionCount", "Number of Transactions", txs)];
    }
  }

  /** The `for` loop over the feature flags: pushes one entry per boolean flag. */
  method PushFlags(variables: seq<Variable>, flags: seq<(string, Value)>) returns (r: seq<Variable>)
    ensures r == variables + FlagVariables(flags)
  {
    r := variables;
    for i := 0 to |flags|
      invariant r == variables + FlagVariables(flags[..i])
    {
      assert flags[..i + 1][..i] == flags[..i];
      var (key, value) := flags[i];
      if value.Bool? {
        r := r + [FlagVariable(key, value.b)];
      }
    }
    assert flags[..|flags|] == flags;
  }
}
