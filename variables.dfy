/** The variable viewer: a fixed table of nine settings, each looked up along a
    prioritised chain of places in the log, with per-setting fallbacks, and
    formatted for display. */
module VariableViewer {
  import opened Text
  import opened Json
  import opened Utils

  /** One table row. */
  datatype Row = Row(id: string, caption: string, value: string)

  const NotAvailable := "Not available"
  const BackgroundState := ["engine", "backgroundState"]

  /** `engine.backgroundState.<controller>`. */
  function Controller(doc: Option<Value>, name: string): Option<Value>
  {
    Path(doc, BackgroundState + [name])
  }

  /** The first defined value among the log's top level, the mobile preferences
      controller, the mobile background state and the `metamask` section. */
  function Probe(doc: Option<Value>, key: string): (r: Option<Value>)
    ensures Get(doc, key).Some? ==> r == Get(doc, key)
    ensures Get(doc, key).None? && Get(Controller(doc, "PreferencesController"), key).Some? ==>
              r == Get(Controller(doc, "PreferencesController"), key)
    ensures (Get(doc, key).None? && Get(Controller(doc, "PreferencesController"), key).None? &&
             Get(Path(doc, BackgroundState), key).Some?) ==> r == Get(Path(doc, BackgroundState), key)
    ensures (Get(doc, key).None? && Get(Controller(doc, "PreferencesController"), key).None? &&
             Get(Path(doc, BackgroundState), key).None?) ==> r == Get(Get(doc, "metamask"), key)
    ensures r.None? <==>
              Get(doc, key).None? && Get(Controller(doc, "PreferencesController"), key).None? &&
              Get(Path(doc, BackgroundState), key).None? && Get(Get(doc, "metamask"), key).None?
  {
    if Get(doc, key).Some? then Get(doc, key)
    else if Get(Controller(doc, "PreferencesController"), key).Some? then Get(Controller(doc, "PreferencesController"), key)
    else if Get(Path(doc, BackgroundState), key).Some? then Get(Path(doc, BackgroundState), key)
    else Get(Get(doc, "metamask"), key)
  }

  /** `getVariableValue(key)`: the probed value, or the string "Not available". */
  function VariableValue(doc: Option<Value>, key: string): (r: Value)
    ensures Probe(doc, key).Some? ==> r == Probe(doc, key).value
    ensures Probe(doc, key).None? ==> r == Str(NotAvailable)
  {
    if Probe(doc, key).Some? then Probe(doc, key).value else Str(NotAvailable)
  }

  /** `value === 'Not available'`. */
  predicate IsNotAvailable(v: Value) { v == Str(NotAvailable) }

  /** A controller value overrides a "Not available" probe when it is defined. */
  function WhenDefined(probed: Value, fallback: Option<Value>): (r: Value)
    ensures !IsNotAvailable(probed) ==> r == probed
    ensures IsNotAvailable(probed) && fallback.Some? ==> r == fallback.value
    ensures IsNotAvailable(probed) && fallback.None? ==> r == probed
  {
    if IsNotAvailable(probed) && fallback.Some? then fallback.value else probed
  }

  /** A chain of two truthy fallbacks for a "Not available" probe. */
  function WhenTruthy(probed: Value, first: Option<Value>, second: Option<Value>): (r: Value)
    ensures !IsNotAvailable(probed) ==> r == probed
    ensures IsNotAvailable(probed) && Truthy(first) ==> Some(r) == first
    ensures IsNotAvailable(probed) && !Truthy(first) && Truthy(second) ==> Some(r) == second
    ensures IsNotAvailable(probed) && !Truthy(first) && !Truthy(second) ==> r == probed
  {
    if !IsNotAvailable(probed) then probed
    else if Truthy(first) then first.value
    else if Truthy(second) then second.value
    else probed
  }

  /** The version row: the probe, else the preferences' `metamask.version`, else the
      app state's `versions.metamask`, each taken only when truthy. */
  function Version(doc: Option<Value>): (r: Value)
    ensures !IsNotAvailable(VariableValue(doc, "version")) ==> r == VariableValue(doc, "version")
    ensures var first := Path(Controller(doc, "PreferencesController"), ["metamask", "version"]);
            IsNotAvailable(VariableValue(doc, "version")) && Truthy(first) ==> Some(r) == first
    ensures var first := Path(Controller(doc, "PreferencesController"), ["metamask", "version"]);
            var second := Path(Controller(doc, "AppStateController"), ["versions", "metamask"]);
            (IsNotAvailable(VariableValue(doc, "version")) && !Truthy(first) && Truthy(second)) ==>
              Some(r) == second
    ensures var first := Path(Controller(doc, "PreferencesController"), ["metamask", "version"]);
            var second := Path(Controller(doc, "AppStateController"), ["versions", "metamask"]);
            (IsNotAvailable(VariableValue(doc, "version")) && !Truthy(first) && !Truthy(second)) ==>
              r == Str(NotAvailable)
  {
    WhenTruthy(VariableValue(doc, "version"),
               Path(Controller(doc, "PreferencesController"), ["metamask", "version"]),
               Path(Controller(doc, "AppStateController"), ["versions", "metamask"]))
  }

  /** The submitted-time row: the probe, else the app state's `lastActiveTime`, else
      the preferences' `lastUserActivityTime`, each taken only when truthy. */
  function SubmittedTime(doc: Option<Value>): (r: Value)
    ensures !IsNotAvailable(VariableValue(doc, "submittedTime")) ==> r == VariableValue(doc, "submittedTime")
    ensures var first := Get(Controller(doc, "AppStateController"), "lastActiveTime");
            IsNotAvailable(VariableValue(doc, "submittedTime")) && Truthy(first) ==> Some(r) == first
    ensures var first := Get(Controller(doc, "AppStateController"), "lastActiveTime");
            var second := Get(Controller(doc, "PreferencesController"), "lastUserActivityTime");
            (IsNotAvailable(VariableValue(doc, "submittedTime")) && !Truthy(first) && Truthy(second)) ==>
              Some(r) == second
    ensures var first := Get(Controller(doc, "AppStateController"), "lastActiveTime");
            var second := Get(Controller(doc, "PreferencesController"), "lastUserActivityTime");
            (IsNotAvailable(VariableValue(doc, "submittedTime")) && !Truthy(first) && !Truthy(second)) ==>
              r == Str(NotAvailable)
  {
    WhenTruthy(VariableValue(doc, "submittedTime"),
               Get(Controller(doc, "AppStateController"), "lastActiveTime"),
               Get(Controller(doc, "PreferencesController"), "lastUserActivityTime"))
  }

  /** A setting with a dedicated controller fallback. */
  function Setting(doc: Option<Value>, key: string, controller: string): Value
  {
    WhenDefined(VariableValue(doc, key), Get(Controller(doc, controller), key))
  }

  /** `/\d{4}-\d{2}-\d{2}/` matches at position i. */
  predicate IsoDateAt(s: string, i: int)
  {
    0 <= i && i + 10 <= |s| &&
    IsDigit(s[i]) && IsDigit(s[i + 1]) && IsDigit(s[i + 2]) && IsDigit(s[i + 3]) && s[i + 4] == '-' &&
    IsDigit(s[i + 5]) && IsDigit(s[i + 6]) && s[i + 7] == '-' && IsDigit(s[i + 8]) && IsDigit(s[i + 9])
  }

  /** `/\d+T\d+/` matches with its 'T' at position i + 1. */
  predicate DigitTDigitAt(s: string, i: int)
  {
    0 <= i && i + 3 <= |s| && IsDigit(s[i]) && s[i + 1] == 'T' && IsDigit(s[i + 2])
  }

  /** The viewer's test for a date-like string. */
  predicate DateLike(s: string)
  {
    exists i | 0 <= i < |s| :: IsoDateAt(s, i) || DigitTDigitAt(s, i)
  }

  /** A string without digits is never taken for a date. */
  lemma NoDigitsNotDateLike(s: string)
    requires forall i | 0 <= i < |s| :: !IsDigit(s[i])
    ensures !DateLike(s)
  {
  }

  const MillisecondTimestamp := 1_000_000_000_000
  const SecondTimestamp := 1_000_000_000

  /** `formatValue`: absent and null read "Not available", booleans "Yes"/"No",
      date-like strings and large numbers go through the locale's date rendering,
      other strings and numbers print as themselves, anything else as JSON. */
  function FormatValue(v: Option<Value>, render: Renderers): (r: string)
    ensures v.None? || v == Some(Null) ==> r == NotAvailable
    ensures v == Some(Bool(true)) ==> r == "Yes"
    ensures v == Some(Bool(false)) ==> r == "No"
    ensures v.Some? && v.value.Str? && !DateLike(v.value.s) ==> r == v.value.s
    ensures v.Some? && v.value.Num? && v.value.n <= SecondTimestamp ==> r == IntToString(v.value.n)
  {
    match v
    case None => NotAvailable
    case Some(Null) => NotAvailable
    case Some(Bool(b)) => if b then "Yes" else "No"
    case Some(Str(s)) => if DateLike(s) then render.dateString(s) else s
    case Some(Num(n)) =>
      if n > MillisecondTimestamp then render.timestamp(n)
      else if n > SecondTimestamp then render.timestamp(n * 1000)
      else IntToString(n)
    case Some(_) => render.json(v.value)
  }

  /** The eight settings of the table, as (id, caption) pairs in display order. */
  const Settings: seq<(string, string)> := [
    ("submittedTime", "Submitted Time"),
    ("seedphraseBackedUp", "Seedphrase Backed Up"),
    ("automaticSecurityChecksEnabled", "Automatic Security Checks Enabled"),
    ("securityAlertsEnabled", "Security Alerts Enabled"),
    ("isProfileSyncingEnabled", "Profile Syncing Enabled"),
    ("isProfileSyncingUpdateLoading", "Profile Syncing Update Loading"),
    ("hasAccountSyncingSyncedAtLeastOnce", "Account Syncing Has Synced At Least Once"),
    ("version", "MetaMask Version")
  ]

  /** The mobile controller a setting falls back to. */
  function ControllerOf(id: string): (r: string)
    ensures id == "seedphraseBackedUp" ==> r == "BackupController"
    ensures id == "automaticSecurityChecksEnabled" ==> r == "SecurityController"
    ensures id == "securityAlertsEnabled" ==> r == "SecurityController"
    ensures id == "isProfileSyncingEnabled" ==> r == "SyncController"
    ensures id == "isProfileSyncingUpdateLoading" ==> r == "SyncController"
    ensures id == "hasAccountSyncingSyncedAtLeastOnce" ==> r == "SyncController"
  {
    if id == "seedphraseBackedUp" then "BackupController"
    else if id == "automaticSecurityChecksEnabled" || id == "securityAlertsEnabled" then "SecurityController"
    else "SyncController"
  }

  /** The value shown for a setting, fallbacks applied: a setting other than the
      submitted time and the version shows its probe unless that is "Not available",
      and then its controller's value when the controller defines one. */
  function SettingValue(doc: Option<Value>, id: string): (r: Value)
    ensures !IsNotAvailable(VariableValue(doc, id)) ==> r == VariableValue(doc, id)
    ensures id == "version" ==> r == Version(doc)
    ensures id == "submittedTime" ==> r == SubmittedTime(doc)
    ensures (id != "submittedTime" && id != "version" && IsNotAvailable(VariableValue(doc, id)) &&
             Get(Controller(doc, ControllerOf(id)), id).Some?) ==> r == Get(Controller(doc, ControllerOf(id)), id).value
    ensures (id != "submittedTime" && id != "version" && IsNotAvailable(VariableValue(doc, id)) &&
             Get(Controller(doc, ControllerOf(id)), id).None?) ==> r == Str(NotAvailable)
  {
    if id == "submittedTime" then SubmittedTime(doc)
    else if id == "version" then Version(doc)
    else Setting(doc, id, ControllerOf(id))
  }

  /** `isMobileApp`: the app type shown in the last row. */
  function AppType(doc: Option<Value>): (r: string)
    ensures r == "Mobile App" <==> Truthy(Path(doc, BackgroundState))
    ensures r == "Browser Extension" <==> !Truthy(Path(doc, BackgroundState))
  {
    if Truthy(Path(doc, BackgroundState)) then "Mobile App" else "Browser Extension"
  }

  /** The table shown for a state log: nothing for a falsy log, else the eight
      settings in order, each formatted, followed by the app type. */
  function Variables(doc: Option<Value>, render: Renderers): (r: seq<Row>)
    ensures !Truthy(doc) ==> r == []
    ensures Truthy(doc) ==> |r| == |Settings| + 1
    ensures Truthy(doc) ==> forall i | 0 <= i < |Settings| ::
              r[i].id == Settings[i].0 && r[i].caption == Settings[i].1
    ensures Truthy(doc) ==> forall i | 0 <= i < |Settings| ::
              r[i].value == FormatValue(Some(SettingValue(doc, Settings[i].0)), render)
    ensures Truthy(doc) ==> r[|Settings|] == Row("isMobileApp", "App Type", AppType(doc))
  {
    if !Truthy(doc) then []
    else
      seq(|Settings|, i requires 0 <= i < |Settings| =>
        Row(Settings[i].0, Settings[i].1, FormatValue(Some(SettingValue(doc, Settings[i].0)), render)))
      + [Row("isMobileApp", "App Type", AppType(doc))]
  }

  /** A value at the top level of the log shadows every other place, even a null one. */
  lemma TopLevelWins(doc: Option<Value>, key: string, v: Value)
    requires Get(doc, key) == Some(v)
    ensures VariableValue(doc, key) == v
  {
  }

  /** In the empty log no controller is present. */
  lemma EmptyLogController(name: string)
    ensures Controller(Some(Obj([])), name) == None
    ensures Path(Some(Obj([])), BackgroundState) == None
  {
    PathOfNone((BackgroundState + [name])[1..]);
    PathOfNone(BackgroundState[1..]);
  }

  /** In the empty log every probe comes back "Not available". */
  lemma EmptyLogProbe(key: string)
    ensures VariableValue(Some(Obj([])), key) == Str(NotAvailable)
  {
    EmptyLogController("PreferencesController");
  }

  /** In the empty log every setting, fallbacks applied, reads "Not available". */
  lemma EmptyLogSetting(id: string)
    ensures SettingValue(Some(Obj([])), id) == Str(NotAvailable)
  {
    var doc := Some(Obj([]));
    EmptyLogProbe(id);
    EmptyLogController(ControllerOf(id));
    EmptyLogController("PreferencesController");
    EmptyLogController("AppStateController");
    PathOfNone(["metamask", "version"]);
    PathOfNone(["versions", "metamask"]);
  }

  /** For the empty log every setting reads "Not available" and the app type is the extension. */
  lemma EmptyLogVariables(render: Renderers)
    ensures var r := Variables(Some(Obj([])), render);
              && (forall i | 0 <= i < |Settings| :: r[i].value == NotAvailable)
              && r[|Settings|].value == "Browser Extension"
  {
    var doc := Some(Obj([]));
    var r := Variables(doc, render);
    NoDigitsNotDateLike(NotAvailable);
    forall i | 0 <= i < |Settings| ensures r[i].value == NotAvailable {
      var id := Settings[i].0;
      EmptyLogSetting(id);
      assert r[i].value == FormatValue(Some(SettingValue(doc, id)), render);
    }
    EmptyLogController("");
  }
}
