/** The approvals viewer's normalisation: pending approvals of the extension and the
    mobile app, permissions granted on mobile and the extension's permission history,
    brought into one record shape, ordered newest first, searched, counted and
    rated for risk. */
module ApprovalsList {
  import opened Text
  import opened Json
  import opened Lists
  import opened Risk

  /** The unified approval record. Fields copied from a logged approval keep the
      logged value (or None when the log has none). */
  datatype Approval = Approval(
    id: string,
    origin: Option<Value>,
    kind: Option<Value>,
    time: Option<Value>,
    requestData: Option<Value>,
    isMobile: Option<Value>)

  const MobilePendingPath := ["engine", "backgroundState", "ApprovalController", "pendingApprovals"]
  const MobileSubjectsPath := ["engine", "backgroundState", "PermissionController", "subjects"]

  predicate IsTruthy(v: Value) { Truthy(Some(v)) }

  /** `{...approval, id}`, with `isMobile: true` added for the mobile app. */
  function FromPending(id: string, approval: Value, mobile: bool): (r: Approval)
    ensures r.id == id
    ensures mobile ==> Truthy(r.isMobile)
    ensures !mobile ==> r.isMobile == Get(Some(approval), "isMobile")
  {
    var v := Some(approval);
    Approval(id, Get(v, "origin"), Get(v, "type"), Get(v, "time"), Get(v, "requestData"),
             if mobile then Some(Bool(true)) else Get(v, "isMobile"))
  }

  /** The loop over the entries of a pending-approvals map: one record per truthy entry. */
  function PendingApprovals(entries: seq<(string, Value)>, mobile: bool): (r: seq<Approval>)
    ensures |r| <= |entries|
    decreases |entries|
  {
    if entries == [] then []
    else
      var (id, approval) := entries[|entries| - 1];
      PendingApprovals(entries[..|entries| - 1], mobile) +
      (if IsTruthy(approval) then [FromPending(id, approval, mobile)] else [])
  }

  /** The record for permission `permission` of subject `subject` granted on mobile;
      `now` stands for `Date.now()`. */
  function FromPermission(subject: string, data: Value, permission: string, details: Value, now: int): (r: Approval)
    ensures r.id == subject + "-" + permission
    ensures r.origin == Some(OrElse(Get(Some(data), "origin"), Str(subject)))
    ensures r.kind == Some(OrElse(Get(Some(details), "parentCapability"), Str(permission)))
    ensures r.time == Some(OrElse(Get(Some(details), "date"), Num(now)))
    ensures r.kind.Some? && r.requestData == Some(Obj([("permission", r.kind.value), ("caveats", OrElse(Get(Some(details), "caveats"), Arr([])))]))
    ensures Truthy(r.isMobile)
  {
    var d := Some(details);
    var kind := OrElse(Get(d, "parentCapability"), Str(permission));
    Approval(
      subject + "-" + permission,
      Some(OrElse(Get(Some(data), "origin"), Str(subject))),
      Some(kind),
      Some(OrElse(Get(d, "date"), Num(now))),
      Some(Obj([("permission", kind), ("caveats", OrElse(Get(d, "caveats"), Arr([])))])),
      Some(Bool(true)))
  }

  /** The inner loop over one subject's permissions: one record per truthy grant. */
  function PermissionApprovals(subject: string, data: Value, perms: seq<(string, Value)>, now: int): (r: seq<Approval>)
    ensures |r| <= |perms|
    decreases |perms|
  {
    if perms == [] then []
    else
      var (permission, details) := perms[|perms| - 1];
      PermissionApprovals(subject, data, perms[..|perms| - 1], now) +
      (if IsTruthy(details) then [FromPermission(subject, data, permission, details, now)] else [])
  }

  /** The permissions `data?.permissions` of one subject, or none when it is falsy. */
  function GrantsOf(data: Value): seq<(string, Value)>
  {
    Entries(Get(Some(data), "permissions"))
  }

  /** The outer loop over the mobile permission controller's subjects. */
  function SubjectApprovals(subjects: seq<(string, Value)>, now: int): seq<Approval>
    decreases |subjects|
  {
    if subjects == [] then []
    else
      var (subject, data) := subjects[|subjects| - 1];
      SubjectApprovals(subjects[..|subjects| - 1], now) + PermissionApprovals(subject, data, GrantsOf(data), now)
  }

  /** The record for a permission in the extension's permission history. */
  function FromHistory(origin: string, permission: string, details: Value): (r: Approval)
    ensures r.id == origin + "-" + permission
    ensures r.origin == Some(Str(origin)) && r.kind == Some(Str(permission))
    ensures r.time == Get(Some(details), "lastApproved")
    ensures !Truthy(r.isMobile)
    ensures Get(r.requestData, "permission") == Some(Str(permission))
    ensures Truthy(Get(Some(details), "accounts")) ==> Get(r.requestData, "accounts") == Get(Some(details), "accounts")
    ensures !Truthy(Get(Some(details), "accounts")) ==> Get(r.requestData, "accounts") == Some(Arr([]))
  {
    var d := Some(details);
    var data := [("permission", Str(permission)), ("accounts", OrElse(Get(d, "accounts"), Arr([])))];
    assert data[1..] == [data[1]] && "accounts"[0] != "permission"[0];
    Approval(
      origin + "-" + permission,
      Some(Str(origin)),
      Some(Str(permission)),
      Get(d, "lastApproved"),
      Some(Obj(data)),
      None)
  }

  /** The inner loop over one origin's permission history: a record per permission
      with a truthy `lastApproved`. */
  function OriginHistoryApprovals(origin: string, perms: seq<(string, Value)>): (r: seq<Approval>)
    ensures |r| <= |perms|
    decreases |perms|
  {
    if perms == [] then []
    else
      var (permission, details) := perms[|perms| - 1];
      OriginHistoryApprovals(origin, perms[..|perms| - 1]) +
      (if Truthy(Get(Some(details), "lastApproved")) then [FromHistory(origin, permission, details)] else [])
  }

  /** The outer loop over the permission history's origins. */
  function HistoryApprovals(history: seq<(string, Value)>): seq<Approval>
    decreases |history|
  {
    if history == [] then []
    else
      var (origin, permissions) := history[|history| - 1];
      HistoryApprovals(history[..|history| - 1]) + OriginHistoryApprovals(origin, Entries(Some(permissions)))
  }

  /** An entry whose value is truthy: the condition of the pending and the grant loops. */
  predicate TruthyEntry(e: (string, Value)) { IsTruthy(e.1) }

  /** A history entry with a truthy `lastApproved`. */
  predicate ApprovedEntry(e: (string, Value)) { Truthy(Get(Some(e.1), "lastApproved")) }

  /** The pending loop makes exactly one record per truthy entry, in the entries' order. */
  lemma {:induction false} PendingApprovalsExact(entries: seq<(string, Value)>, mobile: bool)
    ensures var kept := Filter(entries, TruthyEntry);
            var r := PendingApprovals(entries, mobile);
              |r| == |kept| && forall i | 0 <= i < |r| :: r[i] == FromPending(kept[i].0, kept[i].1, mobile)
    decreases |entries|
  {
    if entries != [] {
      var init, last := entries[..|entries| - 1], entries[|entries| - 1];
      PendingApprovalsExact(init, mobile);
      assert entries == init + [last];
      FilterSnoc(init, last, TruthyEntry);
    }
  }

  /** A truthy entry always gets its record, and every record comes from a truthy entry. */
  lemma PendingApprovalsMembers(entries: seq<(string, Value)>, mobile: bool, id: string, approval: Value)
    ensures (id, approval) in entries && IsTruthy(approval) ==>
              FromPending(id, approval, mobile) in PendingApprovals(entries, mobile)
    ensures forall x | x in PendingApprovals(entries, mobile) :: exists j | 0 <= j < |entries| ::
              IsTruthy(entries[j].1) && x == FromPending(entries[j].0, entries[j].1, mobile)
  {
    if (id, approval) in entries && IsTruthy(approval) {
      PendingComplete(entries, mobile, id, approval);
    }
    PendingSound(entries, mobile);
  }

  lemma PendingComplete(entries: seq<(string, Value)>, mobile: bool, id: string, approval: Value)
    requires (id, approval) in entries && TruthyEntry((id, approval))
    ensures FromPending(id, approval, mobile) in PendingApprovals(entries, mobile)
  {
    var kept := Filter(entries, TruthyEntry);
    PendingApprovalsExact(entries, mobile);
    FilterKeeps(entries, TruthyEntry);
    assert (id, approval) in multiset(kept);
    var i :| 0 <= i < |kept| && kept[i] == (id, approval);
    assert PendingApprovals(entries, mobile)[i] == FromPending(id, approval, mobile);
  }

  lemma PendingSound(entries: seq<(string, Value)>, mobile: bool)
    ensures forall x | x in PendingApprovals(entries, mobile) :: exists j | 0 <= j < |entries| ::
              TruthyEntry(entries[j]) && x == FromPending(entries[j].0, entries[j].1, mobile)
  {
    var kept := Filter(entries, TruthyEntry);
    var r := PendingApprovals(entries, mobile);
    PendingApprovalsExact(entries, mobile);
    forall x | x in r ensures exists j | 0 <= j < |entries| ::
        TruthyEntry(entries[j]) && x == FromPending(entries[j].0, entries[j].1, mobile) {
      var i :| 0 <= i < |r| && r[i] == x;
      FilterIn(entries, TruthyEntry, kept[i]);
      var j :| 0 <= j < |entries| && entries[j] == kept[i];
    }
  }

  /** The grant loop makes exactly one record per truthy grant, in the grants' order. */
  lemma {:induction false} PermissionApprovalsExact(subject: string, data: Value, perms: seq<(string, Value)>, now: int)
    ensures var kept := Filter(perms, TruthyEntry);
            var r := PermissionApprovals(subject, data, perms, now);
              |r| == |kept| &&
              forall i | 0 <= i < |r| :: r[i] == FromPermission(subject, data, kept[i].0, kept[i].1, now)
    decreases |perms|
  {
    if perms != [] {
      var init, last := perms[..|perms| - 1], perms[|perms| - 1];
      PermissionApprovalsExact(subject, data, init, now);
      assert perms == init + [last];
      FilterSnoc(init, last, TruthyEntry);
    }
  }

  /** A truthy grant always gets its record, and every record comes from a truthy grant. */
  lemma PermissionApprovalsMembers(subject: string, data: Value, perms: seq<(string, Value)>, now: int,
                                   permission: string, details: Value)
    ensures (permission, details) in perms && IsTruthy(details) ==>
              FromPermission(subject, data, permission, details, now) in PermissionApprovals(subject, data, perms, now)
    ensures forall x | x in PermissionApprovals(subject, data, perms, now) :: exists j | 0 <= j < |perms| ::
              IsTruthy(perms[j].1) && x == FromPermission(subject, data, perms[j].0, perms[j].1, now)
  {
    if (permission, details) in perms && IsTruthy(details) {
      PermissionComplete(subject, data, perms, now, permission, details);
    }
    PermissionSound(subject, data, perms, now);
  }

  lemma PermissionComplete(subject: string, data: Value, perms: seq<(string, Value)>, now: int,
                           permission: string, details: Value)
    requires (permission, details) in perms && TruthyEntry((permission, details))
    ensures FromPermission(subject, data, permission, details, now) in PermissionApprovals(subject, data, perms, now)
  {
    var kept := Filter(perms, TruthyEntry);
    PermissionApprovalsExact(subject, data, perms, now);
    FilterKeeps(perms, TruthyEntry);
    assert (permission, details) in multiset(kept);
    var i :| 0 <= i < |kept| && kept[i] == (permission, details);
    assert PermissionApprovals(subject, data, perms, now)[i] == FromPermission(subject, data, permission, details, now);
  }

  lemma PermissionSound(subject: string, data: Value, perms: seq<(string, Value)>, now: int)
    ensures forall x | x in PermissionApprovals(subject, data, perms, now) :: exists j | 0 <= j < |perms| ::
              TruthyEntry(perms[j]) && x == FromPermission(subject, data, perms[j].0, perms[j].1, now)
  {
    var kept := Filter(perms, TruthyEntry);
    var r := PermissionApprovals(subject, data, perms, now);
    PermissionApprovalsExact(subject, data, perms, now);
    forall x | x in r ensures exists j | 0 <= j < |perms| ::
        TruthyEntry(perms[j]) && x == FromPermission(subject, data, perms[j].0, perms[j].1, now) {
      var i :| 0 <= i < |r| && r[i] == x;
      FilterIn(perms, TruthyEntry, kept[i]);
      var j :| 0 <= j < |perms| && perms[j] == kept[i];
    }
  }

  /** One origin's history makes exactly one record per permission with a truthy
      `lastApproved`, in the permissions' order. */
  lemma {:induction false} OriginHistoryApprovalsExact(origin: string, perms: seq<(string, Value)>)
    ensures var kept := Filter(perms, ApprovedEntry);
            var r := OriginHistoryApprovals(origin, perms);
              |r| == |kept| && forall i | 0 <= i < |r| :: r[i] == FromHistory(origin, kept[i].0, kept[i].1)
    decreases |perms|
  {
    if perms != [] {
      var init, last := perms[..|perms| - 1], perms[|perms| - 1];
      OriginHistoryApprovalsExact(origin, init);
      assert perms == init + [last];
      FilterSnoc(init, last, ApprovedEntry);
    }
  }

  /** An approved permission always gets its record, and every record comes from one. */
  lemma OriginHistoryApprovalsMembers(origin: string, perms: seq<(string, Value)>, permission: string, details: Value)
    ensures (permission, details) in perms && Truthy(Get(Some(details), "lastApproved")) ==>
              FromHistory(origin, permission, details) in OriginHistoryApprovals(origin, perms)
    ensures forall x | x in OriginHistoryApprovals(origin, perms) :: exists j | 0 <= j < |perms| ::
              ApprovedEntry(perms[j]) && x == FromHistory(origin, perms[j].0, perms[j].1)
  {
    OriginHistoryApprovalsExact(origin, perms);
    FilterKeeps(perms, ApprovedEntry);
    if (permission, details) in perms && Truthy(Get(Some(details), "lastApproved")) {
      OriginHistoryComplete(origin, perms, permission, details);
    }
    OriginHistorySound(origin, perms);
  }

  lemma OriginHistoryComplete(origin: string, perms: seq<(string, Value)>, permission: string, details: Value)
    requires (permission, details) in perms && ApprovedEntry((permission, details))
    ensures FromHistory(origin, permission, details) in OriginHistoryApprovals(origin, perms)
  {
    var kept := Filter(perms, ApprovedEntry);
    OriginHistoryApprovalsExact(origin, perms);
    FilterKeeps(perms, ApprovedEntry);
    assert (permission, details) in multiset(kept);
    var i :| 0 <= i < |kept| && kept[i] == (permission, details);
    assert OriginHistoryApprovals(origin, perms)[i] == FromHistory(origin, permission, details);
  }

  lemma OriginHistorySound(origin: string, perms: seq<(string, Value)>)
    ensures forall x | x in OriginHistoryApprovals(origin, perms) :: exists j | 0 <= j < |perms| ::
              ApprovedEntry(perms[j]) && x == FromHistory(origin, perms[j].0, perms[j].1)
  {
    var kept := Filter(perms, ApprovedEntry);
    var r := OriginHistoryApprovals(origin, perms);
    OriginHistoryApprovalsExact(origin, perms);
    forall x | x in r ensures exists j | 0 <= j < |perms| ::
        ApprovedEntry(perms[j]) && x == FromHistory(origin, perms[j].0, perms[j].1) {
      var i :| 0 <= i < |r| && r[i] == x;
      FilterIn(perms, ApprovedEntry, kept[i]);
      var j :| 0 <= j < |perms| && perms[j] == kept[i];
    }
  }

  /** Pending approvals kept in an object or array field of the extension's shape. */
  function ExtensionPending(holder: Option<Value>): seq<Approval>
  {
    var pending := Get(holder, "pendingApprovals");
    if IsContainer(pending) then PendingApprovals(Entries(pending), false) else []
  }

  /** The mobile app's pending approvals and its granted permissions. */
  function MobileApprovals(doc: Option<Value>, now: int): seq<Approval>
  {
    PendingApprovals(Entries(Path(doc, MobilePendingPath)), true) +
    SubjectApprovals(Entries(Path(doc, MobileSubjectsPath)), now)
  }

  /** The extension log's approvals before sorting. */
  function GatheredApprovals(doc: Option<Value>, now: int): seq<Approval>
  {
    var mm := Get(doc, "metamask");
    ExtensionPending(mm) + MobileApprovals(doc, now) + HistoryApprovals(Entries(Get(mm, "permissionHistory")))
  }

  /** `b.time - a.time` as a sort key; a missing or non-numeric time counts as 0. */
  function TimeKey(a: Approval): int
  {
    NumOr(a.time, 0)
  }

  /** The approvals shown for a state log; `now` stands for `Date.now()`. */
  function Approvals(doc: Option<Value>, now: int): (r: seq<Approval>)
    ensures !Truthy(doc) ==> r == []
    ensures Truthy(doc) && !Truthy(Get(doc, "metamask")) ==>
              r == ExtensionPending(doc) + MobileApprovals(doc, now)
  {
    if !Truthy(doc) then []
    else if !Truthy(Get(doc, "metamask")) then ExtensionPending(doc) + MobileApprovals(doc, now)
    else SortDesc(GatheredApprovals(doc, now), TimeKey)
  }

  /** An empty or absent log has no approvals. */
  lemma ApprovalsOfEmptyLog(now: int)
    ensures Approvals(None, now) == []
    ensures Approvals(Some(Null), now) == []
    ensures Approvals(Some(Obj([])), now) == []
  {
  }

  /** For an extension log the approvals are the gathered ones reordered newest first:
      a permutation, sorted by time, with equal times in gathering order. */
  lemma ApprovalsOrdered(doc: Option<Value>, now: int)
    requires Truthy(doc) && Truthy(Get(doc, "metamask"))
    ensures var r := Approvals(doc, now);
            var g := GatheredApprovals(doc, now);
              && SortedDesc(r, TimeKey)
              && |r| == |g| && multiset(r) == multiset(g)
              && forall k :: WithKey(r, TimeKey, k) == WithKey(g, TimeKey, k)
  {
    var g := GatheredApprovals(doc, now);
    SortDescSorted(g, TimeKey);
    SortDescPermutes(g, TimeKey);
    forall k ensures WithKey(SortDesc(g, TimeKey), TimeKey, k) == WithKey(g, TimeKey, k) {
      SortDescStable(g, TimeKey, k);
    }
  }

  /** Every record made from a mobile permission grant is marked mobile, carries the
      id `subject-permission`, and its request data names the same permission as its type. */
  lemma {:induction false} SubjectApprovalsShape(subjects: seq<(string, Value)>, now: int)
    ensures forall a | a in SubjectApprovals(subjects, now) ::
              && Truthy(a.isMobile)
              && a.kind.Some?
              && Get(a.requestData, "permission") == a.kind
              && exists i, p :: 0 <= i < |subjects| && a.id == subjects[i].0 + "-" + p
    decreases |subjects|
  {
    if subjects != [] {
      var init := subjects[..|subjects| - 1];
      SubjectApprovalsShape(init, now);
      var (subject, data) := subjects[|subjects| - 1];
      PermissionApprovalsShape(subject, data, GrantsOf(data), now);
      forall a | a in SubjectApprovals(subjects, now)
        ensures exists i, p :: 0 <= i < |subjects| && a.id == subjects[i].0 + "-" + p
      {
        if a in SubjectApprovals(init, now) {
          var i, p :| 0 <= i < |init| && a.id == init[i].0 + "-" + p;
          assert subjects[i] == init[i];
        } else {
          assert a in PermissionApprovals(subject, data, GrantsOf(data), now);
          var p :| a.id == subject + "-" + p;
          assert subjects[|subjects| - 1].0 == subject;
        }
      }
    }
  }

  lemma {:induction false} PermissionApprovalsShape(subject: string, data: Value, perms: seq<(string, Value)>, now: int)
    ensures forall a | a in PermissionApprovals(subject, data, perms, now) ::
              && Truthy(a.isMobile)
              && a.kind.Some?
              && Get(a.requestData, "permission") == a.kind
              && exists p :: a.id == subject + "-" + p
    decreases |perms|
  {
    if perms != [] {
      PermissionApprovalsShape(subject, data, perms[..|perms| - 1], now);
      var (permission, details) := perms[|perms| - 1];
      var a := FromPermission(subject, data, permission, details, now);
      assert a.id == subject + "-" + permission;
    }
  }

  /** Records from the permission history are never counted as mobile. */
  lemma {:induction false} HistoryApprovalsNotMobile(history: seq<(string, Value)>)
    ensures forall a | a in HistoryApprovals(history) :: !Truthy(a.isMobile)
    decreases |history|
  {
    if history != [] {
      HistoryApprovalsNotMobile(history[..|history| - 1]);
      var (origin, permissions) := history[|history| - 1];
      OriginHistoryNotMobile(origin, Entries(Some(permissions)));
    }
  }

  lemma {:induction false} OriginHistoryNotMobile(origin: string, perms: seq<(string, Value)>)
    ensures forall a | a in OriginHistoryApprovals(origin, perms) :: !Truthy(a.isMobile)
    decreases |perms|
  {
    if perms != [] {
      OriginHistoryNotMobile(origin, perms[..|perms| - 1]);
    }
  }

  /** Mobile pending approvals are all marked mobile. */
  lemma {:induction false} MobilePendingMarked(entries: seq<(string, Value)>)
    ensures forall a | a in PendingApprovals(entries, true) :: Truthy(a.isMobile)
    decreases |entries|
  {
    if entries != [] {
      MobilePendingMarked(entries[..|entries| - 1]);
    }
  }

  predicate IsMobileApproval(a: Approval) { Truthy(a.isMobile) }

  /** `approvals.filter(a => a.isMobile).length`. */
  function MobileCount(approvals: seq<Approval>): (r: nat)
    ensures r <= |approvals|
  {
    |Filter(approvals, IsMobileApproval)|
  }

  /** `approvals.length - mobileApprovalCount`. */
  function StandardCount(approvals: seq<Approval>): (r: nat)
    ensures r + MobileCount(approvals) == |approvals|
  {
    |approvals| - MobileCount(approvals)
  }

  lemma {:induction false} MobileCountAll(s: seq<Approval>)
    requires forall a | a in s :: IsMobileApproval(a)
    ensures MobileCount(s) == |s|
  {
    if s != [] {
      MobileCountAll(s[1..]);
    }
  }

  lemma {:induction false} MobileCountNone(s: seq<Approval>)
    requires forall a | a in s :: !IsMobileApproval(a)
    ensures MobileCount(s) == 0
  {
    if s != [] {
      MobileCountNone(s[1..]);
    }
  }

  /** In an extension log, the mobile count is the extension's own pending approvals
      marked mobile plus every record taken from the mobile app; permission-history
      records always count as extension approvals. */
  lemma MobileCountOfExtensionLog(doc: Option<Value>, now: int)
    requires Truthy(doc) && Truthy(Get(doc, "metamask"))
    ensures var mm := Get(doc, "metamask");
            MobileCount(Approvals(doc, now)) == MobileCount(ExtensionPending(mm)) + |MobileApprovals(doc, now)|
  {
    var mm := Get(doc, "metamask");
    var ext := ExtensionPending(mm);
    var mob := MobileApprovals(doc, now);
    var hist := HistoryApprovals(Entries(Get(mm, "permissionHistory")));
    var g := GatheredApprovals(doc, now);
    SortDescPermutes(g, TimeKey);
    FilterCountPermutation(SortDesc(g, TimeKey), g, IsMobileApproval);
    FilterLengthAppend(ext + mob, hist, IsMobileApproval);
    FilterLengthAppend(ext, mob, IsMobileApproval);
    var pending := PendingApprovals(Entries(Path(doc, MobilePendingPath)), true);
    var granted := SubjectApprovals(Entries(Path(doc, MobileSubjectsPath)), now);
    MobilePendingMarked(Entries(Path(doc, MobilePendingPath)));
    SubjectApprovalsShape(Entries(Path(doc, MobileSubjectsPath)), now);
    forall a | a in mob ensures IsMobileApproval(a) {
      assert a in pending || a in granted;
    }
    MobileCountAll(mob);
    HistoryApprovalsNotMobile(Entries(Get(mm, "permissionHistory")));
    MobileCountNone(hist);
  }

  /** The search box: an empty term keeps the list; otherwise the approvals whose
      origin or type contains the lower-cased term. */
  predicate ApprovalMatches(a: Approval, term: string)
  {
    StrIncludes(a.origin, term) || StrIncludes(a.kind, term)
  }

  function FilterApprovals(approvals: seq<Approval>, searchTerm: string): (r: seq<Approval>)
    ensures searchTerm == "" ==> r == approvals
    ensures searchTerm != "" ==> IsSubsequence(r, approvals)
    ensures searchTerm != "" ==> forall i | 0 <= i < |r| :: ApprovalMatches(r[i], Lower(searchTerm))
    ensures searchTerm != "" ==>
              forall x :: multiset(r)[x] == if ApprovalMatches(x, Lower(searchTerm)) then multiset(approvals)[x] else 0
  {
    if searchTerm == "" then approvals
    else
      FilterKeeps(approvals, a => ApprovalMatches(a, Lower(searchTerm)));
      Filter(approvals, a => ApprovalMatches(a, Lower(searchTerm)))
  }

  /** `type?.includes(pattern)`: substring search on a string type, element search on
      an array type, and no match for anything else. */
  predicate KindIncludes(kind: Option<Value>, pattern: string)
  {
    kind.Some? &&
    match kind.value
    case Str(s) => Contains(s, pattern)
    case Arr(items) => Str(pattern) in items
    case _ => false
  }

  predicate IsMediumKind(kind: Option<Value>)
  {
    KindIncludes(kind, "eth_sendTransaction") || KindIncludes(kind, "wallet_watchAsset") ||
    KindIncludes(kind, "wallet_addEthereumChain")
  }

  predicate IsHighKind(kind: Option<Value>)
  {
    KindIncludes(kind, "eth_sign") || KindIncludes(kind, "personal_sign") ||
    KindIncludes(kind, "wallet_requestPermissions")
  }

  /** `getApprovalRiskLevel`: the medium patterns are tested first, then the high ones. */
  function ApprovalRisk(a: Approval): (r: Level)
    ensures r == Medium <==> IsMediumKind(a.kind)
    ensures r == High <==> !IsMediumKind(a.kind) && IsHighKind(a.kind)
    ensures r == Low <==> !IsMediumKind(a.kind) && !IsHighKind(a.kind)
  {
    if IsMediumKind(a.kind) then Medium
    else if IsHighKind(a.kind) then High
    else Low
  }

  /** A record whose type is undefined or null is low risk: `type?.includes` stops at
      either. */
  lemma ApprovalRiskUntyped(a: Approval)
    requires a.kind == None || a.kind == Some(Null)
    ensures ApprovalRisk(a) == Low
  {
  }

  /** A typed-data signature is high risk: its type starts with `eth_sign`. */
  lemma ApprovalRiskTypedSignature(a: Approval)
    requires a.kind == Some(Str("eth_signTypedData_v4"))
    ensures ApprovalRisk(a) == High
  {
    PrefixContained("eth_signTypedData_v4", "eth_sign");
    TypedSignatureNotMedium(a.kind);
  }

  lemma TypedSignatureNotMedium(kind: Option<Value>)
    requires kind == Some(Str("eth_signTypedData_v4"))
    ensures !IsMediumKind(kind)
  {
    var s := kind.value.s;
    assert 'c' !in s && 'w' !in s;
    NoMediumPatternChars(kind);
  }

  /** A string type without a 'c' or a 'w' holds none of the medium patterns. */
  lemma NoMediumPatternChars(kind: Option<Value>)
    requires kind.Some? && kind.value.Str?
    requires 'c' !in kind.value.s && 'w' !in kind.value.s
    ensures !IsMediumKind(kind)
  {
    LacksPattern(kind, "eth_sendTransaction", 14);
    LacksPattern(kind, "wallet_watchAsset", 0);
    LacksPattern(kind, "wallet_addEthereumChain", 0);
  }

  /** A string type lacking some character of a pattern does not include the pattern. */
  lemma LacksPattern(kind: Option<Value>, pattern: string, idx: nat)
    requires kind.Some? && kind.value.Str? && idx < |pattern| && pattern[idx] !in kind.value.s
    ensures !KindIncludes(kind, pattern)
  {
    MissingCharNotContained(kind.value.s, pattern, pattern[idx]);
  }

  /** A type holding a transaction pattern is medium risk even when it also holds a
      high-risk one: the medium patterns are tested first. */
  lemma ApprovalRiskMediumFirst(a: Approval)
    requires a.kind.Some? && a.kind.value.Str?
    requires Contains(a.kind.value.s, "eth_sendTransaction")
    requires Contains(a.kind.value.s, "eth_sign")
    ensures ApprovalRisk(a) == Medium
  {
  }

  /** Appends one record per truthy entry of a pending-approvals map. */
  method CollectPending(out: seq<Approval>, entries: seq<(string, Value)>, mobile: bool) returns (r: seq<Approval>)
    ensures r == out + PendingApprovals(entries, mobile)
  {
    r := out;
    for i := 0 to |entries|
      invariant r == out + PendingApprovals(entries[..i], mobile)
    {
      assert entries[..i + 1][..i] == entries[..i];
      var (id, approval) := entries[i];
      if IsTruthy(approval) {
        r := r + [FromPending(id, approval, mobile)];
      }
    }
    assert entries[..|entries|] == entries;
  }

  /** The outer loop over the mobile subjects. */
  method CollectPermissions(out: seq<Approval>, subjects: seq<(string, Value)>, now: int) returns (r: seq<Approval>)
    ensures r == out + SubjectApprovals(subjects, now)
  {
    r := out;
    for i := 0 to |subjects|
      invariant r == out + SubjectApprovals(subjects[..i], now)
    {
      SubjectStep(subjects, i, now);
      r := CollectGrants(r, subjects[i].0, subjects[i].1, now);
      AppendAssoc(out, SubjectApprovals(subjects[..i], now),
                  PermissionApprovals(subjects[i].0, subjects[i].1, GrantsOf(subjects[i].1), now));
    }
    assert subjects[..|subjects|] == subjects;
  }

  /** The inner loop over one subject's permissions. */
  method CollectGrants(out: seq<Approval>, subject: string, data: Value, now: int) returns (r: seq<Approval>)
    ensures r == out + PermissionApprovals(subject, data, GrantsOf(data), now)
  {
    var perms := GrantsOf(data);
    r := out;
    for j := 0 to |perms|
      invariant r == out + PermissionApprovals(subject, data, perms[..j], now)
    {
      GrantStep(subject, data, perms, j, now);
      if IsTruthy(perms[j].1) {
        r := r + [FromPermission(subject, data, perms[j].0, perms[j].1, now)];
      }
    }
    assert perms[..|perms|] == perms;
  }

  lemma GrantStep(subject: string, data: Value, perms: seq<(string, Value)>, j: nat, now: int)
    requires j < |perms|
    ensures PermissionApprovals(subject, data, perms[..j + 1], now)
         == PermissionApprovals(subject, data, perms[..j], now)
            + (if IsTruthy(perms[j].1) then [FromPermission(subject, data, perms[j].0, perms[j].1, now)] else [])
  {
    assert perms[..j + 1][..j] == perms[..j];
  }

  /** The outer loop over the permission history's origins. */
  method CollectHistory(out: seq<Approval>, history: seq<(string, Value)>) returns (r: seq<Approval>)
    ensures r == out + HistoryApprovals(history)
  {
    r := out;
    for i := 0 to |history|
      invariant r == out + HistoryApprovals(history[..i])
    {
      HistoryStep(history, i);
      r := CollectOriginHistory(r, history[i].0, Entries(Some(history[i].1)));
      AppendAssoc(out, HistoryApprovals(history[..i]), OriginHistoryApprovals(history[i].0, Entries(Some(history[i].1))));
    }
    assert history[..|history|] == history;
  }

  lemma AppendAssoc(a: seq<Approval>, b: seq<Approval>, c: seq<Approval>)
    ensures (a + b) + c == a + (b + c)
  {
  }

  lemma HistoryStep(history: seq<(string, Value)>, i: nat)
    requires i < |history|
    ensures HistoryApprovals(history[..i + 1])
         == HistoryApprovals(history[..i]) + OriginHistoryApprovals(history[i].0, Entries(Some(history[i].1)))
  {
    assert history[..i + 1][..i] == history[..i];
  }

  lemma SubjectStep(subjects: seq<(string, Value)>, i: nat, now: int)
    requires i < |subjects|
    ensures SubjectApprovals(subjects[..i + 1], now)
         == SubjectApprovals(subjects[..i], now) + PermissionApprovals(subjects[i].0, subjects[i].1, GrantsOf(subjects[i].1), now)
  {
    assert subjects[..i + 1][..i] == subjects[..i];
  }

  /** The inner loop over one origin's permissions. */
  method CollectOriginHistory(out: seq<Approval>, origin: string, perms: seq<(string, Value)>) returns (r: seq<Approval>)
    ensures r == out + OriginHistoryApprovals(origin, perms)
  {
    r := out;
    for j := 0 to |perms|
      invariant r == out + OriginHistoryApprovals(origin, perms[..j])
    {
      assert perms[..j + 1][..j] == perms[..j];
      var (permission, details) := perms[j];
      if Truthy(Get(Some(details), "lastApproved")) {
        r := r + [FromHistory(origin, permission, details)];
      }
    }
    assert perms[..|perms|] == perms;
  }

  /** The approvals computation of the viewer; `now` stands for `Date.now()`. */
  method ExtractApprovals(doc: Option<Value>, now: int) returns (approvals: seq<Approval>)
    ensures approvals == Approvals(doc, now)
  {
    if !Truthy(doc) {
      return [];
    }
    var mm := Get(doc, "metamask");
    if !Truthy(mm) {
      approvals := CollectShared(doc, doc, now);
    } else {
      var gathered := CollectShared(mm, doc, now);
      gathered := CollectHistory(gathered, Entries(Get(mm, "permissionHistory")));
      assert gathered == GatheredApprovals(doc, now);
      approvals := SortDesc(gathered, TimeKey);
    }
  }

  /** The part both branches share: the pending approvals of `holder` (the log or
      its `metamask` section), then the mobile app's records. */
  method CollectShared(holder: Option<Value>, doc: Option<Value>, now: int) returns (approvals: seq<Approval>)
    ensures approvals == ExtensionPending(holder) + MobileApprovals(doc, now)
  {
    approvals := [];
    var pending := Get(holder, "pendingApprovals");
    if IsContainer(pending) {
      approvals := CollectPending(approvals, Entries(pending), false);
    }
    assert approvals == ExtensionPending(holder);
    approvals := CollectMobile(approvals, doc, now);
  }

  /** Appends the mobile app's pending approvals and granted permissions. */
  method CollectMobile(out: seq<Approval>, doc: Option<Value>, now: int) returns (approvals: seq<Approval>)
    ensures approvals == out + MobileApprovals(doc, now)
  {
    approvals := CollectPending(out, Entries(Path(doc, MobilePendingPath)), true);
    approvals := CollectPermissions(approvals, Entries(Path(doc, MobileSubjectsPath)), now);
  }
}
