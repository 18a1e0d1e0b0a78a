// cmd/metiqd/control_rpc_config.go and internal/config/managed.go: what the checks of a
// commit let through and what they refuse, and what the managed settings do to a document,
// each stated on the documents themselves.
module ConfigChecks {
  import opened Wrappers
  import opened ConfigCommit
  import Text

  // ----- What a request asks for -----

  function AsNormal(w: World, doc: ConfigDoc): ConfigDoc { doc.(body := w.normalizeBody(doc.body)) }

  // `next` is what the request makes of the live document: built, brought into normal form
  // and, if it has a preparation, prepared and brought into normal form again.
  ghost predicate Asks(w: World, live: ConfigDoc, req: Request, next: ConfigDoc)
  {
    var current := AsNormal(w, live);
    var built := req.build(current);
    built.Some? &&
    if req.prepare.None? then next == AsNormal(w, built.value)
    else
      var prepared := req.prepare.value(current, AsNormal(w, built.value));
      prepared.Some? && next == AsNormal(w, prepared.value)
  }

  // The client has seen the live document as it is.
  ghost predicate BaseIsCurrent(w: World, live: ConfigDoc, req: Request)
  {
    req.baseHash.Some? ==> req.baseHash == Some(Hash(AsNormal(w, live)))
  }

  // The repository is where the client expects it: empty for version 0, otherwise at that
  // version; and at the event it names.
  ghost predicate VersionIsExpected(repo: Option<Stored>, req: Request)
  {
    req.expectedVersion.Some? ==>
      if req.expectedVersion.value == 0 then repo.None?
      else repo.Some? && repo.value.doc.version == req.expectedVersion.value
  }

  ghost predicate EventIsExpected(repo: Option<Stored>, req: Request)
  {
    Text.Trim(req.expectedEvent) != "" ==> repo.Some? && repo.value.event == Text.Trim(req.expectedEvent)
  }

  // It is read only to check an expectation.
  predicate ReadsRepository(req: Request) { req.expectedVersion.Some? || Text.Trim(req.expectedEvent) != "" }

  // ----- What the managed settings forbid -----

  // The settings say anything at all.
  predicate Binding(m: Managed)
  {
    m != Managed(false, false, false, false, None, [])
  }

  ghost predicate LayerIsKept(m: Managed, current: ConfigDoc, next: ConfigDoc)
  {
    Binding(m) ==> next.managedLayer == current.managedLayer
  }

  ghost predicate PermissionsAreKept(m: Managed, current: ConfigDoc, next: ConfigDoc)
  {
    m.requireToolApproval || m.managedRulesOnly || m.permissions.Some? ==> next.permissions == current.permissions
  }

  ghost predicate HooksAreKept(m: Managed, current: ConfigDoc, next: ConfigDoc)
  {
    m.hooksOnly ==> next.hooks == current.hooks
  }

  ghost predicate LockedPathsAreKept(w: World, m: Managed, current: ConfigDoc, next: ConfigDoc)
  {
    forall p | p in m.lockedPaths && Text.Trim(p) != "" ::
      w.pathValue(next, Text.Trim(p)) == w.pathValue(current, Text.Trim(p))
  }

  ghost predicate ManagedAllows(w: World, current: ConfigDoc, next: ConfigDoc)
  {
    current.managedLayer.Some? ==>
      var m := current.managedLayer.value;
      && LayerIsKept(m, current, next) && PermissionsAreKept(m, current, next)
      && HooksAreKept(m, current, next) && LockedPathsAreKept(w, m, current, next)
  }

  // ----- Exactly when each outcome happens -----

  ghost predicate Passes(w: World, s: Stores, req: Request, f: Faults, next: ConfigDoc)
  {
    && Asks(w, s.live, req, next)
    && (ReadsRepository(req) ==> !f.read) && VersionIsExpected(s.repo, req) && EventIsExpected(s.repo, req)
    && BaseIsCurrent(w, s.live, req)
    && w.valid(next) && ManagedAllows(w, AsNormal(w, s.live), next)
  }

  lemma {:induction false} PreconditionsIff(s: Stores, req: Request, f: Faults)
    ensures PreconditionsHold(s.repo, req, f) <==>
            (ReadsRepository(req) ==> !f.read) && VersionIsExpected(s.repo, req) && EventIsExpected(s.repo, req)
  {
  }

  lemma {:induction false} EnforcementIff(w: World, current: ConfigDoc, next: ConfigDoc)
    ensures EnforceManaged(w, current, next) <==> ManagedAllows(w, current, next)
  {
    if current.managedLayer.Some? {
      var m := current.managedLayer.value;
      assert m.Active() <==> Binding(m);
    }
  }

  lemma {:induction false} AdmittedIff(w: World, s: Stores, req: Request, f: Faults, next: ConfigDoc)
    ensures Admitted(w, s, req, f) == Some(next) <==> Passes(w, s, req, f, next)
  {
    PreconditionsIff(s, req, f);
    EnforcementIff(w, AsNormal(w, s.live), next);
    assert Normalize(w, s.live) == AsNormal(w, s.live);
    assert BuildNext(w, Normalize(w, s.live), req) == Some(next) <==> Asks(w, s.live, req, next);
  }

  // A commit is refused exactly when no document passes every check; one that passes is
  // skipped, fails at the file, fails at the repository, or is committed.
  lemma {:induction false} OutcomeIs(w: World, s: Stores, req: Request, f: Faults)
    ensures var out := Commit(w, s, req, f).1;
            && (out.Refused? <==> forall next :: !Passes(w, s, req, f, next))
            && (forall next | Passes(w, s, req, f, next) ::
                  out == if req.skipIfUnchanged && next == AsNormal(w, s.live) then Skipped
                         else if w.hasFile && f.file then FileFailed
                         else if f.put then RepoFailed(w.hasFile && f.rollback)
                         else Committed(next))
  {
    forall next ensures Admitted(w, s, req, f) == Some(next) <==> Passes(w, s, req, f, next) {
      AdmittedIff(w, s, req, f, next);
    }
    if Admitted(w, s, req, f).Some? {
      assert Passes(w, s, req, f, Admitted(w, s, req, f).value);
    }
  }

  // What a success says about the request and the document.
  lemma {:induction false} CommittedMeans(w: World, s: Stores, req: Request, f: Faults)
    requires Commit(w, s, req, f).1.Committed?
    ensures var next, current := Commit(w, s, req, f).1.next, AsNormal(w, s.live);
            && Asks(w, s.live, req, next) && w.valid(next)
            && (req.baseHash.Some? ==> req.baseHash == Some(Hash(current)))
            && VersionIsExpected(s.repo, req) && EventIsExpected(s.repo, req)
            && (current.managedLayer.Some? ==>
                  var m := current.managedLayer.value;
                  && LayerIsKept(m, current, next) && PermissionsAreKept(m, current, next)
                  && HooksAreKept(m, current, next) && LockedPathsAreKept(w, m, current, next))
  {
    AdmittedIff(w, s, req, f, Commit(w, s, req, f).1.next);
  }

  // One failed check is enough.
  lemma {:induction false} FailedCheckRefuses(w: World, s: Stores, req: Request, f: Faults)
    requires || !BaseIsCurrent(w, s.live, req) || !VersionIsExpected(s.repo, req) || !EventIsExpected(s.repo, req)
             || (ReadsRepository(req) && f.read)
             || (forall next | Asks(w, s.live, req, next) ::
                   !w.valid(next) || !ManagedAllows(w, AsNormal(w, s.live), next))
    ensures Commit(w, s, req, f) == (s, Refused)
  {
    OutcomeIs(w, s, req, f);
  }

  // No lost update: a client that read the live document after the first k commits and
  // names its hash succeeds later only if the live document is still the same.
  lemma {:induction false} BaseHashGuards(w: World, s: Stores, steps: seq<Step>, k: nat)
    requires k < |steps| && LastOutcome(w, s, steps).Committed?
    requires steps[|steps| - 1].req.baseHash == Some(Hash(AsNormal(w, Run(w, s, steps[..k]).live)))
    ensures AsNormal(w, Run(w, s, steps[..|steps| - 1]).live) == AsNormal(w, Run(w, s, steps[..k]).live)
  {
    var last := steps[|steps| - 1];
    CommittedMeans(w, Run(w, s, steps[..|steps| - 1]), last.req, last.faults);
  }

  // ----- What the managed settings do -----

  // The letters of "allow" in either case.
  predicate AnyCaseAllow(s: string)
  {
    |s| == 5 && forall i | 0 <= i < 5 :: s[i] == "allow"[i] || s[i] == "ALLOW"[i]
  }

  // Binding settings put their layer and their flag into a document and take charge of its
  // permissions; nothing else changes, and settings that say nothing change nothing.
  lemma {:induction false} ManagedDocument(doc: ConfigDoc, m: Managed)
    ensures var d := ApplyManaged(doc, m);
            && (!Binding(m) ==> d == doc)
            && (Binding(m) ==> d.managedLayer == Some(m))
            && (d.hooksOnlyFlag <==> doc.hooksOnlyFlag || m.hooksOnly)
            && d.version == doc.version && d.hooks == doc.hooks && d.body == doc.body
  {
    assert m.Active() <==> Binding(m);
  }

  lemma {:induction false} ManagedRules(doc: ConfigDoc, m: Managed)
    ensures var was, now := doc.permissions, ApplyManaged(doc, m).permissions;
            && (m.permissions.Some? ==>
                  now.rules == m.permissions.value.rules && now.agents == m.permissions.value.agents)
            && (m.permissions.None? && m.managedRulesOnly ==> now.rules == [] && now.agents == map[])
            && (m.permissions.None? && !m.managedRulesOnly ==> now.rules == was.rules && now.agents == was.agents)
  {
    assert m.Active() <==> Binding(m);
  }

  // With tool approval required, nothing is allowed by default.
  lemma {:induction false} ManagedDefault(doc: ConfigDoc, m: Managed)
    ensures var given := if m.permissions.Some? then m.permissions.value.defaultBehavior
                         else doc.permissions.defaultBehavior;
            ApplyManaged(doc, m).permissions.defaultBehavior ==
            if m.requireToolApproval && (given == "" || AnyCaseAllow(given)) then "ask" else given
  {
    assert m.Active() <==> Binding(m);
    var given := if m.permissions.Some? then m.permissions.value.defaultBehavior else doc.permissions.defaultBehavior;
    assert "allow"[0] == 'a' && "ALLOW"[0] == 'A' && "allow"[1] == 'l' && "ALLOW"[1] == 'L';
    assert "allow"[2] == 'l' && "ALLOW"[2] == 'L' && "allow"[3] == 'o' && "ALLOW"[3] == 'O';
    assert "allow"[4] == 'w' && "ALLOW"[4] == 'W';
    assert IsAllow(given) <==> AnyCaseAllow(given);
  }
}
