// cmd/metiqd/control_rpc_config.go: the config mutation commit, its preconditions and
// the config.put version rule; internal/config/managed.go: the managed settings layer
// that the live store applies on Set.
//
// One document is kept in three places: the config file, the repository and the live
// store.  Commits run one at a time under runtimeConfigCommitMu; every read and write
// may fail, as Faults says.
module ConfigCommit {
  import opened Wrappers
  import Text

  datatype Permissions = Permissions(defaultBehavior: string, rules: seq<string>, agents: map<string, string>)

  datatype Managed = Managed(
    disableBypass: bool,
    requireToolApproval: bool,
    hooksOnly: bool,
    managedRulesOnly: bool,
    permissions: Option<Permissions>,
    lockedPaths: seq<string>)
  {
    predicate Active()
    {
      disableBypass || requireToolApproval || hooksOnly || managedRulesOnly || permissions.Some? || lockedPaths != []
    }
  }

  // managedLayer and hooksOnlyFlag are extra.managed_settings and extra.managed_hooks_only;
  // body is everything else, including what normalisation rewrites.
  datatype ConfigDoc = ConfigDoc(
    version: int,
    permissions: Permissions,
    hooks: string,
    managedLayer: Option<Managed>,
    hooksOnlyFlag: bool,
    body: string)

  // SHA-256 of the document, taken to be injective; a client may send anything.
  datatype Digest = Hash(of: ConfigDoc) | NotAHash

  // What the commit calls but does not define, and the start-up settings.
  datatype World = World(
    normalizeBody: string -> string,
    pathValue: (ConfigDoc, string) -> Option<string>,
    valid: ConfigDoc -> bool,
    managed: Managed,
    hasFile: bool)

  ghost predicate Lawful(w: World)
  {
    forall b :: w.normalizeBody(w.normalizeBody(b)) == w.normalizeBody(b)
  }

  function Normalize(w: World, doc: ConfigDoc): ConfigDoc { doc.(body := w.normalizeBody(doc.body)) }

  predicate IsAllow(s: string)
  {
    |s| == 5 && (s[0] == 'a' || s[0] == 'A') && (s[1] == 'l' || s[1] == 'L') && (s[2] == 'l' || s[2] == 'L') &&
    (s[3] == 'o' || s[3] == 'O') && (s[4] == 'w' || s[4] == 'W')
  }

  function ManagedPermissions(p: Permissions, m: Managed): Permissions
  {
    var base := match m.permissions
                case Some(own) => own
                case None => if m.managedRulesOnly then p.(rules := [], agents := map[]) else p;
    if m.requireToolApproval && (base.defaultBehavior == "" || IsAllow(base.defaultBehavior))
    then base.(defaultBehavior := "ask")
    else base
  }

  function ApplyManaged(doc: ConfigDoc, m: Managed): ConfigDoc
  {
    if !m.Active() then doc
    else doc.(managedLayer := Some(m),
              permissions := ManagedPermissions(doc.permissions, m),
              hooksOnlyFlag := doc.hooksOnlyFlag || m.hooksOnly)
  }

  predicate EnforceManaged(w: World, current: ConfigDoc, candidate: ConfigDoc)
  {
    match current.managedLayer
    case None => true
    case Some(m) =>
      m.Active() ==>
        && candidate.managedLayer == current.managedLayer
        && (m.requireToolApproval || m.managedRulesOnly || m.permissions.Some? ==>
              candidate.permissions == current.permissions)
        && (m.hooksOnly ==> candidate.hooks == current.hooks)
        && (forall p | p in m.lockedPaths && Text.Trim(p) != "" ::
              w.pathValue(candidate, Text.Trim(p)) == w.pathValue(current, Text.Trim(p)))
  }

  // ----- One commit -----

  datatype Stored = Stored(doc: ConfigDoc, event: string)
  datatype Stores = Stores(file: Option<ConfigDoc>, repo: Option<Stored>, live: ConfigDoc)

  datatype Request = Request(
    baseHash: Option<Digest>,   // None: blank
    expectedVersion: Option<int>,
    expectedEvent: string,
    skipIfUnchanged: bool,
    build: ConfigDoc -> Option<ConfigDoc>,
    prepare: Option<(ConfigDoc, ConfigDoc) -> Option<ConfigDoc>>)

  datatype Faults = Faults(read: bool, file: bool, put: bool, rollback: bool, newEvent: string)

  datatype Outcome =
    | Committed(next: ConfigDoc)
    | Skipped
    | Refused           // before any write
    | FileFailed
    | RepoFailed(partial: bool)

  predicate PreconditionsHold(repo: Option<Stored>, req: Request, f: Faults)
  {
    var event := Text.Trim(req.expectedEvent);
    if req.expectedVersion.None? && event == "" then true
    else if f.read then false
    else match repo
      case None => req.expectedVersion == Some(0) && event == ""
      case Some(stored) =>
        && (req.expectedVersion.Some? ==>
              req.expectedVersion.value != 0 && stored.doc.version == req.expectedVersion.value)
        && (event != "" ==> stored.event == event)
  }

  function BuildNext(w: World, current: ConfigDoc, req: Request): Option<ConfigDoc>
  {
    match req.build(current)
    case None => None
    case Some(built) =>
      var next := Normalize(w, built);
      match req.prepare
      case None => Some(next)
      case Some(prepare) =>
        match prepare(current, next)
        case None => None
        case Some(prepared) => Some(Normalize(w, prepared))
  }

  // The document a request asks to commit, when every check lets it through.
  function Admitted(w: World, s: Stores, req: Request, f: Faults): Option<ConfigDoc>
  {
    var current := Normalize(w, s.live);
    if !PreconditionsHold(s.repo, req, f) then None
    else match BuildNext(w, current, req)
      case None => None
      case Some(next) =>
        if req.baseHash.Some? && Hash(current) != req.baseHash.value then None
        else if !w.valid(next) || !EnforceManaged(w, current, next) then None
        else Some(next)
  }

  function WriteFile(w: World, s: Stores, doc: ConfigDoc): Stores
  {
    if w.hasFile then s.(file := Some(doc)) else s
  }

  function SetLive(w: World, s: Stores, doc: ConfigDoc): Stores
  {
    s.(live := Normalize(w, ApplyManaged(doc, w.managed)))
  }

  function Commit(w: World, s: Stores, req: Request, f: Faults): (Stores, Outcome)
  {
    match Admitted(w, s, req, f)
    case None => (s, Refused)
    case Some(next) =>
      var current := Normalize(w, s.live);
      if req.skipIfUnchanged && Hash(current) == Hash(next) then (s, Skipped)
      else if w.hasFile && f.file then (s, FileFailed)
      else
        var s1 := WriteFile(w, s, next);
        if f.put then
          if w.hasFile && f.rollback then (s1, RepoFailed(true))
          else (WriteFile(w, s1, current), RepoFailed(false))
        else
          var s2 := s1.(repo := Some(Stored(next, f.newEvent)));
          (if Hash(s2.live) != Hash(next) then SetLive(w, s2, next) else s2, Committed(next))
  }

  // The same, as the stores are written step by step.
  class ConfigStores {
    var file: Option<ConfigDoc>
    var repo: Option<Stored>
    var live: ConfigDoc

    ghost function State(): Stores
      reads this
    {
      Stores(file, repo, live)
    }

    constructor (initial: Stores)
      ensures State() == initial
    {
      file, repo, live := initial.file, initial.repo, initial.live;
    }

    method PersistFile(w: World, doc: ConfigDoc, fails: bool) returns (ok: bool)
      modifies this`file
      ensures ok == !(w.hasFile && fails)
      ensures State() == if ok then WriteFile(w, old(State()), doc) else old(State())
    {
      if !w.hasFile {
        return true;
      }
      if fails {
        return false;
      }
      file := Some(doc);
      ok := true;
    }

    method CommitMutation(w: World, req: Request, f: Faults) returns (out: Outcome)
      modifies this
      ensures (State(), out) == Commit(w, old(State()), req, f)
    {
      var current := Normalize(w, live);
      if req.expectedVersion.Some? || Text.Trim(req.expectedEvent) != "" {
        if !PreconditionsHold(repo, req, f) {
          return Refused;
        }
      }
      var next := BuildNext(w, current, req);
      if next.None? {
        return Refused;
      }
      if req.baseHash.Some? && Hash(current) != req.baseHash.value {
        return Refused;
      }
      if !w.valid(next.value) || !EnforceManaged(w, current, next.value) {
        return Refused;
      }
      if req.skipIfUnchanged && Hash(current) == Hash(next.value) {
        return Skipped;
      }
      var written := PersistFile(w, next.value, f.file);
      if !written {
        return FileFailed;
      }
      if f.put {
        var restored := PersistFile(w, current, f.rollback);
        return RepoFailed(!restored);
      }
      repo := Some(Stored(next.value, f.newEvent));
      if Hash(live) != Hash(next.value) {
        live := Normalize(w, ApplyManaged(next.value, w.managed));
      }
      out := Committed(next.value);
    }

    // applyRuntimeConfigReloadIfChanged: a changed file goes live as it is, with no
    // managed settings applied.
    method ReloadIfChanged(w: World, doc: ConfigDoc) returns (changed: bool)
      modifies this`live
      ensures changed <==> old(live) != Normalize(w, doc)
      ensures live == Normalize(w, doc)
    {
      var normal := Normalize(w, doc);
      if Hash(live) == Hash(normal) {
        return false;
      }
      live := normal;
      changed := true;
    }
  }

  // ----- Agreement -----

  ghost predicate RepoAgrees(w: World, s: Stores)
  {
    s.repo.Some? && Hash(s.repo.value.doc) == Hash(s.live)
  }

  ghost predicate FileAgrees(w: World, s: Stores)
  {
    w.hasFile ==> s.file.Some? && Hash(s.file.value) == Hash(s.live)
  }

  // The live document is one that Set leaves behind.
  ghost predicate LiveIsSettled(w: World, s: Stores)
  {
    Normalize(w, s.live) == s.live && ApplyManaged(s.live, w.managed) == s.live
  }

  // The one managed rule that EnforceManagedSettings does not check of a candidate.
  predicate KeepsHooksFlag(w: World, next: ConfigDoc)
  {
    w.managed.hooksOnly ==> next.hooksOnlyFlag
  }

  lemma ApplyManagedIsIdempotent(doc: ConfigDoc, m: Managed)
    ensures ApplyManaged(ApplyManaged(doc, m), m) == ApplyManaged(doc, m)
  {
  }

  // Enforcement against a settled document makes a candidate settled, but for the flag.
  lemma EnforcedIsSettledButForTheFlag(w: World, s: Stores, next: ConfigDoc)
    requires LiveIsSettled(w, s) && EnforceManaged(w, Normalize(w, s.live), next)
    ensures ApplyManaged(next, w.managed) == next <==> KeepsHooksFlag(w, next)
  {
    if w.managed.Active() {
      assert s.live.managedLayer == Some(w.managed);
      assert ManagedPermissions(s.live.permissions, w.managed) == s.live.permissions;
    }
  }

  lemma AdmittedIsNormal(w: World, s: Stores, req: Request, f: Faults)
    requires Lawful(w) && Admitted(w, s, req, f).Some?
    ensures Normalize(w, Admitted(w, s, req, f).value) == Admitted(w, s, req, f).value
  {
  }

  // What each outcome leaves in the three stores.
  lemma CommitFrame(w: World, s: Stores, req: Request, f: Faults)
    requires Lawful(w) && LiveIsSettled(w, s)
    ensures var (s', out) := Commit(w, s, req, f);
            match out
            case Committed(next) =>
              && s'.repo == Some(Stored(next, f.newEvent))
              && (w.hasFile ==> s'.file == Some(next))
              && s'.live == ApplyManaged(next, w.managed)
            case Skipped => s' == s && Admitted(w, s, req, f) == Some(s.live)
            case Refused => s' == s && Admitted(w, s, req, f).None?
            case FileFailed => s' == s && w.hasFile
            case RepoFailed(false) => s' == WriteFile(w, s, s.live)
            case RepoFailed(true) => w.hasFile && s' == s.(file := Admitted(w, s, req, f))
  {
    if Admitted(w, s, req, f).Some? {
      AdmittedIsNormal(w, s, req, f);
      EnforcedIsSettledButForTheFlag(w, s, Admitted(w, s, req, f).value);
    }
  }

  lemma CommitKeepsLiveSettled(w: World, s: Stores, req: Request, f: Faults)
    requires Lawful(w) && LiveIsSettled(w, s)
    ensures LiveIsSettled(w, Commit(w, s, req, f).0)
  {
    CommitFrame(w, s, req, f);
    var out := Commit(w, s, req, f).1;
    if out.Committed? {
      AdmittedIsNormal(w, s, req, f);
      ApplyManagedIsIdempotent(out.next, w.managed);
    }
  }

  // A successful write leaves the three stores in agreement exactly when the document
  // written keeps the managed hooks flag.
  lemma CommittedAgreesIff(w: World, s: Stores, req: Request, f: Faults)
    requires Lawful(w) && LiveIsSettled(w, s)
    requires Commit(w, s, req, f).1.Committed?
    ensures var (s', out) := Commit(w, s, req, f);
            (RepoAgrees(w, s') && FileAgrees(w, s')) <==> KeepsHooksFlag(w, out.next)
  {
    CommitFrame(w, s, req, f);
    var next := Commit(w, s, req, f).1.next;
    EnforcedIsSettledButForTheFlag(w, s, next);
  }

  // A non-partial error changes nothing, unless it rolls back over a file that an
  // earlier partial failure left behind; then it repairs the file.
  lemma NonPartialErrorFrame(w: World, s: Stores, req: Request, f: Faults)
    requires Lawful(w) && LiveIsSettled(w, s)
    requires var out := Commit(w, s, req, f).1;
             out.Refused? || out.FileFailed? || out == RepoFailed(false)
    ensures var (s', out) := Commit(w, s, req, f);
            && s'.repo == s.repo && s'.live == s.live
            && (s' == s <==> out != RepoFailed(false) || FileAgrees(w, s))
            && (out == RepoFailed(false) ==> FileAgrees(w, s'))
  {
    CommitFrame(w, s, req, f);
  }

  // ----- Runs -----

  datatype Step = Step(req: Request, faults: Faults)

  function Run(w: World, s: Stores, steps: seq<Step>): Stores
  {
    if steps == [] then s
    else
      var last := steps[|steps| - 1];
      Commit(w, Run(w, s, steps[..|steps| - 1]), last.req, last.faults).0
  }

  function LastOutcome(w: World, s: Stores, steps: seq<Step>): Outcome
    requires steps != []
  {
    var last := steps[|steps| - 1];
    Commit(w, Run(w, s, steps[..|steps| - 1]), last.req, last.faults).1
  }

  // A partial failure stands until a later write reaches the file.
  predicate PartialStands(w: World, s: Stores, steps: seq<Step>)
  {
    steps != [] &&
    match LastOutcome(w, s, steps)
    case RepoFailed(partial) => partial
    case Committed(_) => false
    case _ => PartialStands(w, s, steps[..|steps| - 1])
  }

  predicate AllKeepHooksFlag(w: World, s: Stores, steps: seq<Step>)
  {
    steps != [] ==>
      var out := LastOutcome(w, s, steps);
      && (out.Committed? ==> KeepsHooksFlag(w, out.next))
      && AllKeepHooksFlag(w, s, steps[..|steps| - 1])
  }

  lemma {:induction false} RunKeepsLiveSettled(w: World, s: Stores, steps: seq<Step>)
    requires Lawful(w) && LiveIsSettled(w, s)
    ensures LiveIsSettled(w, Run(w, s, steps))
  {
    if steps != [] {
      var front, last := steps[..|steps| - 1], steps[|steps| - 1];
      RunKeepsLiveSettled(w, s, front);
      CommitKeepsLiveSettled(w, Run(w, s, front), last.req, last.faults);
    }
  }

  // Safety over whole runs: the repository and the live store always agree, and so does
  // the file, unless a partial failure was reported and nothing has reached the file since.
  lemma {:induction false} RunAgreement(w: World, s: Stores, steps: seq<Step>)
    requires Lawful(w) && LiveIsSettled(w, s) && RepoAgrees(w, s) && FileAgrees(w, s)
    requires AllKeepHooksFlag(w, s, steps)
    ensures RepoAgrees(w, Run(w, s, steps))
    ensures FileAgrees(w, Run(w, s, steps)) || PartialStands(w, s, steps)
  {
    if steps != [] {
      var front, last := steps[..|steps| - 1], steps[|steps| - 1];
      RunAgreement(w, s, front);
      RunKeepsLiveSettled(w, s, front);
      var t := Run(w, s, front);
      CommitFrame(w, t, last.req, last.faults);
      if LastOutcome(w, s, steps).Committed? {
        CommittedAgreesIff(w, t, last.req, last.faults);
      }
    }
  }

  // ----- Exactly when the copies agree -----

  // A document that the live store takes over unchanged.
  predicate GoesLiveAsIs(w: World, live: ConfigDoc, next: ConfigDoc)
  {
    next == live || ApplyManaged(next, w.managed) == next
  }

  ghost predicate LiveIsNormal(w: World, s: Stores) { Normalize(w, s.live) == s.live }

  // What one commit does to each agreement, from any normal live document.
  lemma {:induction false} CommitAgreesIff(w: World, s: Stores, req: Request, f: Faults)
    requires Lawful(w) && LiveIsNormal(w, s)
    ensures var (s', out) := Commit(w, s, req, f);
            && LiveIsNormal(w, s')
            && (RepoAgrees(w, s') <==>
                if out.Committed? then GoesLiveAsIs(w, s.live, out.next) else RepoAgrees(w, s))
            && (FileAgrees(w, s') <==>
                !w.hasFile ||
                match out
                case Committed(next) => GoesLiveAsIs(w, s.live, next)
                case RepoFailed(partial) => partial ==> Admitted(w, s, req, f) == Some(s.live)
                case _ => FileAgrees(w, s))
  {
    if Admitted(w, s, req, f).Some? {
      AdmittedIsNormal(w, s, req, f);
    }
  }

  // The state before the last step.
  function Before(w: World, s: Stores, steps: seq<Step>): Stores
    requires steps != []
  {
    Run(w, s, steps[..|steps| - 1])
  }

  // The last document that reached the repository went live as it is.
  predicate RepoFollowed(w: World, s: Stores, steps: seq<Step>)
  {
    steps != [] ==>
      match LastOutcome(w, s, steps)
      case Committed(next) => GoesLiveAsIs(w, Before(w, s, steps).live, next)
      case _ => RepoFollowed(w, s, steps[..|steps| - 1])
  }

  // The last document that reached the file is the live one, or went live as it is.
  predicate FileFollowed(w: World, s: Stores, steps: seq<Step>)
  {
    steps != [] ==>
      var last, t := steps[|steps| - 1], Before(w, s, steps);
      match LastOutcome(w, s, steps)
      case Committed(next) => GoesLiveAsIs(w, t.live, next)
      case RepoFailed(partial) => partial ==> Admitted(w, t, last.req, last.faults) == Some(t.live)
      case _ => FileFollowed(w, s, steps[..|steps| - 1])
  }

  // Over every run, with any failures: each stored copy agrees with the live document if
  // and only if the last write that reached that copy went live unchanged.
  lemma {:induction false} RunAgreesIff(w: World, s: Stores, steps: seq<Step>)
    requires Lawful(w) && LiveIsNormal(w, s) && RepoAgrees(w, s) && FileAgrees(w, s)
    ensures LiveIsNormal(w, Run(w, s, steps))
    ensures RepoAgrees(w, Run(w, s, steps)) <==> RepoFollowed(w, s, steps)
    ensures FileAgrees(w, Run(w, s, steps)) <==> !w.hasFile || FileFollowed(w, s, steps)
  {
    if steps != [] {
      var front, last := steps[..|steps| - 1], steps[|steps| - 1];
      RunAgreesIff(w, s, front);
      CommitAgreesIff(w, Run(w, s, front), last.req, last.faults);
    }
  }

  // The agreement promised without the flag condition does fail: a commit that carries
  // the managed layer but not the flag leaves file and repository without it, and live
  // with it.
  lemma AgreementCanFail() returns (w: World, s: Stores, req: Request, f: Faults)
    ensures Lawful(w) && LiveIsSettled(w, s) && RepoAgrees(w, s) && FileAgrees(w, s)
    ensures Commit(w, s, req, f).1.Committed?
    ensures !RepoAgrees(w, Commit(w, s, req, f).0)
  {
    var m := Managed(false, false, true, false, None, []);
    var live := ConfigDoc(1, Permissions("", [], map[]), "", Some(m), true, "");
    var next := live.(hooksOnlyFlag := false);
    w := World(b => "", (d, p) => None, d => true, m, false);
    s := Stores(None, Some(Stored(live, "")), live);
    req := Request(None, None, "", false, d => Some(next), None);
    f := Faults(false, false, false, false, "");
    EnforcedIsSettledButForTheFlag(w, s, next);
    CommittedAgreesIff(w, s, req, f);
  }

  // ----- config.put -----

  datatype Put = Put(doc: ConfigDoc, expected: int, event: string, baseHash: Option<Digest>, faults: Faults)

  function NewVersion(expected: int): int { if expected > 0 then expected + 1 else 1 }

  function PutStep(p: Put): Step
  {
    Step(Request(p.baseHash, Some(p.expected), p.event, false,
                 c => Some(p.doc),
                 Some((c: ConfigDoc, n: ConfigDoc) => Some(n.(version := NewVersion(p.expected))))),
         p.faults)
  }

  function PutSteps(puts: seq<Put>): seq<Step> { seq(|puts|, i requires 0 <= i < |puts| => PutStep(puts[i])) }

  function StoredVersion(s: Stores): int { if s.repo.None? then 0 else s.repo.value.doc.version }

  // The expected versions that successful puts carried, in order.
  function Successes(w: World, s: Stores, puts: seq<Put>): seq<int>
  {
    if puts == [] then []
    else
      var n := |puts| - 1;
      Successes(w, s, puts[..n]) +
      if Commit(w, Run(w, s, PutSteps(puts[..n])), PutStep(puts[n]).req, puts[n].faults).1.Committed?
      then [puts[n].expected] else []
  }

  lemma OnePut(w: World, s: Stores, p: Put)
    ensures var (s', out) := Commit(w, s, PutStep(p).req, p.faults);
            if out.Committed?
            then p.expected == StoredVersion(s) && s'.repo.Some? && StoredVersion(s') == NewVersion(p.expected)
            else s'.repo == s.repo
  {
    var admitted := Admitted(w, s, PutStep(p).req, p.faults);
    if admitted.Some? {
      assert admitted.value.version == NewVersion(p.expected);
    }
  }

  // Optimistic concurrency: starting from an empty repository, the n-th successful put is
  // the one that expected version n - 1, whatever fails in between.
  lemma {:induction false} PutVersionsCount(w: World, s: Stores, puts: seq<Put>)
    requires s.repo.None?
    ensures var won := Successes(w, s, puts);
            var t := Run(w, s, PutSteps(puts));
            && StoredVersion(t) == |won|
            && (t.repo.Some? <==> won != [])
            && (forall i | 0 <= i < |won| :: won[i] == i)
  {
    if puts != [] {
      var n := |puts| - 1;
      PutVersionsCount(w, s, puts[..n]);
      assert PutSteps(puts)[..n] == PutSteps(puts[..n]);
      OnePut(w, Run(w, s, PutSteps(puts[..n])), puts[n]);
    }
  }
}
