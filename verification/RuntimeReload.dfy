// cmd/metiqd/agent_runtime_reload.go: the hot-reload of agent runtimes, against the
// runtime registry of internal/agent/registry.go.
module RuntimeReload {
  import opened Wrappers
  import Text

  // `settings` is the rest of an agent's configuration.
  datatype Agent = Agent(id: string, model: string, settings: string)

  datatype Config = Config(agents: seq<Agent>, providers: string)

  // SHA-256 over the agent and the providers table, taken to be injective.
  datatype Fingerprint = Fingerprint(agent: Agent, providers: string)

  // A runtime remembers what it was built from; some were not built here.
  datatype Runtime = BuiltFrom(source: Fingerprint) | Foreign

  datatype State = State(applied: Option<map<string, Fingerprint>>, cache: map<string, Runtime>, default_: Runtime)

  function Id(cfg: Config, i: nat): string
    requires i < |cfg.agents|
  {
    Text.Trim(cfg.agents[i].id)
  }

  function Print(cfg: Config, i: nat): Fingerprint
    requires i < |cfg.agents|
  {
    Fingerprint(cfg.agents[i], cfg.providers)
  }

  // ----- One reload -----

  function Installed(s: State, id: string): Option<Runtime>
  {
    if id == "main" then Some(s.default_) else if id in s.cache then Some(s.cache[id]) else None
  }

  function Install(s: State, id: string, rt: Runtime): State
  {
    if id == "main" then s.(default_ := rt) else s.(cache := s.cache[id := rt])
  }

  // Whether visiting agent i tries to build a runtime.
  predicate Builds(s: State, cfg: Config, i: nat)
    requires s.applied.Some? && i < |cfg.agents|
  {
    var id := Id(cfg, i);
    id != "" && !(id in s.applied.value && s.applied.value[id] == Print(cfg, i)) && Text.Trim(cfg.agents[i].model) != ""
  }

  function Visit(s: State, cfg: Config, i: nat, ok: bool): (t: State)
    requires s.applied.Some? && i < |cfg.agents|
    ensures t.applied.Some?
  {
    if !Builds(s, cfg, i) || !ok then s
    else
      var id := Id(cfg, i);
      Install(s, id, BuiltFrom(Print(cfg, i))).(applied := Some(s.applied.value[id := Print(cfg, i)]))
  }

  // After the first n agents; succeeds(i) is whether agent i's build does.
  function Sweep(s: State, cfg: Config, succeeds: nat -> bool, n: nat): (t: State)
    requires s.applied.Some? && n <= |cfg.agents|
    ensures t.applied.Some?
  {
    if n == 0 then s else Visit(Sweep(s, cfg, succeeds, n - 1), cfg, n - 1, succeeds(n - 1))
  }

  predicate Attempted(s: State, cfg: Config, succeeds: nat -> bool, i: nat)
    requires s.applied.Some? && i < |cfg.agents|
  {
    Builds(Sweep(s, cfg, succeeds, i), cfg, i)
  }

  function PresentUpTo(cfg: Config, n: nat): set<string>
    requires n <= |cfg.agents|
  {
    if n == 0 then {} else PresentUpTo(cfg, n - 1) + if Id(cfg, n - 1) != "" then {Id(cfg, n - 1)} else {}
  }

  function Present(cfg: Config): set<string> { PresentUpTo(cfg, |cfg.agents|) }

  lemma {:induction false} ListedIsPresent(cfg: Config, i: nat, n: nat)
    requires i < n <= |cfg.agents| && Id(cfg, i) != ""
    ensures Id(cfg, i) in PresentUpTo(cfg, n)
  {
    if i < n - 1 { ListedIsPresent(cfg, i, n - 1); }
  }

  function Prune(s: State, keep: set<string>): State
    requires s.applied.Some?
  {
    var gone := s.applied.value.Keys - keep - {"main"};
    s.(applied := Some(s.applied.value - gone), cache := s.cache - gone)
  }

  // agentRuntimeFingerprints: a later agent with the same id wins.
  function Prints(cfg: Config, only: Option<set<string>>, n: nat): map<string, Fingerprint>
    requires n <= |cfg.agents|
  {
    if n == 0 then map[]
    else
      var front, id := Prints(cfg, only, n - 1), Id(cfg, n - 1);
      if id != "" && (only.None? || id in only.value) then front[id := Print(cfg, n - 1)] else front
  }

  function Seed(s: State, cfg: Config, installed: set<string>): State
  {
    s.(applied := Some(Prints(cfg, Some(installed), |cfg.agents|)))
  }

  function Reload(s: State, cfg: Config, succeeds: nat -> bool): State
  {
    if s.applied.None? then s.(applied := Some(Prints(cfg, None, |cfg.agents|)))
    else Prune(Sweep(s, cfg, succeeds, |cfg.agents|), Present(cfg))
  }

  class Reloader {
    var applied: Option<map<string, Fingerprint>>
    var cache: map<string, Runtime>
    var default_: Runtime

    ghost function Now(): State
      reads this
    {
      State(applied, cache, default_)
    }

    constructor (initial: State)
      ensures Now() == initial
    {
      applied, cache, default_ := initial.applied, initial.cache, initial.default_;
    }

    // The startup loop over the configured agents.
    method Provision(cfg: Config, succeeds: nat -> bool) returns (installed: set<string>)
      modifies this`cache, this`default_
      ensures (Now(), installed) == Start(old(Now()), old(cache).Keys, cfg, succeeds, |cfg.agents|)
    {
      var registered := cache.Keys;
      installed := {};
      for i := 0 to |cfg.agents|
        invariant applied == old(applied)
        invariant (Now(), installed) == Start(old(Now()), old(cache).Keys, cfg, succeeds, i)
      {
        var id := Text.Trim(cfg.agents[i].id);
        if id == "" || Text.Trim(cfg.agents[i].model) == "" {
          continue;
        }
        if id != "main" && id in registered {
          installed := installed + {id};
          continue;
        }
        if !succeeds(i) {
          continue;
        }
        installed := installed + {id};
        if id == "main" {
          default_ := BuiltFrom(Print(cfg, i));
        } else {
          cache := cache[id := BuiltFrom(Print(cfg, i))];
        }
      }
    }

    method Fingerprints(cfg: Config, only: Option<set<string>>) returns (prints: map<string, Fingerprint>)
      ensures prints == Prints(cfg, only, |cfg.agents|)
    {
      prints := map[];
      for i := 0 to |cfg.agents|
        invariant prints == Prints(cfg, only, i)
      {
        var id := Text.Trim(cfg.agents[i].id);
        if id != "" && (only.None? || id in only.value) {
          prints := prints[id := Print(cfg, i)];
        }
      }
    }

    method SeedBaseline(cfg: Config, installed: set<string>)
      modifies this`applied
      ensures Now() == Seed(old(Now()), cfg, installed)
    {
      var prints := Fingerprints(cfg, Some(installed));
      applied := Some(prints);
    }

    method Reprovision(cfg: Config, succeeds: nat -> bool, hasRegistry: bool)
      modifies this
      ensures Now() == if hasRegistry || old(applied).None? then Reload(old(Now()), cfg, succeeds) else old(Now())
    {
      if applied.None? {
        var prints := Fingerprints(cfg, None);
        applied := Some(prints);
        return;
      }
      if !hasRegistry {
        return;
      }
      var present := SweepAgents(cfg, succeeds);
      DropAbsent(present);
    }

    method SweepAgents(cfg: Config, succeeds: nat -> bool) returns (present: set<string>)
      requires applied.Some?
      modifies this
      ensures present == Present(cfg)
      ensures applied.Some? && Now() == Sweep(old(Now()), cfg, succeeds, |cfg.agents|)
    {
      present := {};
      for i := 0 to |cfg.agents|
        invariant applied.Some? && Now() == Sweep(old(Now()), cfg, succeeds, i)
        invariant present == PresentUpTo(cfg, i)
      {
        var id := Text.Trim(cfg.agents[i].id);
        if id == "" {
          continue;
        }
        present := present + {id};
        var mark := Print(cfg, i);
        if id in applied.value && applied.value[id] == mark {
          continue;
        }
        if Text.Trim(cfg.agents[i].model) == "" || !succeeds(i) {
          continue;
        }
        if id == "main" {
          default_ := BuiltFrom(mark);
        } else {
          cache := cache[id := BuiltFrom(mark)];
        }
        applied := Some(applied.value[id := mark]);
      }
    }

    method DropAbsent(present: set<string>)
      requires applied.Some?
      modifies this`applied, this`cache
      ensures Now() == Prune(old(Now()), present)
    {
      var prints, rest := Dropped(applied.value, cache, present);
      applied, cache := Some(prints), rest;
    }
  }

  // The loop over the applied fingerprints: an absent agent other than main loses both.
  method Dropped<V>(prints: map<string, Fingerprint>, cache: map<string, V>, present: set<string>)
    returns (p: map<string, Fingerprint>, c: map<string, V>)
    ensures var gone := prints.Keys - present - {"main"}; p == prints - gone && c == cache - gone
  {
    p, c := prints, cache;
    var todo := prints.Keys;
    while todo != {}
      invariant todo <= prints.Keys
      invariant forall id :: id in p <==> id in prints && (id in todo || id in present || id == "main")
      invariant forall id | id in p :: p[id] == prints[id]
      invariant forall id :: id in c <==> id in cache && (id !in prints || id in todo || id in present || id == "main")
      invariant forall id | id in c :: c[id] == cache[id]
      decreases |todo|
    {
      var id :| id in todo;
      todo := todo - {id};
      if id !in present && id != "main" {
        c := c - {id};
        p := p - {id};
      }
    }
  }

  // ----- The applied fingerprints are those of the installed runtimes -----

  ghost predicate Faithful(s: State)
  {
    s.applied.Some? &&
    forall id | id in s.applied.value :: Installed(s, id) == Some(BuiltFrom(s.applied.value[id]))
  }

  lemma VisitKeepsFaithful(s: State, cfg: Config, i: nat, ok: bool)
    requires Faithful(s) && i < |cfg.agents|
    ensures Faithful(Visit(s, cfg, i, ok))
  {
  }

  lemma {:induction false} SweepKeepsFaithful(s: State, cfg: Config, succeeds: nat -> bool, n: nat)
    requires Faithful(s) && n <= |cfg.agents|
    ensures Faithful(Sweep(s, cfg, succeeds, n))
  {
    if n > 0 {
      SweepKeepsFaithful(s, cfg, succeeds, n - 1);
      VisitKeepsFaithful(Sweep(s, cfg, succeeds, n - 1), cfg, n - 1, succeeds(n - 1));
    }
  }

  lemma ReloadKeepsFaithful(s: State, cfg: Config, succeeds: nat -> bool)
    requires Faithful(s)
    ensures Faithful(Reload(s, cfg, succeeds))
  {
    SweepKeepsFaithful(s, cfg, succeeds, |cfg.agents|);
  }

  datatype Event = Event(cfg: Config, succeeds: nat -> bool)

  function Run(s: State, events: seq<Event>): State
  {
    if events == [] then s
    else
      var last := events[|events| - 1];
      Reload(Run(s, events[..|events| - 1]), last.cfg, last.succeeds)
  }

  // From a faithful baseline, over every run of reloads and build failures.
  lemma {:induction false} RunKeepsFaithful(s: State, events: seq<Event>)
    requires Faithful(s)
    ensures Faithful(Run(s, events))
  {
    if events != [] {
      var front, last := events[..|events| - 1], events[|events| - 1];
      RunKeepsFaithful(s, front);
      ReloadKeepsFaithful(Run(s, front), last.cfg, last.succeeds);
    }
  }

  // ----- When the baseline is faithful -----

  // i is the last agent with its id.
  predicate LastOf(cfg: Config, i: nat, n: nat)
  {
    i < n <= |cfg.agents| && forall j | i < j < n :: Id(cfg, j) != Id(cfg, i)
  }

  predicate Selected(cfg: Config, only: Option<set<string>>, i: nat)
    requires i < |cfg.agents|
  {
    Id(cfg, i) != "" && (only.None? || Id(cfg, i) in only.value)
  }

  lemma {:induction false} StillLast(cfg: Config, i: nat, n: nat)
    requires 0 < n <= |cfg.agents| && LastOf(cfg, i, n - 1) && Id(cfg, n - 1) != Id(cfg, i)
    ensures LastOf(cfg, i, n)
  {
  }

  lemma {:induction false} LastIsRecorded(cfg: Config, only: Option<set<string>>, i: nat, n: nat)
    requires LastOf(cfg, i, n) && Selected(cfg, only, i)
    ensures Id(cfg, i) in Prints(cfg, only, n) && Prints(cfg, only, n)[Id(cfg, i)] == Print(cfg, i)
    decreases n
  {
    if i < n - 1 {
      assert Id(cfg, n - 1) != Id(cfg, i);
      LastIsRecorded(cfg, only, i, n - 1);
    }
  }

  lemma {:induction false} RecordedIsLast(cfg: Config, only: Option<set<string>>, id: string, n: nat) returns (i: nat)
    requires n <= |cfg.agents| && id in Prints(cfg, only, n)
    ensures LastOf(cfg, i, n) && Id(cfg, i) == id && Selected(cfg, only, i)
    decreases n
  {
    if Id(cfg, n - 1) == id && Selected(cfg, only, n - 1) {
      i := n - 1;
    } else {
      i := RecordedIsLast(cfg, only, id, n - 1);
      StillLast(cfg, i, n);
    }
  }

  // Recording the fingerprints of some agents is faithful exactly when the runtime of the
  // last agent with each recorded id is installed for it.
  lemma {:induction false} RecordIsFaithfulIff(s: State, cfg: Config, only: Option<set<string>>)
    ensures Faithful(s.(applied := Some(Prints(cfg, only, |cfg.agents|)))) <==>
            forall i: nat | LastOf(cfg, i, |cfg.agents|) && Selected(cfg, only, i) ::
              Installed(s, Id(cfg, i)) == Some(BuiltFrom(Print(cfg, i)))
  {
    var n := |cfg.agents|;
    var t := s.(applied := Some(Prints(cfg, only, n)));
    if Faithful(t) {
      forall i: nat | LastOf(cfg, i, n) && Selected(cfg, only, i)
        ensures Installed(s, Id(cfg, i)) == Some(BuiltFrom(Print(cfg, i)))
      {
        LastIsRecorded(cfg, only, i, n);
        assert Installed(t, Id(cfg, i)) == Installed(s, Id(cfg, i));
      }
    } else {
      var id :| id in t.applied.value && Installed(t, id) != Some(BuiltFrom(t.applied.value[id]));
      var i := RecordedIsLast(cfg, only, id, n);
      LastIsRecorded(cfg, only, i, n);
      assert Installed(s, Id(cfg, i)) != Some(BuiltFrom(Print(cfg, i)));
    }
  }

  // So for the seeded baseline, of the ids that startup reports,
  lemma {:induction false} SeedIsFaithfulIff(s: State, cfg: Config, installed: set<string>)
    ensures Faithful(Seed(s, cfg, installed)) <==>
            forall i: nat | LastOf(cfg, i, |cfg.agents|) && Selected(cfg, Some(installed), i) ::
              Installed(s, Id(cfg, i)) == Some(BuiltFrom(Print(cfg, i)))
  {
    RecordIsFaithfulIff(s, cfg, Some(installed));
  }

  // and for a first reload without a baseline, of every id.
  lemma {:induction false} FirstReloadIsFaithfulIff(s: State, cfg: Config, succeeds: nat -> bool)
    requires s.applied.None?
    ensures Faithful(Reload(s, cfg, succeeds)) <==>
            forall i: nat | LastOf(cfg, i, |cfg.agents|) && Selected(cfg, None, i) ::
              Installed(s, Id(cfg, i)) == Some(BuiltFrom(Print(cfg, i)))
  {
    RecordIsFaithfulIff(s, cfg, None);
  }

  // Without a baseline the first reload records fingerprints of runtimes nobody built.
  lemma {:induction false} FirstReloadWithoutBaseline(s: State, cfg: Config, succeeds: nat -> bool, i: nat)
    requires s.applied.None? && s.cache == map[]
    requires LastOf(cfg, i, |cfg.agents|) && Id(cfg, i) != "" && Id(cfg, i) != "main"
    ensures !Faithful(Reload(s, cfg, succeeds))
  {
    FirstReloadIsFaithfulIff(s, cfg, succeeds);
    assert Selected(cfg, None, i) && Installed(s, Id(cfg, i)).None?;
  }

  // ----- Startup -----

  // The id already has a runtime from a stored document.
  predicate Documented(docs: set<string>, cfg: Config, i: nat)
    requires i < |cfg.agents|
  {
    Id(cfg, i) != "main" && Id(cfg, i) in docs
  }

  predicate BuiltAtStart(docs: set<string>, cfg: Config, succeeds: nat -> bool, i: nat)
    requires i < |cfg.agents|
  {
    Buildable(cfg, i) && !Documented(docs, cfg, i) && succeeds(i)
  }

  // After the first n agents: the registry, and the ids reported as installed.
  function Start(s: State, docs: set<string>, cfg: Config, succeeds: nat -> bool, n: nat): (State, set<string>)
    requires n <= |cfg.agents|
  {
    if n == 0 then (s, {})
    else
      var (t, installed) := Start(s, docs, cfg, succeeds, n - 1);
      var id := Id(cfg, n - 1);
      if BuiltAtStart(docs, cfg, succeeds, n - 1)
      then (Install(t, id, BuiltFrom(Print(cfg, n - 1))), installed + {id})
      else if Buildable(cfg, n - 1) && Documented(docs, cfg, n - 1) then (t, installed + {id})
      else (t, installed)
  }

  // What startup leaves behind, with its baseline.
  function Started(s: State, cfg: Config, succeeds: nat -> bool): State
  {
    var (t, installed) := Start(s, s.cache.Keys, cfg, succeeds, |cfg.agents|);
    Seed(t, cfg, installed)
  }

  predicate LastBuilt(docs: set<string>, cfg: Config, succeeds: nat -> bool, j: nat, n: nat)
  {
    && j < n <= |cfg.agents| && BuiltAtStart(docs, cfg, succeeds, j)
    && forall k | j < k < n && Id(cfg, k) == Id(cfg, j) :: !BuiltAtStart(docs, cfg, succeeds, k)
  }

  lemma {:induction false} ReportedHasCause(s: State, docs: set<string>, cfg: Config, succeeds: nat -> bool, n: nat,
                                            id: string) returns (j: nat)
    requires n <= |cfg.agents| && id in Start(s, docs, cfg, succeeds, n).1
    ensures j < n && Id(cfg, j) == id && Buildable(cfg, j)
    ensures Documented(docs, cfg, j) || BuiltAtStart(docs, cfg, succeeds, j)
  {
    if id in Start(s, docs, cfg, succeeds, n - 1).1 {
      j := ReportedHasCause(s, docs, cfg, succeeds, n - 1, id);
    } else {
      j := n - 1;
    }
  }

  lemma {:induction false} CauseIsReported(s: State, docs: set<string>, cfg: Config, succeeds: nat -> bool, n: nat,
                                           j: nat)
    requires j < n <= |cfg.agents| && Buildable(cfg, j)
    requires Documented(docs, cfg, j) || BuiltAtStart(docs, cfg, succeeds, j)
    ensures Id(cfg, j) in Start(s, docs, cfg, succeeds, n).1
    decreases n
  {
    if j < n - 1 { CauseIsReported(s, docs, cfg, succeeds, n - 1, j); }
  }

  lemma {:induction false} LastBuiltIsInstalled(s: State, docs: set<string>, cfg: Config, succeeds: nat -> bool, n: nat,
                                                j: nat)
    requires LastBuilt(docs, cfg, succeeds, j, n)
    ensures Installed(Start(s, docs, cfg, succeeds, n).0, Id(cfg, j)) == Some(BuiltFrom(Print(cfg, j)))
    decreases n
  {
    if j < n - 1 {
      LastBuiltIsInstalled(s, docs, cfg, succeeds, n - 1, j);
      assert Id(cfg, n - 1) == Id(cfg, j) ==> !BuiltAtStart(docs, cfg, succeeds, n - 1);
    }
  }

  lemma {:induction false} DocumentedIsKept(s: State, docs: set<string>, cfg: Config, succeeds: nat -> bool, n: nat,
                                            id: string)
    requires n <= |cfg.agents| && id in docs && id != "main"
    ensures Installed(Start(s, docs, cfg, succeeds, n).0, id) == Installed(s, id)
  {
    if n > 0 { DocumentedIsKept(s, docs, cfg, succeeds, n - 1, id); }
  }

  lemma {:induction false} SomeLastBuilt(docs: set<string>, cfg: Config, succeeds: nat -> bool, j: nat, n: nat)
    returns (last: nat)
    requires j < n <= |cfg.agents| && BuiltAtStart(docs, cfg, succeeds, j)
    ensures LastBuilt(docs, cfg, succeeds, last, n) && Id(cfg, last) == Id(cfg, j)
    decreases n - j
  {
    last := j;
    if k :| j < k < n && Id(cfg, k) == Id(cfg, j) && BuiltAtStart(docs, cfg, succeeds, k) {
      last := SomeLastBuilt(docs, cfg, succeeds, k, n);
    }
  }

  lemma {:induction false} SomeLast(cfg: Config, j: nat, n: nat) returns (last: nat)
    requires j < n <= |cfg.agents|
    ensures LastOf(cfg, last, n) && Id(cfg, last) == Id(cfg, j)
    decreases n - j
  {
    last := j;
    if k :| j < k < n && Id(cfg, k) == Id(cfg, j) {
      last := SomeLast(cfg, k, n);
    }
  }

  // No buildable agent has an id with a runtime from a stored document, and for each id
  // the last agent that was built is configured like the last agent there is.
  ghost predicate CleanStart(docs: set<string>, cfg: Config, succeeds: nat -> bool)
  {
    var n := |cfg.agents|;
    && (forall j: nat | j < n && Buildable(cfg, j) :: !Documented(docs, cfg, j))
    && (forall i: nat, j: nat | LastOf(cfg, i, n) && LastBuilt(docs, cfg, succeeds, j, n) && Id(cfg, i) == Id(cfg, j) ::
          Print(cfg, i) == Print(cfg, j))
  }

  // The runtimes loaded from stored documents were not built from the configuration.
  predicate DocumentsAreForeign(s: State) { forall id | id in s.cache :: s.cache[id] == Foreign }

  // Exactly which configurations start with a faithful baseline.
  lemma {:induction false} StartIsFaithfulIff(s: State, cfg: Config, succeeds: nat -> bool)
    requires DocumentsAreForeign(s)
    ensures Faithful(Started(s, cfg, succeeds)) <==> CleanStart(s.cache.Keys, cfg, succeeds)
  {
    var docs, n := s.cache.Keys, |cfg.agents|;
    var (t, installed) := Start(s, docs, cfg, succeeds, n);
    SeedIsFaithfulIff(t, cfg, installed);
    if Faithful(Started(s, cfg, succeeds)) {
      FaithfulStartIsClean(s, cfg, succeeds);
    }
    if CleanStart(docs, cfg, succeeds) {
      forall i: nat | LastOf(cfg, i, n) && Selected(cfg, Some(installed), i)
        ensures Installed(t, Id(cfg, i)) == Some(BuiltFrom(Print(cfg, i)))
      {
        var j := ReportedHasCause(s, docs, cfg, succeeds, n, Id(cfg, i));
        var last := SomeLastBuilt(docs, cfg, succeeds, j, n);
        LastBuiltIsInstalled(s, docs, cfg, succeeds, n, last);
      }
    }
  }

  lemma {:induction false} FaithfulStartIsClean(s: State, cfg: Config, succeeds: nat -> bool)
    requires DocumentsAreForeign(s) && Faithful(Started(s, cfg, succeeds))
    ensures CleanStart(s.cache.Keys, cfg, succeeds)
  {
    var docs, n := s.cache.Keys, |cfg.agents|;
    var (t, installed) := Start(s, docs, cfg, succeeds, n);
    SeedIsFaithfulIff(t, cfg, installed);
    forall j: nat | j < n && Buildable(cfg, j) ensures !Documented(docs, cfg, j) {
      if Documented(docs, cfg, j) {
        CauseIsReported(s, docs, cfg, succeeds, n, j);
        DocumentedIsKept(s, docs, cfg, succeeds, n, Id(cfg, j));
        var i := SomeLast(cfg, j, n);
        assert Selected(cfg, Some(installed), i);
      }
    }
    forall i: nat, j: nat | LastOf(cfg, i, n) && LastBuilt(docs, cfg, succeeds, j, n) && Id(cfg, i) == Id(cfg, j)
      ensures Print(cfg, i) == Print(cfg, j)
    {
      CauseIsReported(s, docs, cfg, succeeds, n, j);
      LastBuiltIsInstalled(s, docs, cfg, succeeds, n, j);
      assert Selected(cfg, Some(installed), i);
    }
  }

  // From a clean start, over every run of reloads and build failures.
  lemma {:induction false} CleanStartStaysFaithful(s: State, cfg: Config, succeeds: nat -> bool, events: seq<Event>)
    requires DocumentsAreForeign(s) && CleanStart(s.cache.Keys, cfg, succeeds)
    ensures Faithful(Run(Started(s, cfg, succeeds), events))
  {
    StartIsFaithfulIff(s, cfg, succeeds);
    RunKeepsFaithful(Started(s, cfg, succeeds), events);
  }

  // ----- Failed builds -----

  // No other agent has agent i's id.
  predicate HasOwnId(cfg: Config, i: nat)
    requires i < |cfg.agents|
  {
    forall j | 0 <= j < |cfg.agents| && j != i :: Id(cfg, j) != Id(cfg, i)
  }

  function At(s: State, id: string): (Option<Fingerprint>, Option<Runtime>)
    requires s.applied.Some?
  {
    (if id in s.applied.value then Some(s.applied.value[id]) else None, Installed(s, id))
  }

  // Agents with other ids leave this one alone.
  lemma {:induction false} SweepAt(s: State, cfg: Config, succeeds: nat -> bool, i: nat, n: nat)
    requires s.applied.Some? && i < |cfg.agents| && HasOwnId(cfg, i) && n <= |cfg.agents| && Id(cfg, i) != ""
    ensures At(Sweep(s, cfg, succeeds, n), Id(cfg, i)) ==
            if i < n && Builds(s, cfg, i) && succeeds(i)
            then (Some(Print(cfg, i)), Some(BuiltFrom(Print(cfg, i))))
            else At(s, Id(cfg, i))
    decreases n
  {
    if n > 0 {
      SweepAt(s, cfg, succeeds, i, n - 1);
      if n - 1 != i {
        assert Id(cfg, n - 1) != Id(cfg, i);
      }
    }
  }

  lemma AttemptedIffBuilds(s: State, cfg: Config, succeeds: nat -> bool, i: nat)
    requires s.applied.Some? && i < |cfg.agents| && HasOwnId(cfg, i)
    ensures Attempted(s, cfg, succeeds, i) <==> Builds(s, cfg, i)
  {
    if Id(cfg, i) != "" { SweepAt(s, cfg, succeeds, i, i); }
  }

  lemma ReloadAt(s: State, cfg: Config, succeeds: nat -> bool, i: nat)
    requires s.applied.Some? && i < |cfg.agents| && HasOwnId(cfg, i) && Id(cfg, i) != ""
    ensures Reload(s, cfg, succeeds).applied.Some?
    ensures At(Reload(s, cfg, succeeds), Id(cfg, i)) ==
            if Builds(s, cfg, i) && succeeds(i)
            then (Some(Print(cfg, i)), Some(BuiltFrom(Print(cfg, i))))
            else At(s, Id(cfg, i))
  {
    SweepAt(s, cfg, succeeds, i, |cfg.agents|);
    ListedIsPresent(cfg, i, |cfg.agents|);
  }

  // A failed build keeps the agent's previous runtime and fingerprint, and the build is
  // tried again by the next reload of the same configuration.
  lemma FailedBuildIsRetried(s: State, cfg: Config, succeeds: nat -> bool, again: nat -> bool, i: nat)
    requires s.applied.Some? && i < |cfg.agents| && HasOwnId(cfg, i)
    requires Attempted(s, cfg, succeeds, i) && !succeeds(i)
    ensures var t := Reload(s, cfg, succeeds);
            && t.applied.Some? && At(t, Id(cfg, i)) == At(s, Id(cfg, i))
            && Attempted(t, cfg, again, i)
  {
    AttemptedIffBuilds(s, cfg, succeeds, i);
    ReloadAt(s, cfg, succeeds, i);
    AttemptedIffBuilds(Reload(s, cfg, succeeds), cfg, again, i);
  }

  // With shared ids too: a failed build changes nothing, and the next reload of the same
  // configuration tries it again unless, at its turn, the runtime installed for the id is
  // the very one it asks for.
  lemma {:induction false} FailedBuildIsRetriedOrServed(s: State, cfg: Config, succeeds: nat -> bool,
                                                        again: nat -> bool, i: nat)
    requires Faithful(s) && i < |cfg.agents| && Attempted(s, cfg, succeeds, i) && !succeeds(i)
    ensures Sweep(s, cfg, succeeds, i + 1) == Sweep(s, cfg, succeeds, i)
    ensures var t := Reload(s, cfg, succeeds);
            && t.applied.Some?
            && (Attempted(t, cfg, again, i) ||
                Installed(Sweep(t, cfg, again, i), Id(cfg, i)) == Some(BuiltFrom(Print(cfg, i))))
  {
    var t := Reload(s, cfg, succeeds);
    ReloadKeepsFaithful(s, cfg, succeeds);
    SweepKeepsFaithful(t, cfg, again, i);
  }

  // ----- Repeating a reload -----

  ghost predicate BuildsNothing(s: State, cfg: Config, succeeds: nat -> bool)
    requires s.applied.Some?
  {
    forall i: nat | i < |cfg.agents| :: !Attempted(s, cfg, succeeds, i)
  }

  predicate Buildable(cfg: Config, i: nat)
    requires i < |cfg.agents|
  {
    Id(cfg, i) != "" && Text.Trim(cfg.agents[i].model) != ""
  }

  // Agents that share an id and can be built are configured alike.
  ghost predicate Consistent(cfg: Config)
  {
    forall i: nat, j: nat |
      && i < j < |cfg.agents| && Buildable(cfg, i) && Buildable(cfg, j) && Id(cfg, i) == Id(cfg, j) ::
        Print(cfg, i) == Print(cfg, j)
  }

  // Every buildable agent before n has its fingerprint applied.
  ghost predicate UpToDate(s: State, cfg: Config, n: nat)
    requires n <= |cfg.agents|
  {
    s.applied.Some? && forall i: nat | i < n && Buildable(cfg, i) :: !Builds(s, cfg, i)
  }

  lemma {:induction false} SweepIsUpToDate(s: State, cfg: Config, succeeds: nat -> bool, n: nat)
    requires s.applied.Some? && n <= |cfg.agents| && Consistent(cfg) && forall i: nat :: succeeds(i)
    ensures UpToDate(Sweep(s, cfg, succeeds, n), cfg, n)
  {
    if n > 0 {
      SweepIsUpToDate(s, cfg, succeeds, n - 1);
      var before, after := Sweep(s, cfg, succeeds, n - 1), Sweep(s, cfg, succeeds, n);
      forall i: nat | i < n && Buildable(cfg, i) ensures !Builds(after, cfg, i) {
        if i < n - 1 { assert !Builds(before, cfg, i); }
      }
    }
  }

  lemma {:induction false} UpToDateBuildsNothing(s: State, cfg: Config, succeeds: nat -> bool, n: nat)
    requires n <= |cfg.agents| && UpToDate(s, cfg, |cfg.agents|)
    ensures Sweep(s, cfg, succeeds, n) == s
  {
    if n > 0 { UpToDateBuildsNothing(s, cfg, succeeds, n - 1); }
  }

  lemma {:induction false} NothingBuiltNothingChanged(s: State, cfg: Config, succeeds: nat -> bool, n: nat)
    requires n <= |cfg.agents| && s.applied.Some? && BuildsNothing(s, cfg, succeeds)
    ensures Sweep(s, cfg, succeeds, n) == s
  {
    if n > 0 {
      NothingBuiltNothingChanged(s, cfg, succeeds, n - 1);
      assert !Attempted(s, cfg, succeeds, n - 1);
    }
  }

  // When every build succeeds, repeating a reload builds nothing exactly when no two
  // buildable agents of the configuration share an id and differ.
  lemma RepeatBuildsNothingIff(s: State, cfg: Config, succeeds: nat -> bool, again: nat -> bool)
    requires s.applied.Some? && forall i: nat :: succeeds(i)
    ensures Reload(s, cfg, succeeds).applied.Some?
    ensures BuildsNothing(Reload(s, cfg, succeeds), cfg, again) <==> Consistent(cfg)
  {
    var swept, t := Sweep(s, cfg, succeeds, |cfg.agents|), Reload(s, cfg, succeeds);
    forall i: nat | i < |cfg.agents| ensures Builds(swept, cfg, i) == Builds(t, cfg, i) {
      if Id(cfg, i) != "" { ListedIsPresent(cfg, i, |cfg.agents|); }
    }
    if Consistent(cfg) {
      SweepIsUpToDate(s, cfg, succeeds, |cfg.agents|);
      assert UpToDate(t, cfg, |cfg.agents|);
      forall i: nat | i < |cfg.agents| ensures !Attempted(t, cfg, again, i) {
        UpToDateBuildsNothing(t, cfg, again, i);
      }
    }
    if BuildsNothing(t, cfg, again) {
      forall i: nat | i < |cfg.agents| && Buildable(cfg, i)
        ensures Id(cfg, i) in t.applied.value && t.applied.value[Id(cfg, i)] == Print(cfg, i)
      {
        NothingBuiltNothingChanged(t, cfg, again, i);
        assert !Attempted(t, cfg, again, i);
      }
    }
  }

  // ----- Runtimes that the agents RPCs install and remove -----

  // agents.create and agents.update install a runtime of their own, agents.delete removes
  // one; none of them touches the applied fingerprints, and none reaches main's runtime.
  datatype Change = Reloads(event: Event) | Sets(id: string) | Removes(id: string)

  function Make(s: State, c: Change): State
  {
    match c
    case Reloads(e) => Reload(s, e.cfg, e.succeeds)
    case Sets(id) => s.(cache := s.cache[id := Foreign])
    case Removes(id) => s.(cache := s.cache - {id})
  }

  function MakeAll(s: State, changes: seq<Change>): State
  {
    if changes == [] then s else Make(MakeAll(s, changes[..|changes| - 1]), changes[|changes| - 1])
  }

  ghost predicate FaithfulAt(s: State, id: string)
  {
    s.applied.Some? && (id in s.applied.value ==> Installed(s, id) == Some(BuiltFrom(s.applied.value[id])))
  }

  // One of the first n visits of a reload builds a runtime for the id.
  predicate Rebuilt(s: State, cfg: Config, succeeds: nat -> bool, n: nat, id: string)
    requires s.applied.Some? && n <= |cfg.agents|
  {
    n > 0 && (Rebuilt(s, cfg, succeeds, n - 1, id) ||
              (Id(cfg, n - 1) == id && Attempted(s, cfg, succeeds, n - 1) && succeeds(n - 1)))
  }

  lemma {:induction false} VisitAtId(s: State, cfg: Config, i: nat, ok: bool, id: string)
    requires s.applied.Some? && i < |cfg.agents|
    ensures At(Visit(s, cfg, i, ok), id) ==
            if Id(cfg, i) == id && Builds(s, cfg, i) && ok
            then (Some(Print(cfg, i)), Some(BuiltFrom(Print(cfg, i))))
            else At(s, id)
  {
  }

  lemma {:induction false} SweepAtId(s: State, cfg: Config, succeeds: nat -> bool, n: nat, id: string)
    requires s.applied.Some? && n <= |cfg.agents|
    ensures var t := Sweep(s, cfg, succeeds, n);
            if Rebuilt(s, cfg, succeeds, n, id) then id in t.applied.value && FaithfulAt(t, id)
            else At(t, id) == At(s, id)
  {
    if n > 0 {
      SweepAtId(s, cfg, succeeds, n - 1, id);
      VisitAtId(Sweep(s, cfg, succeeds, n - 1), cfg, n - 1, succeeds(n - 1), id);
    }
  }

  // A reload leaves the id as it was, unless it builds a runtime for it, or drops it.
  lemma {:induction false} ReloadAtId(s: State, cfg: Config, succeeds: nat -> bool, id: string)
    requires s.applied.Some?
    ensures var t := Reload(s, cfg, succeeds);
            && t.applied.Some?
            && (id in t.applied.value ==>
                  (FaithfulAt(t, id) <==> Rebuilt(s, cfg, succeeds, |cfg.agents|, id) || FaithfulAt(s, id)))
  {
    SweepAtId(s, cfg, succeeds, |cfg.agents|, id);
  }

  // An RPC changed the id's runtime, and no reload has built one since.
  ghost predicate Disturbed(s: State, changes: seq<Change>, id: string)
    requires s.applied.Some?
    decreases |changes|
  {
    changes != [] &&
    var front, last := changes[..|changes| - 1], changes[|changes| - 1];
    KeepsBaseline(s, front);
    match last
    case Reloads(e) =>
      !Rebuilt(MakeAll(s, front), e.cfg, e.succeeds, |e.cfg.agents|, id) && Disturbed(s, front, id)
    case Sets(other) => (other == id && id != "main") || Disturbed(s, front, id)
    case Removes(other) => (other == id && id != "main") || Disturbed(s, front, id)
  }

  lemma {:induction false} KeepsBaseline(s: State, changes: seq<Change>)
    requires s.applied.Some?
    ensures MakeAll(s, changes).applied.Some?
  {
    if changes != [] {
      KeepsBaseline(s, changes[..|changes| - 1]);
    }
  }

  // Over every run of reloads, build failures and agents RPCs from a faithful baseline: the
  // applied fingerprint of an id is that of its runtime if and only if no RPC changed the
  // runtime since a reload last built it.
  lemma {:induction false} FaithfulIffUndisturbed(s: State, changes: seq<Change>, id: string)
    requires Faithful(s)
    ensures MakeAll(s, changes).applied.Some?
    ensures id in MakeAll(s, changes).applied.value ==>
              (FaithfulAt(MakeAll(s, changes), id) <==> !Disturbed(s, changes, id))
  {
    KeepsBaseline(s, changes);
    if changes != [] {
      var front, last := changes[..|changes| - 1], changes[|changes| - 1];
      var t := MakeAll(s, front);
      FaithfulIffUndisturbed(s, front, id);
      if last.Reloads? {
        ReloadAtId(t, last.event.cfg, last.event.succeeds, id);
        AppliedHasSource(t, last.event.cfg, last.event.succeeds, id);
      }
    }
  }

  // A reload adds no fingerprint without building the runtime.
  lemma {:induction false} AppliedHasSource(s: State, cfg: Config, succeeds: nat -> bool, id: string)
    requires s.applied.Some?
    ensures var t := Reload(s, cfg, succeeds);
            && t.applied.Some?
            && (id in t.applied.value ==> Rebuilt(s, cfg, succeeds, |cfg.agents|, id) || id in s.applied.value)
  {
    SweepAtId(s, cfg, succeeds, |cfg.agents|, id);
  }

  // Which reload repairs a disturbed id: one whose configuration of the agent differs from
  // the applied one and builds.  Reloading the same configuration does not.
  lemma {:induction false} RepairedIff(s: State, cfg: Config, succeeds: nat -> bool, i: nat)
    requires s.applied.Some? && i < |cfg.agents| && HasOwnId(cfg, i) && Id(cfg, i) != ""
    requires !FaithfulAt(s, Id(cfg, i))
    ensures FaithfulAt(Reload(s, cfg, succeeds), Id(cfg, i)) <==>
            && s.applied.value[Id(cfg, i)] != Print(cfg, i) && Text.Trim(cfg.agents[i].model) != "" && succeeds(i)
  {
    ReloadAt(s, cfg, succeeds, i);
  }

  // ----- Inputs -----

  function Two(a: string, b: string): Config { Config([Agent("a", a, ""), Agent("a", b, "")], "") }

  // Two agents that share an id and differ are built again by every reload.
  lemma {:induction false} TwinsAreRebuilt(s: State, succeeds: nat -> bool, again: nat -> bool)
    requires s.applied.Some? && forall i: nat :: succeeds(i)
    ensures Reload(s, Two("m", "n"), succeeds).applied.Some?
    ensures !BuildsNothing(Reload(s, Two("m", "n"), succeeds), Two("m", "n"), again)
  {
    TwinsDiffer();
    RepeatBuildsNothingIff(s, Two("m", "n"), succeeds, again);
  }

  lemma {:induction false} TwinsDiffer()
    ensures !Consistent(Two("m", "n"))
  {
    var cfg := Two("m", "n");
    Text.TightIsTrimmed("a");
    Text.TightIsTrimmed("m");
    Text.TightIsTrimmed("n");
    assert Buildable(cfg, 0) && Buildable(cfg, 1) && Id(cfg, 0) == Id(cfg, 1) && Print(cfg, 0) != Print(cfg, 1);
  }

  // An agent whose id was loaded from a stored document starts out unfaithful.
  lemma {:induction false} DocumentMisleads(succeeds: nat -> bool)
    ensures var s := State(None, map["a" := Foreign], Foreign);
            DocumentsAreForeign(s) && !Faithful(Started(s, Two("m", "m"), succeeds))
  {
    var s, cfg := State(None, map["a" := Foreign], Foreign), Two("m", "m");
    StartIsFaithfulIff(s, cfg, succeeds);
    Text.TightIsTrimmed("a");
    Text.TightIsTrimmed("m");
    assert Buildable(cfg, 0) && Documented(s.cache.Keys, cfg, 0);
  }
}
