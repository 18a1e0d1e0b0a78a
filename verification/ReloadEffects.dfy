// cmd/metiqd/agent_runtime_reload.go: what one reload does to the fingerprints and the
// runtimes, stated on the configuration and the state before it.
module ReloadEffects {
  import opened Wrappers
  import opened RuntimeReload
  import Text

  // Some agent of the configuration has this id.
  ghost predicate Configured(cfg: Config, id: string)
  {
    id != "" && exists i | 0 <= i < |cfg.agents| :: Text.Trim(cfg.agents[i].id) == id
  }

  // Agent i can be built, and its build succeeds if it is tried.
  predicate CanBuild(cfg: Config, succeeds: nat -> bool, i: nat, id: string)
    requires i < |cfg.agents|
  {
    id != "" && Text.Trim(cfg.agents[i].id) == id && Text.Trim(cfg.agents[i].model) != "" && succeeds(i)
  }

  // Some agent with this id does.
  ghost predicate SomeBuild(cfg: Config, succeeds: nat -> bool, n: nat, id: string)
    requires n <= |cfg.agents|
  {
    exists i: nat | i < n :: CanBuild(cfg, succeeds, i, id)
  }

  // The reload forgets an id that it knew, unless it is configured or "main".
  ghost predicate Forgotten(s: State, cfg: Config, id: string)
    requires s.applied.Some?
  {
    id in s.applied.value && !Configured(cfg, id) && id != "main"
  }

  // ----- Helpers -----

  lemma {:induction false} PresentIff(cfg: Config, n: nat, id: string)
    requires n <= |cfg.agents|
    ensures id in PresentUpTo(cfg, n) <==> id != "" && exists i | 0 <= i < n :: Text.Trim(cfg.agents[i].id) == id
  {
    if n > 0 { PresentIff(cfg, n - 1, id); }
  }

  lemma {:induction false} SomeBuildStep(cfg: Config, succeeds: nat -> bool, n: nat, id: string)
    requires 0 < n <= |cfg.agents|
    ensures SomeBuild(cfg, succeeds, n, id) <==>
            SomeBuild(cfg, succeeds, n - 1, id) || CanBuild(cfg, succeeds, n - 1, id)
  {
    if i: nat :| i < n && CanBuild(cfg, succeeds, i, id) {
      assert i < n - 1 || i == n - 1;
    }
  }

  // What visits do at an id, given whether one of them could build it.
  ghost predicate Visited(s: State, t: State, built: bool, id: string)
  {
    && s.applied.Some? && t.applied.Some?
    && (id in t.applied.value <==> id in s.applied.value || built)
    && (id in s.cache ==> id in t.cache)
    && (!built ==> (id in t.cache ==> id in s.cache && t.cache[id] == s.cache[id]))
    && (built && id != "main" && id !in s.applied.value ==> id in t.cache)
    && (id == "main" && !built ==> t.default_ == s.default_)
  }

  lemma {:induction false} VisitEffect(s: State, cfg: Config, succeeds: nat -> bool, i: nat, id: string)
    requires s.applied.Some? && i < |cfg.agents|
    ensures Visited(s, Visit(s, cfg, i, succeeds(i)), CanBuild(cfg, succeeds, i, id), id)
  {
  }

  lemma {:induction false} VisitMore(s: State, t: State, u: State, before: bool, now: bool, id: string)
    requires Visited(s, t, before, id) && Visited(t, u, now, id)
    ensures Visited(s, u, before || now, id)
  {
  }

  lemma {:induction false} SweepEffect(s: State, cfg: Config, succeeds: nat -> bool, n: nat, id: string)
    requires s.applied.Some? && n <= |cfg.agents|
    ensures Visited(s, Sweep(s, cfg, succeeds, n), SomeBuild(cfg, succeeds, n, id), id)
  {
    if n > 0 {
      var t := Sweep(s, cfg, succeeds, n - 1);
      var before, here := SomeBuild(cfg, succeeds, n - 1, id), CanBuild(cfg, succeeds, n - 1, id);
      SweepEffect(s, cfg, succeeds, n - 1, id);
      VisitEffect(t, cfg, succeeds, n - 1, id);
      VisitMore(s, t, Sweep(s, cfg, succeeds, n), before, here, id);
      assert SomeBuild(cfg, succeeds, n, id) == (before || here) by { SomeBuildStep(cfg, succeeds, n, id); }
    }
  }

  // ----- One reload -----

  // Exactly which ids have a fingerprint after a reload: those that had one, or have an
  // agent that can be built, and are configured or "main".
  lemma {:induction false} AppliedAfter(s: State, cfg: Config, succeeds: nat -> bool, id: string)
    requires s.applied.Some?
    ensures var t := Reload(s, cfg, succeeds);
            && t.applied.Some?
            && (id in t.applied.value <==>
                (Configured(cfg, id) || id == "main") &&
                (id in s.applied.value || SomeBuild(cfg, succeeds, |cfg.agents|, id)))
  {
    SweepEffect(s, cfg, succeeds, |cfg.agents|, id);
    PresentIff(cfg, |cfg.agents|, id);
  }

  // An agent that left the configuration loses its runtime with its fingerprint; every
  // other runtime stays, unless an agent with its id is built.
  lemma {:induction false} CacheAfter(s: State, cfg: Config, succeeds: nat -> bool, id: string)
    requires s.applied.Some?
    ensures var t := Reload(s, cfg, succeeds);
            && (Forgotten(s, cfg, id) ==> id !in t.cache)
            && (!Forgotten(s, cfg, id) && id in s.cache ==> id in t.cache)
            && (!Forgotten(s, cfg, id) && !SomeBuild(cfg, succeeds, |cfg.agents|, id) ==>
                  (id in t.cache <==> id in s.cache) && (id in s.cache ==> t.cache[id] == s.cache[id]))
            && (SomeBuild(cfg, succeeds, |cfg.agents|, id) && id != "main" && id !in s.applied.value ==> id in t.cache)
            && (!SomeBuild(cfg, succeeds, |cfg.agents|, "main") ==> t.default_ == s.default_)
  {
    SweepEffect(s, cfg, succeeds, |cfg.agents|, id);
    SweepEffect(s, cfg, succeeds, |cfg.agents|, "main");
    PresentIff(cfg, |cfg.agents|, id);
    if SomeBuild(cfg, succeeds, |cfg.agents|, id) {
      var i: nat :| i < |cfg.agents| && CanBuild(cfg, succeeds, i, id);
      assert Configured(cfg, id);
    }
  }

  // An agent with an id of its own gets a runtime of its present configuration exactly when
  // that is not the one applied, it names a model, and the build succeeds; "main" gets it as
  // the default.  Otherwise its fingerprint and its runtime stay.
  lemma {:induction false} AgentAfter(s: State, cfg: Config, succeeds: nat -> bool, i: nat)
    requires s.applied.Some? && i < |cfg.agents| && Text.Trim(cfg.agents[i].id) != ""
    requires forall j | 0 <= j < |cfg.agents| && j != i :: Text.Trim(cfg.agents[j].id) != Text.Trim(cfg.agents[i].id)
    ensures var t, id := Reload(s, cfg, succeeds), Text.Trim(cfg.agents[i].id);
            var mark := Fingerprint(cfg.agents[i], cfg.providers);
            && t.applied.Some?
            && if (id in s.applied.value ==> s.applied.value[id] != mark) && Text.Trim(cfg.agents[i].model) != "" &&
                  succeeds(i)
               then && id in t.applied.value && t.applied.value[id] == mark
                    && (if id == "main" then t.default_ == BuiltFrom(mark)
                        else id in t.cache && t.cache[id] == BuiltFrom(mark))
               else At(t, id) == At(s, id)
  {
    assert forall j | 0 <= j < |cfg.agents| :: Id(cfg, j) == Text.Trim(cfg.agents[j].id);
    ReloadAt(s, cfg, succeeds, i);
  }
}
