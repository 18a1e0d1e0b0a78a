// internal/config/sync.go and cmd/metiqd/main.go: the watcher that reloads the config file,
// taking part in runs of the commits of ConfigCommit; and the config.put version rule in
// such runs.
module ConfigWatcher {
  import opened Wrappers
  import opened ConfigCommit

  // What the watcher has read and not yet dealt with.
  datatype Watcher = Waiting | Read(doc: ConfigDoc) | Applied(doc: ConfigDoc)

  datatype System = System(stores: Stores, watcher: Watcher)

  // A commit; somebody else's edit of the file; or one step of the watcher, which reads the
  // file, makes what it read live, and pushes that to the repository.  Only the middle one
  // is under the commit mutex.
  datatype Event =
    | Mutate(step: Step)
    | EditFile(doc: ConfigDoc)
    | ReadFile
    | ApplyRead
    | PushRead(fails: bool, newEvent: string)

  function Happen(w: World, sys: System, e: Event): System
  {
    match e
    case Mutate(step) => sys.(stores := Commit(w, sys.stores, step.req, step.faults).0)
    case EditFile(doc) => sys.(stores := WriteFile(w, sys.stores, doc))
    case ReadFile =>
      if w.hasFile && sys.stores.file.Some? && sys.watcher.Waiting?
      then sys.(watcher := Read(sys.stores.file.value))
      else sys
    case ApplyRead =>
      if !sys.watcher.Read? then sys
      else if !w.valid(Normalize(w, sys.watcher.doc)) then sys.(watcher := Waiting)
      else System(sys.stores.(live := Normalize(w, sys.watcher.doc)), Applied(sys.watcher.doc))
    case PushRead(fails, newEvent) =>
      if !sys.watcher.Applied? then sys
      else System(if fails then sys.stores else sys.stores.(repo := Some(Stored(sys.watcher.doc, newEvent))), Waiting)
  }

  function MixedRun(w: World, sys: System, events: seq<Event>): System
  {
    if events == [] then sys
    else Happen(w, MixedRun(w, sys, events[..|events| - 1]), events[|events| - 1])
  }

  ghost predicate ManagedHolds(w: World, doc: ConfigDoc) { ApplyManaged(doc, w.managed) == doc }

  // Whether the managed settings hold of the live document, by the last event that wrote it.
  predicate HoldsAfter(w: World, sys: System, events: seq<Event>)
  {
    if events == [] then ApplyManaged(sys.stores.live, w.managed) == sys.stores.live
    else
      var front := events[..|events| - 1];
      var before := MixedRun(w, sys, front);
      match events[|events| - 1]
      case Mutate(step) =>
        var out := Commit(w, before.stores, step.req, step.faults).1;
        (out.Committed? && out.next != before.stores.live) || HoldsAfter(w, sys, front)
      case ApplyRead =>
        if before.watcher.Read? && w.valid(Normalize(w, before.watcher.doc))
        then ApplyManaged(Normalize(w, before.watcher.doc), w.managed) == Normalize(w, before.watcher.doc)
        else HoldsAfter(w, sys, front)
      case _ => HoldsAfter(w, sys, front)
  }

  lemma {:induction false} CommitAndManaged(w: World, s: Stores, req: Request, f: Faults)
    requires Lawful(w) && LiveIsNormal(w, s)
    ensures var (s', out) := Commit(w, s, req, f);
            && LiveIsNormal(w, s')
            && (ManagedHolds(w, s'.live) <==> (out.Committed? && out.next != s.live) || ManagedHolds(w, s.live))
  {
    if Admitted(w, s, req, f).Some? {
      var next := Admitted(w, s, req, f).value;
      AdmittedIsNormal(w, s, req, f);
      ApplyManagedIsIdempotent(next, w.managed);
    }
  }

  // Over every mixed run the live document stays normal; and the managed settings hold of
  // it if and only if the last event that wrote it was a commit, or a reload of a document
  // that already carried them.
  lemma {:induction false} MixedRunKeeps(w: World, sys: System, events: seq<Event>)
    requires Lawful(w) && LiveIsNormal(w, sys.stores)
    ensures LiveIsNormal(w, MixedRun(w, sys, events).stores)
    ensures ManagedHolds(w, MixedRun(w, sys, events).stores.live) <==> HoldsAfter(w, sys, events)
  {
    if events != [] {
      var front, last := events[..|events| - 1], events[|events| - 1];
      MixedRunKeeps(w, sys, front);
      var before := MixedRun(w, sys, front);
      if last.Mutate? {
        CommitAndManaged(w, before.stores, last.step.req, last.step.faults);
      }
    }
  }

  // Whether what the watcher read is about to go live, or to the repository.
  predicate GoesLive(w: World, sys: System) { sys.watcher.Read? && w.valid(Normalize(w, sys.watcher.doc)) }

  predicate GoesToRepo(sys: System, e: Event) { e.PushRead? && sys.watcher.Applied? && !e.fails }

  // Whether the repository holds the live document, by the last event that wrote either.
  predicate RepoHoldsLive(w: World, sys: System, events: seq<Event>)
  {
    if events == [] then sys.stores.repo.Some? && sys.stores.repo.value.doc == sys.stores.live
    else
      var front, last := events[..|events| - 1], events[|events| - 1];
      var before := MixedRun(w, sys, front);
      if last.Mutate? && Commit(w, before.stores, last.step.req, last.step.faults).1.Committed?
      then GoesLiveAsIs(w, before.stores.live, Commit(w, before.stores, last.step.req, last.step.faults).1.next)
      else if last.ApplyRead? && GoesLive(w, before)
      then before.stores.repo.Some? && before.stores.repo.value.doc == Normalize(w, before.watcher.doc)
      else if GoesToRepo(before, last) then before.watcher.doc == before.stores.live
      else RepoHoldsLive(w, sys, front)
  }

  // The same for the file.
  predicate FileHoldsLive(w: World, sys: System, events: seq<Event>)
  {
    if events == [] then sys.stores.file == Some(sys.stores.live)
    else
      var front, last := events[..|events| - 1], events[|events| - 1];
      var before := MixedRun(w, sys, front);
      match last
      case Mutate(step) =>
        (match Commit(w, before.stores, step.req, step.faults).1
         case Committed(next) => GoesLiveAsIs(w, before.stores.live, next)
         case RepoFailed(partial) =>
           partial ==> Admitted(w, before.stores, step.req, step.faults) == Some(before.stores.live)
         case _ => FileHoldsLive(w, sys, front))
      case EditFile(doc) => doc == before.stores.live
      case ApplyRead =>
        if GoesLive(w, before) then before.stores.file == Some(Normalize(w, before.watcher.doc))
        else FileHoldsLive(w, sys, front)
      case _ => FileHoldsLive(w, sys, front)
  }

  // Exactly when each stored copy agrees with the live document after a mixed run.
  lemma {:induction false} MixedRunAgreesIff(w: World, sys: System, events: seq<Event>)
    requires Lawful(w) && LiveIsNormal(w, sys.stores)
    ensures RepoAgrees(w, MixedRun(w, sys, events).stores) <==> RepoHoldsLive(w, sys, events)
    ensures FileAgrees(w, MixedRun(w, sys, events).stores) <==> !w.hasFile || FileHoldsLive(w, sys, events)
  {
    if events != [] {
      var front, last := events[..|events| - 1], events[|events| - 1];
      MixedRunAgreesIff(w, sys, front);
      MixedRunKeeps(w, sys, front);
      if last.Mutate? {
        CommitAgreesIff(w, MixedRun(w, sys, front).stores, last.step.req, last.step.faults);
      }
    }
  }

  // An invalid file is read and dropped, and a failed push is not tried again: neither
  // touches a store.
  lemma {:induction false} DroppedReads(w: World, sys: System, newEvent: string)
    ensures sys.watcher.Read? && !w.valid(sys.watcher.doc.(body := w.normalizeBody(sys.watcher.doc.body))) ==>
              Happen(w, sys, ApplyRead) == System(sys.stores, Waiting)
    ensures sys.watcher.Applied? ==> Happen(w, sys, PushRead(true, newEvent)) == System(sys.stores, Waiting)
  {
  }

  function ReloadEvents(newEvent: string): seq<Event> { [ReadFile, ApplyRead, PushRead(false, newEvent)] }

  lemma {:induction false} ThreeEvents(w: World, sys: System, a: Event, b: Event, c: Event)
    ensures MixedRun(w, sys, [a, b, c]) == Happen(w, Happen(w, Happen(w, sys, a), b), c)
  {
    OneEvent(w, sys, [], a);
    OneEvent(w, sys, [a], b);
    OneEvent(w, sys, [a, b], c);
    assert [] + [a] == [a] && [a] + [b] == [a, b] && [a, b] + [c] == [a, b, c];
  }

  lemma {:induction false} OneEvent(w: World, sys: System, events: seq<Event>, e: Event)
    ensures MixedRun(w, sys, events + [e]) == Happen(w, MixedRun(w, sys, events), e)
  {
    assert (events + [e])[..|events|] == events;
  }

  // Whatever happened before, one undisturbed reload of a valid file makes file and
  // repository the same and live its normal form: all three agree if and only if the file
  // is in normal form, and the managed settings hold of live if and only if they hold of
  // that.
  lemma {:induction false} ReloadHeals(w: World, sys: System, events: seq<Event>, newEvent: string)
    requires Lawful(w) && w.hasFile
    requires var t := MixedRun(w, sys, events);
             t.watcher.Waiting? && t.stores.file.Some? && w.valid(Normalize(w, t.stores.file.value))
    ensures var doc := MixedRun(w, sys, events).stores.file.value;
            var u := MixedRun(w, MixedRun(w, sys, events), ReloadEvents(newEvent));
            && u.stores.file == Some(doc) && u.stores.repo == Some(Stored(doc, newEvent))
            && u.stores.live == Normalize(w, doc)
            && (RepoAgrees(w, u.stores) && FileAgrees(w, u.stores) <==> Normalize(w, doc) == doc)
            && (ManagedHolds(w, u.stores.live) <==> ManagedHolds(w, Normalize(w, doc)))
  {
    ThreeEvents(w, MixedRun(w, sys, events), ReadFile, ApplyRead, PushRead(false, newEvent));
  }

  // ----- A reload with other events in between -----

  // Not a step of the watcher.
  predicate Outside(e: Event) { e.Mutate? || e.EditFile? }

  predicate AllOutside(events: seq<Event>) { forall i | 0 <= i < |events| :: Outside(events[i]) }

  // The live document that the last successful commit of the run left.
  function LastLive(w: World, sys: System, events: seq<Event>): Option<ConfigDoc>
  {
    if events == [] then None
    else
      var front, last := events[..|events| - 1], events[|events| - 1];
      var before := MixedRun(w, sys, front);
      if last.Mutate? && Commit(w, before.stores, last.step.req, last.step.faults).1.Committed?
      then Some(Commit(w, before.stores, last.step.req, last.step.faults).0.live)
      else LastLive(w, sys, front)
  }

  // The last document that a commit, a rollback or an edit wrote to the file.
  function LastFile(w: World, sys: System, events: seq<Event>): Option<ConfigDoc>
  {
    if events == [] then None
    else
      var front, last := events[..|events| - 1], events[|events| - 1];
      var before := MixedRun(w, sys, front);
      match last
      case EditFile(doc) => Some(doc)
      case Mutate(step) =>
        (match Commit(w, before.stores, step.req, step.faults).1
         case Committed(next) => Some(next)
         case RepoFailed(partial) =>
           if partial then Admitted(w, before.stores, step.req, step.faults) else Some(Normalize(w, before.stores.live))
         case _ => LastFile(w, sys, front))
      case _ => LastFile(w, sys, front)
  }

  function OrElse(doc: Option<ConfigDoc>, other: ConfigDoc): ConfigDoc { if doc.Some? then doc.value else other }

  lemma {:induction false} OutsideRun(w: World, sys: System, events: seq<Event>)
    requires w.hasFile && AllOutside(events) && sys.stores.file.Some?
    ensures var t := MixedRun(w, sys, events);
            && t.watcher == sys.watcher
            && t.stores.live == OrElse(LastLive(w, sys, events), sys.stores.live)
            && t.stores.file == Some(OrElse(LastFile(w, sys, events), sys.stores.file.value))
  {
    if events != [] {
      var front, last := events[..|events| - 1], events[|events| - 1];
      assert AllOutside(front) && Outside(last);
      OutsideRun(w, sys, front);
    }
  }

  // What a reload leaves when commits and edits come in between: `early` after the watcher's
  // read, `late` after its apply.  The repository gets what was read, whatever came since;
  // live gets its normal form, unless a late commit succeeded; and the file keeps the last
  // thing written to it.
  lemma {:induction false} ReloadLeaves(w: World, sys: System, early: seq<Event>, late: seq<Event>, newEvent: string)
    returns (applied: System, t: System)
    requires w.hasFile && sys.watcher == Waiting && sys.stores.file.Some? && AllOutside(early) && AllOutside(late)
    requires w.valid(Normalize(w, sys.stores.file.value))
    ensures applied == Happen(w, MixedRun(w, Happen(w, sys, ReadFile), early), ApplyRead)
    ensures t == Happen(w, MixedRun(w, applied, late), PushRead(false, newEvent))
    ensures var doc := sys.stores.file.value;
            && t.stores.repo == Some(Stored(doc, newEvent))
            && t.stores.live == OrElse(LastLive(w, applied, late), Normalize(w, doc))
            && t.stores.file ==
               Some(OrElse(LastFile(w, applied, late), OrElse(LastFile(w, Happen(w, sys, ReadFile), early), doc)))
  {
    var read := Happen(w, sys, ReadFile);
    OutsideRun(w, read, early);
    applied := Happen(w, MixedRun(w, read, early), ApplyRead);
    OutsideRun(w, applied, late);
    t := Happen(w, MixedRun(w, applied, late), PushRead(false, newEvent));
  }

  // So a commit in the early window is undone in the live store and the repository, while
  // the file keeps it,
  lemma {:induction false} StaleReadUndoesCommit(w: World, sys: System, step: Step, newEvent: string)
    requires Lawful(w) && w.hasFile && LiveIsNormal(w, sys.stores) && RepoAgrees(w, sys.stores)
    requires sys.watcher == Waiting && sys.stores.file == Some(sys.stores.live) && w.valid(sys.stores.live)
    requires var out := Commit(w, sys.stores, step.req, step.faults).1; out.Committed? && out.next != sys.stores.live
    ensures var out := Commit(w, sys.stores, step.req, step.faults).1;
            var t := Happen(w, Happen(w, Happen(w, Happen(w, sys, ReadFile), Mutate(step)), ApplyRead),
                            PushRead(false, newEvent));
            && t.stores.live == sys.stores.live && t.stores.repo == Some(Stored(sys.stores.live, newEvent))
            && t.stores.file == Some(out.next) && !FileAgrees(w, t.stores)
  {
  }

  // and a commit in the late one is undone in the repository alone.
  lemma {:induction false} LatePushUndoesCommit(w: World, sys: System, step: Step, newEvent: string)
    requires Lawful(w) && w.hasFile && LiveIsNormal(w, sys.stores) && sys.watcher == Applied(sys.stores.live)
    requires var out := Commit(w, sys.stores, step.req, step.faults).1;
             out.Committed? && out.next != sys.stores.live && ApplyManaged(out.next, w.managed) == out.next
    ensures var out := Commit(w, sys.stores, step.req, step.faults).1;
            var t := Happen(w, Happen(w, sys, Mutate(step)), PushRead(false, newEvent));
            && t.stores.repo == Some(Stored(sys.stores.live, newEvent))
            && t.stores.live == out.next && t.stores.file == Some(out.next) && !RepoAgrees(w, t.stores)
  {
    AdmittedIsNormal(w, sys.stores, step.req, step.faults);
  }

  // A commit that drops the hooks flag, and the reload of the file it wrote: the managed
  // setting is gone from the live document.
  lemma {:induction false} ReloadCanDropTheFlag() returns (w: World, sys: System, step: Step, newEvent: string)
    ensures Lawful(w) && w.hasFile && LiveIsSettled(w, sys.stores) && sys.watcher == Waiting
    ensures RepoAgrees(w, sys.stores) && FileAgrees(w, sys.stores)
    ensures var t := Happen(w, sys, Mutate(step));
            && ManagedHolds(w, t.stores.live)
            && !ManagedHolds(w, MixedRun(w, t, ReloadEvents(newEvent)).stores.live)
  {
    var m := Managed(false, false, true, false, None, []);
    var live := ConfigDoc(1, Permissions("", [], map[]), "", Some(m), true, "");
    var next := live.(hooksOnlyFlag := false);
    w := World(b => "", (d, p) => None, d => true, m, true);
    sys := System(Stores(Some(live), Some(Stored(live, "")), live), Waiting);
    step := Step(Request(None, None, "", false, d => Some(next), None), Faults(false, false, false, false, ""));
    newEvent := "";
    var t := Happen(w, sys, Mutate(step));
    CommitFrame(w, sys.stores, step.req, step.faults);
    assert t.stores.file == Some(next) && t.watcher == Waiting;
    ReloadHeals(w, t, [], newEvent);
  }

  // ----- config.put while the watcher is at work -----

  datatype PutEvent = DoPut(put: Put) | Reads | Applies | Pushes(fails: bool, newEvent: string)

  function AsEvent(e: PutEvent): Event
  {
    match e
    case DoPut(p) => Mutate(PutStep(p))
    case Reads => ReadFile
    case Applies => ApplyRead
    case Pushes(fails, newEvent) => PushRead(fails, newEvent)
  }

  function PutRun(w: World, sys: System, events: seq<PutEvent>): System
  {
    if events == [] then sys
    else Happen(w, PutRun(w, sys, events[..|events| - 1]), AsEvent(events[|events| - 1]))
  }

  function PutOutcome(w: World, sys: System, p: Put): Outcome
  {
    Commit(w, sys.stores, PutStep(p).req, p.faults).1
  }

  // The expected versions that successful puts carried, in order.
  function Won(w: World, sys: System, events: seq<PutEvent>): seq<int>
  {
    if events == [] then []
    else
      var front, last := events[..|events| - 1], events[|events| - 1];
      Won(w, sys, front) +
      if last.DoPut? && PutOutcome(w, PutRun(w, sys, front), last.put).Committed? then [last.put.expected] else []
  }

  // The file was last written by a successful put, or by a rollback after one.
  predicate FileIsSound(w: World, sys: System, events: seq<PutEvent>)
  {
    events != [] &&
    var front, last := events[..|events| - 1], events[|events| - 1];
    if !last.DoPut? then FileIsSound(w, sys, front)
    else
      match PutOutcome(w, PutRun(w, sys, front), last.put)
      case Committed(_) => true
      case RepoFailed(partial) => !partial && Won(w, sys, front) != []
      case _ => FileIsSound(w, sys, front)
  }

  // No put succeeds between the watcher's read and its push, and what the watcher reads is
  // sound.
  predicate Orderly(w: World, sys: System, events: seq<PutEvent>)
  {
    events != [] ==>
      var front, last := events[..|events| - 1], events[|events| - 1];
      var before := PutRun(w, sys, front);
      && Orderly(w, sys, front)
      && (last.DoPut? && PutOutcome(w, before, last.put).Committed? ==> before.watcher.Waiting?)
      && (last.Reads? && before.watcher.Waiting? && before.stores.file.Some? ==> FileIsSound(w, sys, front))
  }

  ghost predicate Tally(w: World, sys: System, won: nat, sound: bool)
  {
    && StoredVersion(sys.stores) == won && (sys.stores.repo.Some? <==> won > 0)
    && (won > 0 ==> sys.stores.live.version == won)
    && (sound && w.hasFile && sys.stores.file.Some? ==> won > 0 && sys.stores.file.value.version == won)
    && (!sys.watcher.Waiting? ==> won > 0 && sys.watcher.doc.version == won)
  }

  // One put, on the versions.
  lemma {:induction false} PutTally(w: World, sys: System, p: Put, won: nat, sound: bool)
    requires Tally(w, sys, won, sound)
    requires PutOutcome(w, sys, p).Committed? ==> sys.watcher.Waiting?
    ensures var out := PutOutcome(w, sys, p);
            var sound' := if out.Committed? then true else if out.RepoFailed? then !out.partial && won > 0 else sound;
            && (out.Committed? ==> p.expected == won)
            && Tally(w, Happen(w, sys, Mutate(PutStep(p))), if out.Committed? then won + 1 else won, sound')
  {
    OnePut(w, sys.stores, p);
    var admitted := Admitted(w, sys.stores, PutStep(p).req, p.faults);
    if admitted.Some? {
      assert admitted.value.version == NewVersion(p.expected);
    }
  }

  lemma {:induction false} WatchTally(w: World, sys: System, e: Event, won: nat, sound: bool)
    requires Tally(w, sys, won, sound) && (e.ReadFile? || e.ApplyRead? || e.PushRead?)
    requires e.ReadFile? && sys.watcher.Waiting? && sys.stores.file.Some? ==> sound
    ensures Tally(w, Happen(w, sys, e), won, sound)
  {
  }

  lemma {:induction false} OrderlyTally(w: World, sys: System, events: seq<PutEvent>)
    requires sys.stores.repo.None? && sys.watcher.Waiting? && Orderly(w, sys, events)
    ensures Tally(w, PutRun(w, sys, events), |Won(w, sys, events)|, FileIsSound(w, sys, events))
    ensures forall i | 0 <= i < |Won(w, sys, events)| :: Won(w, sys, events)[i] == i
  {
    if events != [] {
      var front, last := events[..|events| - 1], events[|events| - 1];
      OrderlyTally(w, sys, front);
      var before, won, sound := PutRun(w, sys, front), |Won(w, sys, front)|, FileIsSound(w, sys, front);
      if last.DoPut? {
        PutTally(w, before, last.put, won, sound);
      } else {
        WatchTally(w, before, AsEvent(last), won, sound);
      }
    }
  }

  // The law of PutVersionsCount, with the watcher at work: over every orderly run from an
  // empty repository, the stored version is the number of successes, and the n-th of them
  // expected version n - 1.
  lemma {:induction false} OrderlyPutVersionsCount(w: World, sys: System, events: seq<PutEvent>)
    requires sys.stores.repo.None? && sys.watcher.Waiting? && Orderly(w, sys, events)
    ensures var won, t := Won(w, sys, events), PutRun(w, sys, events);
            && StoredVersion(t.stores) == |won| && (t.stores.repo.Some? <==> won != [])
            && (forall i | 0 <= i < |won| :: won[i] == i)
  {
    OrderlyTally(w, sys, events);
  }

  // ----- Disorderly runs -----

  // A world without rules, its documents, and a put.
  const PLAIN := World(b => b, (d, p) => None, d => true, Managed(false, false, false, false, None, []), true)

  function Doc(version: int): ConfigDoc { ConfigDoc(version, Permissions("", [], map[]), "", None, false, "") }

  function SimplePut(expected: int, putFails: bool, rollbackFails: bool): Put
  {
    Put(Doc(0), expected, "", None, Faults(false, false, putFails, rollbackFails, ""))
  }

  function Holding(version: int): Stores { Stores(Some(Doc(version)), Some(Stored(Doc(version), "")), Doc(version)) }

  lemma {:induction false} SimpleCommit(s: Stores, expected: nat, putFails: bool, rollbackFails: bool)
    requires s.live.managedLayer.None? && StoredVersion(s) == expected && (s.repo.Some? <==> expected > 0)
    ensures var p := SimplePut(expected, putFails, rollbackFails);
            Commit(PLAIN, s, PutStep(p).req, p.faults) ==
            if !putFails then (Holding(expected + 1), Committed(Doc(expected + 1)))
            else if rollbackFails then (s.(file := Some(Doc(expected + 1))), RepoFailed(true))
            else (s.(file := Some(s.live)), RepoFailed(false))
  {
    var p := SimplePut(expected, putFails, rollbackFails);
    assert Admitted(PLAIN, s, PutStep(p).req, p.faults) == Some(Doc(expected + 1));
  }

  lemma {:induction false} OnePutEvent(w: World, sys: System, events: seq<PutEvent>, e: PutEvent)
    ensures PutRun(w, sys, events + [e]) == Happen(w, PutRun(w, sys, events), AsEvent(e))
    ensures Won(w, sys, events + [e]) ==
            Won(w, sys, events) +
            if e.DoPut? && PutOutcome(w, PutRun(w, sys, events), e.put).Committed? then [e.put.expected] else []
  {
    assert (events + [e])[..|events|] == events;
  }

  function Fresh(version: int): System { System(Stores(None, None, Doc(version)), Waiting) }

  function Plain(expected: int): PutEvent { DoPut(SimplePut(expected, false, false)) }

  // One more successful put.
  lemma {:induction false} PlainPut(sys: System, events: seq<PutEvent>, expected: nat)
    requires var s := PutRun(PLAIN, sys, events).stores;
             s.live.managedLayer.None? && StoredVersion(s) == expected && (s.repo.Some? <==> expected > 0)
    ensures PutRun(PLAIN, sys, events + [Plain(expected)]) ==
            System(Holding(expected + 1), PutRun(PLAIN, sys, events).watcher)
    ensures Won(PLAIN, sys, events + [Plain(expected)]) == Won(PLAIN, sys, events) + [expected]
  {
    SimpleCommit(PutRun(PLAIN, sys, events).stores, expected, false, false);
    OnePutEvent(PLAIN, sys, events, Plain(expected));
  }

  lemma {:induction false} PutWhileReading() returns (events: seq<PutEvent>)
    ensures PutRun(PLAIN, Fresh(0), events) == System(Holding(2), Read(Doc(1)))
    ensures Won(PLAIN, Fresh(0), events) == [0, 1]
  {
    var sys := Fresh(0);
    var once := [] + [Plain(0)];
    PlainPut(sys, [], 0);
    OnePutEvent(PLAIN, sys, once, Reads);
    PlainPut(sys, once + [Reads], 1);
    events := once + [Reads] + [Plain(1)];
  }

  function StaleLive(): Stores { Holding(2).(live := Doc(1)) }

  function StaleRepo(): Stores { StaleLive().(repo := Some(Stored(Doc(1), ""))) }

  lemma {:induction false} StaleSteps()
    ensures Happen(PLAIN, System(Holding(2), Read(Doc(1))), ApplyRead) == System(StaleLive(), Applied(Doc(1)))
    ensures Happen(PLAIN, System(StaleLive(), Applied(Doc(1))), PushRead(false, "")) == System(StaleRepo(), Waiting)
  {
  }

  // A step of the watcher wins nothing.
  lemma {:induction false} OneWatchEvent(w: World, sys: System, events: seq<PutEvent>, e: PutEvent)
    requires !e.DoPut?
    ensures PutRun(w, sys, events + [e]) == Happen(w, PutRun(w, sys, events), AsEvent(e))
    ensures Won(w, sys, events + [e]) == Won(w, sys, events)
  {
    OnePutEvent(w, sys, events, e);
  }

  lemma {:induction false} StalePush(sys: System, events: seq<PutEvent>)
    requires PutRun(PLAIN, sys, events) == System(Holding(2), Read(Doc(1)))
    ensures PutRun(PLAIN, sys, events + [Applies] + [Pushes(false, "")]) == System(StaleRepo(), Waiting)
    ensures Won(PLAIN, sys, events + [Applies] + [Pushes(false, "")]) == Won(PLAIN, sys, events)
  {
    StaleSteps();
    OneWatchEvent(PLAIN, sys, events, Applies);
    OneWatchEvent(PLAIN, sys, events + [Applies], Pushes(false, ""));
  }

  // A put succeeds between the watcher's read and its push: the push sets the stored version
  // back, and a second put that expects version 1 succeeds.
  lemma {:induction false} StalePushRepeatsVersion() returns (events: seq<PutEvent>)
    ensures Won(PLAIN, Fresh(0), events) == [0, 1, 1] && StoredVersion(PutRun(PLAIN, Fresh(0), events).stores) == 2
  {
    var sys := Fresh(0);
    var reading := PutWhileReading();
    var pushed := reading + [Applies] + [Pushes(false, "")];
    StalePush(sys, reading);
    PlainPut(sys, pushed, 1);
    events := pushed + [Plain(1)];
  }

  // A put that never succeeded gets its version into the repository: the file that its
  // partial failure left behind is reloaded; or the file is the live document that a
  // rollback wrote there before any put succeeded.
  lemma {:induction false} ReloadStoresUnwonVersion(live: int, rollbackFails: bool) returns (events: seq<PutEvent>)
    ensures Won(PLAIN, Fresh(live), events) == []
    ensures StoredVersion(PutRun(PLAIN, Fresh(live), events).stores) == if rollbackFails then 1 else live
  {
    var w, sys, put := PLAIN, Fresh(live), DoPut(SimplePut(0, true, rollbackFails));
    var e1 := [] + [put];
    var e3 := e1 + [Reads] + [Applies];
    events := e3 + [Pushes(false, "")];
    SimpleCommit(sys.stores, 0, true, rollbackFails);
    OnePutEvent(w, sys, [], put);
    var doc := if rollbackFails then Doc(1) else Doc(live);
    assert PutRun(w, sys, e1) == System(sys.stores.(file := Some(doc)), Waiting) && Won(w, sys, e1) == [];
    OnePutEvent(w, sys, e1, Reads);
    OnePutEvent(w, sys, e1 + [Reads], Applies);
    OnePutEvent(w, sys, e3, Pushes(false, ""));
  }

  // A rollback after a partial failure changes the file, although its error is not partial.
  lemma {:induction false} RollbackRepairsFile()
    ensures var p, q := SimplePut(1, true, true), SimplePut(1, true, false);
            var first := Commit(PLAIN, Holding(1), PutStep(p).req, p.faults);
            var second := Commit(PLAIN, first.0, PutStep(q).req, q.faults);
            first.1 == RepoFailed(true) && second.1 == RepoFailed(false) && second.0 != first.0
  {
    SimpleCommit(Holding(1), 1, true, true);
    SimpleCommit(Holding(1).(file := Some(Doc(2))), 1, true, false);
  }
}
