// cmd/metiqd/control_rpc_message.go: the keyed path of launchMessageRetryRun and
// evictStaleMessageRetryRunsLocked, against the job registry of
// cmd/metiqd/runtime_semantics.go.
//
// messageRetryRuns.mu serialises keyed retries, but the job registry has its own lock:
// runs begin, finish and leave its retention window between any two of a retry's steps.
module RetryRuns {

  type Key = string

  // messageRetryRunIDForKey is taken to be injective, and its ids to differ from the
  // unkeyed ones.
  datatype RunId = KeyedRun(key: Key) | OtherRun(id: string)

  datatype Status = Pending | Ended

  // Where the holder of messageRetryRuns.mu has got to.
  datatype Holder =
    | Idle
    | Evicting(key: Key, todo: set<Key>)
    | Beginning(key: Key)
    | Publishing(key: Key)

  datatype Reply = Reply(key: Key, run: RunId, replayed: bool)

  datatype State = State(
    byKey: map<Key, RunId>,
    jobs: map<RunId, Status>,
    holder: Holder,
    launches: multiset<Key>,
    expired: multiset<Key>,
    replies: seq<Reply>)

  const INITIAL := State(map[], map[], Idle, multiset{}, multiset{}, [])

  datatype Step =
    | Lock(key: Key)          // take the mutex for a retry of this key
    | Evict(key: Key)         // one turn of the eviction loop
    | Look                    // replay, or forget a dead mapping
    | Begin                   // jobs.Begin
    | Publish                 // record the run id and unlock
    | BeginOther(id: string)  // any other user of the registry
    | Finish(run: RunId)
    | Expire(run: RunId)      // cleanupFinishedLocked

  predicate Enabled(s: State, step: Step)
  {
    match step
    case Lock(_) => s.holder.Idle?
    case Evict(key) => s.holder.Evicting? && key in s.holder.todo && key in s.byKey
    case Look => s.holder.Evicting? && s.holder.todo == {}
    case Begin => s.holder.Beginning?
    case Publish => s.holder.Publishing?
    case BeginOther(_) => true
    case Finish(run) => run in s.jobs
    case Expire(run) => run in s.jobs && s.jobs[run] == Ended
  }

  predicate Replays(s: State, key: Key) { key in s.byKey && s.byKey[key] in s.jobs }

  function Do(s: State, step: Step): State
  {
    if !Enabled(s, step) then s
    else match step
      case Lock(key) => s.(holder := Evicting(key, s.byKey.Keys))
      case Evict(key) =>
        s.(byKey := if s.byKey[key] in s.jobs then s.byKey else s.byKey - {key},
           holder := s.holder.(todo := s.holder.todo - {key}))
      case Look =>
        var key := s.holder.key;
        if Replays(s, key) then s.(holder := Idle, replies := s.replies + [Reply(key, s.byKey[key], true)])
        else s.(byKey := s.byKey - {key}, holder := Beginning(key))
      case Begin =>
        var key := s.holder.key;
        s.(jobs := s.jobs[KeyedRun(key) := Pending],
           launches := s.launches + multiset{key},
           holder := Publishing(key))
      case Publish =>
        var key := s.holder.key;
        s.(byKey := s.byKey[key := KeyedRun(key)],
           replies := s.replies + [Reply(key, KeyedRun(key), false)],
           holder := Idle)
      case BeginOther(id) => s.(jobs := s.jobs[OtherRun(id) := Pending])
      case Finish(run) => s.(jobs := s.jobs[run := Ended])
      case Expire(run) =>
        s.(jobs := s.jobs - {run},
           expired := if run.KeyedRun? then s.expired + multiset{run.key} else s.expired)
  }

  function Run(s: State, steps: seq<Step>): State
  {
    if steps == [] then s else Do(Run(s, steps[..|steps| - 1]), steps[|steps| - 1])
  }

  // ----- What every interleaving keeps -----

  ghost predicate Inv(s: State)
  {
    && (forall k | k in s.byKey :: s.byKey[k] == KeyedRun(k))
    && (forall k | KeyedRun(k) in s.jobs :: k in s.byKey || s.holder == Publishing(k))
    && (s.holder.Evicting? ==> s.holder.todo <= s.byKey.Keys)
    && (s.holder.Beginning? ==> s.holder.key !in s.byKey && KeyedRun(s.holder.key) !in s.jobs)
    && (forall i | 0 <= i < |s.replies| :: s.replies[i].run == KeyedRun(s.replies[i].key))
  }

  // Every launch of a key is either the one registered now or one that has expired.
  ghost predicate Balanced(s: State)
  {
    forall k :: s.launches[k] == s.expired[k] + if KeyedRun(k) in s.jobs then 1 else 0
  }

  lemma StepKeepsInv(s: State, step: Step)
    requires Inv(s)
    ensures Inv(Do(s, step))
  {
  }

  lemma StepKeepsBalance(s: State, step: Step)
    requires Inv(s) && Balanced(s)
    ensures Balanced(Do(s, step))
  {
  }

  lemma {:induction false} RunKeepsInv(steps: seq<Step>)
    ensures Inv(Run(INITIAL, steps)) && Balanced(Run(INITIAL, steps))
  {
    if steps != [] {
      var front, last := steps[..|steps| - 1], steps[|steps| - 1];
      RunKeepsInv(front);
      StepKeepsInv(Run(INITIAL, front), last);
      StepKeepsBalance(Run(INITIAL, front), last);
    }
  }

  // In every interleaving: launches of a key are its expiries plus the run registered
  // now, so at most one more than its expiries; and every reply for a key names the
  // same run.
  lemma LaunchesAreBounded(steps: seq<Step>, k: Key)
    ensures var s := Run(INITIAL, steps);
            && s.launches[k] == s.expired[k] + (if KeyedRun(k) in s.jobs then 1 else 0)
            && s.launches[k] <= 1 + s.expired[k]
            && (forall i, j | 0 <= i < |s.replies| && 0 <= j < |s.replies| && s.replies[i].key == s.replies[j].key ::
                  s.replies[i].run == s.replies[j].run)
  {
    RunKeepsInv(steps);
  }

  // While its run is registered, a key can only be replayed: whoever holds the lock for
  // it is never past the look-up, and the look-up answers with that run.
  lemma RegisteredRunIsReplayed(steps: seq<Step>, k: Key)
    requires var s := Run(INITIAL, steps); KeyedRun(k) in s.jobs && s.holder != Publishing(k)
    ensures var s := Run(INITIAL, steps);
            && s.holder != Beginning(k)
            && (s.holder == Evicting(k, {}) ==>
                  Do(s, Look) == s.(holder := Idle, replies := s.replies + [Reply(k, KeyedRun(k), true)]))
  {
    RunKeepsInv(steps);
  }

  // Begin never replaces a registered run.
  lemma BeginIsFresh(steps: seq<Step>)
    requires Enabled(Run(INITIAL, steps), Begin)
    ensures var s := Run(INITIAL, steps); KeyedRun(s.holder.key) !in s.jobs
  {
    RunKeepsInv(steps);
  }

  // ----- The critical section as it is written -----

  class RetryRegistry {
    var byKey: map<Key, RunId>
    var jobs: map<RunId, Status>
    ghost var launches: multiset<Key>
    ghost var expired: multiset<Key>
    ghost var replies: seq<Reply>

    ghost function Now(holder: Holder): State
      reads this
    {
      State(byKey, jobs, holder, launches, expired, replies)
    }

    constructor ()
      ensures Now(Idle) == INITIAL
    {
      byKey, jobs := map[], map[];
      launches, expired, replies := multiset{}, multiset{}, [];
    }

    // evictStaleMessageRetryRunsLocked: the mappings whose run is still registered stay.
    method EvictStale(ghost key: Key, ghost start: State, ghost before: seq<Step>) returns (ghost steps: seq<Step>)
      requires Now(Evicting(key, byKey.Keys)) == Run(start, before)
      modifies this`byKey
      ensures byKey == map k | k in old(byKey) && old(byKey)[k] in jobs :: old(byKey)[k]
      ensures Now(Evicting(key, {})) == Run(start, steps)
    {
      var todo := byKey.Keys;
      steps := before;
      while todo != {}
        invariant todo <= byKey.Keys <= old(byKey).Keys
        invariant forall k | k in byKey :: byKey[k] == old(byKey)[k]
        invariant forall k | k in old(byKey) && k !in todo :: k in byKey <==> old(byKey)[k] in jobs
        invariant Now(Evicting(key, todo)) == Run(start, steps)
        decreases |todo|
      {
        var k :| k in todo;
        OneMore(start, steps, Evict(k));
        if byKey[k] !in jobs {
          byKey := byKey - {k};
        }
        todo := todo - {k};
        steps := steps + [Evict(k)];
      }
    }

    // One keyed retry, undisturbed: it is a run of the machine above.
    method RetryKeyed(key: Key) returns (reply: Reply, ghost steps: seq<Step>)
      modifies this
      ensures Now(Idle) == Run(old(Now(Idle)), steps)
      ensures replies == old(replies) + [reply] && reply.key == key
      ensures reply.replayed <==> key in old(byKey) && old(byKey)[key] in old(jobs)
      ensures jobs == if reply.replayed then old(jobs) else old(jobs)[KeyedRun(key) := Pending]
      ensures key in byKey && byKey[key] == reply.run
      ensures reply.run == if reply.replayed then old(byKey)[key] else KeyedRun(key)
    {
      ghost var start := Now(Idle);
      OneMore(start, [], Lock(key));
      steps := EvictStale(key, start, [Lock(key)]);
      if key in byKey && byKey[key] in jobs {
        LookReplays(start, steps, key);
        reply := Reply(key, byKey[key], true);
        steps := steps + [Look];
      } else {
        LookLaunches(start, steps, key);
        byKey := byKey - {key};
        jobs := jobs[KeyedRun(key) := Pending];
        launches := launches + multiset{key};
        byKey := byKey[key := KeyedRun(key)];
        reply := Reply(key, KeyedRun(key), false);
        steps := steps + [Look] + [Begin] + [Publish];
      }
      replies := replies + [reply];
    }
  }

  lemma {:induction false} LookReplays(start: State, steps: seq<Step>, key: Key)
    requires var s := Run(start, steps); s.holder == Evicting(key, {}) && Replays(s, key)
    ensures var s := Run(start, steps);
            Run(start, steps + [Look]) == s.(holder := Idle, replies := s.replies + [Reply(key, s.byKey[key], true)])
  {
    OneMore(start, steps, Look);
  }

  function Launched(s: State, key: Key): State
  {
    s.(byKey := (s.byKey - {key})[key := KeyedRun(key)],
       jobs := s.jobs[KeyedRun(key) := Pending],
       launches := s.launches + multiset{key},
       replies := s.replies + [Reply(key, KeyedRun(key), false)],
       holder := Idle)
  }

  lemma LaunchInThree(s: State, key: Key)
    requires s.holder == Evicting(key, {}) && !Replays(s, key)
    ensures Do(Do(Do(s, Look), Begin), Publish) == Launched(s, key)
  {
  }

  lemma {:induction false} LookLaunches(start: State, steps: seq<Step>, key: Key)
    requires var s := Run(start, steps); s.holder == Evicting(key, {}) && !Replays(s, key)
    ensures Run(start, steps + [Look] + [Begin] + [Publish]) == Launched(Run(start, steps), key)
  {
    var s := Run(start, steps);
    var looked := steps + [Look];
    var begun := looked + [Begin];
    assert Run(start, looked) == Do(s, Look) by { OneMore(start, steps, Look); }
    assert Run(start, begun) == Do(Do(s, Look), Begin) by { OneMore(start, looked, Begin); }
    assert Run(start, begun + [Publish]) == Do(Do(Do(s, Look), Begin), Publish) by { OneMore(start, begun, Publish); }
    LaunchInThree(s, key);
  }

  lemma {:induction false} OneMore(s: State, steps: seq<Step>, step: Step)
    ensures Run(s, steps + [step]) == Do(Run(s, steps), step)
    ensures [] + [step] == [step]
  {
    assert (steps + [step])[..|steps|] == steps;
  }

  // ----- How a run comes and goes -----

  // A launched run is registered as pending, and stays until it has finished; a finished one
  // stays until it expires, and is then gone.
  lemma {:induction false} RunsComeAndGo(s: State, run: RunId)
    ensures s.holder.Beginning? ==>
              var t := Do(s, Begin);
              KeyedRun(s.holder.key) in t.jobs && t.jobs[KeyedRun(s.holder.key)] == Pending
    ensures run in s.jobs ==> run in Do(s, Finish(run)).jobs && Do(s, Finish(run)).jobs[run] == Ended
    ensures run in s.jobs && s.jobs[run] == Pending ==> run in Do(s, Expire(run)).jobs
    ensures run in s.jobs && s.jobs[run] == Ended ==> run !in Do(s, Expire(run)).jobs
  {
  }

  // Nothing else takes a run out of the registry.
  lemma {:induction false} OnlyExpiryRemoves(s: State, step: Step, run: RunId)
    requires run in s.jobs && run !in Do(s, step).jobs
    ensures step == Expire(run) && s.jobs[run] == Ended
  {
  }
}
