// cmd/metiqd/approval_owners.go and cmd/metiqd/runtime_semantics.go: what each operation of
// the approval registry writes, field by field, and who can approve.
module ApprovalFields {
  import opened Wrappers
  import opened ApprovalLedger
  import Order
  import Text

  // What was asked is the same in both.
  predicate SameRequest(r: Record, r': Record)
  {
    && r'.id == r.id && r'.kind == r.kind && r'.request == r.request
    && r'.timeoutMS == r.timeoutMS && r'.requested == r.requested && r'.expiresAt == r.expiresAt
  }

  predicate IsPending(r: Record) { r.status == "pending" && r.decision == "" && r.resolvedAt == 0 }

  predicate IsDecided(r: Record, decision: string, reason: string, scope: string, now: int)
  {
    && r.status == "resolved" && r.decision == decision && r.reason == reason
    && r.grantScope == scope && r.resolvedAt == now
  }

  // The call reached the disk, if there is one.
  predicate IsWritten(s: State, fails: bool) { !(s.durable && fails) }

  // ----- Requests -----

  predicate OwnerMayAsk(kind: string, timeoutMS: int) { (kind == "plugin" || kind == "system") && timeoutMS > 0 }

  // A granted request is one new pending record, which expires after its timeout; every
  // other record is as it was.
  lemma {:induction false} RequestWrites(lower: string -> string, s: State, op: Op, now: int, fails: bool, s': State,
                                         reply: Reply)
    requires Next(lower, s, op, now, fails, s', reply) && (op.RequestExec? || op.RequestOwned?)
    ensures reply.Granted? <==>
            IsWritten(s, fails) && (op.RequestOwned? ==> OwnerMayAsk(lower(Text.Trim(op.kind)), op.timeoutMS))
    ensures reply.Granted? ==>
              var rec := reply.rec;
              && s'.mem.pending == s.mem.pending[rec.id := rec] && rec.id !in s.mem.pending && IsPending(rec)
              && rec.kind == (if op.RequestExec? then "exec" else lower(Text.Trim(op.kind)))
              && rec.request == op.request && rec.timeoutMS == op.timeoutMS
              && rec.requested == now && rec.expiresAt == now + op.timeoutMS
    ensures !reply.Granted? ==> s'.mem == s.mem
  {
  }

  // ----- Resolutions -----

  // A reviewer's resolution is written exactly for a pending record, with that decision.
  lemma {:induction false} ResolveWrites(lower: string -> string, s: State, id: string, decision: string,
                                         reason: string, now: int, fails: bool, s': State, reply: Reply)
    requires Next(lower, s, Resolve(id, decision, reason), now, fails, s', reply)
    ensures if id in s.mem.pending && s.mem.pending[id].status == "pending" && IsWritten(s, fails)
            then && id in s'.mem.pending && s'.mem.pending == s.mem.pending[id := s'.mem.pending[id]]
                 && SameRequest(s.mem.pending[id], s'.mem.pending[id])
                 && IsDecided(s'.mem.pending[id], decision, reason, "reviewer", now)
            else s'.mem == s.mem
  {
  }

  // An expiry is a denial, of any record that is not resolved.
  lemma {:induction false} TerminalizeWrites(lower: string -> string, s: State, id: string, reason: string, now: int,
                                             fails: bool, s': State, reply: Reply)
    requires Next(lower, s, Terminalize(id, reason), now, fails, s', reply)
    ensures if id in s.mem.pending && s.mem.pending[id].status != "resolved" && IsWritten(s, fails)
            then && id in s'.mem.pending && s'.mem.pending == s.mem.pending[id := s'.mem.pending[id]]
                 && SameRequest(s.mem.pending[id], s'.mem.pending[id])
                 && IsDecided(s'.mem.pending[id], "deny", reason, "system-expiry", now)
            else s'.mem == s.mem
  {
  }

  // A policy fallback decides as it is told, unless a reviewer or a policy has decided.
  lemma {:induction false} FallbackWrites(lower: string -> string, s: State, id: string, allowed: bool, reason: string,
                                          now: int, fails: bool, s': State, reply: Reply)
    requires Next(lower, s, ResolveFallback(id, allowed, reason), now, fails, s', reply)
    ensures if id in s.mem.pending && IsWritten(s, fails) &&
               (s.mem.pending[id].status != "resolved" || s.mem.pending[id].grantScope == "system-expiry")
            then && id in s'.mem.pending && s'.mem.pending == s.mem.pending[id := s'.mem.pending[id]]
                 && SameRequest(s.mem.pending[id], s'.mem.pending[id])
                 && IsDecided(s'.mem.pending[id], if allowed then "approve" else "deny", Text.Trim(reason),
                              "policy-fallback", now)
            else s'.mem == s.mem
  {
  }

  // A policy change is what is asked for, and touches no record.
  lemma {:induction false} PolicyWrites(lower: string -> string, s: State, op: Op, now: int, fails: bool, s': State,
                                        reply: Reply)
    requires Next(lower, s, op, now, fails, s', reply) && (op.SetGlobal? || op.SetNode?)
    ensures s'.mem.pending == s.mem.pending
    ensures !IsWritten(s, fails) ==> s'.mem == s.mem
    ensures IsWritten(s, fails) && op.SetGlobal? ==> s'.mem.global == op.policy && s'.mem.perNode == s.mem.perNode
    ensures IsWritten(s, fails) && op.SetNode? ==>
              && s'.mem.global == s.mem.global && op.node in s'.mem.perNode
              && forall n :: n in s'.mem.perNode <==> n in s.mem.perNode || n == op.node
    ensures IsWritten(s, fails) && op.SetNode? ==>
              forall n | n in s'.mem.perNode ::
                s'.mem.perNode[n] == if n == op.node then op.policy else s.mem.perNode[n]
  {
  }

  // ----- Cleaning up -----

  predicate IsOverdue(r: Record, now: int) { r.status == "pending" && r.expiresAt > 0 && r.expiresAt <= now }

  // Resolved more than an hour ago.
  predicate IsStale(r: Record, now: int) { r.status == "resolved" && r.resolvedAt + 3_600_000 < now }

  // A clean-up changes nothing but overdue requests, and those it denies;
  lemma {:induction false} CleanupOnlyDenies(lower: string -> string, s: State, now: int, fails: bool, s': State,
                                             reply: Reply, id: string)
    requires Next(lower, s, Cleanup, now, fails, s', reply)
    ensures id in s'.mem.pending ==>
              && id in s.mem.pending && SameRequest(s.mem.pending[id], s'.mem.pending[id])
              && (s'.mem.pending[id] == s.mem.pending[id] ||
                  (IsOverdue(s.mem.pending[id], now) &&
                   IsDecided(s'.mem.pending[id], "deny", "approval expired", "system-expiry", now)))
    ensures s'.mem.global == s.mem.global && s'.mem.perNode == s.mem.perNode
  {
  }

  // and it removes no other record than stale ones and, when more than two hundred are left,
  // some of those.
  lemma {:induction false} CleanupOnlyRemoves(lower: string -> string, s: State, now: int, fails: bool, s': State,
                                              reply: Reply, id: string)
    requires Next(lower, s, Cleanup, now, fails, s', reply)
    requires id in s.mem.pending && id !in s'.mem.pending && !IsStale(s.mem.pending[id], now)
    ensures |set i | i in s.mem.pending && !IsStale(s.mem.pending[i], now)| > 200
  {
    var swept := Swept(s.mem.pending, now);
    assert id in Surplus(swept);
    CountOfStamps(swept);
    assert swept.Keys == set i | i in s.mem.pending && !IsStale(s.mem.pending[i], now);
  }

  // A clean-up that is written, or finds nothing to write, leaves no overdue request, no
  // stale record, and no more than two hundred.
  lemma {:induction false} CleanupLeavesNone(lower: string -> string, s: State, now: int, fails: bool, s': State,
                                             reply: Reply)
    requires Next(lower, s, Cleanup, now, fails, s', reply) && IsWritten(s, fails)
    ensures forall id | id in s'.mem.pending :: !IsOverdue(s'.mem.pending[id], now) && !IsStale(s'.mem.pending[id], now)
    ensures |s'.mem.pending| <= 200
  {
    var swept := Swept(s.mem.pending, now);
    assert s'.mem.pending == CleanedUp(s.mem.pending, now);
    BoundHolds(swept);
    forall id | id in s'.mem.pending
      ensures !IsOverdue(s'.mem.pending[id], now) && !IsStale(s'.mem.pending[id], now)
    {
      assert s'.mem.pending[id] == swept[id];
    }
  }

  lemma {:induction false} CountOfFirst(stamps: seq<Stamp>, n: nat)
    requires n <= |stamps| && forall i, j | 0 <= i < j < |stamps| :: stamps[i].id != stamps[j].id
    ensures |FirstIds(stamps, n)| == n
  {
    if n > 0 {
      CountOfFirst(stamps, n - 1);
      assert FirstIds(stamps, n) == FirstIds(stamps, n - 1) + {stamps[n - 1].id};
    }
  }

  // What stays are the newest two hundred.
  lemma {:induction false} BoundHolds(pending: Records)
    ensures |pending - Surplus(pending)| <= 200
  {
    var stamps := SortedStamps(pending);
    CountOfStamps(pending);
    if |stamps| > 200 {
      IdsAreDistinct(pending);
      CountOfFirst(stamps, |stamps| - 200);
      SurplusIsPending(pending);
      CountWithout(pending, Surplus(pending));
    } else {
      CountWithout(pending, {});
      assert Surplus(pending) == {};
    }
  }

  lemma {:induction false} CountWithout(pending: Records, gone: set<string>)
    requires gone <= pending.Keys
    ensures |pending - gone| == |pending| - |gone|
  {
    assert (pending - gone).Keys == pending.Keys - gone;
    assert pending.Keys == (pending.Keys - gone) + gone;
  }

  lemma {:induction false} IdsAreDistinct(pending: Records)
    ensures var stamps := SortedStamps(pending);
            forall i, j | 0 <= i < j < |stamps| :: stamps[i].id != stamps[j].id
  {
    var stamps := SortedStamps(pending);
    SortedStampsAreStamps(pending);
    forall i, j | 0 <= i < j < |stamps| ensures stamps[i].id != stamps[j].id {
      assert stamps[i] in stamps && stamps[j] in stamps && stamps[i] != stamps[j];
    }
  }

  // ----- Who approves -----

  // The call is somebody's approval of this record.
  predicate Approves(op: Op, id: string)
  {
    || (op.Resolve? && op.id == id && op.decision == "approve")
    || (op.ResolveFallback? && op.id == id && op.allowed)
  }

  ghost predicate IsApproved(s: State, id: string)
  {
    id in s.mem.pending && s.mem.pending[id].decision == "approve"
  }

  // Everything but a resolution: whoever is approved afterwards was before.
  lemma {:induction false} OthersApproveNobody(lower: string -> string, s: State, c: Call, s': State, reply: Reply,
                                               id: string)
    requires Inv(s) && s.durable && Next(lower, s, c.op, c.now, c.fails, s', reply) && IsApproved(s', id)
    requires !c.op.Resolve? && !c.op.Terminalize? && !c.op.ResolveFallback?
    ensures IsApproved(s, id)
  {
    if c.op.RequestExec? || c.op.RequestOwned? {
      RequestWrites(lower, s, c.op, c.now, c.fails, s', reply);
    } else if c.op.Cleanup? {
      CleanupOnlyDenies(lower, s, c.now, c.fails, s', reply, id);
    } else if c.op.SetGlobal? || c.op.SetNode? {
      PolicyWrites(lower, s, c.op, c.now, c.fails, s', reply);
    }
  }

  lemma {:induction false} ResolutionApproves(lower: string -> string, s: State, c: Call, s': State, reply: Reply,
                                              id: string)
    requires Next(lower, s, c.op, c.now, c.fails, s', reply) && IsApproved(s', id)
    requires c.op.Resolve? || c.op.Terminalize? || c.op.ResolveFallback?
    ensures IsApproved(s, id) || Approves(c.op, id)
  {
    match c.op
    case Resolve(i, d, r) => ResolveWrites(lower, s, i, d, r, c.now, c.fails, s', reply);
    case Terminalize(i, r) => TerminalizeWrites(lower, s, i, r, c.now, c.fails, s', reply);
    case ResolveFallback(i, a, r) => FallbackWrites(lower, s, i, a, r, c.now, c.fails, s', reply);
  }

  // Over every run of a durable registry: an approved record was approved by a reviewer who
  // decided so or by a policy fallback that allows it.  No expiry, clean-up or restart does.
  lemma {:induction false} ApprovedBySomebody(lower: string -> string, states: seq<State>, calls: seq<Call>,
                                              replies: seq<Reply>, n: nat, id: string)
    requires IsRun(lower, states, calls, replies) && Empty(states[0]) && states[0].durable
    requires n < |states| && IsApproved(states[n], id)
    ensures exists k | 0 <= k < n :: Approves(calls[k].op, id)
  {
    if n > 0 {
      RunKeepsInv(lower, states, calls, replies, n - 1);
      var c := calls[n - 1];
      if c.op.Resolve? || c.op.Terminalize? || c.op.ResolveFallback? {
        ResolutionApproves(lower, states[n - 1], c, states[n], replies[n - 1], id);
      } else {
        OthersApproveNobody(lower, states[n - 1], c, states[n], replies[n - 1], id);
      }
      if !Approves(c.op, id) {
        ApprovedBySomebody(lower, states, calls, replies, n - 1, id);
      }
    }
  }

  // ----- The ledger -----

  // A ledger lists its records by the time they were requested, and by id within a
  // millisecond.
  lemma {:induction false} LedgerIsInOrder(doc: Ledger, now: Loaded, i: nat, j: nat)
    requires IsLedgerOf(doc, now) && WellFormed(now.pending) && i < j < |doc.records|
    ensures || doc.records[i].requested < doc.records[j].requested
            || (doc.records[i].requested == doc.records[j].requested &&
                Order.Less(doc.records[i].id, doc.records[j].id))
  {
    var stamps := SortedStamps(now.pending);
    SortedStampsAreStamps(now.pending);
    assert StampAtMost(stamps[i], stamps[j]) && stamps[i] in stamps && stamps[j] in stamps && stamps[i] != stamps[j];
    Order.LessIsTotal(stamps[i].id, stamps[j].id);
  }

  // ----- What the daemon starts on -----

  // A ledger is refused exactly when its version is not 1, or a record with an id names an
  // owner other than exec, plugin or system (none at all counts as exec).
  predicate BadOwner(r: Record)
  {
    r.id != "" && r.kind != "" && r.kind != "exec" && r.kind != "plugin" && r.kind != "system"
  }

  lemma {:induction false} RecordsLoadIff(records: seq<Record>)
    ensures LoadRecords(records).Some? <==> forall i | 0 <= i < |records| :: !BadOwner(records[i])
  {
    if records != [] {
      RecordsLoadIff(records[..|records| - 1]);
    }
  }

  lemma {:induction false} LoadRefusesIff(doc: Ledger)
    ensures Load(Some(doc)).None? <==>
            doc.version != 1 || exists i | 0 <= i < |doc.records| :: BadOwner(doc.records[i])
  {
    RecordsLoadIff(doc.records);
  }
}
