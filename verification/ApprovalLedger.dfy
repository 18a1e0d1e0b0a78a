// cmd/metiqd/approval_owners.go: the durable approval registry, its ledger file and the
// operations that write it; Resolve is in cmd/metiqd/runtime_semantics.go.
//
// A ledger write replaces the file or leaves it alone, and JSON returns what was
// written.  Without a storage path nothing is written at all.
module ApprovalLedger {
  import opened Wrappers
  import Order
  import Text

  // `request` is everything else the requester supplied.
  datatype Record = Record(
    id: string, kind: string, request: string, timeoutMS: int, requested: int, expiresAt: int,
    status: string, decision: string, reason: string, grantScope: string, resolvedAt: int)

  type Records = map<string, Record>
  type Policy = map<string, string>

  const LEDGER_VERSION := 1

  datatype Ledger = Ledger(version: int, global: Policy, perNode: map<string, Policy>, records: seq<Record>)

  datatype Loaded = Loaded(pending: Records, global: Policy, perNode: map<string, Policy>)

  predicate ValidOwner(kind: string) { kind == "exec" || kind == "plugin" || kind == "system" }

  // ----- Reading the ledger -----

  function LoadRecord(rec: Record): Option<Record>
  {
    var owned := if rec.kind == "" then rec.(kind := "exec") else rec;
    if ValidOwner(owned.kind) then Some(owned) else None
  }

  function LoadRecords(records: seq<Record>): Option<Records>
  {
    if records == [] then Some(map[])
    else
      var n := |records| - 1;
      var front := LoadRecords(records[..n]);
      if front.None? || records[n].id == "" then front
      else
        var rec := LoadRecord(records[n]);
        if rec.None? then None else Some(front.value[records[n].id := rec.value])
  }

  // None: the daemon refuses to start on this ledger.
  function Load(disk: Option<Ledger>): Option<Loaded>
  {
    match disk
    case None => Some(Loaded(map[], map[], map[]))
    case Some(doc) =>
      if doc.version != LEDGER_VERSION then None
      else
        var records := LoadRecords(doc.records);
        if records.None? then None else Some(Loaded(records.value, doc.global, doc.perNode))
  }

  method ReadLedger(disk: Option<Ledger>) returns (r: Option<Loaded>)
    ensures r == Load(disk)
  {
    if disk.None? {
      return Some(Loaded(map[], map[], map[]));
    }
    var doc := disk.value;
    if doc.version != LEDGER_VERSION {
      return None;
    }
    var pending: Records := map[];
    for i := 0 to |doc.records|
      invariant LoadRecords(doc.records[..i]) == Some(pending)
    {
      var rec := doc.records[i];
      assert doc.records[..i + 1][..i] == doc.records[..i];
      if rec.id == "" {
        continue;
      }
      var owned := LoadRecord(rec);
      if owned.None? {
        BadRecordStops(doc.records, i + 1);
        return None;
      }
      pending := pending[rec.id := owned.value];
    }
    assert doc.records[..|doc.records|] == doc.records;
    r := Some(Loaded(pending, doc.global, doc.perNode));
  }

  lemma {:induction false} BadRecordStops(records: seq<Record>, n: nat)
    requires n <= |records| && LoadRecords(records[..n]).None?
    ensures LoadRecords(records).None?
    decreases |records|
  {
    if n < |records| {
      var m := |records| - 1;
      assert records[..m][..n] == records[..n];
      BadRecordStops(records[..m], n);
    } else {
      assert records[..n] == records;
    }
  }

  // ----- Writing it: records by request time, then id -----

  datatype Stamp = Stamp(requested: int, id: string)

  predicate StampAtMost(a: Stamp, b: Stamp)
  {
    a.requested < b.requested || (a.requested == b.requested && Order.AtMost(a.id, b.id))
  }

  function Stamps(pending: Records): set<Stamp>
  {
    set id | id in pending :: Stamp(pending[id].requested, id)
  }

  ghost function SortedStamps(pending: Records): seq<Stamp>
  {
    Order.Sort(Order.Enumerate(Stamps(pending)), StampAtMost)
  }

  lemma StampOrder()
    ensures Order.IsTotalOrder(StampAtMost)
  {
    Order.StringOrder();
    assert forall m, n :: Order.AtMost(m, n) || Order.AtMost(n, m);
  }

  lemma SortedStampsAreStamps(pending: Records)
    ensures forall st :: st in SortedStamps(pending) <==> st.id in pending && pending[st.id].requested == st.requested
    ensures Order.NoRepeats(SortedStamps(pending)) && Order.Sorted(SortedStamps(pending), StampAtMost)
  {
    StampOrder();
    var list := Order.Enumerate(Stamps(pending));
    Order.SortIsSorted(list, StampAtMost);
    Order.SortKeepsDistinct(list, StampAtMost);
    forall st ensures st in Stamps(pending) <==> st.id in pending && pending[st.id].requested == st.requested {
    }
  }

  // The ledger's records, listed by stamp.
  ghost predicate Lists(records: seq<Record>, stamps: seq<Stamp>, pending: Records)
  {
    && |records| == |stamps|
    && forall i | 0 <= i < |records| :: stamps[i].id in pending && records[i] == pending[stamps[i].id]
  }

  ghost predicate IsLedgerOf(doc: Ledger, now: Loaded)
  {
    && doc.version == LEDGER_VERSION && doc.global == now.global && doc.perNode == now.perNode
    && Lists(doc.records, SortedStamps(now.pending), now.pending)
  }

  method SortStamps(pending: Records) returns (stamps: seq<Stamp>)
    ensures stamps == SortedStamps(pending)
  {
    var listed := Order.List(Stamps(pending));
    stamps := Order.Sort(listed, StampAtMost);
    StampOrder();
    Order.SameElementsSameSort(listed, Order.Enumerate(Stamps(pending)), StampAtMost);
  }

  method ListRecords(stamps: seq<Stamp>, pending: Records) returns (records: seq<Record>)
    requires forall i | 0 <= i < |stamps| :: stamps[i].id in pending
    ensures Lists(records, stamps, pending)
  {
    records := [];
    for i := 0 to |stamps|
      invariant |records| == i && forall j | 0 <= j < i :: records[j] == pending[stamps[j].id]
    {
      records := records + [pending[stamps[i].id]];
    }
  }

  method Encode(now: Loaded) returns (doc: Ledger)
    ensures IsLedgerOf(doc, now)
  {
    var stamps := SortStamps(now.pending);
    StampedIdsArePending(now.pending);
    var records := ListRecords(stamps, now.pending);
    doc := Ledger(LEDGER_VERSION, now.global, now.perNode, records);
  }

  lemma StampedIdsArePending(pending: Records)
    ensures var stamps := SortedStamps(pending); forall i | 0 <= i < |stamps| :: stamps[i].id in pending
  {
    SortedStampsAreStamps(pending);
    var stamps := SortedStamps(pending);
    forall i | 0 <= i < |stamps| ensures stamps[i].id in pending { assert stamps[i] in stamps; }
  }

  lemma {:induction false} CountOfStamps(pending: Records)
    ensures |SortedStamps(pending)| == |pending|
  {
    var stamps := SortedStamps(pending);
    SortedStampsAreStamps(pending);
    var ids := seq(|stamps|, i requires 0 <= i < |stamps| => stamps[i].id);
    forall id | id in pending ensures id in ids {
      assert Stamp(pending[id].requested, id) in stamps;
      var i :| 0 <= i < |stamps| && stamps[i] == Stamp(pending[id].requested, id);
      assert ids[i] == id;
    }
    forall id | id in ids ensures id in pending {
      var i :| 0 <= i < |ids| && ids[i] == id;
      assert stamps[i] in stamps;
    }
    forall i, j | 0 <= i < j < |ids| ensures ids[i] != ids[j] {
      assert stamps[i] in stamps && stamps[j] in stamps;
    }
    Order.CountOfList(ids, pending.Keys);
  }

  // ----- Round trip -----

  ghost predicate WellFormed(pending: Records)
  {
    forall id | id in pending :: id != "" && pending[id].id == id && ValidOwner(pending[id].kind)
  }

  lemma {:induction false} LoadListed(records: seq<Record>, stamps: seq<Stamp>, pending: Records)
    requires WellFormed(pending) && Lists(records, stamps, pending)
    ensures var loaded := LoadRecords(records);
            && loaded.Some?
            && (forall st | st in stamps :: st.id in loaded.value)
            && (forall id | id in loaded.value :: id in pending && loaded.value[id] == pending[id])
  {
    if records != [] {
      var n := |records| - 1;
      LoadListed(records[..n], stamps[..n], pending);
      assert stamps == stamps[..n] + [stamps[n]];
      assert LoadRecord(records[n]) == Some(pending[stamps[n].id]);
    }
  }

  lemma LoadAll(records: seq<Record>, pending: Records)
    requires WellFormed(pending) && Lists(records, SortedStamps(pending), pending)
    ensures LoadRecords(records) == Some(pending)
  {
    var stamps := SortedStamps(pending);
    LoadListed(records, stamps, pending);
    var loaded := LoadRecords(records).value;
    forall id | id in pending ensures id in loaded {
      SortedStampsAreStamps(pending);
      assert Stamp(pending[id].requested, id) in stamps;
    }
    assert loaded.Keys == pending.Keys;
    assert loaded == pending;
  }

  // Any ledger written for well-formed records loads, and gives them back.
  lemma LoadReadsLedger(doc: Ledger, now: Loaded)
    requires WellFormed(now.pending) && IsLedgerOf(doc, now)
    ensures Load(Some(doc)) == Some(now)
  {
    LoadAll(doc.records, now.pending);
  }

  // ----- Fresh ids -----

  function ApprovalId(now: int, n: nat): string { "approval-" + Text.Decimal(now) + "-" + Text.Decimal(n) }

  lemma ApprovalIdIsInjective(now: int, m: nat, n: nat)
    requires ApprovalId(now, m) == ApprovalId(now, n)
    ensures m == n
  {
    var prefix := "approval-" + Text.Decimal(now) + "-";
    assert ApprovalId(now, m)[|prefix|..] == Text.Decimal(m);
    assert ApprovalId(now, n)[|prefix|..] == Text.Decimal(n);
    Text.DecimalIsInjective(m, n);
  }

  // The ids in the ledger that a search from counter c has not passed.
  ghost function NotPassed(pending: Records, now: int, c: nat): set<string>
  {
    set id | id in pending && exists n: nat :: n > c && id == ApprovalId(now, n)
  }

  lemma PassingOne(pending: Records, now: int, c: nat)
    requires ApprovalId(now, c + 1) in pending
    ensures NotPassed(pending, now, c + 1) < NotPassed(pending, now, c)
    ensures |NotPassed(pending, now, c + 1)| < |NotPassed(pending, now, c)|
  {
    var id := ApprovalId(now, c + 1);
    assert id in NotPassed(pending, now, c);
    if id in NotPassed(pending, now, c + 1) {
      var n: nat :| n > c + 1 && id == ApprovalId(now, n);
      ApprovalIdIsInjective(now, n, c + 1);
    }
    assert NotPassed(pending, now, c + 1) <= NotPassed(pending, now, c) - {id};
    Shrinks(NotPassed(pending, now, c + 1), NotPassed(pending, now, c), id);
  }

  lemma Shrinks(a: set<string>, b: set<string>, x: string)
    requires a <= b - {x} && x in b
    ensures |a| < |b|
  {
    var rest := b - {x};
    assert b == rest + {x};
    assert rest == a + (rest - a);
  }

  // The first unused counter above c.
  function NextCounter(pending: Records, now: int, c: nat): (n: nat)
    ensures n > c && ApprovalId(now, n) !in pending
    ensures forall m: nat | c < m < n :: ApprovalId(now, m) in pending
    decreases |NotPassed(pending, now, c)|
  {
    if ApprovalId(now, c + 1) !in pending then c + 1
    else
      PassingOne(pending, now, c);
      NextCounter(pending, now, c + 1)
  }

  // ----- The registry -----

  datatype State = State(durable: bool, disk: Option<Ledger>, mem: Loaded, counter: nat)

  datatype Op =
    | RequestExec(request: string, timeoutMS: int)
    | RequestOwned(kind: string, request: string, timeoutMS: int)
    | Terminalize(id: string, reason: string)
    | Resolve(id: string, decision: string, reason: string)
    | ResolveFallback(id: string, allowed: bool, reason: string)
    | Cleanup
    | SetGlobal(policy: Policy)
    | SetNode(node: string, policy: Policy)
    | Restart

  datatype Reply = Rejected | Failed | Granted(rec: Record) | AlreadyResolved(rec: Record) | Done

  function NewRecord(id: string, kind: string, request: string, timeoutMS: int, now: int): Record
  {
    Record(id, kind, request, timeoutMS, now, now + timeoutMS, "pending", "", "", "", 0)
  }

  function Resolved(rec: Record, decision: string, reason: string, scope: string, now: int): Record
  {
    rec.(status := "resolved", decision := decision, reason := reason, grantScope := scope, resolvedAt := now)
  }

  const POLICY_FALLBACK := "policy-fallback"

  // Resolved, and not by the registry's own expiry denial.
  predicate Final(rec: Record) { rec.status == "resolved" && rec.grantScope != "system-expiry" }

  function ByPolicy(rec: Record, allowed: bool, reason: string, now: int): Record
  {
    Resolved(rec, if allowed then "approve" else "deny", Text.Trim(reason), POLICY_FALLBACK, now)
  }

  // ----- Cleaning up -----

  const MAX_PENDING: nat := 200
  const APPROVAL_TTL := 3_600_000

  predicate Stale(rec: Record, now: int) { rec.status == "resolved" && now - rec.resolvedAt > APPROVAL_TTL }

  predicate Overdue(rec: Record, now: int) { rec.status == "pending" && rec.expiresAt > 0 && now >= rec.expiresAt }

  predicate Due(rec: Record, now: int) { Stale(rec, now) || Overdue(rec, now) }

  function Expired(rec: Record, now: int): Record
  {
    Resolved(rec, "deny", "approval expired", "system-expiry", now)
  }

  // Old resolutions go, and overdue requests are denied.
  function Swept(pending: Records, now: int): Records
  {
    map id | id in pending && !Stale(pending[id], now) ::
      if Overdue(pending[id], now) then Expired(pending[id], now) else pending[id]
  }

  function FirstIds(stamps: seq<Stamp>, n: int): set<string>
    requires n <= |stamps|
  {
    set i | 0 <= i < n :: stamps[i].id
  }

  // The oldest records beyond the bound.
  ghost function Surplus(pending: Records): set<string>
  {
    var stamps := SortedStamps(pending);
    FirstIds(stamps, |stamps| - MAX_PENDING)
  }

  ghost function CleanedUp(pending: Records, now: int): Records
  {
    Swept(pending, now) - Surplus(Swept(pending, now))
  }

  // Older than every record that stays, and as many as it takes.
  lemma {:induction false} SurplusIsOldest(pending: Records, id: string, other: string)
    requires id in Surplus(pending) && other in pending && other !in Surplus(pending)
    ensures id in pending && |pending| > MAX_PENDING
    ensures || pending[id].requested < pending[other].requested
            || (pending[id].requested == pending[other].requested && Order.AtMost(id, other))
  {
    var stamps := SortedStamps(pending);
    SortedStampsAreStamps(pending);
    CountOfStamps(pending);
    var i :| 0 <= i < |stamps| - MAX_PENDING && stamps[i].id == id;
    assert stamps[i] in stamps;
    assert Stamp(pending[other].requested, other) in stamps;
    var j :| 0 <= j < |stamps| && stamps[j] == Stamp(pending[other].requested, other);
    assert j >= |stamps| - MAX_PENDING;
  }

  lemma {:induction false} SurplusIsPending(pending: Records)
    ensures Surplus(pending) <= pending.Keys
  {
    StampedIdsArePending(pending);
  }

  method SweepRecords(pending: Records, now: int) returns (next: Records, changed: bool)
    ensures next == Swept(pending, now) && (changed <==> next != pending)
  {
    next, changed := pending, false;
    var todo := pending.Keys;
    while todo != {}
      invariant todo <= pending.Keys
      invariant forall id :: id in next <==> id in pending && (id in todo || !Stale(pending[id], now))
      invariant forall id | id in next && id in todo :: next[id] == pending[id]
      invariant forall id | id in next && id !in todo :: next[id] == Swept(pending, now)[id]
      invariant changed <==> exists id | id in pending && id !in todo :: Due(pending[id], now)
      decreases |todo|
    {
      var id :| id in todo;
      var rec := pending[id];
      if Stale(rec, now) {
        next := next - {id};
        changed := true;
      } else if Overdue(rec, now) {
        next := next[id := Expired(rec, now)];
        changed := true;
      }
      todo := todo - {id};
    }
    SweptDiffersIff(pending, now);
  }

  lemma {:induction false} SweptDiffersIff(pending: Records, now: int)
    ensures Swept(pending, now) != pending <==>
            exists id | id in pending :: Due(pending[id], now)
  {
    if id :| id in pending && Due(pending[id], now) {
      assert Stale(pending[id], now) ==> id !in Swept(pending, now);
      assert !Stale(pending[id], now) ==> Swept(pending, now)[id].status == "resolved";
    }
  }

  method RemoveFirst(pending: Records, stamps: seq<Stamp>, n: nat) returns (next: Records)
    requires n <= |stamps|
    ensures next == pending - FirstIds(stamps, n)
  {
    next := pending;
    for i := 0 to n
      invariant next == pending - FirstIds(stamps, i)
    {
      assert FirstIds(stamps, i + 1) == FirstIds(stamps, i) + {stamps[i].id};
      next := next - {stamps[i].id};
    }
  }

  lemma {:induction false} SurplusIffOverBound(pending: Records)
    ensures |SortedStamps(pending)| == |pending|
    ensures pending - Surplus(pending) != pending <==> |pending| > MAX_PENDING
  {
    CountOfStamps(pending);
    StampedIdsArePending(pending);
    var stamps := SortedStamps(pending);
    if |pending| > MAX_PENDING {
      assert stamps[0].id in FirstIds(stamps, |stamps| - MAX_PENDING);
      assert stamps[0].id in pending && stamps[0].id !in pending - Surplus(pending);
    } else {
      assert FirstIds(stamps, |stamps| - MAX_PENDING) == {};
    }
  }

  method DropSurplus(pending: Records) returns (next: Records, changed: bool)
    ensures next == pending - Surplus(pending) && (changed <==> next != pending)
  {
    SurplusIffOverBound(pending);
    if |pending| <= MAX_PENDING {
      return pending, false;
    }
    var stamps := SortStamps(pending);
    next := RemoveFirst(pending, stamps, |stamps| - MAX_PENDING);
    changed := true;
  }

  lemma {:induction false} CleanedUpDiffers(pending: Records, now: int)
    ensures CleanedUp(pending, now) != pending <==>
            Swept(pending, now) != pending || CleanedUp(pending, now) != Swept(pending, now)
  {
    SurplusIsPending(Swept(pending, now));
    if CleanedUp(pending, now) == pending {
      assert Swept(pending, now).Keys == pending.Keys;
      forall id | id in pending ensures Swept(pending, now)[id] == pending[id] {
        assert CleanedUp(pending, now)[id] == Swept(pending, now)[id];
      }
    }
  }

  // Persist then swap: memory changes exactly when the file does.
  ghost predicate Commits(s: State, s': State, next: Loaded, fails: bool)
  {
    if s.durable && fails then s'.disk == s.disk && s'.mem == s.mem
    else
      && s'.mem == next
      && (if s.durable then s'.disk.Some? && IsLedgerOf(s'.disk.value, next) else s'.disk == s.disk)
  }

  ghost predicate Requests(s: State, s': State, reply: Reply, kind: string, request: string, timeoutMS: int, now: int,
                           fails: bool)
  {
    var n := NextCounter(s.mem.pending, now, s.counter);
    var rec := NewRecord(ApprovalId(now, n), kind, request, timeoutMS, now);
    && s'.counter == n
    && Commits(s, s', s.mem.(pending := s.mem.pending[rec.id := rec]), fails)
    && reply == if s.durable && fails then Failed else Granted(rec)
  }

  // Replacing a record that is there, by its resolution.
  ghost predicate Resolves(s: State, s': State, reply: Reply, id: string, rec: Record, fails: bool)
  {
    && s'.counter == s.counter
    && Commits(s, s', s.mem.(pending := s.mem.pending[id := rec]), fails)
    && reply == if s.durable && fails then Failed else Granted(rec)
  }

  ghost predicate Next(lower: string -> string, s: State, op: Op, now: int, fails: bool, s': State, reply: Reply)
  {
    s'.durable == s.durable &&
    match op
    case RequestExec(request, timeoutMS) => Requests(s, s', reply, "exec", request, timeoutMS, now, fails)
    case RequestOwned(kind, request, timeoutMS) =>
      var owner := lower(Text.Trim(kind));
      if owner == "exec" || !ValidOwner(owner) || timeoutMS <= 0 then s' == s && reply == Rejected
      else Requests(s, s', reply, owner, request, timeoutMS, now, fails)
    case Terminalize(id, reason) =>
      if id !in s.mem.pending then s' == s && reply == Rejected
      else if s.mem.pending[id].status == "resolved" then s' == s && reply == AlreadyResolved(s.mem.pending[id])
      else Resolves(s, s', reply, id, Resolved(s.mem.pending[id], "deny", reason, "system-expiry", now), fails)
    case Resolve(id, decision, reason) =>
      if id !in s.mem.pending || s.mem.pending[id].status != "pending" then s' == s && reply == Rejected
      else Resolves(s, s', reply, id, Resolved(s.mem.pending[id], decision, reason, "reviewer", now), fails)
    case ResolveFallback(id, allowed, reason) =>
      if id !in s.mem.pending || Final(s.mem.pending[id]) then s' == s && reply == Rejected
      else Resolves(s, s', reply, id, ByPolicy(s.mem.pending[id], allowed, reason, now), fails)
    case Cleanup =>
      var next := CleanedUp(s.mem.pending, now);
      s'.counter == s.counter && reply == Done &&
      if next == s.mem.pending then s' == s else Commits(s, s', s.mem.(pending := next), fails)
    case SetGlobal(policy) =>
      s'.counter == s.counter && Commits(s, s', s.mem.(global := policy), fails) &&
      reply == if s.durable && fails then Failed else Done
    case SetNode(node, policy) =>
      s'.counter == s.counter && Commits(s, s', s.mem.(perNode := s.mem.perNode[node := policy]), fails) &&
      reply == if s.durable && fails then Failed else Done
    case Restart =>
      var loaded := if s.durable then Load(s.disk) else Load(None);
      if loaded.None? then s' == s && reply == Failed
      else s' == State(s.durable, s.disk, loaded.value, 0) && reply == Done
  }

  class ApprovalsRegistry {
    const durable: bool
    var disk: Option<Ledger>
    var mem: Loaded
    var counter: nat

    ghost function Now(): State
      reads this
    {
      State(durable, disk, mem, counter)
    }

    constructor (durable: bool)
      ensures Empty(Now()) && this.durable == durable
    {
      this.durable, disk, mem, counter := durable, None, Loaded(map[], map[], map[]), 0;
    }

    // persistApprovalsLocked, and the swap that follows a successful write.
    method Persist(next: Loaded, fails: bool) returns (ok: bool)
      modifies this`disk, this`mem
      ensures ok == !(durable && fails)
      ensures Commits(old(Now()), Now(), next, fails)
    {
      if durable {
        if fails {
          return false;
        }
        var doc := Encode(next);
        disk := Some(doc);
      }
      mem := next;
      ok := true;
    }

    method NextApprovalID(now: int) returns (id: string)
      modifies this`counter
      ensures counter == NextCounter(mem.pending, now, old(counter)) && id == ApprovalId(now, counter)
      ensures id !in mem.pending
    {
      counter := counter + 1;
      id := ApprovalId(now, counter);
      while id in mem.pending
        invariant id == ApprovalId(now, counter)
        invariant counter > old(counter)
        invariant forall m: nat | old(counter) < m < counter :: ApprovalId(now, m) in mem.pending
        decreases |NotPassed(mem.pending, now, counter - 1)|
      {
        PassingOne(mem.pending, now, counter - 1);
        counter := counter + 1;
        id := ApprovalId(now, counter);
      }
      var n := NextCounter(mem.pending, now, old(counter));
      assert !(counter < n) && !(n < counter);
    }

    method Request(kind: string, request: string, timeoutMS: int, now: int, fails: bool) returns (reply: Reply)
      modifies this`disk, this`mem, this`counter
      ensures Requests(old(Now()), Now(), reply, kind, request, timeoutMS, now, fails)
    {
      var id := NextApprovalID(now);
      var rec := NewRecord(id, kind, request, timeoutMS, now);
      var ok := Persist(mem.(pending := mem.pending[id := rec]), fails);
      reply := if ok then Granted(rec) else Failed;
    }

    method Act(lower: string -> string, op: Op, now: int, fails: bool) returns (reply: Reply)
      modifies this`disk, this`mem, this`counter
      ensures Next(lower, old(Now()), op, now, fails, Now(), reply)
    {
      match op
      case RequestExec(request, timeoutMS) => reply := Request("exec", request, timeoutMS, now, fails);
      case RequestOwned(kind, request, timeoutMS) =>
        var owner := lower(Text.Trim(kind));
        if owner == "exec" || !ValidOwner(owner) || timeoutMS <= 0 {
          return Rejected;
        }
        reply := Request(owner, request, timeoutMS, now, fails);
      case Terminalize(id, reason) =>
        if id !in mem.pending {
          return Rejected;
        }
        if mem.pending[id].status == "resolved" {
          return AlreadyResolved(mem.pending[id]);
        }
        reply := Replace(id, Resolved(mem.pending[id], "deny", reason, "system-expiry", now), fails);
      case Resolve(id, decision, reason) =>
        if id !in mem.pending || mem.pending[id].status != "pending" {
          return Rejected;
        }
        reply := Replace(id, Resolved(mem.pending[id], decision, reason, "reviewer", now), fails);
      case ResolveFallback(id, allowed, reason) =>
        if id !in mem.pending {
          return Rejected;
        }
        if mem.pending[id].status == "resolved" && mem.pending[id].grantScope != "system-expiry" {
          return Rejected;
        }
        reply := Replace(id, ByPolicy(mem.pending[id], allowed, reason, now), fails);
      case Cleanup =>
        CleanUp(now, fails);
        reply := Done;
      case SetGlobal(policy) =>
        var ok := Persist(mem.(global := policy), fails);
        reply := if ok then Done else Failed;
      case SetNode(node, policy) =>
        var ok := Persist(mem.(perNode := mem.perNode[node := policy]), fails);
        reply := if ok then Done else Failed;
      case Restart =>
        var loaded := ReadLedger(if durable then disk else None);
        if loaded.None? {
          return Failed;
        }
        mem, counter := loaded.value, 0;
        reply := Done;
    }

    method CleanUp(now: int, fails: bool)
      modifies this`disk, this`mem
      ensures var next := CleanedUp(old(mem).pending, now);
              if next == old(mem).pending then Now() == old(Now())
              else Commits(old(Now()), Now(), old(mem).(pending := next), fails)
    {
      var swept, denied := SweepRecords(mem.pending, now);
      var next, dropped := DropSurplus(swept);
      CleanedUpDiffers(mem.pending, now);
      if denied || dropped {
        var ok := Persist(mem.(pending := next), fails);
      }
    }

    method Replace(id: string, rec: Record, fails: bool) returns (reply: Reply)
      modifies this`disk, this`mem
      ensures Resolves(old(Now()), Now(), reply, id, rec, fails)
    {
      var ok := Persist(mem.(pending := mem.pending[id := rec]), fails);
      reply := if ok then Granted(rec) else Failed;
    }
  }

  // ----- Over every run -----

  // Memory is what the ledger says, and the ledger loads.
  ghost predicate Inv(s: State)
  {
    WellFormed(s.mem.pending) && (s.durable ==> Load(s.disk) == Some(s.mem))
  }

  datatype Call = Call(op: Op, now: int, fails: bool)

  // A run: states[i] and replies[i] before and after calls[i].
  ghost predicate IsRun(lower: string -> string, states: seq<State>, calls: seq<Call>, replies: seq<Reply>)
  {
    && |states| == |calls| + 1 && |replies| == |calls|
    && forall i | 0 <= i < |calls| ::
         Next(lower, states[i], calls[i].op, calls[i].now, calls[i].fails, states[i + 1], replies[i])
  }

  ghost predicate Empty(s: State) { s.disk.None? && s.mem == Loaded(map[], map[], map[]) && s.counter == 0 }

  lemma CommitKeepsInv(s: State, s': State, next: Loaded, fails: bool)
    requires Inv(s) && s'.durable == s.durable && Commits(s, s', next, fails) && WellFormed(next.pending)
    ensures Inv(s')
  {
    if s.durable && !fails { LoadReadsLedger(s'.disk.value, next); }
  }

  // A record is kept as it is, or resolved with what was asked left alone.  A resolved one
  // changes only if it is the registry's own expiry denial, and then to a policy outcome.
  ghost predicate Evolves(r: Record, r': Record)
  {
    r' == r ||
    (!Final(r) && r'.status == "resolved" && (r.status == "resolved" ==> r'.grantScope == POLICY_FALLBACK) &&
     r == r'.(status := r.status, decision := r.decision, reason := r.reason,
              grantScope := r.grantScope, resolvedAt := r.resolvedAt))
  }

  ghost predicate Preserves(s: State, s': State)
  {
    forall id | id in s.mem.pending :: id in s'.mem.pending && Evolves(s.mem.pending[id], s'.mem.pending[id])
  }

  // A record that is removed was resolved too long ago, or is among the oldest surplus.
  ghost predicate RemovalIsDue(pending: Records, now: int, id: string)
    requires id in pending
  {
    Stale(pending[id], now) || id in Surplus(Swept(pending, now))
  }

  ghost predicate KeptOrDue(s: State, s': State, now: int, id: string)
    requires id in s.mem.pending
  {
    if id in s'.mem.pending
    then || s'.mem.pending[id] == s.mem.pending[id]
         || (s.mem.pending[id].status == "pending" && s'.mem.pending[id] == Expired(s.mem.pending[id], now))
    else RemovalIsDue(s.mem.pending, now, id)
  }

  lemma {:induction false} CleanupKeeps(s: State, s': State, now: int, fails: bool)
    requires Inv(s) && s'.durable == s.durable
    requires var next := CleanedUp(s.mem.pending, now);
             if next == s.mem.pending then s' == s else Commits(s, s', s.mem.(pending := next), fails)
    ensures Inv(s') && forall id | id in s.mem.pending :: KeptOrDue(s, s', now, id)
  {
    var next := CleanedUp(s.mem.pending, now);
    if next != s.mem.pending {
      assert WellFormed(next);
      CommitKeepsInv(s, s', s.mem.(pending := next), fails);
    }
  }

  lemma StepKeeps(lower: string -> string, s: State, op: Op, now: int, fails: bool, s': State, reply: Reply)
    requires Inv(s) && Next(lower, s, op, now, fails, s', reply)
    ensures Inv(s')
    ensures (s.durable || !op.Restart?) && !op.Cleanup? ==> Preserves(s, s')
    ensures op.Cleanup? ==> forall id | id in s.mem.pending :: KeptOrDue(s, s', now, id)
  {
    match op
    case RequestExec(request, timeoutMS) => RequestKeeps(s, s', reply, "exec", request, timeoutMS, now, fails);
    case RequestOwned(kind, request, timeoutMS) =>
      if reply != Rejected {
        RequestKeeps(s, s', reply, lower(Text.Trim(kind)), request, timeoutMS, now, fails);
      }
    case Terminalize(id, reason) =>
      if id in s.mem.pending && s.mem.pending[id].status != "resolved" {
        ResolveKeeps(s, s', reply, id, Resolved(s.mem.pending[id], "deny", reason, "system-expiry", now), fails);
      }
    case Resolve(id, decision, reason) =>
      if id in s.mem.pending && s.mem.pending[id].status == "pending" {
        ResolveKeeps(s, s', reply, id, Resolved(s.mem.pending[id], decision, reason, "reviewer", now), fails);
      }
    case ResolveFallback(id, allowed, reason) =>
      if id in s.mem.pending && !Final(s.mem.pending[id]) {
        ResolveKeeps(s, s', reply, id, ByPolicy(s.mem.pending[id], allowed, reason, now), fails);
      }
    case Cleanup => CleanupKeeps(s, s', now, fails);
    case SetGlobal(policy) => CommitKeepsInv(s, s', s.mem.(global := policy), fails);
    case SetNode(node, policy) => CommitKeepsInv(s, s', s.mem.(perNode := s.mem.perNode[node := policy]), fails);
    case Restart =>
  }

  lemma RequestKeeps(s: State, s': State, reply: Reply, kind: string, request: string, timeoutMS: int, now: int,
                     fails: bool)
    requires Inv(s) && s'.durable == s.durable && ValidOwner(kind)
    requires Requests(s, s', reply, kind, request, timeoutMS, now, fails)
    ensures Inv(s') && Preserves(s, s')
  {
    var id := ApprovalId(now, s'.counter);
    var rec := NewRecord(id, kind, request, timeoutMS, now);
    CommitKeepsInv(s, s', s.mem.(pending := s.mem.pending[id := rec]), fails);
  }

  lemma ResolveKeeps(s: State, s': State, reply: Reply, id: string, rec: Record, fails: bool)
    requires Inv(s) && s'.durable == s.durable && id in s.mem.pending
    requires rec.id == id && rec.kind == s.mem.pending[id].kind && Evolves(s.mem.pending[id], rec)
    requires Resolves(s, s', reply, id, rec, fails)
    ensures Inv(s') && Preserves(s, s')
  {
    CommitKeepsInv(s, s', s.mem.(pending := s.mem.pending[id := rec]), fails);
  }

  lemma {:induction false} RunKeepsInv(lower: string -> string, states: seq<State>, calls: seq<Call>,
                                       replies: seq<Reply>, n: nat)
    requires IsRun(lower, states, calls, replies) && Inv(states[0]) && n < |states|
    ensures Inv(states[n]) && states[n].durable == states[0].durable
  {
    if n > 0 {
      RunKeepsInv(lower, states, calls, replies, n - 1);
      var c := calls[n - 1];
      StepKeeps(lower, states[n - 1], c.op, c.now, c.fails, states[n], replies[n - 1]);
    }
  }

  // Call k removes the record.
  ghost predicate RemovedAt(states: seq<State>, k: nat, id: string)
    requires k + 1 < |states|
  {
    id in states[k].mem.pending && id !in states[k + 1].mem.pending
  }

  ghost predicate StaysThrough(states: seq<State>, m: nat, n: nat, id: string)
    requires n < |states|
  {
    forall k | m <= k < n :: !RemovedAt(states, k, id)
  }

  // How a record that stays develops: a reviewer's or policy's resolution never changes
  // again, and an expiry denial changes only to a policy outcome.
  ghost predicate Develops(r: Record, r': Record)
  {
    && Evolves(r, r') && (Final(r) ==> r' == r)
    && (r.status == "resolved" ==>
          r' == r || (r.grantScope == "system-expiry" && r'.grantScope == POLICY_FALLBACK))
  }

  lemma {:induction false} DurableStep(lower: string -> string, s: State, c: Call, s': State, reply: Reply, id: string)
    requires Inv(s) && s.durable && Next(lower, s, c.op, c.now, c.fails, s', reply) && id in s.mem.pending
    ensures id in s'.mem.pending ==> Evolves(s.mem.pending[id], s'.mem.pending[id])
    ensures id !in s'.mem.pending ==> c.op.Cleanup? && RemovalIsDue(s.mem.pending, c.now, id)
  {
    StepKeeps(lower, s, c.op, c.now, c.fails, s', reply);
    assert c.op.Cleanup? ==> KeptOrDue(s, s', c.now, id);
  }

  // Over every run of a durable registry from an empty ledger, through failed writes and
  // restarts: memory is what the ledger says (so a reload succeeds and changes nothing),
  // and a record develops as above for as long as it stays.
  lemma {:induction false} LedgerSafety(lower: string -> string, states: seq<State>, calls: seq<Call>,
                                        replies: seq<Reply>, m: nat, n: nat, id: string)
    requires IsRun(lower, states, calls, replies) && Empty(states[0]) && states[0].durable
    requires m <= n < |states|
    ensures Load(states[n].disk) == Some(states[n].mem)
    ensures id in states[m].mem.pending && StaysThrough(states, m, n, id) ==>
              id in states[n].mem.pending && Develops(states[m].mem.pending[id], states[n].mem.pending[id])
    decreases n
  {
    RunKeepsInv(lower, states, calls, replies, n);
    if m < n && id in states[m].mem.pending && StaysThrough(states, m, n, id) {
      LedgerSafety(lower, states, calls, replies, m, n - 1, id);
      RunKeepsInv(lower, states, calls, replies, n - 1);
      assert !RemovedAt(states, n - 1, id);
      DurableStep(lower, states[n - 1], calls[n - 1], states[n], replies[n - 1], id);
    }
  }

  // A record disappears only when a clean-up finds it resolved too long ago or among the
  // oldest surplus.
  lemma {:induction false} OnlyCleanupRemoves(lower: string -> string, states: seq<State>, calls: seq<Call>,
                                              replies: seq<Reply>, k: nat, id: string)
    requires IsRun(lower, states, calls, replies) && Empty(states[0]) && states[0].durable
    requires k < |calls| && RemovedAt(states, k, id)
    ensures calls[k].op.Cleanup? && RemovalIsDue(states[k].mem.pending, calls[k].now, id)
  {
    RunKeepsInv(lower, states, calls, replies, k);
    DurableStep(lower, states[k], calls[k], states[k + 1], replies[k], id);
  }

  predicate IsRequest(op: Op) { op.RequestExec? || op.RequestOwned? }

  // No id is granted twice, although a restart resets the counter, unless the first record
  // was cleaned away in between and both were granted in the same millisecond.
  lemma {:induction false} GrantedIdsAreDistinct(lower: string -> string, states: seq<State>, calls: seq<Call>,
                                                 replies: seq<Reply>, i: nat, j: nat)
    requires IsRun(lower, states, calls, replies) && Empty(states[0]) && states[0].durable
    requires i < j < |calls| && IsRequest(calls[i].op) && IsRequest(calls[j].op)
    requires replies[i].Granted? && replies[j].Granted?
    ensures replies[i].rec.id == replies[j].rec.id ==>
              && (exists k | i < k < j :: calls[k].op.Cleanup? && RemovedAt(states, k, replies[i].rec.id))
              && (calls[i].now >= 0 && calls[j].now >= 0 ==> calls[i].now == calls[j].now)
  {
    var id := replies[i].rec.id;
    if id != replies[j].rec.id {
      return;
    }
    GrantedIsStored(lower, states[i], calls[i], states[i + 1], replies[i]);
    GrantedIsStored(lower, states[j], calls[j], states[j + 1], replies[j]);
    LedgerSafety(lower, states, calls, replies, i + 1, j, id);
    var k :| i + 1 <= k < j && RemovedAt(states, k, id);
    OnlyCleanupRemoves(lower, states, calls, replies, k, id);
    if calls[i].now >= 0 && calls[j].now >= 0 {
      ApprovalIdTells(calls[i].now, states[i + 1].counter, calls[j].now, states[j + 1].counter);
    }
  }

  // The id tells when it was granted.
  lemma {:induction false} ApprovalIdTells(now: nat, m: nat, later: nat, n: nat)
    requires ApprovalId(now, m) == ApprovalId(later, n)
    ensures now == later && m == n
  {
    var a, b := Text.Decimal(now), Text.Decimal(later);
    var c, d := Text.Decimal(m), Text.Decimal(n);
    assert ApprovalId(now, m)[9..] == a + "-" + c;
    assert ApprovalId(later, n)[9..] == b + "-" + d;
    Text.ValueOfDigits(now);
    Text.ValueOfDigits(later);
    FirstDash(a, c, b, d);
    Text.DecimalIsInjective(now, later);
    Text.DecimalIsInjective(m, n);
  }

  lemma {:induction false} FirstDash(a: string, c: string, b: string, d: string)
    requires a + "-" + c == b + "-" + d && '-' !in a && '-' !in b
    ensures a == b && c == d
  {
    var s := a + "-" + c;
    assert s[|a|] == '-' && s[|b|] == '-';
    assert forall k | 0 <= k < |a| :: s[k] == a[k] && a[k] in a;
    assert forall k | 0 <= k < |b| :: s[k] == b[k] && b[k] in b;
    assert |a| == |b|;
    assert s[..|a|] == a && s[..|b|] == b;
    assert s[|a| + 1..] == c && s[|b| + 1..] == d;
  }

  lemma {:induction false} GrantedIsStored(lower: string -> string, s: State, c: Call, s': State, reply: Reply)
    requires Next(lower, s, c.op, c.now, c.fails, s', reply) && IsRequest(c.op) && reply.Granted?
    ensures reply.rec.id !in s.mem.pending && reply.rec.id in s'.mem.pending
    ensures reply.rec.id == ApprovalId(c.now, s'.counter)
  {
  }

  // Without a storage path a restart forgets every record.
  lemma RestartForgetsUnlessDurable(lower: string -> string, s: State, now: int, fails: bool, s': State, reply: Reply)
    requires Inv(s) && Next(lower, s, Restart, now, fails, s', reply)
    ensures s'.mem == (if s.durable then s.mem else Loaded(map[], map[], map[]))
    ensures Preserves(s, s') <==> s.durable || s.mem.pending == map[]
  {
    if !s.durable && s.mem.pending != map[] {
      var id :| id in s.mem.pending;
    }
  }

  // A resolved record that stays changes if and only if the call is a fallback on an expiry
  // denial that is written.
  lemma {:induction false} OnlyFallbackRewrites(lower: string -> string, s: State, op: Op, now: int, fails: bool,
                                                s': State, reply: Reply, id: string)
    requires Inv(s) && Next(lower, s, op, now, fails, s', reply) && (op.Restart? ==> s.durable)
    requires id in s.mem.pending && s.mem.pending[id].status == "resolved" && id in s'.mem.pending
    ensures s'.mem.pending[id] != s.mem.pending[id] <==>
            && op.ResolveFallback? && op.id == id && s.mem.pending[id].grantScope == "system-expiry"
            && !(s.durable && fails)
    ensures s'.mem.pending[id] != s.mem.pending[id] ==>
              s'.mem.pending[id] == ByPolicy(s.mem.pending[id], op.allowed, op.reason, now)
  {
    StepKeeps(lower, s, op, now, fails, s', reply);
    assert op.Cleanup? ==> KeptOrDue(s, s', now, id);
  }

  // ----- A resolution that changes -----

  ghost function LedgerOf(now: Loaded): Ledger
  {
    StampedIdsArePending(now.pending);
    var stamps := SortedStamps(now.pending);
    Ledger(LEDGER_VERSION, now.global, now.perNode,
           seq(|stamps|, i requires 0 <= i < |stamps| => now.pending[stamps[i].id]))
  }

  ghost function Holding(rec: Record): State
  {
    var mem := Loaded(map[rec.id := rec], map[], map[]);
    State(true, Some(LedgerOf(mem)), mem, 1)
  }

  lemma {:induction false} HoldingCommits(s: State, rec: Record, fails: bool)
    requires s.durable && !fails
    ensures Commits(s, Holding(rec), Loaded(map[rec.id := rec], map[], map[]), fails)
  {
    StampedIdsArePending(map[rec.id := rec]);
  }

  lemma {:induction false} FirstRequest(lower: string -> string, s: State, rec: Record)
    requires s == State(true, None, Loaded(map[], map[], map[]), 0)
    requires rec == NewRecord(ApprovalId(0, 1), "exec", "", 0, 0)
    ensures Next(lower, s, RequestExec("", 0), 0, false, Holding(rec), Granted(rec))
  {
    HoldingCommits(s, rec, false);
    assert NextCounter(map[], 0, 0) == 1;
    assert map[][rec.id := rec] == map[rec.id := rec];
  }

  lemma {:induction false} ReplaceHeld(rec: Record, next: Record)
    requires next.id == rec.id
    ensures Resolves(Holding(rec), Holding(next), Granted(next), rec.id, next, false)
  {
    HoldingCommits(Holding(rec), next, false);
    assert map[rec.id := rec][rec.id := next] == map[next.id := next];
  }

  lemma {:induction false} HeldExpires(lower: string -> string, rec: Record, denied: Record)
    requires rec.status == "pending" && denied == Resolved(rec, "deny", "", "system-expiry", 0)
    ensures Next(lower, Holding(rec), Terminalize(rec.id, ""), 0, false, Holding(denied), Granted(denied))
  {
    ReplaceHeld(rec, denied);
  }

  lemma {:induction false} HeldIsApproved(lower: string -> string, rec: Record, approved: Record)
    requires !Final(rec) && approved == ByPolicy(rec, true, "", 0)
    ensures Next(lower, Holding(rec), ResolveFallback(rec.id, true, ""), 0, false, Holding(approved), Granted(approved))
  {
    ReplaceHeld(rec, approved);
  }

  lemma {:induction false} OneMoreCall(lower: string -> string, states: seq<State>, calls: seq<Call>,
                                      replies: seq<Reply>, c: Call, s: State, reply: Reply)
    requires IsRun(lower, states, calls, replies)
    requires Next(lower, states[|calls|], c.op, c.now, c.fails, s, reply)
    ensures IsRun(lower, states + [s], calls + [c], replies + [reply])
  {
  }

  const EMPTY := State(true, None, Loaded(map[], map[], map[]), 0)

  function Asked(): Record { NewRecord(ApprovalId(0, 1), "exec", "", 0, 0) }

  function Denied(): Record { Resolved(Asked(), "deny", "", "system-expiry", 0) }

  lemma {:induction false} AskedRun(lower: string -> string) returns (calls: seq<Call>, replies: seq<Reply>)
    ensures IsRun(lower, [EMPTY, Holding(Asked())], calls, replies) && |calls| == 1
  {
    FirstRequest(lower, EMPTY, Asked());
    OneMoreCall(lower, [EMPTY], [], [], Call(RequestExec("", 0), 0, false), Holding(Asked()), Granted(Asked()));
    assert [EMPTY] + [Holding(Asked())] == [EMPTY, Holding(Asked())];
    calls, replies := [] + [Call(RequestExec("", 0), 0, false)], [] + [Granted(Asked())];
  }

  lemma {:induction false} DeniedRun(lower: string -> string) returns (calls: seq<Call>, replies: seq<Reply>)
    ensures IsRun(lower, [EMPTY, Holding(Asked()), Holding(Denied())], calls, replies) && |calls| == 2
  {
    calls, replies := AskedRun(lower);
    var states, c := [EMPTY, Holding(Asked())], Call(Terminalize(Asked().id, ""), 0, false);
    HeldExpires(lower, Asked(), Denied());
    OneMoreCall(lower, states, calls, replies, c, Holding(Denied()), Granted(Denied()));
    assert states + [Holding(Denied())] == [EMPTY, Holding(Asked()), Holding(Denied())];
    calls, replies := calls + [c], replies + [Granted(Denied())];
  }

  // From an empty ledger: a request expires, and the policy then approves it.
  lemma {:induction false} ResolvedRecordCanChange(lower: string -> string)
    returns (states: seq<State>, calls: seq<Call>, replies: seq<Reply>, id: string)
    ensures IsRun(lower, states, calls, replies) && Empty(states[0]) && states[0].durable && |states| == 4
    ensures id in states[2].mem.pending && id in states[3].mem.pending
    ensures states[2].mem.pending[id].status == "resolved" && states[2].mem.pending[id].decision == "deny"
    ensures states[3].mem.pending[id].decision == "approve"
  {
    id := Asked().id;
    var approved := ByPolicy(Denied(), true, "", 0);
    calls, replies := DeniedRun(lower);
    states := [EMPTY, Holding(Asked()), Holding(Denied())];
    var c := Call(ResolveFallback(id, true, ""), 0, false);
    HeldIsApproved(lower, Denied(), approved);
    OneMoreCall(lower, states, calls, replies, c, Holding(approved), Granted(approved));
    states, calls, replies := states + [Holding(approved)], calls + [c], replies + [Granted(approved)];
  }
}
