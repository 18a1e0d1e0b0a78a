// cmd/metiqd/acp_routing.go: compatibility tests, the candidate comparator and target
// resolution.
module AcpRouting {
  import opened Wrappers
  import Order
  import Text

  datatype Mode = Nip17 | Nip04 | Fips
  datatype Transport = Auto | Fixed(mode: Mode)

  datatype FleetEntry = FleetEntry(
    name: string, pubkey: string, acpVersion: int,
    tools: seq<string>, features: seq<string>, dmSchemes: seq<string>)

  // What a peer announces about itself.
  datatype Announcement = Announcement(
    dmSchemes: seq<string>, acpVersion: int, tools: seq<string>, features: seq<string>, fips: bool)

  datatype Requirements = Requirements(tools: seq<string>, features: seq<string>)

  // Library calls, registries and the local transports, as they are during one resolution.
  datatype World = World(
    lower: string -> string,
    equalFold: (string, string) -> bool,
    parsePubKey: string -> Option<string>,
    peers: Option<set<string>>,                  // None: no peer registry
    toolFeatures: seq<string> -> seq<string>,    // contextVMFeaturesFromToolNames
    capability: string -> Option<Announcement>,  // the capability registry, by lower-case key
    transport: Transport,                        // cfg.ACPTransportMode()
    buses: set<Mode>)                            // the modes with a current transport bus

  // ----- Compatibility -----

  function SchemeMode(w: World, raw: string): Option<Mode>
  {
    var s := w.lower(Text.Trim(raw));
    if s in {"nip04", "nip-04"} then Some(Nip04)
    else if s in {"giftwrap", "nip17", "nip-17", "nip44", "nip-44", "nip59", "nip-59"} then Some(Nip17)
    else if s == "fips" then Some(Fips)
    else None
  }

  function Schemes(w: World, values: seq<string>): set<Mode>
  {
    set v | v in values && SchemeMode(w, v).Some? :: SchemeMode(w, v).value
  }

  method NormalizeSchemes(w: World, values: seq<string>) returns (out: set<Mode>)
    ensures out == Schemes(w, values)
  {
    out := {};
    for i := 0 to |values|
      invariant out == Schemes(w, values[..i])
    {
      assert values[..i + 1] == values[..i] + [values[i]];
      var mode := SchemeMode(w, values[i]);
      if mode.Some? {
        out := out + {mode.value};
      }
    }
    assert values[..|values|] == values;
  }

  function Available(w: World): set<Mode>
  {
    match w.transport
    case Auto => w.buses
    case Fixed(mode) => w.buses * {mode}
  }

  datatype Compat = Incompatible | Unknown | Compatible
  {
    function Rank(): nat { match this case Incompatible => 0 case Unknown => 1 case Compatible => 2 }
  }

  function DMCompat(w: World, e: FleetEntry): Compat
  {
    var remote := Schemes(w, e.dmSchemes);
    if remote == {} then Unknown else if remote * Available(w) != {} then Compatible else Incompatible
  }

  // availableACPTransportModes
  method AvailableModes(w: World) returns (out: set<Mode>)
    ensures out == Available(w)
    ensures forall m :: m in out <==> m in w.buses && (w.transport.Auto? || w.transport.mode == m)
  {
    out := {};
    match w.transport
    case Fixed(mode) =>
      if mode in w.buses {
        out := {mode};
      }
    case Auto =>
      if Nip17 in w.buses {
        out := out + {Nip17};
      }
      if Nip04 in w.buses {
        out := out + {Nip04};
      }
      if Fips in w.buses {
        out := out + {Fips};
      }
      forall m ensures m in out <==> m in w.buses {
        match m case Nip17 => case Nip04 => case Fips =>
      }
  }

  // An advertised value names mode m.
  predicate Advertises(w: World, e: FleetEntry, m: Mode)
  {
    exists v | v in e.dmSchemes :: SchemeMode(w, v) == Some(m)
  }

  // Unknown when no value is recognised; otherwise compatible exactly when some value
  // names a mode that there is a bus for and that the configuration allows.
  method FleetEntryDMCompatibility(w: World, e: FleetEntry) returns (c: Compat)
    ensures c == Unknown <==> forall v | v in e.dmSchemes :: SchemeMode(w, v).None?
    ensures c == Compatible <==>
            exists m | m in w.buses :: Advertises(w, e, m) && (w.transport.Auto? || w.transport.mode == m)
    ensures c == DMCompat(w, e)
  {
    var remote := NormalizeSchemes(w, e.dmSchemes);
    assert forall m :: m in remote <==> Advertises(w, e, m);
    if remote == {} {
      assert forall v | v in e.dmSchemes && SchemeMode(w, v).Some? :: SchemeMode(w, v).value in remote;
      return Unknown;
    }
    var local := AvailableModes(w);
    if local == {} {
      assert remote * Available(w) == {};
      return Incompatible;
    }
    var todo := remote;
    while todo != {}
      invariant todo <= remote && (remote - todo) * local == {}
      decreases |todo|
    {
      var mode :| mode in todo;
      if mode in local {
        assert mode in remote * Available(w);
        return Compatible;
      }
      todo := todo - {mode};
    }
    assert remote - todo == remote;
    c := Incompatible;
  }

  function ToolSet(e: FleetEntry): set<string>
  {
    set t | t in e.tools && Text.Trim(t) != "" :: Text.Trim(t)
  }

  function FeatureSet(w: World, e: FleetEntry): set<string>
  {
    set v | v in e.features + w.toolFeatures(e.tools) && w.lower(Text.Trim(v)) != "" :: w.lower(Text.Trim(v))
  }

  function CapsCompat(w: World, e: FleetEntry, req: Requirements): Compat
  {
    if req.tools == [] && req.features == [] then Compatible
    else if ToolSet(e) == {} && FeatureSet(w, e) == {} then Unknown
    else if exists t | t in req.tools :: t !in ToolSet(e) then Incompatible
    else if req.features == [] then Compatible
    else if FeatureSet(w, e) == {} then Unknown
    else if exists f | f in req.features :: w.lower(Text.Trim(f)) !in FeatureSet(w, e) then Incompatible
    else Compatible
  }

  method FleetEntryCapabilityCompatibility(w: World, e: FleetEntry, req: Requirements) returns (c: Compat)
    ensures c == CapsCompat(w, e, req)
  {
    if req.tools == [] && req.features == [] {
      return Compatible;
    }
    var toolSet, featureSet := ToolSet(e), FeatureSet(w, e);
    if toolSet == {} && featureSet == {} {
      return Unknown;
    }
    for i := 0 to |req.tools|
      invariant forall t | t in req.tools[..i] :: t in toolSet
    {
      if req.tools[i] !in toolSet {
        return Incompatible;
      }
    }
    assert req.tools[..|req.tools|] == req.tools;
    for i := 0 to |req.features|
      invariant i > 0 ==> featureSet != {}
      invariant forall f | f in req.features[..i] :: w.lower(Text.Trim(f)) in featureSet
    {
      if featureSet == {} {
        return Unknown;
      }
      if w.lower(Text.Trim(req.features[i])) !in featureSet {
        return Incompatible;
      }
    }
    assert req.features[..|req.features|] == req.features;
    c := Compatible;
  }

  predicate IsPeer(w: World, e: FleetEntry) { w.peers.Some? && e.pubkey in w.peers.value }

  // ----- The comparator -----

  predicate Better(w: World, req: Requirements, a: FleetEntry, b: FleetEntry)
  {
    if IsPeer(w, a) != IsPeer(w, b) then IsPeer(w, a)
    else if DMCompat(w, a) != DMCompat(w, b) then DMCompat(w, a).Rank() > DMCompat(w, b).Rank()
    else if CapsCompat(w, a, req) != CapsCompat(w, b, req) then
      CapsCompat(w, a, req).Rank() > CapsCompat(w, b, req).Rank()
    else if (a.acpVersion > 0) != (b.acpVersion > 0) then a.acpVersion > 0
    else if Text.Trim(a.name) != Text.Trim(b.name) then Order.Less(Text.Trim(a.name), Text.Trim(b.name))
    else Order.Less(w.lower(Text.Trim(a.pubkey)), w.lower(Text.Trim(b.pubkey)))
  }

  // Alike in all six keys: in particular the same name, and the same key up to case
  // and surrounding space.
  predicate Tied(w: World, req: Requirements, a: FleetEntry, b: FleetEntry)
  {
    && IsPeer(w, a) == IsPeer(w, b)
    && DMCompat(w, a) == DMCompat(w, b)
    && CapsCompat(w, a, req) == CapsCompat(w, b, req)
    && ((a.acpVersion > 0) == (b.acpVersion > 0))
    && Text.Trim(a.name) == Text.Trim(b.name)
    && w.lower(Text.Trim(a.pubkey)) == w.lower(Text.Trim(b.pubkey))
  }

  lemma BetterIsTotalUpToTies(w: World, req: Requirements, a: FleetEntry, b: FleetEntry)
    ensures !(Better(w, req, a, b) && Better(w, req, b, a))
    ensures Tied(w, req, a, b) <==> !Better(w, req, a, b) && !Better(w, req, b, a)
  {
    Order.LessIsTotal(Text.Trim(a.name), Text.Trim(b.name));
    Order.LessIsTotal(w.lower(Text.Trim(a.pubkey)), w.lower(Text.Trim(b.pubkey)));
  }

  lemma BetterIsTransitive(w: World, req: Requirements, a: FleetEntry, b: FleetEntry, c: FleetEntry)
    requires Better(w, req, a, b) && Better(w, req, b, c)
    ensures Better(w, req, a, c)
  {
    var an, bn, cn := Text.Trim(a.name), Text.Trim(b.name), Text.Trim(c.name);
    var ak, bk, ck := w.lower(Text.Trim(a.pubkey)), w.lower(Text.Trim(b.pubkey)), w.lower(Text.Trim(c.pubkey));
    Order.LessIsTotal(an, bn);
    if Order.Less(an, bn) && Order.Less(bn, cn) {
      Order.LessIsTransitive(an, bn, cn);
      Order.LessIsTotal(an, cn);
    }
    if Order.Less(ak, bk) && Order.Less(bk, ck) {
      Order.LessIsTransitive(ak, bk, ck);
    }
  }

  // A strict weak order: irreflexive, transitive, with transitive incomparability.
  ghost predicate StrictWeakOrder<T(!new)>(better: (T, T) -> bool)
  {
    && (forall a, b :: better(a, b) ==> !better(b, a))
    && (forall a, b, c :: better(a, b) && better(b, c) ==> better(a, c))
    && (forall a, b, c :: !better(a, b) && !better(b, c) ==> !better(a, c))
  }

  function Comparator(w: World, req: Requirements): (FleetEntry, FleetEntry) -> bool
  {
    (a, b) => Better(w, req, a, b)
  }

  lemma BetterIsAStrictWeakOrder(w: World, req: Requirements)
    ensures StrictWeakOrder(Comparator(w, req))
  {
    var better := Comparator(w, req);
    forall a, b | better(a, b) ensures !better(b, a) { BetterIsTotalUpToTies(w, req, a, b); }
    forall a, b, c | better(a, b) && better(b, c) ensures better(a, c) { BetterIsTransitive(w, req, a, b, c); }
    forall a, b, c | !better(a, b) && !better(b, c) ensures !better(a, c) {
      NotBetterIsTransitive(w, req, a, b, c);
    }
  }

  lemma NotBetterIsTransitive(w: World, req: Requirements, a: FleetEntry, b: FleetEntry, c: FleetEntry)
    requires !Better(w, req, a, b) && !Better(w, req, b, c)
    ensures !Better(w, req, a, c)
  {
    BetterIsTotalUpToTies(w, req, a, b);
    BetterIsTotalUpToTies(w, req, b, c);
    BetterIsTotalUpToTies(w, req, a, c);
    if Better(w, req, b, a) && Better(w, req, c, b) {
      BetterIsTransitive(w, req, c, b, a);
    }
  }

  // ----- The exchange sort -----

  ghost predicate NoneBetterLater<T>(s: seq<T>, better: (T, T) -> bool)
  {
    forall i, j | 0 <= i < j < |s| :: !better(s[j], s[i])
  }

  // Nothing is better than an entry before i that comes before it.
  ghost predicate Settled<T>(s: seq<T>, i: nat, better: (T, T) -> bool)
  {
    forall p, q | 0 <= p < i && p < q < |s| :: !better(s[q], s[p])
  }

  ghost predicate LeastSoFar<T>(s: seq<T>, i: nat, j: nat, better: (T, T) -> bool)
    requires i < j <= |s|
  {
    forall q | i < q < j :: !better(s[q], s[i])
  }

  lemma SwapStep<T(!new)>(s: seq<T>, i: nat, j: nat, better: (T, T) -> bool)
    requires StrictWeakOrder(better) && i < j < |s|
    requires Settled(s, i, better) && LeastSoFar(s, i, j, better) && better(s[j], s[i])
    ensures var t := s[i := s[j]][j := s[i]];
            Settled(t, i, better) && LeastSoFar(t, i, j + 1, better) && multiset(t) == multiset(s)
  {
    var t := s[i := s[j]][j := s[i]];
    assert forall q | i < q < j :: t[q] == s[q];
    assert multiset(s[i := s[j]]) == multiset(s) - multiset{s[i]} + multiset{s[j]};
  }

  method Swap<T>(a: array<T>, i: nat, j: nat)
    requires i < j < a.Length
    modifies a
    ensures a[..] == old(a[..])[i := old(a[j])][j := old(a[i])]
  {
    a[i], a[j] := a[j], a[i];
  }

  // The body of the inner loop.
  method CompareAndSwap<T(!new)>(a: array<T>, i: nat, j: nat, better: (T, T) -> bool)
    requires StrictWeakOrder(better) && i < j < a.Length
    requires Settled(a[..], i, better) && LeastSoFar(a[..], i, j, better)
    modifies a
    ensures Settled(a[..], i, better) && LeastSoFar(a[..], i, j + 1, better)
    ensures multiset(a[..]) == multiset(old(a[..]))
  {
    if better(a[j], a[i]) {
      SwapStep(a[..], i, j, better);
      Swap(a, i, j);
    }
  }

  // One turn of the outer loop.
  method SettleNext<T(!new)>(a: array<T>, i: nat, better: (T, T) -> bool)
    requires StrictWeakOrder(better) && i < a.Length && Settled(a[..], i, better)
    modifies a
    ensures Settled(a[..], i + 1, better) && multiset(a[..]) == multiset(old(a[..]))
  {
    for j := i + 1 to a.Length
      invariant Settled(a[..], i, better) && LeastSoFar(a[..], i, j, better)
      invariant multiset(a[..]) == multiset(old(a[..]))
    {
      CompareAndSwap(a, i, j, better);
    }
    SettledNext(a[..], i, better);
  }

  lemma {:induction false} SettledNext<T(!new)>(s: seq<T>, i: nat, better: (T, T) -> bool)
    requires i < |s| && Settled(s, i, better) && LeastSoFar(s, i, |s|, better)
    ensures Settled(s, i + 1, better)
  {
  }

  method ExchangeSort<T(!new)>(a: array<T>, better: (T, T) -> bool)
    requires StrictWeakOrder(better)
    modifies a
    ensures NoneBetterLater(a[..], better)
    ensures multiset(a[..]) == multiset(old(a[..]))
  {
    for i := 0 to a.Length
      invariant Settled(a[..], i, better)
      invariant multiset(a[..]) == multiset(old(a[..]))
    {
      SettleNext(a, i, better);
    }
  }

  // ----- Target resolution -----

  predicate Matches(w: World, raw: string, e: FleetEntry)
  {
    match w.parsePubKey(raw)
    case Some(hex) => w.equalFold(e.pubkey, hex)
    case None => w.lower(Text.Trim(e.name)) == w.lower(raw)
  }

  // How the final scan sorts candidates.
  datatype Class = Unregistered | DMIncompatible | CapabilityIncompatible | Eligible

  function ClassOf(w: World, req: Requirements, e: FleetEntry): Class
  {
    if !IsPeer(w, e) then Unregistered
    else if DMCompat(w, e) == Incompatible then DMIncompatible
    else if CapsCompat(w, e, req) == Incompatible then CapabilityIncompatible
    else Eligible
  }

  function Classifier(w: World, req: Requirements): FleetEntry -> Class { e => ClassOf(w, req, e) }

  datatype Outcome =
    | NoTarget                       // blank input
    | NoSuchPeer
    | DirectPeer(hex: string)        // registered, but in no directory entry
    | Found(kind: Class, entry: FleetEntry)   // the target when Eligible, else why there is none

  // Nothing of e's class in the pool is better than e, and the pool has nothing of a
  // class that would have been reported first.
  ghost predicate Answers<T>(pool: set<T>, classify: T -> Class, better: (T, T) -> bool, c: Class, e: T)
  {
    && e in pool && classify(e) == c
    && (forall x | x in pool && classify(x) == c :: !better(x, e))
    && (c != Eligible ==> forall x | x in pool :: classify(x) != Eligible)
    && (c == CapabilityIncompatible ==> forall x | x in pool :: classify(x) != DMIncompatible)
    && (c == Unregistered ==> forall x | x in pool :: classify(x) == Unregistered)
  }

  ghost predicate Resolves(w: World, req: Requirements, raw: string, directory: seq<FleetEntry>, out: Outcome)
  {
    var target := Text.Trim(raw);
    var pool := set e | e in directory && Matches(w, target, e);
    if target == "" then out == NoTarget
    else if pool != {} then
      out.Found? && Answers(pool, Classifier(w, req), Comparator(w, req), out.kind, out.entry)
    else
      match w.parsePubKey(target)
      case Some(hex) => out == if w.peers.Some? && hex in w.peers.value then DirectPeer(hex) else NoSuchPeer
      case None => out == NoSuchPeer
  }

  method Collect(w: World, raw: string, directory: seq<FleetEntry>) returns (candidates: seq<FleetEntry>)
    ensures forall e :: e in candidates <==> e in directory && Matches(w, raw, e)
  {
    candidates := [];
    for i := 0 to |directory|
      invariant forall e :: e in candidates <==> e in directory[..i] && Matches(w, raw, e)
    {
      assert directory[..i + 1] == directory[..i] + [directory[i]];
      if Matches(w, raw, directory[i]) {
        candidates := candidates + [directory[i]];
      }
    }
    assert directory[..|directory|] == directory;
  }

  method BestOf<T(!new)>(candidates: seq<T>, better: (T, T) -> bool) returns (best: T)
    requires candidates != [] && StrictWeakOrder(better)
    ensures best in candidates && forall x | x in candidates :: !better(x, best)
  {
    best := candidates[0];
    for i := 1 to |candidates|
      invariant best in candidates && forall k | 0 <= k < i :: !better(candidates[k], best)
    {
      if better(candidates[i], best) {
        best := candidates[i];
      }
    }
  }

  // `found` is the index of the first entry of class c before n.
  ghost predicate FirstOf<T>(ordered: seq<T>, n: nat, classify: T -> Class, c: Class, found: Option<nat>)
    requires n <= |ordered|
  {
    match found
    case Some(i) => i < n && classify(ordered[i]) == c && forall k | 0 <= k < i :: classify(ordered[k]) != c
    case None => forall k | 0 <= k < n :: classify(ordered[k]) != c
  }

  // The first of its class in a sorted sequence is the best of its class.
  lemma FirstIsBest<T(!new)>(ordered: seq<T>, classify: T -> Class, better: (T, T) -> bool, c: Class, n: nat, i: nat)
    requires StrictWeakOrder(better) && NoneBetterLater(ordered, better)
    requires n <= |ordered| && FirstOf(ordered, n, classify, c, Some(i))
    ensures forall x | x in ordered && classify(x) == c :: !better(x, ordered[i])
  {
    forall x | x in ordered && classify(x) == c ensures !better(x, ordered[i]) {
      var j :| 0 <= j < |ordered| && ordered[j] == x;
    }
  }

  method Scan<T(!new)>(ordered: seq<T>, best: T, classify: T -> Class, better: (T, T) -> bool)
    returns (c: Class, e: T)
    requires StrictWeakOrder(better) && NoneBetterLater(ordered, better)
    requires best in ordered && forall x | x in ordered :: !better(x, best)
    ensures Answers((set x | x in ordered), classify, better, c, e)
  {
    var badDM: Option<nat> := None;
    var badCaps: Option<nat> := None;
    for i := 0 to |ordered|
      invariant FirstOf(ordered, i, classify, Eligible, None)
      invariant FirstOf(ordered, i, classify, DMIncompatible, badDM)
      invariant FirstOf(ordered, i, classify, CapabilityIncompatible, badCaps)
    {
      match classify(ordered[i])
      case Unregistered =>
      case DMIncompatible =>
        if badDM.None? {
          badDM := Some(i);
        }
      case CapabilityIncompatible =>
        if badCaps.None? {
          badCaps := Some(i);
        }
      case Eligible =>
        FirstIsBest(ordered, classify, better, Eligible, i + 1, i);
        return Eligible, ordered[i];
    }
    if badDM.Some? {
      FirstIsBest(ordered, classify, better, DMIncompatible, |ordered|, badDM.value);
      return DMIncompatible, ordered[badDM.value];
    }
    if badCaps.Some? {
      FirstIsBest(ordered, classify, better, CapabilityIncompatible, |ordered|, badCaps.value);
      return CapabilityIncompatible, ordered[badCaps.value];
    }
    forall x | x in ordered ensures classify(x) == Unregistered {
      var k :| 0 <= k < |ordered| && ordered[k] == x;
    }
    return Unregistered, best;
  }

  // Resolution answers with a registered candidate that is incompatible in neither way,
  // with no better eligible one, or says why there is none.
  method ResolveFleetTarget(w: World, req: Requirements, raw: string, directory: seq<FleetEntry>)
    returns (out: Outcome)
    ensures Resolves(w, req, raw, directory, out)
  {
    var target := Text.Trim(raw);
    if target == "" {
      return NoTarget;
    }
    var candidates := Collect(w, target, directory);
    ghost var pool := set e | e in directory && Matches(w, target, e);
    if candidates == [] {
      assert pool == {};
      var hex := w.parsePubKey(target);
      return if hex.Some? && w.peers.Some? && hex.value in w.peers.value then DirectPeer(hex.value) else NoSuchPeer;
    }
    assert candidates[0] in pool;
    BetterIsAStrictWeakOrder(w, req);
    var better := Comparator(w, req);
    var best := BestOf(candidates, better);
    var ordered := Sorted(candidates, better);
    assert (set e | e in ordered) == pool;
    var c, e := Scan(ordered, best, Classifier(w, req), better);
    out := Found(c, e);
  }

  method Sorted<T(!new)>(candidates: seq<T>, better: (T, T) -> bool) returns (ordered: seq<T>)
    requires StrictWeakOrder(better) && candidates != []
    ensures NoneBetterLater(ordered, better)
    ensures forall e :: e in ordered <==> e in candidates
  {
    var a := new T[|candidates|](i requires 0 <= i < |candidates| => candidates[i]);
    assert a[..] == candidates;
    ExchangeSort(a, better);
    ordered := a[..];
    forall e ensures e in ordered <==> e in candidates {
      assert e in multiset(ordered) <==> e in multiset(candidates);
    }
  }

  // A target is registered and incompatible in neither way.
  lemma TargetIsEligible(w: World, req: Requirements, raw: string, directory: seq<FleetEntry>, e: FleetEntry)
    requires Resolves(w, req, raw, directory, Found(Eligible, e))
    ensures e in directory && Matches(w, Text.Trim(raw), e)
    ensures IsPeer(w, e) && DMCompat(w, e) != Incompatible && CapsCompat(w, e, req) != Incompatible
    ensures forall x | && x in directory && Matches(w, Text.Trim(raw), x) && IsPeer(w, x)
                       && DMCompat(w, x) != Incompatible && CapsCompat(w, x, req) != Incompatible ::
              !Better(w, req, x, e)
  {
    var pool := set x | x in directory && Matches(w, Text.Trim(raw), x);
    forall x | && x in directory && Matches(w, Text.Trim(raw), x) && IsPeer(w, x)
               && DMCompat(w, x) != Incompatible && CapsCompat(w, x, req) != Incompatible
      ensures !Better(w, req, x, e)
    {
      assert x in pool && Classifier(w, req)(x) == Eligible;
      assert !Comparator(w, req)(x, e);
    }
  }

  // ----- The answer does not depend on the order of the directory -----

  ghost predicate SameUpToTies(w: World, req: Requirements, a: Outcome, b: Outcome)
  {
    if a.Found? && b.Found? then a.kind == b.kind && Tied(w, req, a.entry, b.entry) else a == b
  }

  lemma AnswersAreUnique<T>(pool: set<T>, classify: T -> Class, better: (T, T) -> bool, c: Class, e: T, d: Class, f: T)
    requires Answers(pool, classify, better, c, e) && Answers(pool, classify, better, d, f)
    ensures c == d && !better(e, f) && !better(f, e)
  {
  }

  lemma OrderOfDirectoryIsIrrelevant(w: World, req: Requirements, raw: string,
                                     d1: seq<FleetEntry>, d2: seq<FleetEntry>, a: Outcome, b: Outcome)
    requires multiset(d1) == multiset(d2)
    requires Resolves(w, req, raw, d1, a) && Resolves(w, req, raw, d2, b)
    ensures SameUpToTies(w, req, a, b)
  {
    var target := Text.Trim(raw);
    var pool := set e | e in d1 && Matches(w, target, e);
    forall e ensures e in d1 <==> e in d2 {
      assert e in multiset(d1) <==> e in multiset(d2);
    }
    assert pool == set e | e in d2 && Matches(w, target, e);
    if target != "" && pool != {} {
      AnswersAreUnique(pool, Classifier(w, req), Comparator(w, req), a.kind, a.entry, b.kind, b.entry);
      BetterIsTotalUpToTies(w, req, a.entry, b.entry);
    }
  }
}
