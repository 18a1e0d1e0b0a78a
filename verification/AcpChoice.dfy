// cmd/metiqd/acp_routing.go: which of several matching peers target resolution chooses, key
// by key, and which failure it reports when none is eligible.
module AcpChoice {
  import opened Wrappers
  import opened AcpRouting
  import Order
  import Text

  // Listed in the peer registry, if there is one.
  predicate Registered(w: World, x: FleetEntry) { w.peers.Some? && x.pubkey in w.peers.value }

  // ----- Likeness up to a key -----

  predicate SameDM(w: World, x: FleetEntry, e: FleetEntry) { DMCompat(w, x) == DMCompat(w, e) }

  predicate SameCaps(w: World, req: Requirements, x: FleetEntry, e: FleetEntry)
  {
    SameDM(w, x, e) && CapsCompat(w, x, req) == CapsCompat(w, e, req)
  }

  predicate SameVersion(w: World, req: Requirements, x: FleetEntry, e: FleetEntry)
  {
    SameCaps(w, req, x, e) && (x.acpVersion > 0 <==> e.acpVersion > 0)
  }

  predicate SameName(w: World, req: Requirements, x: FleetEntry, e: FleetEntry)
  {
    SameVersion(w, req, x, e) && Text.Trim(x.name) == Text.Trim(e.name)
  }

  // e is to be chosen over x, or as well, of two that are both registered or both not: it
  // reaches at least as far by DM, then by capabilities, then speaks ACP if x does, then has
  // no later name, then no later key.
  ghost predicate AtLeastAsGood(w: World, req: Requirements, e: FleetEntry, x: FleetEntry)
  {
    && (DMCompat(w, x) == Compatible ==> DMCompat(w, e) == Compatible)
    && (DMCompat(w, x) == Unknown ==> DMCompat(w, e) != Incompatible)
    && (SameDM(w, x, e) ==>
          && (CapsCompat(w, x, req) == Compatible ==> CapsCompat(w, e, req) == Compatible)
          && (CapsCompat(w, x, req) == Unknown ==> CapsCompat(w, e, req) != Incompatible))
    && (SameCaps(w, req, x, e) ==> (x.acpVersion > 0 ==> e.acpVersion > 0))
    && (SameVersion(w, req, x, e) ==> !Order.Less(Text.Trim(x.name), Text.Trim(e.name)))
    && (SameName(w, req, x, e) ==>
          !Order.Less(w.lower(Text.Trim(x.pubkey)), w.lower(Text.Trim(e.pubkey))))
  }

  lemma {:induction false} UnbeatenIsAtLeastAsGood(w: World, req: Requirements, e: FleetEntry, x: FleetEntry)
    requires Registered(w, e) == Registered(w, x) && !Better(w, req, x, e)
    ensures AtLeastAsGood(w, req, e, x)
  {
    Order.LessIsTotal(Text.Trim(x.name), Text.Trim(e.name));
    if DMCompat(w, x) != DMCompat(w, e) {
      assert !SameDM(w, x, e);
    } else if CapsCompat(w, x, req) != CapsCompat(w, e, req) {
      assert !SameCaps(w, req, x, e);
    } else if (x.acpVersion > 0) != (e.acpVersion > 0) {
      assert !SameVersion(w, req, x, e);
    }
  }

  // And conversely: the comparator prefers nothing for any other reason.
  lemma {:induction false} AtLeastAsGoodIsUnbeaten(w: World, req: Requirements, e: FleetEntry, x: FleetEntry)
    requires Registered(w, e) == Registered(w, x) && AtLeastAsGood(w, req, e, x)
    ensures !Better(w, req, x, e)
  {
  }

  lemma {:induction false} RegisteredComesFirst(w: World, req: Requirements, a: FleetEntry, b: FleetEntry)
    requires Registered(w, a) && !Registered(w, b)
    ensures Better(w, req, a, b) && !Better(w, req, b, a)
  {
  }

  // ----- What resolution answers -----

  ghost predicate IsMatch(w: World, raw: string, directory: seq<FleetEntry>, x: FleetEntry)
  {
    x in directory && Matches(w, Text.Trim(raw), x)
  }

  ghost predicate IsEligible(w: World, req: Requirements, x: FleetEntry)
  {
    Registered(w, x) && DMCompat(w, x) != Incompatible && CapsCompat(w, x, req) != Incompatible
  }

  // What puts an entry into each class.
  ghost predicate Fits(w: World, req: Requirements, c: Class, x: FleetEntry)
  {
    match c
    case Eligible => IsEligible(w, req, x)
    case DMIncompatible => Registered(w, x) && DMCompat(w, x) == Incompatible
    case CapabilityIncompatible =>
      Registered(w, x) && DMCompat(w, x) != Incompatible && CapsCompat(w, x, req) == Incompatible
    case Unregistered => !Registered(w, x)
  }

  lemma {:induction false} FitsIff(w: World, req: Requirements, c: Class, x: FleetEntry)
    ensures Fits(w, req, c, x) <==> Classifier(w, req)(x) == c
  {
  }

  // The entry answered with matches, is of the class reported, and is at least as good as
  // every match of that class.
  lemma {:induction false} AnswerIsBestOfItsClass(w: World, req: Requirements, raw: string, directory: seq<FleetEntry>,
                                                  c: Class, e: FleetEntry, x: FleetEntry)
    requires Resolves(w, req, raw, directory, Found(c, e))
    ensures IsMatch(w, raw, directory, e) && Fits(w, req, c, e)
    ensures IsMatch(w, raw, directory, x) && Fits(w, req, c, x) ==> AtLeastAsGood(w, req, e, x)
  {
    FitsIff(w, req, c, e);
    FitsIff(w, req, c, x);
    if IsMatch(w, raw, directory, x) && Fits(w, req, c, x) {
      var pool := set y | y in directory && Matches(w, Text.Trim(raw), y);
      assert x in pool && !Comparator(w, req)(x, e);
      UnbeatenIsAtLeastAsGood(w, req, e, x);
    }
  }

  // A target is reported whenever a match is eligible; otherwise the DM failure of a
  // registered match, otherwise its capability failure, otherwise that none is registered.
  lemma {:induction false} ReportIsTheFirstThatApplies(w: World, req: Requirements, raw: string,
                                                       directory: seq<FleetEntry>, c: Class, e: FleetEntry,
                                                       x: FleetEntry)
    requires Resolves(w, req, raw, directory, Found(c, e)) && IsMatch(w, raw, directory, x)
    ensures IsEligible(w, req, x) ==> c == Eligible
    ensures Registered(w, x) && DMCompat(w, x) == Incompatible ==> c == Eligible || c == DMIncompatible
    ensures Registered(w, x) ==> c != Unregistered
  {
    var pool := set y | y in directory && Matches(w, Text.Trim(raw), y);
    assert x in pool;
    FitsIff(w, req, Eligible, x);
    FitsIff(w, req, DMIncompatible, x);
    FitsIff(w, req, Unregistered, x);
  }

  // A pubkey matches by key, anything else by name; in either case up to letter case.
  lemma {:induction false} MatchesBy(w: World, raw: string, directory: seq<FleetEntry>, x: FleetEntry)
    ensures IsMatch(w, raw, directory, x) <==>
            && x in directory
            && (w.parsePubKey(Text.Trim(raw)).Some? ==> w.equalFold(x.pubkey, w.parsePubKey(Text.Trim(raw)).value))
            && (w.parsePubKey(Text.Trim(raw)).None? ==> w.lower(Text.Trim(x.name)) == w.lower(Text.Trim(raw)))
  {
  }

  // Of two registered peers of one name, the one that can be reached is chosen over the one
  // that says nothing, wherever they stand in the directory.
  lemma {:induction false} ReachablePeerIsChosen(w: World, raw: string, a: FleetEntry, b: FleetEntry, c: Class,
                                                 e: FleetEntry)
    requires Resolves(w, Requirements([], []), raw, [a, b], Found(c, e))
    requires IsMatch(w, raw, [a, b], a) && IsMatch(w, raw, [a, b], b) && Registered(w, a) && Registered(w, b)
    requires DMCompat(w, a) == Unknown && DMCompat(w, b) == Compatible
    ensures c == Eligible && e == b
  {
    var req := Requirements([], []);
    ReportIsTheFirstThatApplies(w, req, raw, [a, b], c, e, b);
    AnswerIsBestOfItsClass(w, req, raw, [a, b], c, e, b);
  }

  // ----- Capabilities -----

  predicate OffersTool(e: FleetEntry, tool: string)
  {
    tool != "" && exists v | v in e.tools :: Text.Trim(v) == tool
  }

  predicate OffersFeature(w: World, e: FleetEntry, feature: string)
  {
    feature != "" && exists v | v in e.features + w.toolFeatures(e.tools) :: w.lower(Text.Trim(v)) == feature
  }

  ghost predicate OffersTools(e: FleetEntry) { exists v | v in e.tools :: Text.Trim(v) != "" }

  ghost predicate OffersFeatures(w: World, e: FleetEntry)
  {
    exists v | v in e.features + w.toolFeatures(e.tools) :: w.lower(Text.Trim(v)) != ""
  }

  ghost predicate HasEveryTool(e: FleetEntry, req: Requirements)
  {
    forall t | t in req.tools :: OffersTool(e, t)
  }

  ghost predicate HasEveryFeature(w: World, e: FleetEntry, req: Requirements)
  {
    forall f | f in req.features :: OffersFeature(w, e, w.lower(Text.Trim(f)))
  }

  lemma {:induction false} OfferedSets(w: World, e: FleetEntry)
    ensures forall t :: t in ToolSet(e) <==> OffersTool(e, t)
    ensures forall f :: f in FeatureSet(w, e) <==> OffersFeature(w, e, f)
    ensures ToolSet(e) != {} <==> OffersTools(e)
    ensures FeatureSet(w, e) != {} <==> OffersFeatures(w, e)
  {
    if v :| v in e.tools && Text.Trim(v) != "" {
      assert Text.Trim(v) in ToolSet(e);
    }
    if v :| v in e.features + w.toolFeatures(e.tools) && w.lower(Text.Trim(v)) != "" {
      assert w.lower(Text.Trim(v)) in FeatureSet(w, e);
    }
  }

  // A peer is capable when nothing is required, or when it offers every tool and every
  // feature required; of a peer that offers nothing, or no feature where tools suffice,
  // nothing is known; any other peer is not.
  lemma {:induction false} CapableIff(w: World, e: FleetEntry, req: Requirements)
    ensures var c, asked := CapsCompat(w, e, req), req.tools != [] || req.features != [];
            && (c == Compatible <==>
                !asked || ((OffersTools(e) || OffersFeatures(w, e)) &&
                           HasEveryTool(e, req) && HasEveryFeature(w, e, req)))
            && (c == Unknown <==>
                asked && (if OffersFeatures(w, e) then false
                          else !OffersTools(e) || (HasEveryTool(e, req) && req.features != [])))
  {
    OfferedSets(w, e);
    if req.features != [] && FeatureSet(w, e) == {} {
      assert req.features[0] in req.features;
    }
  }

  // ----- Schemes -----

  // The names under which each mode is advertised.
  lemma {:induction false} SchemeNames(w: World, s: string)
    requires Text.NoEdgeSpace(s) && w.lower(s) == s
    ensures SchemeMode(w, s) == Some(Nip04) <==> s == "nip04" || s == "nip-04"
    ensures SchemeMode(w, s) == Some(Fips) <==> s == "fips"
    ensures SchemeMode(w, s) == Some(Nip17) <==>
            s in ["nip17", "nip-17", "nip44", "nip-44", "nip59", "nip-59", "giftwrap"]
  {
    Text.TightIsTrimmed(s);
  }
}
