// cmd/metiqd/acp_routing.go: peerAdvertisedACPTransportModes and resolveACPDMTransport,
// and how they agree with the compatibility test that target resolution uses.
module AcpTransport {
  import opened Wrappers
  import opened AcpRouting
  import opened FleetDirectory
  import Text

  // The modes a peer is believed to advertise: those of its capability announcement,
  // else those of its first directory entry.
  function PeerModes(w: World, directory: seq<FleetEntry>, target: string): set<Mode>
  {
    var trimmed := Text.Trim(target);
    if trimmed == "" then {}
    else
      var pubkey := match w.parsePubKey(trimmed) case Some(hex) => hex case None => trimmed;
      var announced := AnnouncedModes(w, pubkey);
      if announced != {} then announced else DirectoryModes(w, directory, pubkey)
  }

  predicate SamePeer(w: World, e: FleetEntry, pubkey: string) { w.equalFold(Text.Trim(e.pubkey), pubkey) }

  function DirectoryModes(w: World, directory: seq<FleetEntry>, pubkey: string): set<Mode>
  {
    if directory == [] then {}
    else if SamePeer(w, directory[0], pubkey) then Schemes(w, directory[0].dmSchemes)
    else DirectoryModes(w, directory[1..], pubkey)
  }

  // The bus to send on, and whether it is told to choose the scheme itself.
  datatype Route = Route(bus: Mode, automatic: bool)

  datatype RouteError = BlankTarget | BadPubKey | NotAdvertised | NoBus | NoCommonScheme

  function ResolveTransport(w: World, directory: seq<FleetEntry>, target: string): Result<Route, RouteError>
  {
    var trimmed := Text.Trim(target);
    if trimmed == "" then Err(BlankTarget)
    else match w.parsePubKey(trimmed)
      case None => Err(BadPubKey)
      case Some(hex) =>
        var remote := PeerModes(w, directory, hex);
        match w.transport
        case Fixed(mode) =>
          if remote != {} && mode !in remote then Err(NotAdvertised)
          else if mode !in w.buses then Err(NoBus)
          else Ok(Route(mode, false))
        case Auto =>
          if Fips in w.buses && (remote == {} || Fips in remote) then Ok(Route(Fips, true))
          else if remote != {} then
            if Nip17 in remote && Nip17 in w.buses then Ok(Route(Nip17, false))
            else if Nip04 in remote && Nip04 in w.buses then Ok(Route(Nip04, false))
            else Err(NoCommonScheme)
          else if Nip17 in w.buses then Ok(Route(Nip17, false))
          else Err(NoCommonScheme)
  }

  // A peer that advertises nothing can be reached over these only.
  predicate BlindRoute(w: World)
  {
    match w.transport
    case Fixed(mode) => mode in w.buses
    case Auto => Fips in w.buses || Nip17 in w.buses
  }

  function Modes(w: World, directory: seq<FleetEntry>, target: string): Option<set<Mode>>
  {
    var trimmed := Text.Trim(target);
    if trimmed == "" then None
    else match w.parsePubKey(trimmed)
      case None => None
      case Some(hex) => Some(PeerModes(w, directory, hex))
  }

  // There is a way to reach a peer that is taken to advertise these modes.
  predicate Reachable(w: World, modes: set<Mode>)
  {
    if modes == {} then BlindRoute(w) else modes * Available(w) != {}
  }

  // Exactly when there is a route; and a route is one both sides have.
  lemma RouteIff(w: World, directory: seq<FleetEntry>, target: string)
    ensures var r, remote := ResolveTransport(w, directory, target), Modes(w, directory, target);
            && (r.Ok? <==> remote.Some? && Reachable(w, remote.value))
            && (r.Ok? ==> r.value.bus in Available(w) && (remote.value == {} || r.value.bus in remote.value))
  {
    var remote := Modes(w, directory, target);
    if remote.Some? && remote.value != {} {
      var common := remote.value * Available(w);
      if common != {} {
        var m :| m in common;
        assert m == Nip17 || m == Nip04 || m == Fips;
      }
      assert forall m | m in remote.value && m in Available(w) :: m in common;
    }
  }

  // Which error: a blank target, one that is no key, a configured mode that the peer does not
  // advertise, a configured mode without a bus, or nothing in common.
  lemma {:induction false} ErrorTells(w: World, directory: seq<FleetEntry>, target: string)
    requires ResolveTransport(w, directory, target).Err?
    ensures var r, remote := ResolveTransport(w, directory, target).error, Modes(w, directory, target);
            && (r == BlankTarget <==> Text.Trim(target) == "")
            && (r == BadPubKey <==> Text.Trim(target) != "" && w.parsePubKey(Text.Trim(target)).None?)
            && (r == NotAdvertised <==>
                remote.Some? && w.transport.Fixed? && remote.value != {} && w.transport.mode !in remote.value)
            && (r == NoBus <==>
                remote.Some? && w.transport.Fixed? && (remote.value == {} || w.transport.mode in remote.value))
            && (r == NoCommonScheme <==> remote.Some? && w.transport.Auto?)
  {
  }

  function Preference(m: Mode): nat { match m case Fips => 2 case Nip17 => 1 case Nip04 => 0 }

  // In auto mode nothing preferable was usable: FIPS before NIP-17 before NIP-04.  FIPS is
  // the one bus that chooses the scheme itself.
  lemma RouteIsPreferred(w: World, directory: seq<FleetEntry>, target: string, m: Mode)
    requires ResolveTransport(w, directory, target).Ok? && m in w.buses
    requires var remote := Modes(w, directory, target).value; remote == {} || m in remote
    ensures var r := ResolveTransport(w, directory, target).value;
            && (w.transport.Auto? ==> Preference(r.bus) >= Preference(m))
            && (r.automatic <==> w.transport.Auto? && r.bus == Fips)
  {
    RouteIff(w, directory, target);
  }

  lemma {:induction false} FirstEntryDecides(w: World, directory: seq<FleetEntry>, hex: string, n: nat)
    requires n < |directory| && SamePeer(w, directory[n], hex)
    requires forall i | 0 <= i < n :: !SamePeer(w, directory[i], hex)
    ensures DirectoryModes(w, directory, hex) == Schemes(w, directory[n].dmSchemes)
  {
    if n > 0 { FirstEntryDecides(w, directory[1..], hex, n - 1); }
  }

  // ----- The directory and the resolver -----

  // What the library calls guarantee about a parsed key: it is in normal form, and a
  // directory key that matches it is the registry's key for it.
  ghost predicate NormalKey(w: World, hex: string)
  {
    && hex != "" && Text.Trim(hex) == hex && w.parsePubKey(hex) == Some(hex)
    && forall key | w.equalFold(Text.Trim(key), hex) :: Text.Trim(w.lower(key)) == Text.Trim(w.lower(hex))
  }

  // What the compatibility test promises of an entry.
  predicate Promised(w: World, e: FleetEntry)
  {
    DMCompat(w, e) == Compatible || (DMCompat(w, e) == Unknown && BlindRoute(w))
  }

  // The resolver finds a route exactly when the entry's compatibility promises one.
  predicate Agrees(w: World, directory: seq<FleetEntry>, target: string, e: FleetEntry)
  {
    ResolveTransport(w, directory, target).Ok? <==> Promised(w, e)
  }

  // n is one of the peer's entries, and m the first.
  ghost predicate EntriesOf(w: World, directory: seq<FleetEntry>, hex: string, m: nat, n: nat)
  {
    && m <= n < |directory| && SamePeer(w, directory[m], hex) && SamePeer(w, directory[n], hex)
    && forall i | 0 <= i < m :: !SamePeer(w, directory[i], hex)
  }

  ghost predicate Parses(w: World, target: string, hex: string)
  {
    Text.Trim(target) != "" && w.parsePubKey(Text.Trim(target)) == Some(hex)
  }

  lemma {:induction false} EntryAnnounces(w: World, l: Listed, e: FleetEntry, hex: string)
    requires NormalKey(w, hex) && Joins(w, l, e) && SamePeer(w, e, hex)
    ensures Announced(w, l.pubkey) == Announced(w, hex)
  {
    assert w.equalFold(Text.Trim(e.pubkey), hex);
  }

  lemma {:induction false} ModesOfKey(w: World, directory: seq<FleetEntry>, target: string, hex: string)
    requires NormalKey(w, hex) && Parses(w, target, hex)
    ensures Modes(w, directory, target) ==
            Some(if AnnouncedModes(w, hex) != {} then AnnouncedModes(w, hex) else DirectoryModes(w, directory, hex))
  {
  }

  // What the resolver takes the peer to advertise.
  lemma {:induction false} SeenModes(w: World, listed: seq<Listed>, directory: seq<FleetEntry>, target: string,
                                     hex: string, m: nat, n: nat)
    requires NormalKey(w, hex) && IsDirectory(w, listed, directory) && Parses(w, target, hex)
    requires EntriesOf(w, directory, hex, m, n)
    ensures var announced := AnnouncedModes(w, hex);
            && AnnouncedModes(w, listed[n].pubkey) == announced
            && Modes(w, directory, target) ==
               Some(if announced != {} then announced else AdvertisedModes(w, listed[m]))
  {
    assert Joins(w, listed[m], directory[m]) && Joins(w, listed[n], directory[n]);
    EntryAnnounces(w, listed[n], directory[n], hex);
    ModesOfKey(w, directory, target, hex);
    FirstEntryDecides(w, directory, hex, m);
  }

  // A flag, of the list or of the announcement, enables FIPS; the announced schemes lack a
  // mode that both sides have; and FIPS would be one.
  predicate FipsOnlyByFlag(w: World, l: Listed)
  {
    var announced := AnnouncedModes(w, l.pubkey);
    announced != {} && FipsEnabled(w, l) && Fips in Available(w) && announced * Available(w) == {}
  }

  // Adding FIPS to what is announced, on the side of the directory alone.
  lemma {:induction false} ReachableAgree(w: World, announced: set<Mode>, first: bool, mine: bool)
    ensures var seen := if announced != {} then announced else if first then {Fips} else {};
            var all := announced + if mine then {Fips} else {};
            Reachable(w, seen) == Reachable(w, all) <==>
            if announced != {} then !(mine && Fips in Available(w) && announced * Available(w) == {})
            else first == mine || (Fips in Available(w) <==> BlindRoute(w))
  {
    var local := Available(w);
    var all := announced + if mine then {Fips} else {};
    assert all * local == announced * local + if mine then {Fips} * local else {};
    assert {Fips} * local == if Fips in local then {Fips} else {};
    assert announced != {} ==> all != {};
    assert announced == {} ==> all == if mine then {Fips} else {};
  }

  lemma {:induction false} PromisedIsReachable(w: World, e: FleetEntry)
    ensures Promised(w, e) <==> Reachable(w, Schemes(w, e.dmSchemes))
  {
  }

  // Exactly when the resolver and the compatibility test agree on an entry of the peer.
  // With usable announced schemes they disagree on FIPS that only a flag promises; without
  // any the peer's first entry speaks for it, and the two must promise FIPS alike unless
  // that makes no difference.
  lemma {:induction false} TransportAgreesIff(w: World, listed: seq<Listed>, directory: seq<FleetEntry>, target: string,
                                              hex: string, m: nat, n: nat)
    requires NormalKey(w, hex) && IsDirectory(w, listed, directory) && Parses(w, target, hex)
    requires EntriesOf(w, directory, hex, m, n)
    ensures Agrees(w, directory, target, directory[n]) <==>
            if AnnouncedModes(w, hex) != {} then !FipsOnlyByFlag(w, listed[n])
            else FipsEnabled(w, listed[m]) == FipsEnabled(w, listed[n]) || (Fips in Available(w) <==> BlindRoute(w))
  {
    SeenModes(w, listed, directory, target, hex, m, n);
    SeenModes(w, listed, directory, target, hex, m, m);
    RouteIff(w, directory, target);
    PromisedIsReachable(w, directory[n]);
    assert Joins(w, listed[n], directory[n]);
    ReachableAgree(w, AnnouncedModes(w, hex), FipsEnabled(w, listed[m]), FipsEnabled(w, listed[n]));
  }

  // When the peer has one entry, the clash is the only disagreement.
  lemma {:induction false} SoleEntryAgreesIff(w: World, listed: seq<Listed>, directory: seq<FleetEntry>, target: string,
                                              hex: string, n: nat)
    requires NormalKey(w, hex) && IsDirectory(w, listed, directory) && Parses(w, target, hex)
    requires EntriesOf(w, directory, hex, n, n)
    ensures Agrees(w, directory, target, directory[n]) <==> !FipsOnlyByFlag(w, listed[n])
  {
    SeenModes(w, listed, directory, target, hex, n, n);
    TransportAgreesIff(w, listed, directory, target, hex, n, n);
  }

  // From target resolution to transport: which eligible targets can be reached.
  lemma {:induction false} EligibleTargetHasRouteIff(w: World, req: Requirements, listed: seq<Listed>,
                                                     directory: seq<FleetEntry>, raw: string, m: nat, n: nat,
                                                     hex: string)
    requires NormalKey(w, hex) && IsDirectory(w, listed, directory)
    requires EntriesOf(w, directory, hex, m, n) && Parses(w, directory[n].pubkey, hex)
    requires Resolves(w, req, raw, directory, Found(Eligible, directory[n]))
    ensures ResolveTransport(w, directory, directory[n].pubkey).Ok? <==>
            if AnnouncedModes(w, hex) != {} then !FipsOnlyByFlag(w, listed[n])
            else if FipsEnabled(w, listed[m]) then Fips in Available(w)
            else BlindRoute(w)
  {
    TargetIsEligible(w, req, raw, directory, directory[n]);
    if AnnouncedModes(w, hex) != {} {
      AnnouncedRouteIff(w, listed, directory, directory[n].pubkey, hex, m, n);
    } else {
      UnannouncedRouteIff(w, listed, directory, directory[n].pubkey, hex, m, n);
    }
  }

  lemma {:induction false} AnnouncedRouteIff(w: World, listed: seq<Listed>, directory: seq<FleetEntry>, target: string,
                                             hex: string, m: nat, n: nat)
    requires NormalKey(w, hex) && IsDirectory(w, listed, directory) && Parses(w, target, hex)
    requires EntriesOf(w, directory, hex, m, n) && AnnouncedModes(w, hex) != {}
    requires DMCompat(w, directory[n]) != Incompatible
    ensures ResolveTransport(w, directory, target).Ok? <==> !FipsOnlyByFlag(w, listed[n])
  {
    assert Promised(w, directory[n]) by {
      SeenModes(w, listed, directory, target, hex, m, n);
      assert Joins(w, listed[n], directory[n]);
      assert AnnouncedModes(w, hex) <= AdvertisedModes(w, listed[n]);
    }
    TransportAgreesIff(w, listed, directory, target, hex, m, n);
  }

  lemma {:induction false} UnannouncedRouteIff(w: World, listed: seq<Listed>, directory: seq<FleetEntry>,
                                               target: string, hex: string, m: nat, n: nat)
    requires NormalKey(w, hex) && IsDirectory(w, listed, directory) && Parses(w, target, hex)
    requires EntriesOf(w, directory, hex, m, n) && AnnouncedModes(w, hex) == {}
    ensures ResolveTransport(w, directory, target).Ok? <==>
            if FipsEnabled(w, listed[m]) then Fips in Available(w) else BlindRoute(w)
  {
    SeenModes(w, listed, directory, target, hex, m, m);
    ReachableByFips(w, FipsEnabled(w, listed[m]));
    assert AdvertisedModes(w, listed[m]) == if FipsEnabled(w, listed[m]) then {Fips} else {};
    RouteIff(w, directory, target);
  }

  lemma {:induction false} ReachableByFips(w: World, flag: bool)
    ensures Reachable(w, if flag then {Fips} else {}) <==> if flag then Fips in Available(w) else BlindRoute(w)
  {
    assert {Fips} * Available(w) == if Fips in Available(w) then {Fips} else {};
  }

  lemma OneScheme(w: World, s: string, mode: Mode)
    requires w.lower(s) == s && (s, mode) in {("nip04", Nip04), ("fips", Fips)}
    ensures Schemes(w, [s]) == {mode}
  {
    Text.TightIsTrimmed(s);
    assert SchemeMode(w, s) == Some(mode) && s in [s];
  }

  // A world with one peer, "k", and what it announces.
  function SmallWorld(a: Option<Announcement>, buses: set<Mode>): World
  {
    World(s => s, (a, b) => a == b, s => if s == "k" then Some("k") else None, Some({"k"}), s => [], s => a, Auto,
          buses)
  }

  lemma {:induction false} SmallWorldHasNormalKey(a: Option<Announcement>, buses: set<Mode>)
    ensures NormalKey(SmallWorld(a, buses), "k")
  {
    Text.TightIsTrimmed("k");
  }

  function ClashingWorld(flag: bool): World { SmallWorld(Some(Announcement(["nip04"], 1, [], [], flag)), {Fips}) }

  function ClashingEntry(): FleetEntry { FleetEntry("a", "k", 1, [], [], ["nip04"] + ["fips"]) }

  lemma {:induction false} ClashingEntryJoins(flag: bool, l: Listed)
    requires l == Listed("k", "a", !flag)
    ensures var w := ClashingWorld(flag);
            && Joins(w, l, ClashingEntry()) && AnnouncedModes(w, "k") == {Nip04}
            && AdvertisedModes(w, l) == {Nip04, Fips} && FipsOnlyByFlag(w, l)
  {
    var w := ClashingWorld(flag);
    OneScheme(w, "nip04", Nip04);
    FipsIsAScheme(w);
    OneMoreScheme(w, ["nip04"], "fips");
  }

  // The clash: the peer announces the scheme NIP-04 alone, FIPS is enabled for it by its own
  // announcement's flag or else by a list, and FIPS is the one bus here.  It is registered
  // and eligible as a target, and there is no route.
  lemma {:induction false} FipsFlagCanMislead(flag: bool)
    returns (w: World, listed: seq<Listed>, directory: seq<FleetEntry>)
    ensures IsDirectory(w, listed, directory) && |directory| == 1 && NormalKey(w, directory[0].pubkey)
    ensures listed[0].fips == !flag && Announced(w, listed[0].pubkey).Some?
    ensures Announced(w, listed[0].pubkey).value.fips == flag
    ensures ClassOf(w, Requirements([], []), directory[0]) == Eligible && DMCompat(w, directory[0]) == Compatible
    ensures FipsOnlyByFlag(w, listed[0]) && ResolveTransport(w, directory, directory[0].pubkey).Err?
  {
    w, listed, directory := ClashingWorld(flag), [Listed("k", "a", !flag)], [ClashingEntry()];
    SmallWorldHasNormalKey(Some(Announcement(["nip04"], 1, [], [], flag)), {Fips});
    ClashingEntryJoins(flag, listed[0]);
    ClashingEntryIsEligible(flag, listed[0]);
    Text.TightIsTrimmed("k");
    SoleEntryAgreesIff(w, listed, directory, "k", "k", 0);
  }

  lemma {:induction false} ClashingEntryIsEligible(flag: bool, l: Listed)
    requires l == Listed("k", "a", !flag)
    ensures var w := ClashingWorld(flag);
            DMCompat(w, ClashingEntry()) == Compatible && ClassOf(w, Requirements([], []), ClashingEntry()) == Eligible
  {
    var w := ClashingWorld(flag);
    ClashingEntryJoins(flag, l);
    assert Fips in Schemes(w, ClashingEntry().dmSchemes) * Available(w);
  }

  // A peer that advertises nothing is compatible as far as is known, and is reached blind
  // or not at all.
  lemma {:induction false} SilentPeerHasRouteIff(w: World, listed: seq<Listed>, directory: seq<FleetEntry>,
                                                 target: string, hex: string, n: nat)
    requires NormalKey(w, hex) && IsDirectory(w, listed, directory) && Parses(w, target, hex)
    requires EntriesOf(w, directory, hex, n, n) && AdvertisedModes(w, listed[n]) == {}
    ensures DMCompat(w, directory[n]) == Unknown
    ensures ResolveTransport(w, directory, target).Ok? <==> BlindRoute(w)
  {
    assert Joins(w, listed[n], directory[n]);
    assert AnnouncedModes(w, listed[n].pubkey) <= AdvertisedModes(w, listed[n]);
    SoleEntryAgreesIff(w, listed, directory, target, hex, n);
  }

  // So with only a NIP-04 bus in auto mode it is eligible as a target but has no route.
  lemma {:induction false} UnknownPeerNeedsFipsOrNip17(w: World, listed: seq<Listed>, directory: seq<FleetEntry>,
                                                       target: string, hex: string, n: nat)
    requires NormalKey(w, hex) && IsDirectory(w, listed, directory) && Parses(w, target, hex)
    requires EntriesOf(w, directory, hex, n, n) && AdvertisedModes(w, listed[n]) == {}
    requires w.transport == Auto && w.buses == {Nip04}
    ensures DMCompat(w, directory[n]) == Unknown && !ResolveTransport(w, directory, target).Ok?
  {
    SilentPeerHasRouteIff(w, listed, directory, target, hex, n);
  }

  // Such a peer: registered, silent, and found as the target of its own name.
  lemma {:induction false} SilentPeerIsStranded()
    returns (w: World, listed: seq<Listed>, directory: seq<FleetEntry>)
    ensures IsDirectory(w, listed, directory) && |directory| == 1 && NormalKey(w, directory[0].pubkey)
    ensures w.transport == Auto && w.buses == {Nip04} && AdvertisedModes(w, listed[0]) == {}
    ensures ClassOf(w, Requirements([], []), directory[0]) == Eligible
    ensures !ResolveTransport(w, directory, directory[0].pubkey).Ok?
  {
    w, listed := SmallWorld(None, {Nip04}), [Listed("k", "a", false)];
    directory := [FleetEntry("a", "k", 0, [], [], [])];
    SmallWorldHasNormalKey(None, {Nip04});
    Text.TightIsTrimmed("k");
    assert Schemes(w, []) == {};
    UnknownPeerNeedsFipsOrNip17(w, listed, directory, "k", "k", 0);
  }
}
