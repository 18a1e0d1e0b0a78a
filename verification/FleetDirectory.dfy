// cmd/metiqd/nip51_allowlist.go: fleetDirectory, which joins the listed peers with what
// they announced themselves.
//
// The peers come from a Go map, so their order is arbitrary; a listed peer carries no DM
// schemes of its own (setNIP51ListEntries).
module FleetDirectory {
  import opened Wrappers
  import opened AcpRouting
  import Text

  datatype Listed = Listed(pubkey: string, name: string, fips: bool)

  // capabilityRegistry.Get
  function Announced(w: World, pubkey: string): Option<Announcement> { w.capability(Text.Trim(w.lower(pubkey))) }

  function AnnouncedModes(w: World, pubkey: string): set<Mode>
  {
    match Announced(w, pubkey)
    case Some(a) => Schemes(w, a.dmSchemes)
    case None => {}
  }

  // FIPS, by the list or by the announcement.
  predicate FipsEnabled(w: World, l: Listed)
  {
    l.fips || (Announced(w, l.pubkey).Some? && Announced(w, l.pubkey).value.fips)
  }

  function AdvertisedModes(w: World, l: Listed): set<Mode>
  {
    AnnouncedModes(w, l.pubkey) + if FipsEnabled(w, l) then {Fips} else {}
  }

  // The entry is the listed peer's: it advertises what the peer announced, and FIPS when
  // it is enabled on either side.
  ghost predicate Joins(w: World, l: Listed, e: FleetEntry)
  {
    && e.pubkey == l.pubkey && e.name == l.name
    && Schemes(w, e.dmSchemes) == AdvertisedModes(w, l)
    && match Announced(w, l.pubkey)
       case Some(a) => e.acpVersion == a.acpVersion && e.tools == a.tools && e.features == a.features
       case None => e.acpVersion == 0 && e.tools == [] && e.features == []
  }

  ghost predicate IsDirectory(w: World, listed: seq<Listed>, directory: seq<FleetEntry>)
  {
    |directory| == |listed| && forall i | 0 <= i < |listed| :: Joins(w, listed[i], directory[i])
  }

  lemma {:induction false} OneMoreScheme(w: World, schemes: seq<string>, s: string)
    ensures Schemes(w, schemes + [s]) ==
            Schemes(w, schemes) + if SchemeMode(w, s).Some? then {SchemeMode(w, s).value} else {}
  {
    assert forall v :: v in schemes + [s] <==> v in schemes || v == s;
  }

  lemma {:induction false} FipsIsAScheme(w: World)
    requires w.lower("fips") == "fips"
    ensures SchemeMode(w, "fips") == Some(Fips)
  {
    Text.TightIsTrimmed("fips");
  }

  // "fips" appears among the schemes afterwards, and nothing else was added.
  method EnsureFips(w: World, schemes: seq<string>) returns (out: seq<string>)
    requires w.lower("fips") == "fips"
    ensures Schemes(w, out) == Schemes(w, schemes) + {Fips}
    ensures "fips" in out && schemes <= out
  {
    FipsIsAScheme(w);
    for i := 0 to |schemes|
      invariant "fips" !in schemes[..i]
    {
      if schemes[i] == "fips" {
        assert SchemeMode(w, schemes[i]).value in Schemes(w, schemes);
        return schemes;
      }
    }
    OneMoreScheme(w, schemes, "fips");
    out := schemes + ["fips"];
  }

  method Merge(w: World, l: Listed) returns (e: FleetEntry)
    requires w.lower("fips") == "fips"
    ensures Joins(w, l, e)
  {
    e := FleetEntry(l.name, l.pubkey, 0, [], [], []);
    var fips := l.fips;
    var announced := Announced(w, l.pubkey);
    if announced.Some? {
      var a := announced.value;
      e := e.(dmSchemes := a.dmSchemes, acpVersion := a.acpVersion, tools := a.tools, features := a.features);
      if a.fips {
        fips := true;
      }
    }
    assert Schemes(w, e.dmSchemes) == AnnouncedModes(w, l.pubkey);
    if fips {
      var schemes := EnsureFips(w, e.dmSchemes);
      e := e.(dmSchemes := schemes);
    }
  }

  method Directory(w: World, listed: seq<Listed>) returns (directory: seq<FleetEntry>)
    requires w.lower("fips") == "fips"
    ensures IsDirectory(w, listed, directory)
  {
    directory := [];
    for i := 0 to |listed|
      invariant |directory| == i && forall j | 0 <= j < i :: Joins(w, listed[j], directory[j])
    {
      var e := Merge(w, listed[i]);
      directory := directory + [e];
    }
  }
}
