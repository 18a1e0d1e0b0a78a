// cmd/metiq/registry.go: commandRegistry.suggestions.
//
// `lower` stands for strings.ToLower, whatever its table says.
module Suggestions {
  import EditDistance
  import Order

  datatype Command = Command(name: string, hidden: bool)
  datatype Candidate = Candidate(name: string, dist: nat)

  function Distance(lower: string -> string, typed: string, name: string): nat
  {
    EditDistance.Dist(lower(typed), lower(name))
  }

  // Three edits at most, or one is a prefix of the other (of the names as typed).
  predicate Close(lower: string -> string, typed: string, name: string)
  {
    Distance(lower, typed, name) <= 3 || typed <= name || name <= typed
  }

  ghost function Suggestible(lower: string -> string, commands: seq<Command>, typed: string): set<string>
  {
    set c | c in commands && !c.hidden && Close(lower, typed, c.name) :: c.name
  }

  // Nearer first, then by name.
  predicate Before(lower: string -> string, typed: string, m: string, n: string)
  {
    var dm, dn := Distance(lower, typed, m), Distance(lower, typed, n);
    dm < dn || (dm == dn && Order.Less(m, n))
  }

  predicate CandidateAtMost(x: Candidate, y: Candidate)
  {
    x.dist < y.dist || (x.dist == y.dist && Order.AtMost(x.name, y.name))
  }

  lemma CandidateOrder()
    ensures Order.IsTotalOrder(CandidateAtMost)
  {
    Order.StringOrder();
    assert forall m, n :: Order.AtMost(m, n) || Order.AtMost(n, m);
  }

  lemma {:induction false} DistinctCount(s: seq<string>)
    requires forall i, j | 0 <= i < j < |s| :: s[i] != s[j]
    ensures |set x | x in s| == |s|
  {
    if s != [] {
      var t := s[..|s| - 1];
      DistinctCount(t);
      assert (set x | x in s) == (set x | x in t) + {s[|s| - 1]};
    }
  }

  lemma SubsetCount(a: set<string>, b: set<string>)
    requires a <= b
    ensures |a| <= |b|
  {
    assert b == a + (b - a);
  }

  function CandidatesOf(lower: string -> string, commands: seq<Command>, typed: string): seq<Candidate>
  {
    if commands == [] then []
    else
      var cmd := commands[|commands| - 1];
      CandidatesOf(lower, commands[..|commands| - 1], typed) +
      if !cmd.hidden && Close(lower, typed, cmd.name)
      then [Candidate(cmd.name, Distance(lower, typed, cmd.name))] else []
  }

  lemma {:induction false} CandidatesAreTheSuggestible(lower: string -> string, commands: seq<Command>, typed: string)
    ensures forall c :: c in CandidatesOf(lower, commands, typed) <==>
              c.name in Suggestible(lower, commands, typed) && c.dist == Distance(lower, typed, c.name)
  {
    if commands != [] {
      var front, cmd := commands[..|commands| - 1], commands[|commands| - 1];
      CandidatesAreTheSuggestible(lower, front, typed);
      assert commands == front + [cmd];
      assert forall c :: c in commands <==> c in front || c == cmd;
      forall n ensures n in Suggestible(lower, commands, typed) <==>
                n in Suggestible(lower, front, typed) || (!cmd.hidden && Close(lower, typed, cmd.name) && n == cmd.name)
      {
      }
    }
  }

  method Candidates(lower: string -> string, commands: seq<Command>, typed: string)
    returns (candidates: seq<Candidate>)
    ensures candidates == CandidatesOf(lower, commands, typed)
  {
    candidates := [];
    for i := 0 to |commands|
      invariant candidates == CandidatesOf(lower, commands[..i], typed)
    {
      var cmd := commands[i];
      assert commands[..i + 1][..i] == commands[..i];
      if !cmd.hidden {
        var d := EditDistance.Levenshtein(lower(typed), lower(cmd.name));
        EditDistance.LeastEditsIsDist(lower(typed), lower(cmd.name), d);
        if d <= 3 || typed <= cmd.name || cmd.name <= typed {
          candidates := candidates + [Candidate(cmd.name, d)];
        }
      }
    }
    assert commands[..|commands|] == commands;
  }

  // The names listed are those of the candidates at `at`, all before index i.
  ghost predicate Picked(out: seq<string>, at: seq<nat>, ranked: seq<Candidate>, i: nat)
  {
    && |at| == |out|
    && (forall j | 0 <= j < |at| :: at[j] < i && at[j] < |ranked| && ranked[at[j]].name == out[j])
    && (forall j, k | 0 <= j < k < |at| :: at[j] < at[k])
    && (forall j, k | 0 <= j < k < |out| :: out[j] != out[k])
  }

  // The loop over the ranked candidates: it stops after candidate i - 1.
  method TakeDistinct(ranked: seq<Candidate>, most: nat) returns (out: seq<string>, i: nat, ghost at: seq<nat>)
    requires most > 0
    ensures i <= |ranked| && Picked(out, at, ranked, i)
    ensures forall k | 0 <= k < i :: ranked[k].name in out
    ensures |out| <= most && (i < |ranked| ==> |out| == most)
  {
    out, i, at := [], 0, [];
    var seen: set<string> := {};
    while i < |ranked|
      invariant i <= |ranked| && Picked(out, at, ranked, i)
      invariant |out| < most
      invariant forall n :: n in seen <==> n in out
      invariant forall k | 0 <= k < i :: ranked[k].name in out
    {
      var c := ranked[i];
      i := i + 1;
      if c.name in seen {
        continue;
      }
      seen := seen + {c.name};
      out, at := out + [c.name], at + [i - 1];
      if |out| >= most {
        break;
      }
    }
  }

  // The suggestions are the nearest `limit` distinct visible names (three when the
  // limit is not positive), nearest first: no name left out comes before one listed.
  method Suggest(lower: string -> string, commands: seq<Command>, typed: string, limit: int)
    returns (out: seq<string>)
    ensures forall n | n in out :: n in Suggestible(lower, commands, typed)
    ensures forall i, j | 0 <= i < j < |out| :: Before(lower, typed, out[i], out[j])
    ensures var all, most := |Suggestible(lower, commands, typed)|, if limit <= 0 then 3 else limit;
            |out| == if all < most then all else most
    ensures forall m, n | m in out && n in Suggestible(lower, commands, typed) && n !in out ::
              Before(lower, typed, m, n)
  {
    var most := if limit <= 0 then 3 else limit;
    var candidates := Candidates(lower, commands, typed);
    CandidatesAreTheSuggestible(lower, commands, typed);
    var ranked := Order.Sort(candidates, CandidateAtMost);
    CandidateOrder();
    Order.SortIsSorted(candidates, CandidateAtMost);
    var i;
    ghost var at;
    out, i, at := TakeDistinct(ranked, most);
    PickedInOrder(lower, typed, out, at, ranked, i);
    ghost var all := Suggestible(lower, commands, typed);
    forall n | n in all ensures Candidate(n, Distance(lower, typed, n)) in ranked {
    }
    RestComesAfter(lower, typed, out, at, ranked, i, all);
    DistinctAndCounted(lower, typed, out, all);
  }

  ghost predicate Scored(lower: string -> string, typed: string, ranked: seq<Candidate>)
  {
    && Order.Sorted(ranked, CandidateAtMost)
    && forall c | c in ranked :: c.dist == Distance(lower, typed, c.name)
  }

  lemma EarlierComesBefore(lower: string -> string, typed: string, ranked: seq<Candidate>, j: nat, k: nat)
    requires j < k < |ranked| && Scored(lower, typed, ranked) && ranked[j].name != ranked[k].name
    ensures Before(lower, typed, ranked[j].name, ranked[k].name)
  {
    assert CandidateAtMost(ranked[j], ranked[k]);
    Order.LessIsTotal(ranked[j].name, ranked[k].name);
    assert ranked[j] in ranked && ranked[k] in ranked;
  }

  lemma PickedInOrder(lower: string -> string, typed: string, out: seq<string>, at: seq<nat>,
                      ranked: seq<Candidate>, i: nat)
    requires Scored(lower, typed, ranked) && Picked(out, at, ranked, i)
    ensures forall m, n | 0 <= m < n < |out| :: Before(lower, typed, out[m], out[n])
  {
    forall m, n | 0 <= m < n < |out| ensures Before(lower, typed, out[m], out[n]) {
      EarlierComesBefore(lower, typed, ranked, at[m], at[n]);
    }
  }

  lemma RestComesAfter(lower: string -> string, typed: string, out: seq<string>, at: seq<nat>,
                       ranked: seq<Candidate>, i: nat, all: set<string>)
    requires i <= |ranked| && Scored(lower, typed, ranked) && Picked(out, at, ranked, i)
    requires forall k | 0 <= k < i :: ranked[k].name in out
    requires forall n | n in all :: Candidate(n, Distance(lower, typed, n)) in ranked
    ensures forall m, n | m in out && n in all && n !in out :: Before(lower, typed, m, n)
    ensures i == |ranked| ==> forall n | n in all :: n in out
  {
    forall n | n in all && n !in out ensures i < |ranked| && forall m | m in out :: Before(lower, typed, m, n) {
      var j :| 0 <= j < |ranked| && ranked[j] == Candidate(n, Distance(lower, typed, n));
      forall m | m in out ensures Before(lower, typed, m, n) {
        var k :| 0 <= k < |out| && out[k] == m;
        EarlierComesBefore(lower, typed, ranked, at[k], j);
      }
    }
  }

  lemma DistinctAndCounted(lower: string -> string, typed: string, out: seq<string>, all: set<string>)
    requires forall m, n | 0 <= m < n < |out| :: Before(lower, typed, out[m], out[n])
    requires forall n | n in out :: n in all
    ensures |out| <= |all|
    ensures (forall n | n in all :: n in out) ==> |out| == |all|
  {
    forall m, n | 0 <= m < n < |out| ensures out[m] != out[n] {
      Order.LessIsTotal(out[m], out[n]);
      assert Before(lower, typed, out[m], out[n]);
    }
    DistinctCount(out);
    var names := set x | x in out;
    SubsetCount(names, all);
    if forall n | n in all :: n in out {
      assert names == all;
    }
  }

  // What can be suggested, without the recurrence: a visible command's name that three edits
  // at most turn what was typed into, letter case aside, or that shares it as a prefix.
  lemma {:induction false} SuggestibleIff(lower: string -> string, commands: seq<Command>, typed: string, name: string)
    ensures name in Suggestible(lower, commands, typed) <==>
            && Command(name, false) in commands
            && (typed <= name || name <= typed ||
                exists script :: EditDistance.Turns(script, lower(typed), lower(name)) && |script| <= 3)
  {
    var a, b := lower(typed), lower(name);
    var shortest := EditDistance.ShortestScript(a, b);
    if script :| EditDistance.Turns(script, a, b) && |script| <= 3 {
      EditDistance.NoShorterScript(script, a, b);
    }
    if name in Suggestible(lower, commands, typed) {
      var c :| c in commands && !c.hidden && Close(lower, typed, c.name) && c.name == name;
      assert c == Command(name, false);
    }
  }
}
