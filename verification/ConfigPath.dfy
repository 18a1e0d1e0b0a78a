// cmd/metiq/config_cmd.go: parseConfigPath, and the path text that flattenConfig prints.
module ConfigPath {
  import opened Wrappers
  import Text

  datatype Step = Key(key: string) | Index(index: nat)

  datatype PathError = Blank | EmptySegment | UnclosedIndex | BadIndex

  type Parsed = Result<seq<Step>, PathError>

  // ----- The grammar -----

  // strings.Index for one character: the first occurrence, or -1.
  function Find(s: string, c: char): (i: int)
    ensures -1 <= i < |s|
    ensures i >= 0 ==> s[i] == c
  {
    if s == [] then -1
    else if s[0] == c then 0
    else
      var rest := Find(s[1..], c);
      if rest < 0 then -1 else rest + 1
  }

  lemma {:induction false} FindIsFirst(s: string, c: char)
    ensures var i := Find(s, c); if i < 0 then c !in s else c !in s[..i]
  {
    if s != [] && s[0] != c {
      FindIsFirst(s[1..], c);
      var rest := Find(s[1..], c);
      if rest < 0 {
        assert s == [s[0]] + s[1..];
      } else {
        assert s[..rest + 1] == [s[0]] + s[1..][..rest];
      }
    }
  }

  // strings.Split(s, ".")
  function Split(s: string): (parts: seq<string>)
    ensures parts != []
    decreases |s|
  {
    var dot := Find(s, '.');
    if dot < 0 then [s] else [s[..dot]] + Split(s[dot + 1..])
  }

  function Then(steps: seq<Step>, rest: Parsed): Parsed
  {
    if rest.Ok? then Ok(steps + rest.value) else rest
  }

  // What a segment starts with.
  datatype Head = NoBracket | Broken(error: PathError) | Indexed(key: seq<Step>, index: nat, rest: string)

  // The segment has its first '[' at `bracket` and the ']' after it `end` further on.
  function HeadAt(part: string, bracket: nat, end: nat): Head
    requires 0 < end < |part| - bracket
  {
    var index := Text.Atoi(part[bracket + 1..bracket + end]);
    if index.None? || index.value < 0 then Broken(BadIndex)
    else Indexed(if bracket > 0 then [Key(part[..bracket])] else [], index.value, part[bracket + end + 1..])
  }

  function HeadOf(part: string): (h: Head)
    ensures h.Indexed? ==> |h.rest| < |part|
  {
    var bracket := Find(part, '[');
    if bracket < 0 then NoBracket
    else
      var end := Find(part[bracket..], ']');
      if end < 0 then Broken(UnclosedIndex) else HeadAt(part, bracket, end)
  }

  // One segment: an optional key, then bracketed indices (and keys) up to its end.
  function SegmentSteps(part: string): Parsed
    decreases |part|
  {
    if part == "" then Ok([])
    else
      match HeadOf(part)
      case NoBracket => Ok([Key(part)])
      case Broken(e) => Err(e)
      case Indexed(key, index, rest) => Then(key + [Index(index)], SegmentSteps(rest))
  }

  function SegmentsSteps(parts: seq<string>): Parsed
  {
    if parts == [] then Ok([])
    else if parts[0] == "" then Err(EmptySegment)
    else
      var first := SegmentSteps(parts[0]);
      if first.Err? then first else Then(first.value, SegmentsSteps(parts[1..]))
  }

  function Parse(path: string): Parsed
  {
    var trimmed := Text.Trim(path);
    if trimmed == "" then Err(Blank) else SegmentsSteps(Split(trimmed))
  }

  // ----- The program -----

  method ParseSegment(whole: string, before: seq<Step>) returns (r: Parsed)
    ensures r == Then(before, SegmentSteps(whole))
  {
    var part, steps := whole, before;
    while part != ""
      invariant Then(steps, SegmentSteps(part)) == Then(before, SegmentSteps(whole))
      decreases |part|
    {
      match HeadOf(part)
      case NoBracket =>
        steps := steps + [Key(part)];
        return Ok(steps);
      case Broken(error) =>
        return Err(error);
      case Indexed(key, index, rest) =>
        ThenThen(steps, key + [Index(index)], SegmentSteps(rest));
        steps := steps + (key + [Index(index)]);
        part := rest;
    }
    assert steps + [] == steps;
    r := Ok(steps);
  }

  lemma {:induction false} ThenThen(a: seq<Step>, b: seq<Step>, rest: Parsed)
    ensures Then(a, Then(b, rest)) == Then(a + b, rest)
  {
    if rest.Ok? { assert a + (b + rest.value) == a + b + rest.value; }
  }

  method ParseConfigPath(path: string) returns (r: Parsed)
    ensures r == Parse(path)
  {
    var trimmed := Text.Trim(path);
    if trimmed == "" {
      return Err(Blank);
    }
    var parts := Split(trimmed);
    var steps := [];
    assert parts[0..] == parts;
    assert forall rest: seq<Step> :: [] + rest == rest;
    for i := 0 to |parts|
      invariant Then(steps, SegmentsSteps(parts[i..])) == SegmentsSteps(parts)
    {
      if parts[i] == "" {
        return Err(EmptySegment);
      }
      assert parts[i..][1..] == parts[i + 1..];
      var more := ParseSegment(parts[i], steps);
      if more.Err? {
        return more;
      }
      ThenThen(steps, SegmentSteps(parts[i]).value, SegmentsSteps(parts[i + 1..]));
      steps := more.value;
    }
    assert steps + [] == steps;
    r := Ok(steps);
  }

  // ----- Printing a path, and reading it back -----

  function Brackets(i: nat): string { "[" + Text.Decimal(i) + "]" }

  function Child(path: string, step: Step): string
  {
    match step
    case Key(k) => if path == "" then k else path + "." + k
    case Index(i) => path + Brackets(i)
  }

  function Print(steps: seq<Step>): string
  {
    if steps == [] then "" else Child(Print(steps[..|steps| - 1]), steps[|steps| - 1])
  }

  // The keys and indices whose printed form is unambiguous within a path,
  predicate PlainKey(k: string) { k != "" && '.' !in k && '[' !in k }

  predicate PlainStep(s: Step)
  {
    if s.Key? then PlainKey(s.key) else s.index <= Text.MAX_INT
  }

  predicate Plain(steps: seq<Step>)
  {
    forall s | s in steps :: PlainStep(s)
  }

  // and anywhere.
  predicate CleanKey(k: string)
  {
    PlainKey(k) && Text.NoEdgeSpace(k)
  }

  predicate CleanStep(s: Step)
  {
    if s.Key? then CleanKey(s.key) else s.index <= Text.MAX_INT
  }

  predicate Clean(steps: seq<Step>)
  {
    forall s | s in steps :: CleanStep(s)
  }

  lemma {:induction false} FindIs(s: string, c: char, i: nat)
    requires i < |s| && s[i] == c && c !in s[..i]
    ensures Find(s, c) == i
  {
    if i > 0 {
      assert s[0] == s[..i][0];
      assert s[1..][..i - 1] == s[..i][1..];
      FindIs(s[1..], c, i - 1);
    }
  }

  lemma {:induction false} FindInFront(s: string, t: string, c: char)
    requires c in s
    ensures Find(s + t, c) == Find(s, c)
  {
    FindIsFirst(s, c);
    var i := Find(s, c);
    assert (s + t)[..i] == s[..i];
    FindIs(s + t, c, i);
  }

  lemma {:induction false} FindPast(s: string, c: char, t: string)
    requires c !in s
    ensures Find(s + [c] + t, c) == |s|
  {
    assert (s + [c] + t)[..|s|] == s;
    FindIs(s + [c] + t, c, |s|);
  }

  // The last segment, made longer.
  function LengthenLast(parts: seq<string>, t: string): seq<string>
    requires parts != []
  {
    parts[..|parts| - 1] + [parts[|parts| - 1] + t]
  }

  lemma {:induction false} LengthenLastOfCons(first: string, rest: seq<string>, t: string)
    requires rest != []
    ensures LengthenLast([first] + rest, t) == [first] + LengthenLast(rest, t)
  {
  }

  lemma {:induction false} SplitUnfolds(s: string)
    requires '.' in s
    ensures var dot := Find(s, '.'); dot >= 0 && Split(s) == [s[..dot]] + Split(s[dot + 1..])
  {
    FindIsFirst(s, '.');
  }

  lemma {:induction false} SplitPlain(s: string)
    requires '.' !in s
    ensures Split(s) == [s]
  {
  }

  lemma {:induction false} SplitAppendStep(s: string, t: string, dot: nat)
    requires '.' in s && dot == Find(s, '.')
    requires Split(s[dot + 1..] + t) == LengthenLast(Split(s[dot + 1..]), t)
    ensures Split(s + t) == LengthenLast(Split(s), t)
  {
    SplitUnfolds(s);
    FindInFront(s, t, '.');
    assert (s + t)[..dot] == s[..dot];
    assert (s + t)[dot + 1..] == s[dot + 1..] + t;
    LengthenLastOfCons(s[..dot], Split(s[dot + 1..]), t);
  }

  lemma {:induction false} SplitAppend(s: string, t: string)
    requires '.' !in t
    ensures Split(s + t) == LengthenLast(Split(s), t)
    decreases |s|
  {
    if '.' in s {
      SplitUnfolds(s);
      var dot := Find(s, '.');
      SplitAppend(s[dot + 1..], t);
      SplitAppendStep(s, t, dot);
    } else {
      SplitPlain(s);
      SplitPlain(s + t);
    }
  }

  lemma {:induction false} SplitFirst(s: string, t: string)
    requires '.' !in s
    ensures Split(s + ['.'] + t) == [s] + Split(t)
  {
    var u := s + ['.'] + t;
    FindPast(s, '.', t);
    assert u[..|s|] == s;
    assert u[|s| + 1..] == t;
  }

  lemma {:induction false} SplitNewSegmentStep(s: string, k: string, first: string, rest: string)
    requires '.' !in first && s == first + ['.'] + rest
    requires Split(rest + ['.'] + k) == Split(rest) + [k]
    ensures Split(s + ['.'] + k) == Split(s) + [k]
  {
    var tail := rest + ['.'] + k;
    assert s + ['.'] + k == first + ['.'] + tail by { Regroup(first, rest, k); }
    SplitFirst(first, rest);
    SplitFirst(first, tail);
    assert [first] + (Split(rest) + [k]) == ([first] + Split(rest)) + [k];
  }

  lemma {:induction false} Regroup(a: string, b: string, c: string)
    ensures (a + ['.'] + b) + ['.'] + c == a + ['.'] + (b + ['.'] + c)
  {
  }

  lemma {:induction false} SplitNewSegment(s: string, k: string)
    requires '.' !in k
    ensures Split(s + ['.'] + k) == Split(s) + [k]
    decreases |s|
  {
    if '.' in s {
      FindIsFirst(s, '.');
      var dot := Find(s, '.');
      SplitNewSegment(s[dot + 1..], k);
      SplitNewSegmentStep(s, k, s[..dot], s[dot + 1..]);
    } else {
      SplitPlain(s);
      SplitPlain(k);
      SplitFirst(s, k);
    }
  }

  lemma {:induction false} DigitsHaveNoPunctuation(i: nat)
    ensures '.' !in Text.Decimal(i) && '[' !in Text.Decimal(i) && ']' !in Text.Decimal(i)
  {
    Text.ValueOfDigits(i);
  }

  lemma {:induction false} BracketsClose(i: nat)
    ensures var d := Text.Decimal(i); Find(Brackets(i), ']') == |d| + 1 && Brackets(i)[1..|d| + 1] == d
  {
    var d := Text.Decimal(i);
    DigitsHaveNoPunctuation(i);
    FindPast(['['] + d, ']', []);
    assert Brackets(i) == ['['] + d + [']'] + [];
  }

  lemma {:induction false} BracketSlices(part: string, i: nat)
    ensures var d, n, whole := Text.Decimal(i), |part|, part + Brackets(i);
            && whole == part + ['['] + (d + [']'])
            && whole[..n] == part && whole[n..] == Brackets(i)
            && whole[n + 1..n + (|d| + 1)] == d
            && whole[n + (|d| + 1) + 1..] == ""
  {
  }

  lemma {:induction false} SlicesOfAppend(s: string, t: string, i: nat, j: nat)
    requires i <= j <= |s|
    ensures (s + t)[..i] == s[..i] && (s + t)[i..j] == s[i..j] && (s + t)[j..] == s[j..] + t
  {
  }

  lemma {:induction false} HeadOfIs(part: string, bracket: nat, end: nat)
    requires 0 < end < |part| - bracket
    requires Find(part, '[') == bracket && Find(part[bracket..], ']') == end
    ensures HeadOf(part) == HeadAt(part, bracket, end)
  {
  }

  lemma {:induction false} FirstIndex(part: string, i: nat)
    requires '[' !in part && i <= Text.MAX_INT
    ensures HeadOf(part + Brackets(i)) == Indexed(if part == "" then [] else [Key(part)], i, "")
  {
    BracketSlices(part, i);
    FindPast(part, '[', Text.Decimal(i) + [']']);
    BracketsClose(i);
    Text.AtoiReadsDecimal(i);
    HeadOfIs(part + Brackets(i), |part|, |Text.Decimal(i)| + 1);
  }

  lemma {:induction false} BracketsInFront(part: string, t: string, bracket: nat, end: nat)
    requires bracket < |part| && Find(part, '[') == bracket
    requires 0 < end < |part| - bracket && Find(part[bracket..], ']') == end
    ensures Find(part + t, '[') == bracket && Find((part + t)[bracket..], ']') == end
  {
    FindInFront(part, t, '[');
    SlicesOfAppend(part, t, bracket, bracket);
    FindInFront(part[bracket..], t, ']');
  }

  lemma {:induction false} HeadAtInFront(part: string, t: string, bracket: nat, end: nat)
    requires 0 < end < |part| - bracket && HeadAt(part, bracket, end).Indexed?
    ensures HeadAt(part + t, bracket, end) ==
            HeadAt(part, bracket, end).(rest := HeadAt(part, bracket, end).rest + t)
  {
    var whole := part + t;
    assert whole[..bracket] == part[..bracket];
    assert whole[bracket + 1..bracket + end] == part[bracket + 1..bracket + end];
    assert whole[bracket + end + 1..] == part[bracket + end + 1..] + t;
  }

  lemma {:induction false} LaterIndex(part: string, t: string)
    requires HeadOf(part).Indexed?
    ensures HeadOf(part + t) == HeadOf(part).(rest := HeadOf(part).rest + t)
  {
    var bracket := Find(part, '[');
    var end := Find(part[bracket..], ']');
    BracketsInFront(part, t, bracket, end);
    HeadOfIs(part + t, bracket, end);
    HeadAtInFront(part, t, bracket, end);
  }

  lemma {:induction false} SegmentWithHead(part: string, h: Head)
    requires part != "" && HeadOf(part) == h && h.Indexed?
    ensures SegmentSteps(part) == Then(h.key + [Index(h.index)], SegmentSteps(h.rest))
  {
  }

  // Appending "[i]" to a segment that parses appends Index(i).
  lemma {:induction false} SegmentThenIndex(part: string, i: nat)
    requires SegmentSteps(part).Ok? && i <= Text.MAX_INT
    ensures SegmentSteps(part + Brackets(i)) == Ok(SegmentSteps(part).value + [Index(i)])
    decreases |part|
  {
    var h := HeadOf(part);
    if part == "" || h.NoBracket? {
      FindIsFirst(part, '[');
      FirstIndex(part, i);
      var h' := HeadOf(part + Brackets(i));
      SegmentWithHead(part + Brackets(i), h');
      assert h'.key + [Index(i)] + [] == h'.key + [Index(i)];
    } else {
      SegmentWithHead(part, h);
      LaterIndex(part, Brackets(i));
      SegmentWithHead(part + Brackets(i), h.(rest := h.rest + Brackets(i)));
      SegmentThenIndex(h.rest, i);
      ThenAppend(h.key + [Index(h.index)], SegmentSteps(h.rest).value, [Index(i)]);
    }
  }

  lemma {:induction false} ThenAppend(a: seq<Step>, b: seq<Step>, c: seq<Step>)
    ensures a + (b + c) == (a + b) + c
  {
  }

  lemma {:induction false} SegmentsAppend(parts: seq<string>, part: string)
    requires SegmentsSteps(parts).Ok? && part != "" && SegmentSteps(part).Ok?
    ensures SegmentsSteps(parts + [part]) == Ok(SegmentsSteps(parts).value + SegmentSteps(part).value)
  {
    var all := parts + [part];
    if parts == [] {
      assert all == [part] && all[1..] == [];
      assert SegmentsSteps(all[1..]) == Ok([]);
      var a := SegmentSteps(part).value;
      assert a + [] == a == [] + a;
    } else {
      assert all[1..] == parts[1..] + [part] && all[0] == parts[0];
      SegmentsAppend(parts[1..], part);
      var a, b, c := SegmentSteps(parts[0]).value, SegmentsSteps(parts[1..]).value, SegmentSteps(part).value;
      assert a + (b + c) == (a + b) + c;
    }
  }

  lemma {:induction false} SegmentsFront(parts: seq<string>)
    requires parts != [] && SegmentsSteps(parts).Ok?
    ensures var n := |parts| - 1;
            && SegmentsSteps(parts[..n]).Ok? && SegmentSteps(parts[n]).Ok? && parts[n] != ""
            && SegmentsSteps(parts).value == SegmentsSteps(parts[..n]).value + SegmentSteps(parts[n]).value
  {
    var n := |parts| - 1;
    if n > 0 {
      SegmentsFront(parts[1..]);
      assert parts[1..][..n - 1] == parts[..n][1..];
    } else {
      assert SegmentsSteps(parts[1..]) == Ok([]);
    }
  }

  lemma {:induction false} KeyExtends(s: string, steps: seq<Step>, k: string)
    requires SegmentsSteps(Split(s)) == Ok(steps) && PlainKey(k)
    ensures SegmentsSteps(Split(s + "." + k)) == Ok(steps + [Key(k)])
  {
    SplitNewSegment(s, k);
    FindIsFirst(k, '[');
    SegmentsAppend(Split(s), k);
  }

  lemma {:induction false} ExtendLast(front: seq<string>, part: string, i: nat)
    requires SegmentsSteps(front).Ok? && part != "" && SegmentSteps(part).Ok? && i <= Text.MAX_INT
    ensures SegmentsSteps(front + [part + Brackets(i)]) ==
            Ok((SegmentsSteps(front).value + SegmentSteps(part).value) + [Index(i)])
  {
    SegmentThenIndex(part, i);
    SegmentsAppend(front, part + Brackets(i));
    ThenAppend(SegmentsSteps(front).value, SegmentSteps(part).value, [Index(i)]);
  }

  lemma {:induction false} IndexExtends(s: string, steps: seq<Step>, i: nat)
    requires SegmentsSteps(Split(s)) == Ok(steps) && i <= Text.MAX_INT
    ensures SegmentsSteps(Split(s + Brackets(i))) == Ok(steps + [Index(i)])
  {
    var parts := Split(s);
    SegmentsFront(parts);
    ExtendLast(parts[..|parts| - 1], parts[|parts| - 1], i);
    assert Split(s + Brackets(i)) == LengthenLast(parts, Brackets(i)) by {
      DigitsHaveNoPunctuation(i);
      SplitAppend(s, Brackets(i));
    }
  }

  lemma {:induction false} PrintedKey(k: string)
    requires PlainKey(k)
    ensures SegmentsSteps(Split(k)) == Ok([Key(k)])
  {
    FindIsFirst(k, '[');
    SplitPlain(k);
    assert SegmentsSteps([]) == Ok([]);
    assert [k][1..] == [];
    assert [Key(k)] + [] == [Key(k)];
  }

  lemma {:induction false} PrintedIndex(i: nat)
    requires i <= Text.MAX_INT
    ensures SegmentsSteps(Split(Brackets(i))) == Ok([Index(i)])
  {
    DigitsHaveNoPunctuation(i);
    SplitPlain(Brackets(i));
    SegmentThenIndex("", i);
    assert "" + Brackets(i) == Brackets(i);
    assert [] + [Index(i)] == [Index(i)] && [Index(i)] + [] == [Index(i)];
    assert [Brackets(i)][1..] == [];
  }

  lemma {:induction false} ChildExtends(path: string, steps: seq<Step>, step: Step)
    requires path != "" && SegmentsSteps(Split(path)) == Ok(steps) && PlainStep(step)
    ensures SegmentsSteps(Split(Child(path, step))) == Ok(steps + [step])
  {
    match step
    case Key(k) => KeyExtends(path, steps, k);
    case Index(i) => IndexExtends(path, steps, i);
  }

  // Space at the edges of the printed path is space at the outer edge of a key.
  predicate SpaceFirst(steps: seq<Step>)
  {
    steps != [] && steps[0].Key? && steps[0].key != "" && Text.IsSpace(steps[0].key[0])
  }

  predicate SpaceLast(steps: seq<Step>)
  {
    steps != [] &&
    var last := steps[|steps| - 1];
    last.Key? && last.key != "" && Text.IsSpace(last.key[|last.key| - 1])
  }

  lemma {:induction false} ChildEdges(path: string, step: Step)
    requires PlainStep(step)
    ensures var p := Child(path, step);
            && p != "" && (path != "" ==> p[0] == path[0]) && (path == "" && step.Key? ==> p == step.key)
            && p[|p| - 1] == (if step.Key? then step.key[|step.key| - 1] else ']')
            && (path == "" && step.Index? ==> p[0] == '[')
  {
  }

  lemma {:induction false} PrintEdges(steps: seq<Step>)
    requires Plain(steps) && steps != []
    ensures var p := Print(steps);
            && p != "" && (Text.IsSpace(p[0]) <==> SpaceFirst(steps))
            && (Text.IsSpace(p[|p| - 1]) <==> SpaceLast(steps))
  {
    var n := |steps| - 1;
    ChildEdges(Print(steps[..n]), steps[n]);
    if n > 0 { PrintEdges(steps[..n]); }
  }

  lemma {:induction false} PrintedStep(step: Step)
    requires PlainStep(step)
    ensures SegmentsSteps(Split(Child("", step))) == Ok([step])
  {
    match step
    case Key(k) => PrintedKey(k);
    case Index(i) =>
      PrintedIndex(i);
      assert "" + Brackets(i) == Brackets(i);
  }

  // Without the trimming, every plain path reads back.
  lemma {:induction false} PrintedSegments(steps: seq<Step>)
    requires Plain(steps) && steps != []
    ensures SegmentsSteps(Split(Print(steps))) == Ok(steps)
  {
    var n := |steps| - 1;
    var front, last := steps[..n], steps[n];
    assert steps == front + [last] && last in steps;
    if n == 0 {
      assert Print(front) == "";
      PrintedStep(last);
    } else {
      PrintedSegments(front);
      PrintEdges(front);
      ChildExtends(Print(front), front, last);
    }
  }

  // ----- What parsing yields -----

  lemma {:induction false} SplitHasNoDots(s: string)
    ensures forall part | part in Split(s) :: '.' !in part
    decreases |s|
  {
    FindIsFirst(s, '.');
    if '.' in s {
      SplitUnfolds(s);
      SplitHasNoDots(s[Find(s, '.') + 1..]);
    }
  }

  lemma {:induction false} HeadIsPlain(part: string)
    requires '.' !in part && HeadOf(part).Indexed?
    ensures var h := HeadOf(part); Plain(h.key + [Index(h.index)]) && '.' !in h.rest
  {
    FindIsFirst(part, '[');
    var h := HeadOf(part);
    assert forall c | c in h.rest :: c in part;
    assert forall c | c in part[..Find(part, '[')] :: c in part;
  }

  lemma {:induction false} SegmentIsPlain(part: string)
    requires '.' !in part && SegmentSteps(part).Ok?
    ensures Plain(SegmentSteps(part).value)
    decreases |part|
  {
    FindIsFirst(part, '[');
    if part != "" && HeadOf(part).Indexed? {
      var h := HeadOf(part);
      HeadIsPlain(part);
      SegmentWithHead(part, h);
      SegmentIsPlain(h.rest);
      PlainThen(h.key + [Index(h.index)], SegmentSteps(h.rest).value);
    }
  }

  lemma {:induction false} PlainThen(a: seq<Step>, b: seq<Step>)
    requires Plain(a) && Plain(b)
    ensures Plain(a + b)
  {
  }

  lemma {:induction false} SegmentsArePlain(parts: seq<string>)
    requires (forall part | part in parts :: '.' !in part) && SegmentsSteps(parts).Ok?
    ensures Plain(SegmentsSteps(parts).value)
  {
    if parts != [] {
      SegmentIsPlain(parts[0]);
      SegmentsArePlain(parts[1..]);
    }
  }

  predicate OpensWith(steps: seq<Step>, c: char)
  {
    steps != [] && (steps[0].Key? ==> steps[0].key != "" && steps[0].key[0] == c)
  }

  predicate ClosesWith(steps: seq<Step>, c: char)
  {
    steps != [] &&
    var last := steps[|steps| - 1];
    last.Key? ==> last.key != "" && last.key[|last.key| - 1] == c
  }

  lemma {:induction false} OpenFirst(a: seq<Step>, b: seq<Step>, c: char)
    requires OpensWith(a, c)
    ensures OpensWith(a + b, c)
  {
  }

  lemma {:induction false} CloseLast(a: seq<Step>, b: seq<Step>, c: char)
    requires ClosesWith(b, c)
    ensures ClosesWith(a + b, c)
  {
  }

  lemma {:induction false} HeadOpens(part: string)
    requires part != "" && HeadOf(part).Indexed?
    ensures var h := HeadOf(part); OpensWith(h.key + [Index(h.index)], part[0])
    ensures var h := HeadOf(part); h.rest != "" ==> h.rest[|h.rest| - 1] == part[|part| - 1]
  {
  }

  // A segment's first step, if it is a key, opens as the segment does,
  lemma {:induction false} SegmentOpens(part: string)
    requires part != "" && SegmentSteps(part).Ok?
    ensures OpensWith(SegmentSteps(part).value, part[0])
  {
    var h := HeadOf(part);
    if h.Indexed? {
      SegmentWithHead(part, h);
      HeadOpens(part);
      OpenFirst(h.key + [Index(h.index)], SegmentSteps(h.rest).value, part[0]);
    }
  }

  // and its last step closes as it does.
  lemma {:induction false} SegmentCloses(part: string)
    requires part != "" && SegmentSteps(part).Ok?
    ensures ClosesWith(SegmentSteps(part).value, part[|part| - 1])
    decreases |part|
  {
    var h := HeadOf(part);
    if h.Indexed? {
      SegmentWithHead(part, h);
      HeadOpens(part);
      if h.rest == "" {
        assert h.key + [Index(h.index)] + [] == h.key + [Index(h.index)];
      } else {
        SegmentCloses(h.rest);
        CloseLast(h.key + [Index(h.index)], SegmentSteps(h.rest).value, part[|part| - 1]);
      }
    }
  }

  lemma {:induction false} SegmentsOpen(parts: seq<string>)
    requires parts != [] && SegmentsSteps(parts).Ok?
    ensures parts[0] != "" && OpensWith(SegmentsSteps(parts).value, parts[0][0])
  {
    SegmentOpens(parts[0]);
    OpenFirst(SegmentSteps(parts[0]).value, SegmentsSteps(parts[1..]).value, parts[0][0]);
  }

  lemma {:induction false} SegmentsClose(parts: seq<string>)
    requires parts != [] && SegmentsSteps(parts).Ok?
    ensures var part := parts[|parts| - 1]; part != "" && ClosesWith(SegmentsSteps(parts).value, part[|part| - 1])
  {
    var part := parts[|parts| - 1];
    SegmentsFront(parts);
    SegmentCloses(part);
    CloseLast(SegmentsSteps(parts[..|parts| - 1]).value, SegmentSteps(part).value, part[|part| - 1]);
  }

  lemma {:induction false} SplitHead(s: string)
    requires s != ""
    ensures Split(s)[0] != "" ==> Split(s)[0][0] == s[0]
  {
    FindIsFirst(s, '.');
    if '.' in s { SplitUnfolds(s); } else { SplitPlain(s); }
  }

  lemma {:induction false} SplitTail(s: string)
    requires s != ""
    ensures var parts := Split(s);
            var last := parts[|parts| - 1]; last != "" ==> last[|last| - 1] == s[|s| - 1]
    decreases |s|
  {
    FindIsFirst(s, '.');
    if '.' !in s {
      SplitPlain(s);
    } else {
      SplitUnfolds(s);
      var first, rest := s[..Find(s, '.')], s[Find(s, '.') + 1..];
      LastOfCons(first, Split(rest));
      if rest == "" {
        SplitPlain(rest);
      } else {
        SplitTail(rest);
      }
    }
  }

  lemma {:induction false} LastOfCons(first: string, rest: seq<string>)
    requires rest != []
    ensures ([first] + rest)[|[first] + rest| - 1] == rest[|rest| - 1]
  {
  }

  lemma {:induction false} SpaceOpens(steps: seq<Step>, c: char)
    requires OpensWith(steps, c)
    ensures SpaceFirst(steps) ==> Text.IsSpace(c)
  {
  }

  lemma {:induction false} SpaceCloses(steps: seq<Step>, c: char)
    requires ClosesWith(steps, c)
    ensures SpaceLast(steps) ==> Text.IsSpace(c)
  {
  }

  // The ends of the text are the ends of its first and last key.
  lemma {:induction false} ParsedEnds(s: string, steps: seq<Step>)
    requires s != "" && SegmentsSteps(Split(s)) == Ok(steps)
    ensures SpaceFirst(steps) ==> Text.IsSpace(s[0])
    ensures SpaceLast(steps) ==> Text.IsSpace(s[|s| - 1])
  {
    var parts := Split(s);
    SplitHead(s);
    SplitTail(s);
    SegmentsOpen(parts);
    SegmentsClose(parts);
    SpaceOpens(steps, s[0]);
    SpaceCloses(steps, s[|s| - 1]);
  }

  // Exactly which paths read back from what is printed: the plain ones without space at
  // the outer edges of the first and the last key.
  lemma {:induction false} PrintParsesBackIff(steps: seq<Step>)
    ensures Parse(Print(steps)) == Ok(steps) <==>
            steps != [] && Plain(steps) && !SpaceFirst(steps) && !SpaceLast(steps)
  {
    var p := Print(steps);
    var t := Text.Trim(p);
    if Parse(p) == Ok(steps) {
      SplitHasNoDots(t);
      SegmentsArePlain(Split(t));
      SegmentsOpen(Split(t));
      Text.TrimIsTight(p);
      ParsedEnds(t, steps);
    }
    if steps != [] && Plain(steps) {
      PrintedSegments(steps);
      PrintEdges(steps);
      if !SpaceFirst(steps) && !SpaceLast(steps) {
        Text.TightIsTrimmed(p);
      }
    }
  }

  // In particular those whose keys are clean.
  lemma {:induction false} PrintThenParse(steps: seq<Step>)
    requires Clean(steps) && steps != []
    ensures Parse(Print(steps)) == Ok(steps)
  {
    assert steps[0] in steps && steps[|steps| - 1] in steps;
    assert forall s | s in steps :: CleanStep(s) && PlainStep(s);
    PrintParsesBackIff(steps);
  }

  lemma {:induction false} PrintIsInjective(p: seq<Step>, q: seq<Step>)
    requires Clean(p) && p != [] && Clean(q) && q != []
    requires Print(p) == Print(q)
    ensures p == q
  {
    PrintThenParse(p);
    PrintThenParse(q);
  }

  // ----- Which paths are refused -----

  // A blank path, an empty segment, an index that is not closed, and one that is no number.
  lemma {:induction false} BlankIff(path: string)
    ensures Parse(path) == Err(Blank) <==> Text.Trim(path) == ""
  {
    NeverBlank(Split(Text.Trim(path)));
  }

  lemma {:induction false} NeverBlank(parts: seq<string>)
    ensures SegmentsSteps(parts) != Err(Blank)
  {
    if parts != [] {
      NeverBlankSegment(parts[0]);
      NeverBlank(parts[1..]);
    }
  }

  lemma {:induction false} NeverBlankSegment(part: string)
    ensures SegmentSteps(part) != Err(Blank) && SegmentSteps(part) != Err(EmptySegment)
    decreases |part|
  {
    if part != "" && HeadOf(part).Indexed? { NeverBlankSegment(HeadOf(part).rest); }
  }

  // The first bracket of a segment: no bracket, one that is not closed, one with something
  // else in it than a number that fits, or an index.
  lemma {:induction false} HeadTells(part: string)
    ensures HeadOf(part).NoBracket? <==> '[' !in part
    ensures HeadOf(part) == Broken(UnclosedIndex) <==>
            exists i | 0 <= i < |part| :: part[i] == '[' && '[' !in part[..i] && ']' !in part[i..]
  {
    FindIsFirst(part, '[');
    var b := Find(part, '[');
    if b >= 0 {
      FindIsFirst(part[b..], ']');
      assert ']' !in part[b..] <==> Find(part[b..], ']') < 0;
    }
  }
}
