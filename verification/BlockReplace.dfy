// scripts/sync-moonshot-docs.ts: replaceBlockLines.
module BlockReplace {
  import opened Wrappers

  const NL := '\n'

  // ----- JavaScript string searches -----

  predicate MatchAt(text: string, p: string, i: nat)
  {
    i + |p| <= |text| && text[i..i + |p|] == p
  }

  // text.indexOf(p, from)
  function IndexOf(text: string, p: string, from: nat): (i: int)
    ensures i >= 0 ==> from <= i && MatchAt(text, p, i)
    decreases |text| - from
  {
    if from + |p| > |text| then -1
    else if MatchAt(text, p, from) then from
    else IndexOf(text, p, from + 1)
  }

  // text.lastIndexOf("\n", i), plus one: where the line that holds i starts.
  function LineStart(text: string, i: int): (j: nat)
    requires i < |text|
    ensures j <= i + 1 || (i < 0 && j == 0)
    decreases i + 1
  {
    if i < 0 then 0 else if text[i] == NL then i + 1 else LineStart(text, i - 1)
  }

  // Just after the first newline at or after i, or the end.
  function LineEnd(text: string, i: nat): (j: nat)
    requires i <= |text|
    ensures i <= j <= |text|
    decreases |text| - i
  {
    if i == |text| then i else if text[i] == NL then i + 1 else LineEnd(text, i + 1)
  }

  // ----- The replacement -----

  function Join(lines: seq<string>): string
  {
    if lines == [] then "" else if |lines| == 1 then lines[0] else lines[0] + [NL] + Join(lines[1..])
  }

  function Indented(indent: string, lines: seq<string>): seq<string>
  {
    seq(|lines|, i requires 0 <= i < |lines| => indent + lines[i])
  }

  function Block(indent: string, start: string, lines: seq<string>, end: string): string
  {
    Join([indent + start] + Indented(indent, lines) + [indent + end])
  }

  datatype Missing = MissingStart | MissingEnd

  // What is found in the text: before, indent and after.
  datatype Parts = Parts(before: string, indent: string, after: string)

  function Find(text: string, start: string, end: string): Result<Parts, Missing>
  {
    var s := IndexOf(text, start, 0);
    if s < 0 then Err(MissingStart)
    else
      var e := IndexOf(text, end, s);
      if e < 0 then Err(MissingEnd)
      else
        // only an empty marker can be found at the end of the text
        var b := if s == |text| then LineStart(text, s - 1) else LineStart(text, s);
        Ok(Parts(text[..b], if b <= s then text[b..s] else "", text[LineEnd(text, e)..]))
  }

  function Tail(after: string): string { if after == "" then "" else [NL] + after }

  function Rebuild(p: Parts, start: string, lines: seq<string>, end: string): string
  {
    p.before + Block(p.indent, start, lines, end) + Tail(p.after)
  }

  function ReplaceBlockLines(text: string, start: string, end: string, lines: seq<string>): Result<string, Missing>
  {
    var parts := Find(text, start, end);
    if parts.Err? then Err(parts.error) else Ok(Rebuild(parts.value, start, lines, end))
  }

  // ----- Facts about the searches -----

  lemma {:induction false} IndexOfFirst(text: string, p: string, from: nat, i: nat)
    requires from <= i && MatchAt(text, p, i) && forall j: nat | from <= j < i :: !MatchAt(text, p, j)
    ensures IndexOf(text, p, from) == i
    decreases i - from
  {
    if from < i { IndexOfFirst(text, p, from + 1, i); }
  }

  lemma {:induction false} NoneBefore(text: string, p: string, from: nat)
    ensures var i := IndexOf(text, p, from);
            forall j: nat | from <= j && (i < 0 || j < i) :: !MatchAt(text, p, j)
    decreases |text| - from
  {
    if from + |p| <= |text| && !MatchAt(text, p, from) { NoneBefore(text, p, from + 1); }
  }

  lemma {:induction false} LineStartShared(text: string, other: string, i: int)
    requires i < |text| && i < |other| && forall j | 0 <= j <= i :: text[j] == other[j]
    ensures LineStart(text, i) == LineStart(other, i)
    decreases i + 1
  {
    if i >= 0 && text[i] != NL { LineStartShared(text, other, i - 1); }
  }

  lemma {:induction false} LineStartIsStart(text: string, i: int)
    requires i < |text|
    ensures var b := LineStart(text, i);
            && (b == 0 || (b <= i + 1 && text[b - 1] == NL)) && forall j | b <= j <= i :: text[j] != NL
    decreases i + 1
  {
    if i >= 0 && text[i] != NL { LineStartIsStart(text, i - 1); }
  }

  // The line ends where the first newline is.
  lemma {:induction false} LineEndAt(text: string, i: nat, j: nat)
    requires i <= j <= |text| && forall k | i <= k < j :: text[k] != NL
    ensures LineEnd(text, i) == if j == |text| then j else LineEnd(text, j)
    decreases j - i
  {
    if i < j { LineEndAt(text, i + 1, j); }
  }

  lemma {:induction false} LineEndBy(text: string, i: nat, j: nat)
    requires i <= j < |text| && text[j] == NL
    ensures LineEnd(text, i) <= j + 1
    decreases j - i
  {
    if i < j { LineEndBy(text, i + 1, j); }
  }

  // ----- The shape of a block -----

  // Every line but the last, each with its newline.
  function Terminated(lines: seq<string>): string
  {
    if lines == [] then "" else lines[0] + [NL] + Terminated(lines[1..])
  }

  lemma {:induction false} JoinLast(lines: seq<string>, last: string)
    ensures Join(lines + [last]) == Terminated(lines) + last
  {
    if lines != [] {
      assert (lines + [last])[1..] == lines[1..] + [last];
      JoinLast(lines[1..], last);
      assert lines[0] + [NL] + (Terminated(lines[1..]) + last) == (lines[0] + [NL] + Terminated(lines[1..])) + last;
    } else {
      assert lines + [last] == [last];
    }
  }

  // The block from its start marker up to its last line.
  function Inner(indent: string, start: string, lines: seq<string>): string
  {
    start + [NL] + Terminated(Indented(indent, lines))
  }

  lemma {:induction false} BlockShape(indent: string, start: string, lines: seq<string>, end: string)
    ensures Block(indent, start, lines, end) == indent + Inner(indent, start, lines) + (indent + end)
  {
    var inner := Indented(indent, lines);
    var head := [indent + start] + inner;
    JoinLast(head, indent + end);
    assert head[1..] == inner;
    assert Terminated(head) == indent + start + [NL] + Terminated(inner);
    assert indent + start + [NL] + Terminated(inner) == indent + (start + [NL] + Terminated(inner));
  }

  lemma {:induction false} TerminatedEnds(lines: seq<string>)
    ensures lines != [] ==> Terminated(lines) != "" && Terminated(lines)[|Terminated(lines)| - 1] == NL
  {
    if |lines| > 1 { TerminatedEnds(lines[1..]); }
  }

  lemma {:induction false} InnerEndsLine(indent: string, start: string, lines: seq<string>)
    ensures var inner := Inner(indent, start, lines); inner != "" && inner[|inner| - 1] == NL
  {
    TerminatedEnds(Indented(indent, lines));
  }

  // ----- What is preserved -----

  predicate OneLine(s: string) { NL !in s }

  lemma {:induction false} FindOf(text: string, start: string, end: string, s: nat, e: nat, b: nat)
    requires s < |text| && IndexOf(text, start, 0) == s && IndexOf(text, end, s) == e && LineStart(text, s) == b <= s
    ensures Find(text, start, end) == Ok(Parts(text[..b], text[b..s], text[LineEnd(text, e)..]))
  {
  }

  // A marker that is not empty and holds no newline does not start a new line.
  lemma {:induction false} MarkerLine(text: string, start: string, s: nat)
    requires OneLine(start) && start != "" && MatchAt(text, start, s)
    ensures s < |text| && LineStart(text, s) <= s
    ensures var b := LineStart(text, s); OneLine(text[b..s]) && (b == 0 || text[b - 1] == NL)
  {
    assert text[s] == text[s..s + |start|][0] == start[0];
    LineStartIsStart(text, s);
  }

  // The text is `before`, then the start marker's line from its indentation on; `before`
  // is empty or ends a line, and the indentation is the rest of that line.
  lemma {:induction false} Decompose(text: string, start: string, end: string)
    requires OneLine(start) && start != "" && Find(text, start, end).Ok?
    ensures var p, s := Find(text, start, end).value, IndexOf(text, start, 0);
            && 0 <= s < |text| && MatchAt(text, start, s)
            && |p.before| == LineStart(text, s) <= s
            && p.before == text[..|p.before|] && p.indent == text[|p.before|..s]
            && OneLine(p.indent) && (p.before == "" || p.before[|p.before| - 1] == NL)
  {
    var s := IndexOf(text, start, 0);
    MarkerLine(text, start, s);
    FindOf(text, start, end, s, IndexOf(text, end, s), LineStart(text, s));
  }

  // The end marker's line, and what follows it.
  lemma {:induction false} AfterIsLines(text: string, start: string, end: string)
    requires Find(text, start, end).Ok?
    ensures var p, e := Find(text, start, end).value, IndexOf(text, end, IndexOf(text, start, 0));
            e >= 0 && p.after == text[LineEnd(text, e)..]
  {
  }

  // The first occurrence of p at or after `from`.
  ghost predicate FirstAt(text: string, p: string, from: nat, i: nat)
  {
    from <= i && MatchAt(text, p, i) && forall j: nat | from <= j < i :: !MatchAt(text, p, j)
  }

  // The line that holds s starts at b: just after the last newline before s.
  ghost predicate LineStartsAt(text: string, s: nat, b: nat)
  {
    b <= s <= |text| && (b == 0 || text[b - 1] == NL) && NL !in text[b..s]
  }

  // The line that holds e ends at a: just after the first newline at or after e, or at the
  // end of the text.
  ghost predicate LineEndsAt(text: string, e: nat, a: nat)
  {
    e <= a <= |text| && ((a == |text| && NL !in text[e..]) || (a > e && text[a - 1] == NL && NL !in text[e..a - 1]))
  }

  lemma {:induction false} LineEndIsEnd(text: string, e: nat)
    requires e <= |text|
    ensures LineEndsAt(text, e, LineEnd(text, e))
    decreases |text| - e
  {
    if e < |text| && text[e] != NL {
      LineEndIsEnd(text, e + 1);
      assert text[e..] == [text[e]] + text[e + 1..];
      var a := LineEnd(text, e);
      if a > e + 1 {
        assert text[e..a - 1] == [text[e]] + text[e + 1..a - 1];
      }
    }
  }

  // The output keeps the text before the line of the first start marker and the text after
  // the line of the first end marker from there on, and between them has the block alone,
  // indented as the start marker was.
  lemma {:induction false} TextAroundIsPreserved(text: string, start: string, end: string, lines: seq<string>)
    returns (s: nat, e: nat, b: nat, a: nat)
    requires OneLine(start) && start != "" && ReplaceBlockLines(text, start, end, lines).Ok?
    ensures FirstAt(text, start, 0, s) && FirstAt(text, end, s, e)
    ensures LineStartsAt(text, s, b) && LineEndsAt(text, e, a)
    ensures ReplaceBlockLines(text, start, end, lines).value ==
            text[..b] + (text[b..s] + start + [NL] + EachOnItsLine(text[b..s], lines) + text[b..s] + end) +
            (if a < |text| then [NL] + text[a..] else "")
  {
    s := IndexOf(text, start, 0);
    e := IndexOf(text, end, s);
    b, a := LineStart(text, s), LineEnd(text, e);
    Decompose(text, start, end);
    AfterIsLines(text, start, end);
    NoneBefore(text, start, 0);
    NoneBefore(text, end, s);
    LineEndIsEnd(text, e);
    BlockLines(text[b..s], start, lines, end);
  }

  // The given lines, each after the same indentation and with a line break.
  function EachOnItsLine(indent: string, lines: seq<string>): string
  {
    if lines == [] then "" else indent + lines[0] + [NL] + EachOnItsLine(indent, lines[1..])
  }

  lemma {:induction false} TerminatedLines(indent: string, lines: seq<string>)
    ensures Terminated(Indented(indent, lines)) == EachOnItsLine(indent, lines)
  {
    if lines != [] {
      TerminatedLines(indent, lines[1..]);
      assert Indented(indent, lines)[1..] == Indented(indent, lines[1..]);
    }
  }

  lemma {:induction false} BlockLines(indent: string, start: string, lines: seq<string>, end: string)
    ensures Block(indent, start, lines, end) ==
            indent + start + [NL] + EachOnItsLine(indent, lines) + indent + end
  {
    BlockShape(indent, start, lines, end);
    TerminatedLines(indent, lines);
    FlattenFive(indent, start + [NL], EachOnItsLine(indent, lines), indent, end);
    assert start + [NL] + EachOnItsLine(indent, lines) == (start + [NL]) + EachOnItsLine(indent, lines);
    assert indent + start + [NL] == indent + (start + [NL]);
  }

  lemma {:induction false} FlattenFive(a: string, b: string, c: string, d: string, e: string)
    ensures a + (b + c) + (d + e) == a + b + c + d + e
  {
  }

  // And it fails exactly when one of the markers is missing.
  lemma {:induction false} FailsIffMissing(text: string, start: string, end: string, lines: seq<string>)
    ensures ReplaceBlockLines(text, start, end, lines).Err? <==>
            || (forall i: nat :: !MatchAt(text, start, i))
            || (exists s: nat :: FirstAt(text, start, 0, s) && forall i: nat | s <= i :: !MatchAt(text, end, i))
  {
    var s := IndexOf(text, start, 0);
    NoneBefore(text, start, 0);
    if s >= 0 {
      NoneBefore(text, end, s);
      assert FirstAt(text, start, 0, s);
      forall t: nat | FirstAt(text, start, 0, t) ensures t == s {
      }
    }
  }

  // ----- Doing it again -----

  // The output, cut where the second search looks.
  lemma {:induction false} OutputShape(p: Parts, start: string, lines: seq<string>, end: string)
    ensures Rebuild(p, start, lines, end) ==
            (p.before + p.indent) + Inner(p.indent, start, lines) + (p.indent + end) + Tail(p.after)
  {
    BlockShape(p.indent, start, lines, end);
    var inner, last := Inner(p.indent, start, lines), p.indent + end;
    assert p.before + (p.indent + inner + last) == (p.before + p.indent) + inner + last;
  }

  lemma {:induction false} SharedPrefixSameStart(text: string, out: string, start: string, n: nat)
    requires n <= |text| && n <= |out| && text[..n] == out[..n]
    requires start != "" && 0 <= IndexOf(text, start, 0) && IndexOf(text, start, 0) + |start| == n
    ensures IndexOf(out, start, 0) == IndexOf(text, start, 0)
    ensures LineStart(out, IndexOf(text, start, 0)) == LineStart(text, IndexOf(text, start, 0))
  {
    var s := IndexOf(text, start, 0);
    NoneBefore(text, start, 0);
    forall j: nat | j <= s ensures MatchAt(out, start, j) == MatchAt(text, start, j) {
      assert out[j..j + |start|] == out[..n][j..j + |start|] == text[..n][j..j + |start|] == text[j..j + |start|];
    }
    IndexOfFirst(out, start, 0, s);
    forall j | 0 <= j <= s ensures text[j] == out[j] { assert text[..n][j] == out[..n][j]; }
    LineStartShared(text, out, s);
  }

  lemma {:induction false} Regroup(a: string, b: string, c: string, d: string, e: string)
    ensures a + (b + c) + d + e == (a + b) + (c + d + e)
  {
  }

  // The output agrees with the text up to the end of the start marker.
  lemma {:induction false} StartsWith(p: Parts, start: string, lines: seq<string>, end: string)
    ensures (p.before + p.indent) + start <= Rebuild(p, start, lines, end)
  {
    OutputShape(p, start, lines, end);
    var more := [NL] + Terminated(Indented(p.indent, lines));
    assert Inner(p.indent, start, lines) == start + more;
    Regroup(p.before + p.indent, start, more, p.indent + end, Tail(p.after));
  }

  lemma {:induction false} SlicesOfPrefix(text: string, out: string, n: nat, i: nat, j: nat)
    requires n <= |text| && n <= |out| && text[..n] == out[..n] && i <= j <= n
    ensures text[i..j] == out[i..j]
  {
    forall k | i <= k < j ensures text[k] == out[k] {
      assert text[..n][k] == out[..n][k];
    }
  }

  // With the same text up to the end of the start marker, the same start line is found.
  lemma {:induction false} SameStartLine(text: string, out: string, start: string, end: string, s: nat, e: nat)
    requires OneLine(start) && start != "" && IndexOf(text, start, 0) == s
    requires s + |start| <= |text| && s + |start| <= |out| && text[..s + |start|] == out[..s + |start|]
    requires IndexOf(out, end, s) == e
    ensures var b := LineStart(text, s);
            b <= s && Find(out, start, end) == Ok(Parts(text[..b], text[b..s], out[LineEnd(out, e)..]))
  {
    var b, n := LineStart(text, s), s + |start|;
    MarkerLine(text, start, s);
    SharedPrefixSameStart(text, out, start, n);
    FindOf(out, start, end, s, e, b);
    SlicesOfPrefix(text, out, n, 0, b);
    SlicesOfPrefix(text, out, n, b, s);
  }

  lemma {:induction false} UpToMatch(text: string, start: string, s: nat, front: string)
    requires MatchAt(text, start, s) && text[..s] == front
    ensures text[..s + |start|] == front + start
  {
  }

  // text and out agree up to the end of the start marker at s, on the line that p gives.
  ghost predicate SameFront(text: string, out: string, start: string, p: Parts, s: nat)
  {
    && s < |text| && MatchAt(text, start, s) && IndexOf(text, start, 0) == s && s + |start| <= |out|
    && text[..s + |start|] == out[..s + |start|]
    && s == |p.before| + |p.indent| && |p.before| == LineStart(text, s)
    && text[..|p.before|] == p.before && text[|p.before|..s] == p.indent
  }

  lemma {:induction false} FrontAgain(text: string, start: string, end: string, p: Parts, out: string)
    requires OneLine(start) && start != "" && Find(text, start, end) == Ok(p)
    requires (p.before + p.indent) + start <= out
    ensures OneLine(p.indent) && SameFront(text, out, start, p, |p.before| + |p.indent|)
  {
    Decompose(text, start, end);
    FrontOf(text, start, p, out, IndexOf(text, start, 0));
  }

  lemma {:induction false} FrontOf(text: string, start: string, p: Parts, out: string, s: nat)
    requires s < |text| && MatchAt(text, start, s) && IndexOf(text, start, 0) == s
    requires |p.before| == LineStart(text, s) <= s && p.before == text[..|p.before|] && p.indent == text[|p.before|..s]
    requires (p.before + p.indent) + start <= out
    ensures s == |p.before| + |p.indent| && SameFront(text, out, start, p, s)
  {
    assert text[..s] == p.before + p.indent;
    UpToMatch(text, start, s, p.before + p.indent);
    assert out[..s + |start|] == (p.before + p.indent) + start;
  }

  // What the second run reads from its start marker at s on: `inner`, which ends a line at
  // l, then the last block line, then the tail.
  ghost predicate Shape(out: string, s: nat, l: nat, inner: string, indent: string, end: string, after: string)
  {
    s < l <= |out| && out[s..l] == inner && out[l - 1] == NL && out[l..] == indent + end + Tail(after)
  }

  lemma {:induction false} CutInThree(a: string, b: string, c: string)
    ensures var out := a + b + c;
            |a| + |b| <= |out| && out[|a|..|a| + |b|] == b && out[|a| + |b|..] == c
  {
  }

  lemma {:induction false} OutputHasShape(p: Parts, start: string, lines: seq<string>, end: string)
    ensures var out, inner, s := Rebuild(p, start, lines, end), Inner(p.indent, start, lines), |p.before| + |p.indent|;
            Shape(out, s, s + |inner|, inner, p.indent, end, p.after)
  {
    OutputShape(p, start, lines, end);
    InnerEndsLine(p.indent, start, lines);
    var front, inner, last, tail :=
      p.before + p.indent, Inner(p.indent, start, lines), p.indent + end, Tail(p.after);
    assert front + inner + last + tail == front + inner + (last + tail);
    CutInThree(front, inner, last + tail);
  }

  // From the last block line, what follows the end marker is what followed it before.
  lemma {:induction false} EndOnLastLine(out: string, s: nat, l: nat, inner: string, indent: string, end: string,
                                         after: string, e: nat)
    requires Shape(out, s, l, inner, indent, end, after) && OneLine(indent) && OneLine(end)
    requires l <= e <= l + |indent|
    ensures e <= |out| && out[LineEnd(out, e)..] == after
  {
    var m := l + |indent + end|;
    forall k | l <= k < m ensures out[k] != NL {
      assert out[k] == out[l..][k - l] == (indent + end)[k - l];
    }
    LineEndAt(out, e, m);
    assert out[m..] == out[l..][m - l..] == Tail(after);
    if after != "" {
      assert out[m] == out[m..][0] == NL;
      assert out[m + 1..] == out[m..][1..] == after;
    }
  }

  // From an earlier line, more follows.
  lemma {:induction false} EndOnEarlierLine(out: string, s: nat, l: nat, inner: string, indent: string, end: string,
                                            after: string, e: nat)
    requires Shape(out, s, l, inner, indent, end, after) && end != "" && s <= e < l
    ensures |out[LineEnd(out, e)..]| > |after|
  {
    LineEndBy(out, e, l - 1);
    assert |out| - l == |indent| + |end| + |Tail(after)|;
  }

  // A match inside a stretch is a match there in the whole.
  lemma {:induction false} MatchInStretch(out: string, end: string, s: nat, l: nat, i: nat)
    requires s <= l <= |out| && s + i + |end| <= l
    ensures MatchAt(out[s..l], end, i) <==> MatchAt(out, end, s + i)
  {
    SubSlice(out, s, l, i, i + |end|);
  }

  lemma {:induction false} SubSlice(out: string, s: nat, l: nat, i: nat, j: nat)
    requires s <= l <= |out| && i <= j <= l - s
    ensures out[s..l][i..j] == out[s + i..s + j]
  {
    var a, b := out[s..l][i..j], out[s + i..s + j];
    assert |a| == |b|;
    forall k | 0 <= k < |a| ensures a[k] == b[k] {
      assert a[k] == out[s..l][i + k] == out[s + i + k];
    }
  }

  // Read off the end of the output: indentation, marker, rest.
  lemma {:induction false} MatchInSuffix(out: string, l: nat, indent: string, end: string, tail: string)
    requires l <= |out| && out[l..] == indent + end + tail
    ensures MatchAt(out, end, l + |indent|)
  {
    SubSlice(out, l, |out|, |indent|, |indent| + |end|);
    assert out[l..|out|] == out[l..];
    assert (indent + end + tail)[|indent|..|indent| + |end|] == end;
  }

  // A line-terminated stretch out[s..l] followed by a match at m: the first match from s
  // on comes before l exactly when the stretch holds one.
  lemma {:induction false} FirstMatch(out: string, end: string, s: nat, l: nat, m: nat)
    requires OneLine(end) && end != "" && s < l <= m && l <= |out| && out[l - 1] == NL && MatchAt(out, end, m)
    ensures var e := IndexOf(out, end, s);
            0 <= e <= m && (e < l <==> IndexOf(out[s..l], end, 0) >= 0)
  {
    var e, i := IndexOf(out, end, s), IndexOf(out[s..l], end, 0);
    NoneBefore(out, end, s);
    NoneBefore(out[s..l], end, 0);
    if e < l {
      NewlineStops(out, end, e, l - 1);
      MatchInStretch(out, end, s, l, e - s);
    }
    if i >= 0 {
      MatchInStretch(out, end, s, l, i);
    }
  }

  // The end marker is found before the last block line exactly when it occurs in what is
  // rendered above that line.
  lemma {:induction false} WhereEndIs(out: string, s: nat, l: nat, inner: string, indent: string, end: string,
                                      after: string)
    requires Shape(out, s, l, inner, indent, end, after) && OneLine(end) && end != ""
    ensures var e := IndexOf(out, end, s);
            s <= e <= l + |indent| && (e < l <==> IndexOf(inner, end, 0) >= 0)
  {
    MatchInSuffix(out, l, indent, end, Tail(after));
    FirstMatch(out, end, s, l, l + |indent|);
  }

  // Only then does more text follow it than before.
  lemma {:induction false} SecondEnd(out: string, s: nat, l: nat, inner: string, indent: string, end: string,
                                     after: string)
    requires Shape(out, s, l, inner, indent, end, after) && OneLine(indent) && OneLine(end) && end != ""
    ensures var e := IndexOf(out, end, s);
            && 0 <= e <= |out|
            && (out[LineEnd(out, e)..] == after <==> IndexOf(inner, end, 0) < 0)
            && |out[LineEnd(out, e)..]| >= |after|
  {
    WhereEndIs(out, s, l, inner, indent, end, after);
    var e := IndexOf(out, end, s);
    if e < l {
      EndOnEarlierLine(out, s, l, inner, indent, end, after, e);
    } else {
      EndOnLastLine(out, s, l, inner, indent, end, after, e);
    }
  }

  // A one-line match that starts before a newline ends before it.
  lemma {:induction false} NewlineStops(text: string, p: string, i: nat, j: nat)
    requires OneLine(p) && MatchAt(text, p, i) && i <= j < |text| && text[j] == NL
    ensures i + |p| <= j
  {
    forall k | i <= k < i + |p| ensures text[k] != NL {
      assert text[k] == text[i..i + |p|][k - i];
    }
  }

  // ----- The main result -----

  // The output tells what came after.
  lemma {:induction false} AfterShows(p: Parts, after: string, start: string, lines: seq<string>, end: string)
    ensures Rebuild(p.(after := after), start, lines, end) == Rebuild(p, start, lines, end) <==> after == p.after
  {
    var front := p.before + Block(p.indent, start, lines, end);
    if front + Tail(after) == front + Tail(p.after) { TailShows(front, after, p.after); }
  }

  lemma {:induction false} TailShows(front: string, a: string, b: string)
    requires front + Tail(a) == front + Tail(b)
    ensures a == b
  {
    assert (front + Tail(a))[|front|..] == Tail(a);
    assert (front + Tail(b))[|front|..] == Tail(b);
    assert a != "" ==> Tail(a)[1..] == a;
    assert b != "" ==> Tail(b)[1..] == b;
  }

  // Running the replacement again changes nothing exactly when the end marker does not
  // occur in the rendered block above its last line.
  lemma {:induction false} ReplaceIsIdempotentIff(text: string, start: string, end: string, lines: seq<string>)
    requires OneLine(start) && start != "" && OneLine(end) && end != ""
    ensures var found, r := Find(text, start, end), ReplaceBlockLines(text, start, end, lines);
            found.Ok? ==>
              (r.Ok? && ReplaceBlockLines(r.value, start, end, lines) == r <==>
               IndexOf(Inner(found.value.indent, start, lines), end, 0) < 0)
  {
    if Find(text, start, end).Err? {
      return;
    }
    var p := Find(text, start, end).value;
    SecondRun(text, start, end, lines, p, Rebuild(p, start, lines, end));
  }

  lemma {:induction false} SecondFind(text: string, start: string, end: string, p: Parts, out: string, inner: string,
                                      s: nat)
    returns (after: string)
    requires OneLine(start) && start != "" && OneLine(end) && end != "" && OneLine(p.indent)
    requires SameFront(text, out, start, p, s) && Shape(out, s, s + |inner|, inner, p.indent, end, p.after)
    ensures Find(out, start, end) == Ok(p.(after := after))
    ensures after == p.after <==> IndexOf(inner, end, 0) < 0
  {
    SecondEnd(out, s, s + |inner|, inner, p.indent, end, p.after);
    var e := IndexOf(out, end, s);
    after := out[LineEnd(out, e)..];
    SameStartLine(text, out, start, end, s, e);
  }

  lemma {:induction false} OutputHasFront(text: string, start: string, end: string, lines: seq<string>, p: Parts,
                                          out: string)
    requires OneLine(start) && start != "" && Find(text, start, end) == Ok(p) && out == Rebuild(p, start, lines, end)
    ensures OneLine(p.indent) && SameFront(text, out, start, p, |p.before| + |p.indent|)
  {
    StartsWith(p, start, lines, end);
    FrontAgain(text, start, end, p, out);
  }

  // What the second run finds in the output of the first.
  lemma {:induction false} FindInOutput(text: string, start: string, end: string, lines: seq<string>, p: Parts,
                                        out: string, s: nat)
    returns (after: string)
    requires OneLine(start) && start != "" && OneLine(end) && end != "" && OneLine(p.indent)
    requires s == |p.before| + |p.indent| && SameFront(text, out, start, p, s) && out == Rebuild(p, start, lines, end)
    ensures Find(out, start, end) == Ok(p.(after := after))
    ensures after == p.after <==> IndexOf(Inner(p.indent, start, lines), end, 0) < 0
  {
    OutputHasShape(p, start, lines, end);
    after := SecondFind(text, start, end, p, out, Inner(p.indent, start, lines), s);
  }

  lemma {:induction false} SecondRun(text: string, start: string, end: string, lines: seq<string>, p: Parts,
                                     out: string)
    requires OneLine(start) && start != "" && OneLine(end) && end != ""
    requires Find(text, start, end) == Ok(p) && out == Rebuild(p, start, lines, end)
    ensures ReplaceBlockLines(out, start, end, lines) == Ok(out) <==> IndexOf(Inner(p.indent, start, lines), end, 0) < 0
  {
    OutputHasFront(text, start, end, lines, p, out);
    var after := FindInOutput(text, start, end, lines, p, out, |p.before| + |p.indent|);
    AfterShows(p, after, start, lines, end);
  }

  // ----- An empty start marker -----

  lemma {:induction false} EmptyStartFound(text: string, end: string)
    requires IndexOf(text, end, 0) >= 0
    ensures var e := IndexOf(text, end, 0);
            var before := if text != "" && text[0] == NL then [NL] else "";
            Find(text, "", end) == Ok(Parts(before, "", text[LineEnd(text, e)..]))
  {
    assert MatchAt(text, "", 0);
    if text != "" && text[0] == NL {
      assert text[..1] == [NL];
    } else {
      assert text[..0] == "" && text[0..0] == "";
    }
  }

  // The block of an empty start marker opens with a line break.
  lemma {:induction false} EmptyStartOpens(p: Parts, lines: seq<string>, end: string)
    requires p.indent == "" && (p.before == "" || p.before == [NL])
    ensures var out := Rebuild(p, "", lines, end); out != "" && out[0] == NL
  {
    OutputShape(p, "", lines, end);
    var out := Rebuild(p, "", lines, end);
    assert out[0] == (p.before + p.indent + Inner(p.indent, "", lines))[0];
  }

  // The search may start at 0 instead of after a leading newline.
  lemma {:induction false} SkipNewline(out: string, end: string)
    requires out != "" && out[0] == NL && OneLine(end) && end != ""
    ensures IndexOf(out, end, 0) == IndexOf(out, end, 1)
  {
    assert |end| <= |out| ==> out[0] == out[0..|end|][0];
  }

  // With an empty start marker it is idempotent only if the text opens with a line break;
  // and then exactly as with any other marker.
  lemma {:induction false} EmptyStartIsIdempotentIff(text: string, end: string, lines: seq<string>)
    requires OneLine(end) && end != ""
    ensures var r := ReplaceBlockLines(text, "", end, lines);
            r.Ok? ==>
              (ReplaceBlockLines(r.value, "", end, lines) == r <==>
               text != "" && text[0] == NL && IndexOf(Inner("", "", lines), end, 0) < 0)
  {
    assert MatchAt(text, "", 0);
    if Find(text, "", end).Err? {
      return;
    }
    EmptyStartFound(text, end);
    var p := Find(text, "", end).value;
    var out := Rebuild(p, "", lines, end);
    EmptyStartOpens(p, lines, end);
    OutputHasShape(p, "", lines, end);
    var inner := Inner("", "", lines);
    SecondEnd(out, |p.before|, |p.before| + |inner|, inner, "", end, p.after);
    SkipNewline(out, end);
    var e := IndexOf(out, end, |p.before|);
    assert e == IndexOf(out, end, 0);
    EmptyStartFound(out, end);
    var after := out[LineEnd(out, e)..];
    if p.before == [NL] {
      AfterShows(p, after, "", lines, end);
    } else {
      LongerFront(p, Parts([NL], "", after), lines, end);
    }
  }

  lemma {:induction false} LongerFront(p: Parts, q: Parts, lines: seq<string>, end: string)
    requires p.indent == q.indent && |q.before| > |p.before| && |q.after| >= |p.after|
    ensures Rebuild(q, "", lines, end) != Rebuild(p, "", lines, end)
  {
    var block := Block(p.indent, "", lines, end);
    assert |Rebuild(q, "", lines, end)| == |q.before| + |block| + |Tail(q.after)|;
    assert |Rebuild(p, "", lines, end)| == |p.before| + |block| + |Tail(p.after)|;
  }

  // ----- Inputs on which running it again matters -----

  // The end marker as a line of the block.
  lemma {:induction false} MarkerInBlockRepeats()
    ensures var r := ReplaceBlockLines("S\nE", "S", "E", ["E"]);
            r.Ok? && ReplaceBlockLines(r.value, "S", "E", ["E"]) != r
  {
    var text, lines := "S\nE", ["E"];
    IndexOfFirst(text, "S", 0, 0);
    assert MatchAt(text, "E", 2) && text[1..2][0] == text[1] != "E"[0] && text[0..1][0] == text[0] != "E"[0];
    IndexOfFirst(text, "E", 0, 2);
    FindOf(text, "S", "E", 0, 2, 0);
    assert "" + lines[0] == lines[0] && Indented("", lines) == lines;
    assert Terminated(lines) == "E" + [NL] + Terminated(lines[1..]);
    var inner := Inner("", "S", lines);
    assert inner == "S" + [NL] + ("E" + [NL] + "");
    if IndexOf(inner, "E", 0) < 0 {
      NoneBefore(inner, "E", 0);
      assert MatchAt(inner, "E", 2);
    }
    ReplaceIsIdempotentIff(text, "S", "E", lines);
  }

  // An empty start marker on a text that opens with no line break.
  lemma {:induction false} EmptyStartRepeats()
    ensures var r := ReplaceBlockLines("E", "", "E", []);
            r.Ok? && ReplaceBlockLines(r.value, "", "E", []) != r
  {
    IndexOfFirst("E", "E", 0, 0);
    EmptyStartFound("E", "E");
    EmptyStartIsIdempotentIff("E", "E", []);
  }
}
