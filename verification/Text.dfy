// The string library calls that the modelled code makes.
module Text {
  import opened Wrappers

  // unicode.IsSpace
  predicate IsSpace(c: char)
  {
    var n := c as int;
    9 <= n <= 13 || n == 32 || n == 0x85 || n == 0xA0 || n == 0x1680 || 0x2000 <= n <= 0x200A ||
    n == 0x2028 || n == 0x2029 || n == 0x202F || n == 0x205F || n == 0x3000
  }

  function TrimLeft(s: string): (r: string)
    ensures r != [] ==> !IsSpace(r[0])
    ensures |r| <= |s|
  {
    if s != [] && IsSpace(s[0]) then TrimLeft(s[1..]) else s
  }

  function TrimRight(s: string): (r: string)
    ensures r != [] ==> !IsSpace(r[|r| - 1])
    ensures r <= s
  {
    if s != [] && IsSpace(s[|s| - 1]) then TrimRight(s[..|s| - 1]) else s
  }

  // strings.TrimSpace
  function Trim(s: string): string { TrimRight(TrimLeft(s)) }

  predicate NoEdgeSpace(s: string)
  {
    s != [] ==> !IsSpace(s[0]) && !IsSpace(s[|s| - 1])
  }

  lemma TightIsTrimmed(s: string)
    requires NoEdgeSpace(s)
    ensures Trim(s) == s
  {
  }

  lemma {:induction false} TrimIsTight(s: string)
    ensures NoEdgeSpace(Trim(s))
  {
    var t := Trim(s);
    if t != [] { assert t[0] == TrimLeft(s)[0]; }
  }

  lemma {:induction false} BlankIsSpace(s: string)
    requires Trim(s) == ""
    ensures forall c | c in s :: IsSpace(c)
  {
    TrimRightEmpty(TrimLeft(s));
    TrimLeftEmpty(s);
  }

  lemma {:induction false} TrimRightEmpty(s: string)
    requires TrimRight(s) == ""
    ensures forall c | c in s :: IsSpace(c)
  {
    if s != [] {
      TrimRightEmpty(s[..|s| - 1]);
      assert s == s[..|s| - 1] + [s[|s| - 1]];
    }
  }

  lemma {:induction false} TrimLeftEmpty(s: string)
    requires forall c | c in TrimLeft(s) :: IsSpace(c)
    ensures forall c | c in s :: IsSpace(c)
  {
    if s != [] && IsSpace(s[0]) {
      TrimLeftEmpty(s[1..]);
      assert s == [s[0]] + s[1..];
    }
  }

  // ----- Decimal numbers: fmt's %d and strconv.Atoi -----

  function Digit(d: nat): char
    requires d < 10
  {
    '0' + d as char
  }

  predicate IsDigit(c: char) { '0' <= c <= '9' }

  function DigitsOf(n: nat): (s: string)
    ensures s != []
  {
    if n < 10 then [Digit(n)] else DigitsOf(n / 10) + [Digit(n % 10)]
  }

  function Decimal(n: int): string
  {
    if n < 0 then "-" + DigitsOf(-n) else DigitsOf(n)
  }

  // The number that a sequence of digits stands for.
  function ValueOf(s: string): Option<nat>
  {
    if s == [] then Some(0)
    else
      var c, front := s[|s| - 1], ValueOf(s[..|s| - 1]);
      if front.Some? && IsDigit(c) then Some(10 * front.value + (c as int - '0' as int)) else None
  }

  const MAX_INT: int := 0x7FFF_FFFF_FFFF_FFFF

  // strconv.Atoi on a 64-bit platform: an optional sign, digits, within range.
  function Atoi(s: string): Option<int>
  {
    var signed := s != [] && (s[0] == '-' || s[0] == '+');
    var digits := if signed then s[1..] else s;
    var value := ValueOf(digits);
    if digits == [] || value.None? then None
    else
      var n: int := if signed && s[0] == '-' then 0 - value.value else value.value;
      if -MAX_INT - 1 <= n <= MAX_INT then Some(n) else None
  }

  lemma {:induction false} ValueOfDigits(n: nat)
    ensures ValueOf(DigitsOf(n)) == Some(n)
    ensures forall c | c in DigitsOf(n) :: IsDigit(c)
  {
    var s := DigitsOf(n);
    if n >= 10 {
      ValueOfDigits(n / 10);
      assert s[..|s| - 1] == DigitsOf(n / 10);
    }
  }

  lemma AtoiReadsDecimal(n: nat)
    requires n <= MAX_INT
    ensures Atoi(Decimal(n)) == Some(n)
  {
    ValueOfDigits(n);
    assert IsDigit(DigitsOf(n)[0]);
  }

  lemma DecimalIsInjective(m: nat, n: nat)
    requires Decimal(m) == Decimal(n)
    ensures m == n
  {
    ValueOfDigits(m);
    ValueOfDigits(n);
  }

  // A sign is understood, and a number out of range is not one.
  lemma {:induction false} AtoiReadsSigns(n: nat)
    ensures Atoi("+" + DigitsOf(n)) == if n <= MAX_INT then Some(n) else None
    ensures var r := Atoi("-" + DigitsOf(n)); if n <= MAX_INT + 1 then r.Some? && r.value == 0 - n else r.None?
    ensures n > MAX_INT ==> Atoi(DigitsOf(n)) == None
  {
    ValueOfDigits(n);
    assert ("+" + DigitsOf(n))[1..] == DigitsOf(n) && ("-" + DigitsOf(n))[1..] == DigitsOf(n);
    assert IsDigit(DigitsOf(n)[0]);
  }
}
