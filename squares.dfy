/**
 * Board geometry: the 14x14 coordinate space, the cell index of a
 * coordinate, and the mapping between coordinates and the square names
 * ("a1" .. "n14") that the squares carry as their position.
 */
module Squares {
  import opened Wrappers

  const Width: int := 14
  const Height: int := 14
  const CellCount: int := Width * Height

  /** A board coordinate; `x` selects the letter, `y` the rank minus one. */
  datatype Coord = Coord(x: int, y: int) {
    function Plus(d: Coord): Coord {
      Coord(x + d.x, y + d.y)
    }
  }

  predicate InGrid(c: Coord) {
    0 <= c.x < Width && 0 <= c.y < Height
  }

  /** Cell of the board array that holds the square at `c`. */
  function Index(c: Coord): (i: nat)
    requires InGrid(c)
    ensures i < CellCount
  {
    c.y * Width + c.x
  }

  lemma IndexInjective(a: Coord, b: Coord)
    requires InGrid(a) && InGrid(b)
    ensures Index(a) == Index(b) <==> a == b
  {
    if Index(a) == Index(b) {
      assert a.y == Index(a) / Width && a.x == Index(a) % Width;
      assert b.y == Index(b) / Width && b.x == Index(b) % Width;
    }
  }

  // ---- decimal numerals -------------------------------------------------

  predicate IsDigit(ch: char) {
    '0' <= ch <= '9'
  }

  predicate AllDigits(s: string) {
    forall i :: 0 <= i < |s| ==> IsDigit(s[i])
  }

  function DigitChar(d: int): (ch: char)
    requires 0 <= d < 10
    ensures IsDigit(ch) && ch as int - '0' as int == d
  {
    ('0' as int + d) as char
  }

  /** The decimal numeral of `n`, as JavaScript writes a number into a string. */
  function Decimal(n: nat): (s: string)
    ensures |s| >= 1 && AllDigits(s)
    ensures n > 0 ==> s[0] != '0'
    decreases n
  {
    if n < 10 then [DigitChar(n)] else Decimal(n / 10) + [DigitChar(n % 10)]
  }

  /** Value of a string of decimal digits, most significant first. */
  function DigitsValue(s: string): nat
    requires AllDigits(s)
  {
    if s == [] then 0 else DigitsValue(s[..|s| - 1]) * 10 + (s[|s| - 1] as int - '0' as int)
  }

  /** Length of the run of digits at the front of `s`. */
  function LeadingDigits(s: string): (k: nat)
    ensures k <= |s| && AllDigits(s[..k])
    ensures k < |s| ==> !IsDigit(s[k])
  {
    if s == [] || !IsDigit(s[0]) then 0
    else
      var k := 1 + LeadingDigits(s[1..]);
      assert s[..k] == [s[0]] + s[1..][..k - 1];
      k
  }

  /**
   * `parseInt` on a string with no sign, blanks or radix prefix: the value
   * of the leading digits, or None (JavaScript's NaN) when there are none.
   */
  function ParseInt(s: string): (r: Option<nat>)
    ensures r.Some? <==> s != [] && IsDigit(s[0])
    ensures AllDigits(s) && s != [] ==> r == Some(DigitsValue(s))
  {
    var k := LeadingDigits(s);
    assert AllDigits(s) ==> k == |s| && s[..k] == s;
    if k == 0 then None else Some(DigitsValue(s[..k]))
  }

  lemma {:induction false} DecimalValue(n: nat)
    ensures DigitsValue(Decimal(n)) == n
    decreases n
  {
    if n >= 10 {
      DecimalValue(n / 10);
      var s := Decimal(n);
      assert s[..|s| - 1] == Decimal(n / 10);
    }
  }

  lemma {:induction false} AllDigitsLead(s: string)
    requires AllDigits(s)
    ensures LeadingDigits(s) == |s|
    decreases |s|
  {
    if s != [] {
      AllDigitsLead(s[1..]);
    }
  }

  lemma ParseDecimal(n: nat)
    ensures ParseInt(Decimal(n)) == Some(n)
  {
    var s := Decimal(n);
    AllDigitsLead(s);
    assert s[..|s|] == s;
    DecimalValue(n);
  }

  // ---- square names -----------------------------------------------------

  /**
   * The name of the square at `c` (`getSquareAt`): the letter 'a' + x
   * followed by the decimal numeral of y + 1; None off the 14x14 grid.
   */
  function SquareName(c: Coord): (r: Option<string>)
    ensures r.Some? <==> InGrid(c)
    ensures r.Some? ==> |r.value| >= 2 && 'a' <= r.value[0] <= 'n'
  {
    if !InGrid(c) then None
    else Some([('a' as int + c.x) as char] + Decimal(c.y + 1))
  }

  /**
   * The coordinate named by a square's position (`getPosition`): the first
   * character's offset from 'a', and the number after it minus one. An
   * empty name or one with no number after the letter has no coordinate
   * (JavaScript computes NaN).
   */
  function Position(name: string): (r: Option<Coord>)
    ensures r.Some? <==> |name| >= 2 && IsDigit(name[1])
    ensures r.Some? ==> r.value.x == name[0] as int - 'a' as int && r.value.y >= -1
  {
    if name == [] then None
    else match ParseInt(name[1..])
      case None => None
      case Some(v) => Some(Coord(name[0] as int - 'a' as int, v - 1))
  }

  /** Reading a square's name back gives the coordinate it was made from. */
  lemma NameRoundTrip(c: Coord)
    requires InGrid(c)
    ensures SquareName(c).Some? && Position(SquareName(c).value) == Some(c)
  {
    var name := SquareName(c).value;
    assert name[1..] == Decimal(c.y + 1);
    ParseDecimal(c.y + 1);
  }

  /** Distinct squares have distinct names. */
  lemma NamesDistinct(a: Coord, b: Coord)
    requires InGrid(a) && InGrid(b) && a != b
    ensures SquareName(a) != SquareName(b)
  {
    NameRoundTrip(a);
    NameRoundTrip(b);
  }

  /** Every name of the form letter + numeral for an in-grid square is that square's name. */
  lemma PositionRoundTrip(name: string)
    requires |name| >= 2 && 'a' <= name[0] <= 'n'
    requires AllDigits(name[1..]) && name[1] != '0'
    requires Position(name).Some? && InGrid(Position(name).value)
    ensures SquareName(Position(name).value) == Some(name)
  {
    AllDigitsLead(name[1..]);
    assert name[1..][..|name[1..]|] == name[1..];
    var c := Position(name).value;
    DecimalCanonical(name[1..]);
    assert Decimal(c.y + 1) == name[1..];
    assert name == [name[0]] + name[1..];
  }

  /** A numeral without a leading zero is the decimal numeral of its value. */
  lemma {:induction false} DecimalCanonical(s: string)
    requires |s| >= 1 && AllDigits(s) && s[0] != '0'
    ensures Decimal(DigitsValue(s)) == s
    decreases |s|
  {
    if |s| > 1 {
      var p := s[..|s| - 1];
      DecimalCanonical(p);
      DecimalNonzero(p);
      var d := s[|s| - 1] as int - '0' as int;
      var m := DigitsValue(p);
      var n := DigitsValue(s);
      assert n == m * 10 + d;
      DivModTen(m, d);
      assert Decimal(n) == Decimal(m) + [DigitChar(d)];
      assert s == p + [s[|s| - 1]];
    }
  }

  lemma DivModTen(m: nat, d: nat)
    requires m >= 1 && d < 10
    ensures (m * 10 + d) / 10 == m && (m * 10 + d) % 10 == d && m * 10 + d >= 10
  {
  }

  lemma {:induction false} DecimalNonzero(s: string)
    requires |s| >= 1 && AllDigits(s) && s[0] != '0'
    ensures DigitsValue(s) >= 1
    decreases |s|
  {
    if |s| > 1 {
      DecimalNonzero(s[..|s| - 1]);
    }
  }
}
