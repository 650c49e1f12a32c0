/**
 * The java.lang.String and Integer/Long behaviour the save format relies on:
 * `trim`, `startsWith`, `isBlank`, `split` on a one-character separator, decimal
 * formatting of integers, and `parseInt`/`parseLong`.
 */
module JavaText {

  import opened Wrappers

  const MinInt: int := -0x8000_0000
  const MaxInt: int := 0x7FFF_FFFF
  const MinLong: int := -0x8000_0000_0000_0000
  const MaxLong: int := 0x7FFF_FFFF_FFFF_FFFF

  /** `trim()` drops characters up to U+0020 at both ends. */
  function TrimStart(s: string): string {
    if s != [] && s[0] <= ' ' then TrimStart(s[1..]) else s
  }

  function TrimEnd(s: string): string {
    if s != [] && s[|s| - 1] <= ' ' then TrimEnd(s[..|s| - 1]) else s
  }

  function Trim(s: string): string {
    TrimEnd(TrimStart(s))
  }

  /** Neither end of s is a character `trim()` would drop. */
  predicate Trimmed(s: string) {
    s == [] || (s[0] > ' ' && s[|s| - 1] > ' ')
  }

  /** `trim()` leaves a trimmed string alone. */
  lemma TrimTrimmed(s: string)
    requires Trimmed(s)
    ensures Trim(s) == s
  {
  }

  /** `trim()` keeps a first character above U+0020 in place. */
  lemma TrimKeepsHead(s: string)
    requires s != [] && s[0] > ' '
    ensures Trim(s) != [] && Trim(s)[0] == s[0]
  {
    TrimEndKeepsHead(s);
  }

  lemma {:induction false} TrimEndKeepsHead(s: string)
    requires s != [] && s[0] > ' '
    ensures TrimEnd(s) != [] && TrimEnd(s)[0] == s[0]
    decreases |s|
  {
    if s[|s| - 1] <= ' ' {
      assert |s| > 1;
      TrimEndKeepsHead(s[..|s| - 1]);
    }
  }

  /** `s.startsWith(p)`. */
  predicate StartsWith(s: string, p: string) {
    |p| <= |s| && s[..|p|] == p
  }

  /** A string starts with anything it was built from. */
  lemma StartsWithPrefix(p: string, rest: string)
    ensures StartsWith(p + rest, p)
  {
    assert (p + rest)[..|p|] == p;
  }

  /** `Character.isWhitespace(c)`. */
  predicate IsWhitespace(c: char) {
    || c == ' ' || c == '\t' || c == '\n' || c == '\r'
    || c == 0x0B as char || c == 0x0C as char
    || (0x1C as char <= c <= 0x1F as char)
    || c == 0x1680 as char
    || (0x2000 as char <= c <= 0x2006 as char) || (0x2008 as char <= c <= 0x200A as char)
    || c == 0x2028 as char || c == 0x2029 as char || c == 0x205F as char || c == 0x3000 as char
  }

  /** `s.isBlank()`. */
  predicate IsBlank(s: string) {
    forall i :: 0 <= i < |s| ==> IsWhitespace(s[i])
  }

  /** The pieces of s between occurrences of d, empty pieces included. */
  function Pieces(s: string, d: char): (r: seq<string>)
    ensures |r| >= 1
    decreases |s|
  {
    if s == [] then [""]
    else if s[0] == d then [""] + Pieces(s[1..], d)
    else
      var rest := Pieces(s[1..], d);
      [[s[0]] + rest[0]] + rest[1..]
  }

  function DropTrailingEmpty(ps: seq<string>): seq<string> {
    if ps != [] && ps[|ps| - 1] == "" then DropTrailingEmpty(ps[..|ps| - 1]) else ps
  }

  /**
   * `s.split(d)` for a separator that is not a regex metacharacter: s itself when d does
   * not occur, otherwise the pieces with trailing empty pieces removed.
   */
  function Split(s: string, d: char): seq<string> {
    if d !in s then [s] else DropTrailingEmpty(Pieces(s, d))
  }

  /** The parts, with d between consecutive ones. */
  function Join(parts: seq<string>, d: char): string {
    if parts == [] then ""
    else if |parts| == 1 then parts[0]
    else Join(parts[..|parts| - 1], d) + [d] + parts[|parts| - 1]
  }

  /** Joining one more part appends the separator and that part. */
  lemma JoinSnoc(parts: seq<string>, i: nat, d: char)
    requires i < |parts|
    ensures Join(parts[..i + 1], d) == if i == 0 then parts[0] else Join(parts[..i], d) + [d] + parts[i]
  {
    assert parts[..i + 1][..i] == parts[..i];
  }

  lemma {:induction false} PiecesWithout(s: string, d: char)
    requires d !in s
    ensures Pieces(s, d) == [s]
    decreases |s|
  {
    if s != [] {
      PiecesWithout(s[1..], d);
      assert [s[0]] + s[1..] == s;
    }
  }

  /** Joined text starts with the first part's first character. */
  lemma {:induction false} JoinHead(parts: seq<string>, d: char)
    requires |parts| >= 1 && parts[0] != []
    ensures Join(parts, d) != [] && Join(parts, d)[0] == parts[0][0]
    decreases |parts|
  {
    if |parts| > 1 {
      JoinHead(parts[..|parts| - 1], d);
    }
  }

  /** ... and ends with the last part's last character. */
  lemma JoinEnds(parts: seq<string>, d: char)
    requires |parts| >= 1 && parts[0] != [] && parts[|parts| - 1] != []
    ensures var j := Join(parts, d); j != [] && j[0] == parts[0][0] && j[|j| - 1] == parts[|parts| - 1][|parts[|parts| - 1]| - 1]
  {
    JoinHead(parts, d);
  }

  /** Splitting at a last separator: the pieces of the left part, then the right part whole. */
  lemma {:induction false} PiecesConcat(a: string, b: string, d: char)
    requires d !in b
    ensures Pieces(a + [d] + b, d) == Pieces(a, d) + [b]
    decreases |a|
  {
    if a == [] {
      assert (a + [d] + b)[1..] == b;
      PiecesWithout(b, d);
    } else {
      PiecesConcat(a[1..], b, d);
      assert (a + [d] + b)[1..] == a[1..] + [d] + b;
      assert (a + [d] + b)[0] == a[0];
      if a[0] != d {
        var p := Pieces(a[1..], d);
        var rest := p + [b];
        assert rest[0] == p[0] && rest[1..] == p[1..] + [b];
      }
    }
  }

  lemma {:induction false} PiecesJoin(parts: seq<string>, d: char)
    requires |parts| >= 1
    requires forall i :: 0 <= i < |parts| ==> d !in parts[i]
    ensures Pieces(Join(parts, d), d) == parts
    decreases |parts|
  {
    if |parts| == 1 {
      PiecesWithout(parts[0], d);
    } else {
      var init := parts[..|parts| - 1];
      var last := parts[|parts| - 1];
      PiecesJoin(init, d);
      PiecesConcat(Join(init, d), last, d);
      assert init + [last] == parts;
    }
  }

  /** `split` undoes `Join` when no part holds the separator and the last part is not empty. */
  lemma SplitJoin(parts: seq<string>, d: char)
    requires |parts| >= 1 && parts[|parts| - 1] != []
    requires forall i :: 0 <= i < |parts| ==> d !in parts[i]
    ensures Split(Join(parts, d), d) == parts
  {
    PiecesJoin(parts, d);
    if d !in Join(parts, d) {
      PiecesWithout(Join(parts, d), d);
    }
  }

  function DigitChar(n: int): char
    requires 0 <= n < 10
  {
    ('0' as int + n) as char
  }

  predicate IsDigit(c: char) {
    '0' <= c <= '9'
  }

  /** Decimal digits of a natural number, most significant first. */
  function NatToString(n: nat): (s: string)
    ensures s != [] && forall i :: 0 <= i < |s| ==> IsDigit(s[i])
  {
    if n < 10 then [DigitChar(n)] else NatToString(n / 10) + [DigitChar(n % 10)]
  }

  /** `Integer.toString(n)` / `Long.toString(n)`. */
  function IntToString(n: int): (s: string)
    ensures s != [] && Trimmed(s)
    ensures forall i :: 0 <= i < |s| ==> IsDigit(s[i]) || s[i] == '-'
  {
    if n < 0 then "-" + NatToString(-n) else NatToString(n)
  }

  /** The value of a string of decimal digits. */
  function DigitsValue(s: string): nat
    requires forall i :: 0 <= i < |s| ==> IsDigit(s[i])
  {
    if s == [] then 0
    else
      assert IsDigit(s[|s| - 1]);
      DigitsValue(s[..|s| - 1]) * 10 + (s[|s| - 1] as int - '0' as int)
  }

  /**
   * `Integer.parseInt(s)` / `Long.parseLong(s)` with the range [lo, hi]: an optional sign
   * then at least one decimal digit, and the value in range; otherwise the call throws.
   */
  function ParseInteger(s: string, lo: int, hi: int): (r: Option<int>)
    ensures r.Some? ==> lo <= r.value <= hi
  {
    if s == [] then None
    else
      var signed := s[0] == '-' || s[0] == '+';
      var digits := if signed then s[1..] else s;
      if digits == [] || exists i :: 0 <= i < |digits| && !IsDigit(digits[i]) then None
      else
        var v: int := if s[0] == '-' then 0 - DigitsValue(digits) else DigitsValue(digits);
        if lo <= v <= hi then Some(v) else None
  }

  lemma {:induction false} DigitsOfNat(n: nat)
    ensures DigitsValue(NatToString(n)) == n
  {
    if n >= 10 {
      DigitsOfNat(n / 10);
      var s := NatToString(n);
      assert s[..|s| - 1] == NatToString(n / 10);
    }
  }

  /** Reading back what `toString` wrote gives the number again, for every n in range. */
  lemma ParseIntToString(n: int, lo: int, hi: int)
    requires lo <= n <= hi
    ensures ParseInteger(IntToString(n), lo, hi) == Some(n)
  {
    var s := IntToString(n);
    if n < 0 {
      DigitsOfNat(-n);
      assert s[1..] == NatToString(-n);
    } else {
      DigitsOfNat(n);
    }
  }
}
