/** String helpers the console relies on from JavaScript: `trim`, the decimal
    rendering of `Number.prototype.toString` on integers, and the `/`-separated
    reading of a URL path. */
module Text {
  import opened Wrappers

  // ---------------------------------------------------------------------------
  // trim()

  /** The characters `String.prototype.trim` removes: ECMAScript WhiteSpace and
      LineTerminator code points. */
  predicate IsJsSpace(c: char) {
    || c == ' ' || c == '\t' || c == '\n' || c == '\r'
    || c == '\U{000B}' || c == '\U{000C}' || c == '\U{00A0}' || c == '\U{FEFF}'
    || c == '\U{1680}' || ('\U{2000}' <= c <= '\U{200A}')
    || c == '\U{2028}' || c == '\U{2029}' || c == '\U{202F}' || c == '\U{205F}'
    || c == '\U{3000}'
  }

  predicate AllSpace(s: string) {
    forall i :: 0 <= i < |s| ==> IsJsSpace(s[i])
  }

  /** Drops leading white space: the result is the suffix of `s` that starts at
      the first non-space character. */
  function TrimStart(s: string): (r: string)
    ensures |r| <= |s| && r == s[|s| - |r|..]
    ensures AllSpace(s[..|s| - |r|])
    ensures r == [] || !IsJsSpace(r[0])
  {
    if s != [] && IsJsSpace(s[0]) then TrimStart(s[1..]) else s
  }

  /** Drops trailing white space: the result is the prefix of `s` that ends at
      the last non-space character. */
  function TrimEnd(s: string): (r: string)
    ensures |r| <= |s| && r == s[..|r|]
    ensures AllSpace(s[|r|..])
    ensures r == [] || !IsJsSpace(r[|r| - 1])
  {
    if s != [] && IsJsSpace(s[|s| - 1]) then TrimEnd(s[..|s| - 1]) else s
  }

  function Trim(s: string): string {
    TrimEnd(TrimStart(s))
  }

  /** `!s.trim()` holds exactly when every character of `s` is white space. */
  lemma TrimEmptyIffAllSpace(s: string)
    ensures Trim(s) == [] <==> AllSpace(s)
  {
    var t := TrimStart(s);
    if Trim(s) == [] {
      assert AllSpace(t[0..]);
      assert s == s[..|s| - |t|] + t;
    }
  }

  // ---------------------------------------------------------------------------
  // Number.prototype.toString on integers, and its decimal reading

  predicate IsDigit(c: char) {
    '0' <= c <= '9'
  }

  predicate AllDigits(s: string) {
    forall i :: 0 <= i < |s| ==> IsDigit(s[i])
  }

  function DigitChar(d: nat): (c: char)
    requires d < 10
    ensures IsDigit(c) && c as int - '0' as int == d
  {
    ('0' as int + d) as char
  }

  /** Decimal digits of `n`, most significant first, without leading zeros. */
  function NatToString(n: nat): (r: string)
    ensures |r| >= 1 && AllDigits(r)
    ensures r[0] == '0' ==> n == 0
  {
    if n < 10 then [DigitChar(n)] else NatToString(n / 10) + [DigitChar(n % 10)]
  }

  function IntToString(i: int): (r: string)
    ensures r != []
  {
    if i < 0 then "-" + NatToString(-i) else NatToString(i)
  }

  /** The value of a string of decimal digits, as a server reads a query value. */
  function DigitsValue(s: string): nat
    requires AllDigits(s)
  {
    if s == [] then 0
    else DigitsValue(s[..|s| - 1]) * 10 + (s[|s| - 1] as int - '0' as int)
  }

  function ParseInt(s: string): Option<int> {
    if |s| >= 2 && s[0] == '-' && AllDigits(s[1..]) then Some(-(DigitsValue(s[1..]) as int))
    else if s != [] && AllDigits(s) then Some(DigitsValue(s))
    else None
  }

  lemma {:induction false} NatToStringValue(n: nat)
    ensures DigitsValue(NatToString(n)) == n
  {
    if n >= 10 {
      var r := NatToString(n);
      NatToStringValue(n / 10);
      assert r[..|r| - 1] == NatToString(n / 10);
    }
  }

  /** Reading back the rendering of an integer yields the integer. */
  lemma IntToStringRoundTrip(i: int)
    ensures ParseInt(IntToString(i)) == Some(i)
  {
    if i < 0 {
      var d := NatToString(-i);
      var r := "-" + d;
      assert IntToString(i) == r;
      assert r[0] == '-' && r[1..] == d && AllDigits(d);
      NatToStringValue(-i);
      assert ParseInt(r) == Some(-(DigitsValue(d) as int));
    } else {
      var r := NatToString(i);
      assert IntToString(i) == r;
      assert IsDigit(r[0]);
      NatToStringValue(i);
      assert ParseInt(r) == Some(DigitsValue(r));
    }
  }

  // ---------------------------------------------------------------------------
  // URL paths

  /** `segs` joined into an absolute path: Path(["a", "b"]) is "/a/b". */
  function Path(segs: seq<string>): string {
    if segs == [] then "" else Path(segs[..|segs| - 1]) + "/" + segs[|segs| - 1]
  }

  /** `s` cut at every '/', as a router reads a path. */
  function Segments(s: string): (r: seq<string>)
    ensures |r| >= 1
  {
    if s == [] then [""]
    else
      var rest := Segments(s[1..]);
      if s[0] == '/' then [""] + rest else [[s[0]] + rest[0]] + rest[1..]
  }

  lemma {:induction false} SegmentsOfPlain(s: string)
    requires '/' !in s
    ensures Segments(s) == [s]
  {
    if s != [] {
      SegmentsOfPlain(s[1..]);
      assert [s[0]] + s[1..] == s;
    }
  }

  lemma {:induction false} SegmentsOfJoin(a: string, b: string)
    ensures Segments(a + "/" + b) == Segments(a) + Segments(b)
  {
    var s := a + "/" + b;
    if a == [] {
      assert s[0] == '/' && s[1..] == b;
    } else {
      assert s[0] == a[0] && s[1..] == a[1..] + "/" + b;
      SegmentsOfJoin(a[1..], b);
      var rest, restA := Segments(s[1..]), Segments(a[1..]);
      assert rest == restA + Segments(b);
      if a[0] != '/' {
        assert rest[0] == restA[0];
        assert rest[1..] == restA[1..] + Segments(b);
      }
    }
  }

  /** A path built from segments without '/' is read back into those segments,
      after the empty segment before the leading '/'. */
  lemma {:induction false} PathSegments(segs: seq<string>)
    requires forall i :: 0 <= i < |segs| ==> '/' !in segs[i]
    ensures Segments(Path(segs)) == [""] + segs
  {
    if segs != [] {
      var init, last := segs[..|segs| - 1], segs[|segs| - 1];
      PathSegments(init);
      SegmentsOfJoin(Path(init), last);
      SegmentsOfPlain(last);
      assert segs == init + [last];
    }
  }
}
