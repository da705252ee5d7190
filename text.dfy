/** String primitives the server and the client rely on: Go's `strconv.Atoi` and
    `strconv.ParseUint`, decimal formatting with zero padding (Go's time layouts and MySQL's
    `DATE_FORMAT`), the byte length Hertz's validator measures, `strings.TrimPrefix`, SQL `LIKE`
    with its two wildcards, and JavaScript's `String.prototype.trim`. */
module Text {
  import opened Wrappers

  const MaxInt64: int := 0x7FFF_FFFF_FFFF_FFFF
  const MinInt64: int := -0x8000_0000_0000_0000
  const MaxUint64: int := 0xFFFF_FFFF_FFFF_FFFF

  // ---------------------------------------------------------------- decimal digits

  predicate IsDigit(c: char) { '0' <= c <= '9' }

  predicate AllDigits(s: string) { forall i | 0 <= i < |s| :: IsDigit(s[i]) }

  function Digit(d: nat): (c: char)
    requires d < 10
    ensures IsDigit(c) && (c as int) - ('0' as int) == d
  {
    (('0' as int) + d) as char
  }

  /** The value of a string of decimal digits, most significant first. */
  function DigitsValue(s: string): nat
    requires AllDigits(s)
  {
    if s == [] then 0
    else
      assert AllDigits(s[..|s| - 1]) && IsDigit(s[|s| - 1]);
      10 * DigitsValue(s[..|s| - 1]) + ((s[|s| - 1] as int) - ('0' as int))
  }

  /** Shortest decimal form of a natural number (Go's `strconv.Itoa` for n >= 0). */
  function NatToString(n: nat): (s: string)
    ensures s != [] && AllDigits(s)
  {
    if n < 10 then [Digit(n)] else NatToString(n / 10) + [Digit(n % 10)]
  }

  function IntToString(i: int): string {
    if i < 0 then "-" + NatToString(-i) else NatToString(i)
  }

  function Pow10(w: nat): (p: nat)
    ensures p >= 1
  {
    if w == 0 then 1 else 10 * Pow10(w - 1)
  }

  function Zeros(k: nat): (z: string)
    ensures |z| == k && AllDigits(z)
  {
    seq(k, _ => '0')
  }

  /** `n` in decimal, left-padded with zeros to at least `w` digits, as Go's "2006", "01", "02"
      layout elements and MySQL's `%Y`, `%m` write it. */
  function Pad(n: nat, w: nat): string {
    var d := NatToString(n);
    if |d| >= w then d else Zeros(w - |d|) + d
  }

  lemma {:induction false} NatToStringValue(n: nat)
    ensures DigitsValue(NatToString(n)) == n
  {
    if n >= 10 {
      NatToStringValue(n / 10);
      var s := NatToString(n);
      assert s[..|s| - 1] == NatToString(n / 10);
    }
  }

  /** Different numbers are spelled differently. */
  lemma NatToStringInjective()
    ensures forall a: nat, b: nat {:trigger NatToString(a), NatToString(b)} :: NatToString(a) == NatToString(b) ==> a == b
  {
    forall a: nat, b: nat | NatToString(a) == NatToString(b)
      ensures a == b
    {
      NatToStringValue(a);
      NatToStringValue(b);
    }
  }

  lemma {:induction false} NatToStringLength(n: nat, w: nat)
    requires w >= 1 && n < Pow10(w)
    ensures |NatToString(n)| <= w
  {
    if n >= 10 {
      assert w >= 2;
      assert n / 10 < Pow10(w - 1);
      NatToStringLength(n / 10, w - 1);
    }
  }

  lemma {:induction false} ZerosValue(k: nat)
    ensures DigitsValue(Zeros(k)) == 0
  {
    if k > 0 {
      assert Zeros(k)[..k - 1] == Zeros(k - 1);
      ZerosValue(k - 1);
    }
  }

  lemma {:induction false} LeadingZerosValue(k: nat, s: string)
    requires AllDigits(s)
    ensures AllDigits(Zeros(k) + s) && DigitsValue(Zeros(k) + s) == DigitsValue(s)
  {
    if s == [] {
      assert Zeros(k) + s == Zeros(k);
      ZerosValue(k);
    } else {
      var t := Zeros(k) + s;
      assert t[..|t| - 1] == Zeros(k) + s[..|s| - 1];
      assert t[|t| - 1] == s[|s| - 1];
      LeadingZerosValue(k, s[..|s| - 1]);
    }
  }

  /** A number below 10^w pads to exactly w digits that read back as the number. */
  lemma PadExact(n: nat, w: nat)
    requires w >= 1 && n < Pow10(w)
    ensures |Pad(n, w)| == w && AllDigits(Pad(n, w)) && DigitsValue(Pad(n, w)) == n
  {
    NatToStringLength(n, w);
    NatToStringValue(n);
    var d := NatToString(n);
    if |d| < w {
      LeadingZerosValue(w - |d|, d);
    }
  }

  lemma PadInjective(a: nat, b: nat, w: nat)
    requires w >= 1 && a < Pow10(w) && b < Pow10(w)
    requires Pad(a, w) == Pad(b, w)
    ensures a == b
  {
    PadExact(a, w);
    PadExact(b, w);
  }

  // ---------------------------------------------------------------- Go integer parsing

  /** `strconv.Atoi` on a 64-bit platform: an optional sign, then one or more decimal digits,
      and a value that fits an int64. Anything else is an error (here None). */
  function Atoi(s: string): (r: Option<int>)
    ensures r.Some? ==> MinInt64 <= r.value <= MaxInt64
    ensures s == "" ==> r == None
  {
    if s == "" then None
    else
      var body := if s[0] == '+' || s[0] == '-' then s[1..] else s;
      if body == [] || !AllDigits(body) then None
      else
        var mag: int := DigitsValue(body);
        var v := if s[0] == '-' then 0 - mag else mag;
        if MinInt64 <= v <= MaxInt64 then Some(v) else None
  }

  /** `strconv.ParseUint(s, 10, 64)`: one or more decimal digits (no sign) whose value fits a
      uint64. */
  function ParseUint(s: string): (r: Option<nat>)
    ensures r.Some? ==> r.value <= MaxUint64
    ensures r.Some? ==> s != [] && AllDigits(s)
  {
    if s == [] || !AllDigits(s) then None
    else if DigitsValue(s) <= MaxUint64 then Some(DigitsValue(s))
    else None
  }

  /** Atoi reads back every int64 written in decimal. */
  lemma AtoiRoundTrip(i: int)
    requires MinInt64 <= i <= MaxInt64
    ensures Atoi(IntToString(i)) == Some(i)
  {
    if i < 0 {
      var s := IntToString(i);
      assert s[1..] == NatToString(-i);
      NatToStringValue(-i);
    } else {
      var s := NatToString(i);
      assert s[0] != '+' && s[0] != '-' by { assert IsDigit(s[0]); }
      NatToStringValue(i);
    }
  }

  lemma ParseUintRoundTrip(n: nat)
    requires n <= MaxUint64
    ensures ParseUint(NatToString(n)) == Some(n)
  {
    NatToStringValue(n);
  }

  // ---------------------------------------------------------------- byte length

  function CharUtf8Len(c: char): nat {
    if c as int < 0x80 then 1
    else if c as int < 0x800 then 2
    else if c as int < 0x1_0000 then 3
    else 4
  }

  /** The number of bytes of the UTF-8 encoding, which is what Go's `len` measures on a string. */
  function Utf8Len(s: string): (n: nat)
    ensures |s| <= n <= 4 * |s|
  {
    if s == [] then 0 else Utf8Len(s[..|s| - 1]) + CharUtf8Len(s[|s| - 1])
  }

  // ---------------------------------------------------------------- prefixes

  /** Go's `strings.TrimPrefix`: drops one leading copy of `prefix` if there is one. */
  function TrimPrefix(s: string, prefix: string): (r: string)
    ensures prefix <= s ==> prefix + r == s
    ensures !(prefix <= s) ==> r == s
  {
    if prefix <= s then s[|prefix|..] else s
  }

  // ---------------------------------------------------------------- case and substrings

  function LowerChar(c: char): char {
    if 'A' <= c <= 'Z' then ((c as int) + 32) as char else c
  }

  /** SQL `LOWER`, on the ASCII letters. */
  function Lower(s: string): (r: string)
    ensures |r| == |s|
  {
    seq(|s|, i requires 0 <= i < |s| => LowerChar(s[i]))
  }

  predicate Contains(s: string, sub: string) {
    exists i | 0 <= i <= |s| :: sub <= s[i..]
  }

  /** SQL `s LIKE p` under a binary collation: '%' matches any run of characters, '_' any one
      character, every other character exactly itself (no escape character). */
  function Like(s: string, p: string): bool
    decreases |s| + |p|
  {
    if p == [] then s == []
    else if p[0] == '%' then Like(s, p[1..]) || (s != [] && Like(s[1..], p))
    else s != [] && (p[0] == '_' || p[0] == s[0]) && Like(s[1..], p[1..])
  }

  predicate NoWildcards(q: string) {
    forall i | 0 <= i < |q| :: q[i] != '%' && q[i] != '_'
  }

  lemma {:induction false} LikeAnything(t: string)
    ensures Like(t, "%")
  {
    assert "%"[1..] == "";
    if t != [] {
      LikeAnything(t[1..]);
    }
  }

  lemma {:induction false} LikePrefix(t: string, q: string)
    requires NoWildcards(q)
    ensures Like(t, q + "%") <==> q <= t
  {
    if q == [] {
      assert q + "%" == "%";
      LikeAnything(t);
    } else {
      var p := q + "%";
      assert p[0] == q[0] && p[1..] == q[1..] + "%";
      assert NoWildcards(q[1..]);
      if t != [] {
        LikePrefix(t[1..], q[1..]);
        assert q <= t <==> q[0] == t[0] && q[1..] <= t[1..];
      }
    }
  }

  lemma {:induction false} LikeLeadingPercent(s: string, r: string)
    ensures Like(s, "%" + r) <==> exists i | 0 <= i <= |s| :: Like(s[i..], r)
  {
    var p := "%" + r;
    assert p[0] == '%' && p[1..] == r;
    assert s[0..] == s;
    if s != [] {
      LikeLeadingPercent(s[1..], r);
      if Like(s, p) && !Like(s, r) {
        var i :| 0 <= i <= |s| - 1 && Like(s[1..][i..], r);
        assert s[1..][i..] == s[i + 1..];
      }
      if exists i | 0 <= i <= |s| :: Like(s[i..], r) {
        var i :| 0 <= i <= |s| && Like(s[i..], r);
        if i > 0 {
          assert s[1..][i - 1..] == s[i..];
        }
      }
    }
  }

  /** The pattern "%q%" matches exactly the strings that contain q, when q has no wildcard. */
  lemma LikeIsSubstring(s: string, q: string)
    requires NoWildcards(q)
    ensures Like(s, "%" + q + "%") <==> Contains(s, q)
  {
    assert "%" + q + "%" == "%" + (q + "%");
    LikeLeadingPercent(s, q + "%");
    if Contains(s, q) {
      var i :| 0 <= i <= |s| && q <= s[i..];
      LikePrefix(s[i..], q);
    }
    if exists i | 0 <= i <= |s| :: Like(s[i..], q + "%") {
      var i :| 0 <= i <= |s| && Like(s[i..], q + "%");
      LikePrefix(s[i..], q);
    }
  }

  // ---------------------------------------------------------------- JavaScript trim

  /** ECMAScript WhiteSpace and LineTerminator code points, which `trim` removes. */
  predicate IsJsWhitespace(c: char) {
    c == '\t' || c == '\n' || c == '\U{B}' || c == '\U{C}' || c == '\r' || c == ' '
    || c == '\U{A0}' || c == '\U{1680}' || ('\U{2000}' <= c <= '\U{200A}')
    || c == '\U{2028}' || c == '\U{2029}' || c == '\U{202F}' || c == '\U{205F}'
    || c == '\U{3000}' || c == '\U{FEFF}'
  }

  predicate Blank(s: string) { forall i | 0 <= i < |s| :: IsJsWhitespace(s[i]) }

  function TrimStart(s: string): string {
    if s != [] && IsJsWhitespace(s[0]) then TrimStart(s[1..]) else s
  }

  function TrimEnd(s: string): string {
    if s != [] && IsJsWhitespace(s[|s| - 1]) then TrimEnd(s[..|s| - 1]) else s
  }

  /** `String.prototype.trim`. */
  function Trim(s: string): string { TrimEnd(TrimStart(s)) }

  lemma {:induction false} TrimStartFacts(s: string)
    ensures TrimStart(s) == [] <==> Blank(s)
    ensures TrimStart(s) != [] ==> !IsJsWhitespace(TrimStart(s)[0])
  {
    if s != [] && IsJsWhitespace(s[0]) {
      TrimStartFacts(s[1..]);
      assert Blank(s) <==> Blank(s[1..]) by {
        if Blank(s[1..]) {
          forall i | 0 <= i < |s| ensures IsJsWhitespace(s[i]) {
            if i > 0 { assert s[i] == s[1..][i - 1]; }
          }
        }
      }
    }
  }

  lemma {:induction false} TrimEndEmpty(s: string)
    ensures TrimEnd(s) == [] <==> Blank(s)
  {
    if s != [] && IsJsWhitespace(s[|s| - 1]) {
      TrimEndEmpty(s[..|s| - 1]);
      assert Blank(s) <==> Blank(s[..|s| - 1]) by {
        if Blank(s[..|s| - 1]) {
          forall i | 0 <= i < |s| ensures IsJsWhitespace(s[i]) {
            if i < |s| - 1 { assert s[i] == s[..|s| - 1][i]; }
          }
        }
      }
    }
  }

  /** `s.trim() === ''` holds exactly for the strings made only of whitespace. */
  lemma TrimEmptyIffBlank(s: string)
    ensures Trim(s) == "" <==> Blank(s)
  {
    TrimStartFacts(s);
    TrimEndEmpty(TrimStart(s));
  }
}
