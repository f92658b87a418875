/** The string built-ins the core relies on: `str.strip`, `str.split`, `str.isdigit`,
    decimal `int(...)` parsing and decimal `str(...)` formatting. */
module PyText {
  import opened Wrappers

  /** Characters `str.strip()` and `int()` remove: Python's `str.isspace()` set, the ASCII
      and C0 separators and the Unicode white space. */
  predicate IsSpace(c: char) {
    c == ' ' || ('\t' <= c <= '\r') || ('\U{1C}' <= c <= '\U{1F}')
    || c == '\U{85}' || c == '\U{A0}' || c == '\U{1680}'
    || ('\U{2000}' <= c <= '\U{200A}')
    || c == '\U{2028}' || c == '\U{2029}' || c == '\U{202F}' || c == '\U{205F}' || c == '\U{3000}'
  }

  predicate IsDigit(c: char) { '0' <= c <= '9' }

  predicate IsStripped(s: string) {
    |s| == 0 || (!IsSpace(s[0]) && !IsSpace(s[|s| - 1]))
  }

  function LStrip(s: string): (r: string)
    ensures |r| <= |s| && r == s[|s| - |r|..]
    ensures |r| == 0 || !IsSpace(r[0])
    ensures forall k :: 0 <= k < |s| - |r| ==> IsSpace(s[k])
  {
    if |s| > 0 && IsSpace(s[0]) then LStrip(s[1..]) else s
  }

  function RStrip(s: string): (r: string)
    ensures |r| <= |s| && r == s[..|r|]
    ensures |r| == 0 || !IsSpace(r[|r| - 1])
    ensures forall k :: |r| <= k < |s| ==> IsSpace(s[k])
  {
    if |s| > 0 && IsSpace(s[|s| - 1]) then RStrip(s[..|s| - 1]) else s
  }

  /** `s.strip()`: the longest middle part of `s` with no leading or trailing space. */
  function Strip(s: string): (r: string)
    ensures IsStripped(r)
    ensures |r| <= |s|
    ensures |r| == 0 <==> forall k :: 0 <= k < |s| ==> IsSpace(s[k])
  {
    RStrip(LStrip(s))
  }

  /** What `strip` keeps is a middle part of `s` with only white space around it. */
  lemma StripMiddle(s: string)
    ensures exists i :: StrippedAt(s, Strip(s), i)
  {
    var l := LStrip(s);
    var r := RStrip(l);
    var i := |s| - |l|;
    assert r == s[i..i + |r|] by {
      assert l == s[i..] && r == l[..|r|];
    }
    assert forall k :: i + |r| <= k < |s| ==> IsSpace(s[k]) by {
      forall k | i + |r| <= k < |s| ensures IsSpace(s[k]) {
        assert s[k] == l[k - i];
      }
    }
    assert r == Strip(s);
    assert StrippedAt(s, r, i);
  }

  /** `r` is `s[i..i + |r|]` and everything of `s` around it is white space. */
  predicate StrippedAt(s: string, r: string, i: nat) {
    i + |r| <= |s| && r == s[i..i + |r|] &&
    (forall k :: 0 <= k < i ==> IsSpace(s[k])) &&
    (forall k :: i + |r| <= k < |s| ==> IsSpace(s[k]))
  }

  lemma {:induction false} StripOfStripped(s: string)
    requires IsStripped(s)
    ensures Strip(s) == s
  {
  }

  /** `s.split(sep)`: never empty; "" splits to [""], "a,,b" to ["a", "", "b"]. */
  function Split(s: string, sep: char): (parts: seq<string>)
    ensures |parts| >= 1
    ensures forall p :: p in parts ==> sep !in p
    ensures Join(parts, sep) == s
  {
    if |s| == 0 then [""]
    else
      var rest := Split(s[1..], sep);
      if s[0] == sep then [""] + rest
      else [[s[0]] + rest[0]] + rest[1..]
  }

  /** `sep.join(parts)`, the inverse of Split. */
  function Join(parts: seq<string>, sep: char): string
  {
    if |parts| == 0 then ""
    else if |parts| == 1 then parts[0]
    else parts[0] + [sep] + Join(parts[1..], sep)
  }

  lemma {:induction false} SplitJoin(parts: seq<string>, sep: char)
    requires |parts| >= 1
    requires forall p :: p in parts ==> sep !in p
    ensures Split(Join(parts, sep), sep) == parts
  {
    if |parts| == 1 {
      SplitNoSep(parts[0], sep);
    } else {
      SplitJoin(parts[1..], sep);
      SplitPrefix(parts[0], Join(parts[1..], sep), sep);
    }
  }

  lemma {:induction false} SplitNoSep(s: string, sep: char)
    requires sep !in s
    ensures Split(s, sep) == [s]
  {
    if |s| > 0 {
      SplitNoSep(s[1..], sep);
    }
  }

  lemma {:induction false} SplitPrefix(p: string, rest: string, sep: char)
    requires sep !in p
    ensures Split(p + [sep] + rest, sep) == [p] + Split(rest, sep)
  {
    if |p| == 0 {
      assert (p + [sep] + rest)[1..] == rest;
    } else {
      assert (p + [sep] + rest)[1..] == p[1..] + [sep] + rest;
      SplitPrefix(p[1..], rest, sep);
      assert [p[0]] + p[1..] == p;
    }
  }

  function DigitChar(d: nat): char
    requires d < 10
  {
    ['0', '1', '2', '3', '4', '5', '6', '7', '8', '9'][d]
  }

  function DigitValue(c: char): (d: nat)
    requires IsDigit(c)
    ensures d < 10 && DigitChar(d) == c
  {
    (c - '0') as nat
  }

  predicate AllDigits(s: string) {
    forall k :: 0 <= k < |s| ==> IsDigit(s[k])
  }

  /** `str(n)` for a natural number: its decimal digits, no leading zero. */
  function NatToString(n: nat): (s: string)
    ensures |s| >= 1 && AllDigits(s)
    ensures s[0] == '0' ==> n == 0
  {
    if n < 10 then [DigitChar(n)] else NatToString(n / 10) + [DigitChar(n % 10)]
  }

  /** `str(i)` for any integer. */
  function IntToString(i: int): string
  {
    if i < 0 then "-" + NatToString(-i) else NatToString(i)
  }

  /** The value of a string of decimal digits (leading zeros allowed, as `int("007")`). */
  function DecimalValue(s: string): nat
    requires AllDigits(s)
  {
    if |s| == 0 then 0 else DecimalValue(s[..|s| - 1]) * 10 + DigitValue(s[|s| - 1])
  }

  lemma {:induction false} DecimalOfNatToString(n: nat)
    ensures DecimalValue(NatToString(n)) == n
  {
    if n >= 10 {
      var s := NatToString(n);
      DecimalOfNatToString(n / 10);
      assert s[..|s| - 1] == NatToString(n / 10);
    }
  }

  lemma NatToStringInjective(m: nat, n: nat)
    ensures NatToString(m) == NatToString(n) <==> m == n
  {
    if NatToString(m) == NatToString(n) {
      DecimalOfNatToString(m);
      DecimalOfNatToString(n);
    }
  }

  /** An optional sign followed by at least one decimal digit. */
  predicate IsIntText(t: string) {
    (|t| > 0 && AllDigits(t)) || (|t| > 1 && (t[0] == '+' || t[0] == '-') && AllDigits(t[1..]))
  }

  /** The value an integer text denotes: its digits' value, negated after a '-'. */
  function SignedValue(t: string): int
    requires IsIntText(t)
  {
    if t[0] == '-' then -(DecimalValue(t[1..]) as int)
    else if t[0] == '+' then DecimalValue(t[1..]) as int
    else DecimalValue(t) as int
  }

  /** `int(s)` for a string: optional surrounding space, optional sign, then decimal digits;
      None where Python raises ValueError. */
  function ParseInt(s: string): (r: Option<int>)
    ensures r.Some? <==> IsIntText(Strip(s))
    ensures r.Some? ==> r.value == SignedValue(Strip(s))
  {
    var t := Strip(s);
    if |t| > 0 && (t[0] == '+' || t[0] == '-') then
      var digits := t[1..];
      if |digits| > 0 && AllDigits(digits) then
        Some(if t[0] == '-' then -(DecimalValue(digits) as int) else DecimalValue(digits))
      else None
    else if |t| > 0 && AllDigits(t) then Some(DecimalValue(t))
    else None
  }

  /** `int(str(i)) == i`, with or without surrounding white space. */
  lemma ParseIntOfIntToString(i: int, pad: string)
    requires forall k :: 0 <= k < |pad| ==> IsSpace(pad[k])
    ensures ParseInt(pad + IntToString(i) + pad) == Some(i)
  {
    var t := IntToString(i);
    IntToStringIsIntText(i);
    StripPadded(pad, t);
  }

  /** The text of an integer is an integer text denoting it, with no space at either end. */
  lemma IntToStringIsIntText(i: int)
    ensures var t := IntToString(i);
      IsIntText(t) && SignedValue(t) == i && !IsSpace(t[0]) && !IsSpace(t[|t| - 1])
  {
    var m: nat := if i < 0 then -i else i;
    var n := NatToString(m);
    DecimalOfNatToString(m);
    assert IsDigit(n[0]) && IsDigit(n[|n| - 1]);
    if i < 0 {
      var t := IntToString(i);
      assert t == "-" + n;
      assert t[1..] == n;
      assert t[|t| - 1] == n[|n| - 1];
    }
  }

  /** Stripping a text with no space at either end from between two runs of white space
      gives the text back. */
  lemma StripPadded(pad: string, t: string)
    requires forall k :: 0 <= k < |pad| ==> IsSpace(pad[k])
    requires |t| > 0 && !IsSpace(t[0]) && !IsSpace(t[|t| - 1])
    ensures Strip(pad + t + pad) == t
  {
    assert pad + t + pad == pad + (t + pad);
    LStripPadded(pad, t + pad);
    RStripPadded(t, pad);
  }

  lemma {:induction false} LStripPadded(pad: string, u: string)
    requires forall k :: 0 <= k < |pad| ==> IsSpace(pad[k])
    requires |u| > 0 && !IsSpace(u[0])
    ensures LStrip(pad + u) == u
  {
    if |pad| == 0 {
      assert pad + u == u;
    } else {
      assert (pad + u)[0] == pad[0];
      assert (pad + u)[1..] == pad[1..] + u;
      LStripPadded(pad[1..], u);
    }
  }

  lemma {:induction false} RStripPadded(u: string, pad: string)
    requires forall k :: 0 <= k < |pad| ==> IsSpace(pad[k])
    requires |u| > 0 && !IsSpace(u[|u| - 1])
    ensures RStrip(u + pad) == u
  {
    if |pad| == 0 {
      assert u + pad == u;
    } else {
      var n := |pad| - 1;
      assert (u + pad)[|u + pad| - 1] == pad[n];
      assert (u + pad)[..|u + pad| - 1] == u + pad[..n];
      RStripPadded(u, pad[..n]);
    }
  }
}
