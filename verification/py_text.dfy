/**
 * The two pieces of Python string handling the scripts rely on:
 * `str.split(',')` on field-id lists and `int(...)` on a single field id.
 */
module PyText {
  import opened Outcomes

  /** `s.split(',')`: always at least one piece; empty pieces are kept. */
  function SplitComma(s: string): (r: seq<string>)
    ensures |r| >= 1
    ensures forall i :: 0 <= i < |r| ==> ',' !in r[i]
  {
    if |s| == 0 then [""]
    else
      var rest := SplitComma(s[1..]);
      if s[0] == ',' then [""] + rest
      else [[s[0]] + rest[0]] + rest[1..]
  }

  /** `','.join(parts)`, the inverse of SplitComma. */
  function JoinComma(parts: seq<string>): (r: string)
    requires |parts| >= 1
    ensures |r| >= |parts| - 1
  {
    if |parts| == 1 then parts[0] else parts[0] + "," + JoinComma(parts[1..])
  }

  /** Splitting on commas and joining back gives the original text. */
  lemma {:induction false} JoinSplit(s: string)
    ensures JoinComma(SplitComma(s)) == s
  {
    if |s| > 0 {
      JoinSplit(s[1..]);
      var rest := SplitComma(s[1..]);
      if s[0] == ',' {
        assert SplitComma(s) == [""] + rest;
        assert ([""] + rest)[1..] == rest;
      } else {
        var r := SplitComma(s);
        assert r == [[s[0]] + rest[0]] + rest[1..];
        if |rest| == 1 {
          assert r == [[s[0]] + rest[0]];
        } else {
          assert r[1..] == rest[1..];
          assert JoinComma(rest) == rest[0] + "," + JoinComma(rest[1..]);
        }
        assert s == [s[0]] + s[1..];
      }
    }
  }

  /** Comma-free text in front of a string only lengthens its first piece. */
  lemma {:induction false} SplitCommaFreePrefix(a: string, t: string)
    requires ',' !in a
    ensures SplitComma(a + t) == [a + SplitComma(t)[0]] + SplitComma(t)[1..]
  {
    if |a| > 0 {
      SplitCommaFreePrefix(a[1..], t);
      assert (a + t)[1..] == a[1..] + t;
      assert (a + t)[0] == a[0];
      assert [a[0]] + (a[1..] + SplitComma(t)[0]) == a + SplitComma(t)[0];
    } else {
      assert a == "";
      assert a + t == t;
      assert a + SplitComma(t)[0] == SplitComma(t)[0];
      assert SplitComma(t) == [SplitComma(t)[0]] + SplitComma(t)[1..];
    }
  }

  /** Joining comma-free pieces and splitting again gives the pieces back. */
  lemma {:induction false} SplitJoin(parts: seq<string>)
    requires |parts| >= 1
    requires forall i :: 0 <= i < |parts| ==> ',' !in parts[i]
    ensures SplitComma(JoinComma(parts)) == parts
  {
    if |parts| == 1 {
      SplitCommaFreePrefix(parts[0], "");
      assert parts[0] + "" == parts[0];
      assert SplitComma("") == [""];
      assert [parts[0] + ""] + [""][1..] == parts;
    } else {
      var tail := JoinComma(parts[1..]);
      SplitJoin(parts[1..]);
      SplitCommaFreePrefix(parts[0], "," + tail);
      assert ("," + tail)[1..] == tail;
      var r := SplitComma("," + tail);
      assert r == [""] + SplitComma(tail);
      assert r[0] == "" && r[1..] == parts[1..];
      assert parts[0] + "," + tail == parts[0] + ("," + tail);
      assert parts[0] + r[0] == parts[0];
      assert parts == [parts[0]] + parts[1..];
    }
  }

  /** A single piece is the whole text: there was no comma to split on. */
  lemma SplitSingle(s: string)
    requires |SplitComma(s)| == 1
    ensures SplitComma(s)[0] == s
  {
    JoinSplit(s);
  }

  /** The whitespace `str.strip()` removes (ASCII). */
  predicate IsSpace(c: char) {
    c == ' ' || c == '\t' || c == '\n' || c == '\r' || c == '\U{B}' || c == '\U{C}'
  }

  predicate IsDigit(c: char) { '0' <= c <= '9' }

  /** `s.strip()`: no surrounding whitespace is left. */
  function Strip(s: string): (r: string)
    ensures |r| <= |s|
    ensures r != [] ==> !IsSpace(r[0]) && !IsSpace(r[|r| - 1])
    decreases |s|
  {
    if |s| > 0 && IsSpace(s[0]) then Strip(s[1..])
    else if |s| > 0 && IsSpace(s[|s| - 1]) then Strip(s[..|s| - 1])
    else s
  }

  /** Value of a string of decimal digits, most significant first. */
  function DigitsValue(ds: string): nat
    requires forall i :: 0 <= i < |ds| ==> IsDigit(ds[i])
  {
    if ds == [] then 0
    else
      assert IsDigit(ds[|ds| - 1]);
      DigitsValue(ds[..|ds| - 1]) * 10 + (ds[|ds| - 1] as int - '0' as int)
  }

  predicate AllDigits(ds: string) {
    forall i :: 0 <= i < |ds| ==> IsDigit(ds[i])
  }

  /**
   * Python 2.7's `int(s)` on a string: surrounding whitespace, an optional
   * sign, more whitespace after the sign (the C parser skips it again) and at
   * least one decimal digit; anything else raises (None here).
   */
  function ParseInt(s: string): (r: Option<int>)
  {
    var t := Strip(s);
    if |t| > 0 && (t[0] == '-' || t[0] == '+') then
      var ds := Strip(t[1..]);
      if ds != [] && AllDigits(ds) then
        assert IsDigit(ds[0]);
        Some(if t[0] == '-' then -(DigitsValue(ds) as int) else DigitsValue(ds))
      else None
    else if t != [] && AllDigits(t) then
      assert IsDigit(t[0]);
      Some(DigitsValue(t))
    else None
  }

  /** Leading whitespace before a run of digits is all that `strip` removes. */
  lemma {:induction false} StripLeadingSpace(sp: string, ds: string)
    requires forall i :: 0 <= i < |sp| ==> IsSpace(sp[i])
    requires ds != [] && AllDigits(ds)
    ensures Strip(sp + ds) == ds
  {
    if sp == [] {
      assert sp + ds == ds;
      assert IsDigit(ds[0]) && IsDigit(ds[|ds| - 1]);
      assert !IsSpace(ds[0]) && !IsSpace(ds[|ds| - 1]);
    } else {
      assert (sp + ds)[0] == sp[0];
      assert (sp + ds)[1..] == sp[1..] + ds;
      StripLeadingSpace(sp[1..], ds);
    }
  }

  /** Text with no whitespace at either end is left as it is by `strip`. */
  lemma StripTrimmed(s: string)
    requires s != [] && !IsSpace(s[0]) && !IsSpace(s[|s| - 1])
    ensures Strip(s) == s
  {
  }

  /** A stripped sign followed by (whitespace and) digits. */
  lemma ParseSigned(s: string, ds: string)
    requires |s| > 0 && (s[0] == '-' || s[0] == '+') && Strip(s) == s
    requires Strip(s[1..]) == ds && ds != [] && AllDigits(ds)
    ensures ParseInt(s) == Some(if s[0] == '-' then -(DigitsValue(ds) as int) else DigitsValue(ds))
  {
  }

  /** Digits alone. */
  lemma ParseDigits(ds: string)
    requires ds != [] && AllDigits(ds)
    ensures ParseInt(ds) == Some(DigitsValue(ds))
  {
    assert IsDigit(ds[0]) && IsDigit(ds[|ds| - 1]);
    StripTrimmed(ds);
  }

  /** One sign, then whitespace, then digits. */
  lemma SignThenSpace(sign: char, sp: string, ds: string)
    requires sign == '+' || sign == '-'
    requires forall i :: 0 <= i < |sp| ==> IsSpace(sp[i])
    requires ds != [] && AllDigits(ds)
    ensures ParseInt([sign] + sp + ds) == Some(if sign == '-' then -(DigitsValue(ds) as int) else DigitsValue(ds))
  {
    var s := [sign] + sp + ds;
    StripLeadingSpace(sp, ds);
    assert IsDigit(ds[|ds| - 1]);
    assert s[|s| - 1] == ds[|ds| - 1];
    StripTrimmed(s);
    assert s[1..] == sp + ds;
    ParseSigned(s, ds);
  }

  /** A sign, then whitespace, then digits: the whitespace is skipped and the sign applies. */
  lemma SpaceAfterSign(sp: string, ds: string)
    requires forall i :: 0 <= i < |sp| ==> IsSpace(sp[i])
    requires ds != [] && AllDigits(ds)
    ensures ParseInt("+" + sp + ds) == Some(DigitsValue(ds))
    ensures ParseInt("-" + sp + ds) == Some(-(DigitsValue(ds) as int))
  {
    SignThenSpace('+', sp, ds);
    SignThenSpace('-', sp, ds);
  }

  /** `str(n)` for a natural number: decimal digits, no leading zero. */
  function FormatNat(n: nat): (r: string)
    ensures r != [] && AllDigits(r)
  {
    if n < 10 then [('0' as int + n) as char]
    else FormatNat(n / 10) + [('0' as int + n % 10) as char]
  }

  /** `str(n)` for an integer. */
  function FormatInt(n: int): (r: string)
    ensures r != []
  {
    if n < 0 then "-" + FormatNat(-n) else FormatNat(n)
  }

  lemma {:induction false} DigitsOfFormat(n: nat)
    ensures DigitsValue(FormatNat(n)) == n
  {
    if n >= 10 {
      DigitsOfFormat(n / 10);
      var r := FormatNat(n);
      assert r[..|r| - 1] == FormatNat(n / 10);
    }
  }

  /** Field ids written by `str` are read back unchanged by `int`. */
  lemma ParseFormat(n: int)
    ensures ParseInt(FormatInt(n)) == Some(n)
  {
    var ds := FormatNat(if n < 0 then -n else n);
    DigitsOfFormat(if n < 0 then -n else n);
    if n < 0 {
      SignThenSpace('-', [], ds);
      assert FormatInt(n) == ['-'] + [] + ds;
    } else {
      assert FormatInt(n) == ds;
      ParseDigits(ds);
    }
  }
}
