/** Decimal numbers as Python writes them with `str` and reads them with `int`. */
module Decimals {
  import opened Wrappers

  function DigitChar(d: nat): char
    requires d < 10
  {
    ('0' as int + d) as char
  }

  function Decimal(n: nat): string {
    if n < 10 then [DigitChar(n)] else Decimal(n / 10) + [DigitChar(n % 10)]
  }

  predicate IsDigit(c: char) {
    '0' <= c <= '9'
  }

  predicate IsSpace(c: char) {
    c == ' ' || 9 <= c as int <= 13 || 28 <= c as int <= 31
  }

  function StripLeft(s: string): string {
    if s != [] && IsSpace(s[0]) then StripLeft(s[1..]) else s
  }

  function StripRight(s: string): string {
    if s != [] && IsSpace(s[|s| - 1]) then StripRight(s[..|s| - 1]) else s
  }

  /** Digits, with single underscores allowed between two of them. */
  function Digits(s: string, sofar: nat, afterDigit: bool): Option<nat> {
    if s == [] then (if afterDigit then Some(sofar) else None)
    else if IsDigit(s[0]) then Digits(s[1..], sofar * 10 + (s[0] as int - '0' as int), true)
    else if s[0] == '_' && afterDigit then Digits(s[1..], sofar, false)
    else None
  }

  /** `int(s)` for ASCII text: white space around the number, a sign, and underscores are accepted. */
  function ParseInt(s: string): Option<int> {
    var t := StripRight(StripLeft(s));
    var negative := t != [] && t[0] == '-';
    var body := if t != [] && (t[0] == '-' || t[0] == '+') then t[1..] else t;
    match Digits(body, 0, false)
    case None => None
    case Some(n) => Some(if negative then 0 - n else n)
  }

  predicate AllDigits(s: string) {
    forall i :: 0 <= i < |s| ==> IsDigit(s[i])
  }

  lemma {:induction false} DecimalIsDigits(n: nat)
    ensures Decimal(n) != [] && AllDigits(Decimal(n))
  {
    if 10 <= n {
      DecimalIsDigits(n / 10);
    }
  }

  /** The number that a string of digits stands for. */
  function Value(s: string): int {
    if s == [] then 0 else Value(s[..|s| - 1]) * 10 + (s[|s| - 1] as int - '0' as int)
  }

  /** The number in decimal digits, without leading zeros. */
  predicate IsNumeral(s: string, n: nat) {
    s != [] && AllDigits(s) && (s[0] == '0' ==> s == "0") && Value(s) == n
  }

  lemma {:induction false} ValuePositive(s: string)
    requires s != [] && AllDigits(s)
    ensures 0 <= Value(s) && (s[0] != '0' ==> 0 < Value(s))
  {
    if |s| > 1 {
      ValuePositive(s[..|s| - 1]);
    } else {
      assert s[..0] == [];
    }
  }

  /** A number has exactly one numeral, and `str` writes that. */
  lemma {:induction false} OnlyNumeral(s: string, n: nat)
    ensures IsNumeral(s, n) <==> s == Decimal(n)
    decreases n, |s|
  {
    DecimalIsNumeral(n);
    if IsNumeral(s, n) {
      var init, last := s[..|s| - 1], s[|s| - 1] as int - '0' as int;
      if init == [] {
        assert Value(init) == 0 && s == [s[0]];
      } else {
        ValuePositive(init);
        assert n / 10 == Value(init) && n % 10 == last;
        OnlyNumeral(init, n / 10);
        assert s == init + [s[|s| - 1]];
      }
    }
  }

  lemma {:induction false} DecimalIsNumeral(n: nat)
    ensures IsNumeral(Decimal(n), n)
  {
    DecimalIsDigits(n);
    if n < 10 {
      assert Decimal(n)[..0] == [];
    } else {
      DecimalIsNumeral(n / 10);
      assert Decimal(n)[..|Decimal(n)| - 1] == Decimal(n / 10);
      assert "0"[..0] == [] && Value("0") == 0;
    }
  }

  lemma {:induction false} OneMoreDigit(s: string, sofar: nat, afterDigit: bool, d: nat)
    requires AllDigits(s) && d < 10 && (s != [] || afterDigit || sofar == 0)
    ensures var v := Digits(s, sofar, true);
            v.Some? && Digits(s + [DigitChar(d)], sofar, afterDigit) == Some(v.value * 10 + d)
  {
    if s == [] {
      assert (s + [DigitChar(d)])[1..] == [];
      assert Digits([], sofar * 10 + d, true) == Some(sofar * 10 + d);
    } else {
      var next: nat := sofar * 10 + (s[0] as int - '0' as int);
      assert (s + [DigitChar(d)])[1..] == s[1..] + [DigitChar(d)];
      OneMoreDigit(s[1..], next, true, d);
    }
  }

  lemma {:induction false} DigitsOfDecimal(n: nat)
    ensures Digits(Decimal(n), 0, false) == Some(n) == Digits(Decimal(n), 0, true)
  {
    if n < 10 {
      assert Decimal(n)[1..] == [];
    } else {
      DecimalIsDigits(n / 10);
      DigitsOfDecimal(n / 10);
      OneMoreDigit(Decimal(n / 10), 0, false, n % 10);
      OneMoreDigit(Decimal(n / 10), 0, true, n % 10);
    }
  }

  /** Reading a written number gives the number back. */
  lemma ParseOfDecimal(n: nat)
    ensures ParseInt(Decimal(n)) == Some(n)
  {
    DecimalIsDigits(n);
    DigitsOfDecimal(n);
  }

  // ----- Exactly what `int` reads -----

  /** The digits and underscores read so far: their number, and whether the last was a digit. */
  function Scan(s: string, sofar: nat, afterDigit: bool): Option<(nat, bool)> {
    if s == [] then Some((sofar, afterDigit))
    else if IsDigit(s[0]) then Scan(s[1..], sofar * 10 + (s[0] as int - '0' as int), true)
    else if s[0] == '_' && afterDigit then Scan(s[1..], sofar, false)
    else None
  }

  lemma {:induction false} DigitsIsScan(s: string, sofar: nat, afterDigit: bool)
    ensures Digits(s, sofar, afterDigit) ==
      match Scan(s, sofar, afterDigit)
      case Some((n, true)) => Some(n)
      case _ => None
  {
    if s != [] {
      if IsDigit(s[0]) {
        DigitsIsScan(s[1..], sofar * 10 + (s[0] as int - '0' as int), true);
      } else if s[0] == '_' && afterDigit {
        DigitsIsScan(s[1..], sofar, false);
      }
    }
  }

  lemma {:induction false} ScanOneMore(s: string, c: char, sofar: nat, afterDigit: bool)
    ensures Scan(s + [c], sofar, afterDigit) ==
      match Scan(s, sofar, afterDigit)
      case None => None
      case Some((n, after)) =>
        if IsDigit(c) then Some((n * 10 + (c as int - '0' as int), true))
        else if c == '_' && after then Some((n, false))
        else None
  {
    if s == [] {
      assert (s + [c])[1..] == [];
    } else {
      assert (s + [c])[1..] == s[1..] + [c];
      if IsDigit(s[0]) {
        ScanOneMore(s[1..], c, sofar * 10 + (s[0] as int - '0' as int), true);
      } else if s[0] == '_' && afterDigit {
        ScanOneMore(s[1..], c, sofar, false);
      }
    }
  }

  /** Digits and underscores, each underscore after a digit. */
  predicate IsDigitRun(s: string) {
    && (forall i :: 0 <= i < |s| ==> IsDigit(s[i]) || s[i] == '_')
    && (forall i :: 0 <= i < |s| && s[i] == '_' ==> 0 < i && IsDigit(s[i - 1]))
  }

  function WithoutUnderscores(s: string): string {
    if s == [] then []
    else WithoutUnderscores(s[..|s| - 1]) + if s[|s| - 1] == '_' then [] else [s[|s| - 1]]
  }

  lemma RunOneMore(s: string, c: char)
    ensures IsDigitRun(s + [c]) <==>
      IsDigitRun(s) && (IsDigit(c) || (c == '_' && s != [] && IsDigit(s[|s| - 1])))
  {
    var t := s + [c];
    assert t[|s|] == c && forall i :: 0 <= i < |s| ==> t[i] == s[i];
  }

  lemma WithoutOneMore(s: string, c: char)
    ensures WithoutUnderscores(s + [c]) == WithoutUnderscores(s) + if c == '_' then [] else [c]
    ensures c != '_' ==> Value(WithoutUnderscores(s + [c])) ==
                         Value(WithoutUnderscores(s)) * 10 + (c as int - '0' as int)
    ensures c == '_' ==> WithoutUnderscores(s + [c]) == WithoutUnderscores(s)
  {
    assert (s + [c])[..|s|] == s;
    var before, after := WithoutUnderscores(s), WithoutUnderscores(s + [c]);
    assert c != '_' ==> after[..|after| - 1] == before;
    assert c == '_' ==> after == before;
  }

  lemma {:induction false} ScanExactly(s: string)
    ensures Scan(s, 0, false).Some? <==> IsDigitRun(s)
    ensures IsDigitRun(s) ==>
      Scan(s, 0, false) == Some((Value(WithoutUnderscores(s)), s != [] && IsDigit(s[|s| - 1])))
  {
    hide IsDigitRun, Scan, Value, WithoutUnderscores;
    ScanNothing();
    if s != [] {
      var init, last := s[..|s| - 1], s[|s| - 1];
      assert s == init + [last];
      ScanExactly(init);
      ScanOneMore(init, last, 0, false);
      RunOneMore(init, last);
      WithoutOneMore(init, last);
    }
  }

  lemma ScanNothing()
    ensures Scan([], 0, false) == Some((0, false)) && IsDigitRun([]) && Value(WithoutUnderscores([])) == 0
  {
  }

  predicate AllSpaces(s: string) {
    forall i :: 0 <= i < |s| ==> IsSpace(s[i])
  }

  /** Something that neither begins nor ends with a space. */
  predicate IsTight(s: string) {
    s != [] && !IsSpace(s[0]) && !IsSpace(s[|s| - 1])
  }

  lemma {:induction false} LeftStripped(l: string, s: string)
    requires AllSpaces(l) && (s != [] ==> !IsSpace(s[0]))
    ensures StripLeft(l + s) == s
  {
    if l == [] {
      assert l + s == s;
    } else {
      assert (l + s)[1..] == l[1..] + s;
      LeftStripped(l[1..], s);
    }
  }

  lemma {:induction false} RightStripped(s: string, r: string)
    requires AllSpaces(r) && (s != [] ==> !IsSpace(s[|s| - 1]))
    ensures StripRight(s + r) == s
  {
    if r == [] {
      assert s + r == s;
    } else {
      assert (s + r)[..|s + r| - 1] == s + r[..|r| - 1];
      RightStripped(s, r[..|r| - 1]);
    }
  }

  lemma {:induction false} StripsLeft(s: string) returns (l: string)
    ensures AllSpaces(l) && s == l + StripLeft(s)
    ensures StripLeft(s) != [] ==> !IsSpace(StripLeft(s)[0])
  {
    hide IsSpace;
    if s != [] && IsSpace(s[0]) {
      var rest := StripsLeft(s[1..]);
      l := [s[0]] + rest;
      assert s == [s[0]] + (rest + StripLeft(s[1..]));
    } else {
      l := [];
    }
  }

  lemma {:induction false} StripsRight(s: string) returns (r: string)
    ensures AllSpaces(r) && s == StripRight(s) + r
    ensures StripRight(s) != [] ==> !IsSpace(StripRight(s)[|StripRight(s)| - 1])
  {
    if s != [] && IsSpace(s[|s| - 1]) {
      var rest := StripsRight(s[..|s| - 1]);
      r := rest + [s[|s| - 1]];
      assert s == s[..|s| - 1] + [s[|s| - 1]];
    } else {
      r := [];
    }
  }

  function Unsigned(t: string): string {
    if t != [] && (t[0] == '+' || t[0] == '-') then t[1..] else t
  }

  /** A number as `int` accepts it: a sign or none, then digits with single underscores between them. */
  predicate IsInteger(t: string, n: int) {
    var body := Unsigned(t);
    && body != [] && IsDigitRun(body) && IsDigit(body[|body| - 1])
    && n == if t[0] == '-' then 0 - Value(WithoutUnderscores(body)) else Value(WithoutUnderscores(body))
  }

  /** And anything with white space around it. */
  ghost predicate Reads(text: string, n: int) {
    exists l, t, r :: text == l + t + r && AllSpaces(l) && AllSpaces(r) && IsInteger(t, n)
  }

  lemma IntegerIsTight(t: string, n: int)
    requires IsInteger(t, n)
    ensures IsTight(t)
  {
    assert t[|t| - 1] == Unsigned(t)[|Unsigned(t)| - 1];
    assert IsDigit(Unsigned(t)[0]);
    hide Value, WithoutUnderscores;
  }

  lemma ParseTight(t: string, n: int)
    requires StripRight(StripLeft(t)) == t
    ensures ParseInt(t) == Some(n) <==> IsInteger(t, n)
  {
    DigitsIsScan(Unsigned(t), 0, false);
    ScanExactly(Unsigned(t));
    hide Digits, Scan, IsDigitRun, StripLeft, StripRight, Value, WithoutUnderscores;
  }

  /** Reading a text gives a number exactly if the text is written so. */
  lemma ParseExactly(text: string, n: int)
    ensures ParseInt(text) == Some(n) <==> Reads(text, n)
  {
    hide StripLeft, StripRight, IsInteger, IsTight, Digits;
    var t := StripRight(StripLeft(text));
    StrippedStays(text);
    ParseTight(t, n);
    SameWhenStripped(text);
    hide ParseInt;
    if ParseInt(text) == Some(n) {
      var l := StripsLeft(text);
      var r := StripsRight(StripLeft(text));
      assert text == l + t + r;
    }
    if Reads(text, n) {
      var l, u, r :| text == l + u + r && AllSpaces(l) && AllSpaces(r) && IsInteger(u, n);
      IntegerIsTight(u, n);
      StripsBoth(l, u, r);
    }
  }

  lemma SameWhenStripped(text: string)
    ensures ParseInt(text) == ParseInt(StripRight(StripLeft(text)))
  {
    StrippedStays(text);
  }

  lemma StripsBoth(l: string, m: string, r: string)
    requires AllSpaces(l) && AllSpaces(r) && IsTight(m)
    ensures StripRight(StripLeft(l + m + r)) == m
  {
    assert l + m + r == l + (m + r) && (m + r)[0] == m[0];
    LeftStripped(l, m + r);
    RightStripped(m, r);
  }

  lemma StrippedStays(text: string)
    ensures var t := StripRight(StripLeft(text)); StripRight(StripLeft(t)) == t
  {
    var l := StripsLeft(text);
    var r := StripsRight(StripLeft(text));
    var t := StripRight(StripLeft(text));
    if t != [] {
      assert t[0] == StripLeft(text)[0];
      LeftStripped([], t);
      RightStripped(t, []);
      assert [] + t == t && t + [] == t;
    }
  }
}
