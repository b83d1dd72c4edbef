/** The money formatter of the calculator: an amount is rounded to a whole
    number and written with "$" in front and its digits grouped in threes,
    separated by "," in English and by "." in Spanish. */
module MoneyFormat {
  import opened Wrappers

  /** The two values of the language selector. */
  datatype Language = Spanish | English

  predicate IsDigit(c: char) {
    '0' <= c <= '9'
  }

  predicate AllDigits(s: string) {
    forall k :: 0 <= k < |s| ==> IsDigit(s[k])
  }

  function DigitChar(d: nat): (c: char)
    requires d < 10
    ensures IsDigit(c)
  {
    ('0' as int + d) as char
  }

  function DigitValue(c: char): (d: nat)
    requires IsDigit(c)
    ensures d < 10 && DigitChar(d) == c
  {
    c as int - '0' as int
  }

  function Abs(v: int): nat {
    if v < 0 then -v else v
  }

  /** The decimal digits of n, most significant first, without leading zeros. */
  function DecimalString(n: nat): (s: string)
    ensures 1 <= |s| && AllDigits(s)
    ensures s[0] == '0' ==> n == 0
    decreases n
  {
    if n < 10 then [DigitChar(n)] else DecimalString(n / 10) + [DigitChar(n % 10)]
  }

  /** The number a string of decimal digits denotes. */
  function DecimalValue(s: string): nat
    requires AllDigits(s)
  {
    if s == [] then 0 else 10 * DecimalValue(s[..|s| - 1]) + DigitValue(s[|s| - 1])
  }

  lemma {:induction false} DecimalRoundTrip(n: nat)
    ensures DecimalValue(DecimalString(n)) == n
  {
    if n >= 10 {
      var s := DecimalString(n);
      assert s[..|s| - 1] == DecimalString(n / 10);
      DecimalRoundTrip(n / 10);
    }
  }

  /** Python's `str` of an integer: an optional minus sign, then the digits. */
  function IntString(v: int): string {
    (if v < 0 then "-" else "") + DecimalString(Abs(v))
  }

  /** Inserts sep between every group of three digits, counted from the right. */
  function GroupThousands(ds: string, sep: char): (r: string)
    requires 1 <= |ds|
    ensures |r| == |ds| + (|ds| - 1) / 3
    decreases |ds|
  {
    if |ds| <= 3 then ds
    else GroupThousands(ds[..|ds| - 3], sep) + [sep] + ds[|ds| - 3..]
  }

  /** s with every occurrence of c taken out. */
  function Without(s: string, c: char): (r: string)
    ensures c !in r
  {
    if s == [] then [] else Without(s[..|s| - 1], c) + (if s[|s| - 1] == c then [] else [s[|s| - 1]])
  }

  /** s with every occurrence of a replaced by b (Python's `str.replace` on one character). */
  function Replace(s: string, a: char, b: char): (r: string)
    ensures |r| == |s|
    ensures forall k :: 0 <= k < |s| ==> r[k] == (if s[k] == a then b else s[k])
  {
    if s == [] then [] else Replace(s[..|s| - 1], a, b) + [if s[|s| - 1] == a then b else s[|s| - 1]]
  }

  /** Python's `f"{v:,}"`: the integer with its digits grouped by commas.
      Taking the commas out again leaves Python's `str(v)`. */
  function CommaGrouped(v: int): (r: string)
    ensures Without(r, ',') == IntString(v)
  {
    var sign, ds := (if v < 0 then "-" else ""), DecimalString(Abs(v));
    DigitsExclude(ds, ',');
    UngroupThousands(ds, ',');
    WithoutAppend(sign, GroupThousands(ds, ','), ',');
    WithoutAbsent(sign, ',');
    sign + GroupThousands(ds, ',')
  }

  /** Python's `round(x, 0)` on an exact number: the nearest integer, ties to the even one. */
  function RoundHalfEven(x: real): (n: int)
    ensures -0.5 <= n as real - x <= 0.5
    ensures (n as real - x == 0.5 || x - n as real == 0.5) ==> n % 2 == 0
  {
    var f := x.Floor;
    var frac := x - f as real;
    if frac < 0.5 then f
    else if frac > 0.5 then f + 1
    else if f % 2 == 0 then f
    else f + 1
  }

  /** The money text for an amount that is already a whole number: "$", a
      "-" when it is negative, then its digits grouped in threes by the
      language's separator. */
  function FormatInteger(v: int, lang: Language): (r: string)
    ensures r == "$" + ((if v < 0 then "-" else "") + GroupThousands(DecimalString(Abs(v)), Separator(lang)))
  {
    "$" + LocalGrouped(v, lang)
  }

  /** The comma-grouped number, with the commas replaced by points for Español. */
  function LocalGrouped(v: int, lang: Language): (t: string)
    ensures t == (if v < 0 then "-" else "") + GroupThousands(DecimalString(Abs(v)), Separator(lang))
  {
    SeparatedGroups(v, lang);
    if lang == Spanish then Replace(CommaGrouped(v), ',', '.') else CommaGrouped(v)
  }

  /** format_money: round to a whole number, then write it as money. The
      text reads back as the rounded amount. */
  function FormatMoney(x: real, lang: Language): (r: string)
    ensures var n := RoundHalfEven(x);
      r == "$" + ((if n < 0 then "-" else "") + GroupThousands(DecimalString(Abs(n)), Separator(lang)))
    ensures ParseMoney(r, lang) == Some(RoundHalfEven(x))
  {
    FormatRoundTrip(RoundHalfEven(x), lang);
    FormatInteger(RoundHalfEven(x), lang)
  }

  function Separator(lang: Language): char {
    if lang == Spanish then '.' else ','
  }

  /** Reads a money text back: "$", an optional "-", then digits and separators. */
  function ParseMoney(s: string, lang: Language): Option<int> {
    if |s| == 0 || s[0] != '$' then None
    else
      var negative := |s| > 1 && s[1] == '-';
      var parsed := ParseGroupedDigits(if negative then s[2..] else s[1..], Separator(lang));
      if parsed.None? then None
      else
        var n: int := parsed.value;
        Some(if negative then -n else n)
  }

  /** The number written by digits with separators in between, if that is what t holds. */
  function ParseGroupedDigits(t: string, sep: char): Option<nat> {
    var digits := Without(t, sep);
    if digits == [] || !AllDigits(digits) then None else Some(DecimalValue(digits))
  }

  // ---------------------------------------------------------------------------
  // Lemmas

  lemma {:induction false} WithoutAppend(a: string, b: string, c: char)
    ensures Without(a + b, c) == Without(a, c) + Without(b, c)
    decreases |b|
  {
    if b == [] {
      assert a + b == a;
    } else {
      assert (a + b)[..|a + b| - 1] == a + b[..|b| - 1];
      WithoutAppend(a, b[..|b| - 1], c);
    }
  }

  lemma {:induction false} WithoutAbsent(s: string, c: char)
    requires c !in s
    ensures Without(s, c) == s
  {
    if s != [] {
      WithoutAbsent(s[..|s| - 1], c);
    }
  }

  /** Taking the separators out of the grouped digits gives back the digits. */
  lemma {:induction false} UngroupThousands(ds: string, sep: char)
    requires 1 <= |ds| && sep !in ds
    ensures Without(GroupThousands(ds, sep), sep) == ds
    decreases |ds|
  {
    if |ds| > 3 {
      var head, tail := ds[..|ds| - 3], ds[|ds| - 3..];
      assert ds == head + tail;
      UngroupThousands(head, sep);
      UngroupStep(GroupThousands(head, sep), head, tail, sep);
    } else {
      WithoutAbsent(ds, sep);
    }
  }

  lemma UngroupStep(g: string, head: string, tail: string, sep: char)
    requires Without(g, sep) == head && sep !in tail
    ensures Without(g + [sep] + tail, sep) == head + tail
  {
    var a := g + [sep];
    assert Without(a, sep) == head by {
      WithoutAppend(g, [sep], sep);
      WithoutSeparator(sep);
    }
    assert Without(tail, sep) == tail by {
      WithoutAbsent(tail, sep);
    }
    WithoutAppend(a, tail, sep);
  }

  lemma WithoutSeparator(sep: char)
    ensures Without([sep], sep) == []
  {
    assert [sep][..0] == [];
  }

  /** Where the separators stand: exactly at every fourth place counted from
      the right end, so each group after the first has three digits and the
      first has one to three. */
  lemma {:induction false} GroupLayout(ds: string, sep: char)
    requires 1 <= |ds| && sep !in ds
    ensures var r := GroupThousands(ds, sep);
      |r| % 4 != 0 &&
      forall k :: 0 <= k < |r| ==> (r[k] == sep <==> (|r| - k) % 4 == 0)
    decreases |ds|
  {
    var r := GroupThousands(ds, sep);
    if |ds| <= 3 {
      assert r == ds;
      forall k | 0 <= k < |r| ensures (r[k] == sep <==> (|r| - k) % 4 == 0) {
        assert r[k] in ds;
      }
    } else {
      var head, tail := ds[..|ds| - 3], ds[|ds| - 3..];
      assert sep !in tail by {
        forall k | 0 <= k < 3 ensures tail[k] != sep {
          assert tail[k] in ds;
        }
      }
      GroupLayout(head, sep);
      LayoutExtend(GroupThousands(head, sep), sep, tail);
    }
  }

  /** Adding a separator and three more digits keeps the separators at every fourth place. */
  lemma LayoutExtend(g: string, sep: char, tail: string)
    requires |tail| == 3 && sep !in tail && |g| % 4 != 0
    requires forall k :: 0 <= k < |g| ==> (g[k] == sep <==> (|g| - k) % 4 == 0)
    ensures var r := g + [sep] + tail;
      |r| % 4 != 0 &&
      forall k :: 0 <= k < |r| ==> (r[k] == sep <==> (|r| - k) % 4 == 0)
  {
    var r := g + [sep] + tail;
    assert |r| == |g| + 4;
    ShiftByFour(|g|);
    forall k | 0 <= k < |r| ensures (r[k] == sep <==> (|r| - k) % 4 == 0) {
      if k < |g| {
        assert r[k] == g[k];
        ShiftByFour(|g| - k);
      } else if k > |g| {
        assert r[k] == tail[k - |g| - 1];
        assert 1 <= |r| - k <= 3;
      }
    }
  }

  lemma ShiftByFour(n: int)
    ensures (n + 4) % 4 == n % 4
  {
  }

  /** Writing the commas as points gives the grouping with points. */
  lemma {:induction false} ReplaceGroupSeparator(ds: string, a: char, b: char)
    requires 1 <= |ds| && a !in ds
    ensures Replace(GroupThousands(ds, a), a, b) == GroupThousands(ds, b)
    decreases |ds|
  {
    if |ds| <= 3 {
      var r := Replace(ds, a, b);
      assert forall k :: 0 <= k < |ds| ==> ds[k] != a;
      assert r == ds;
    } else {
      var head, tail := ds[..|ds| - 3], ds[|ds| - 3..];
      ReplaceGroupSeparator(head, a, b);
      var g := GroupThousands(head, a);
      var whole := g + [a] + tail;
      var r := Replace(whole, a, b);
      var want := GroupThousands(head, b) + [b] + tail;
      assert |r| == |want|;
      forall k | 0 <= k < |r| ensures r[k] == want[k] {
        if k < |g| {
          assert whole[k] == g[k];
          assert Replace(g, a, b)[k] == r[k];
        } else if k > |g| {
          assert whole[k] == tail[k - |g| - 1];
          assert tail[k - |g| - 1] in ds;
        }
      }
    }
  }

  lemma {:induction false} ReplaceAppend(a: string, b: string, x: char, y: char)
    ensures Replace(a + b, x, y) == Replace(a, x, y) + Replace(b, x, y)
  {
    var l, r := Replace(a + b, x, y), Replace(a, x, y) + Replace(b, x, y);
    forall k | 0 <= k < |l| ensures l[k] == r[k] {
      if k < |a| {
        assert (a + b)[k] == a[k];
      } else {
        assert (a + b)[k] == b[k - |a|];
      }
    }
  }

  lemma DigitsExclude(s: string, c: char)
    requires AllDigits(s) && !IsDigit(c)
    ensures c !in s
  {
  }

  lemma {:induction false} GroupFirst(ds: string, sep: char)
    requires 1 <= |ds|
    ensures GroupThousands(ds, sep)[0] == ds[0]
    decreases |ds|
  {
    if |ds| > 3 {
      GroupFirst(ds[..|ds| - 3], sep);
    }
  }

  /** The comma-grouped text, with the commas replaced by points for Español,
      is the digits grouped by the language's separator. */
  lemma SeparatedGroups(v: int, lang: Language)
    ensures (if lang == Spanish then Replace(CommaGrouped(v), ',', '.') else CommaGrouped(v))
      == (if v < 0 then "-" else "") + GroupThousands(DecimalString(Abs(v)), Separator(lang))
  {
    var ds := DecimalString(Abs(v));
    var sign := if v < 0 then "-" else "";
    assert CommaGrouped(v) == sign + GroupThousands(ds, ',');
    if lang == Spanish {
      ReplaceSignedGroup(sign, ds);
    }
  }

  lemma ReplaceSignedGroup(sign: string, ds: string)
    requires sign == "" || sign == "-"
    requires 1 <= |ds| && AllDigits(ds)
    ensures Replace(sign + GroupThousands(ds, ','), ',', '.') == sign + GroupThousands(ds, '.')
  {
    DigitsExclude(ds, ',');
    ReplaceGroupSeparator(ds, ',', '.');
    ReplaceAppend(sign, GroupThousands(ds, ','), ',', '.');
    assert Replace(sign, ',', '.') == sign;
  }

  /** Stripping the "$" and the separators recovers Python's `str` of the number. */
  lemma {:induction false} StripSeparators(v: int, lang: Language)
    ensures var s := FormatInteger(v, lang);
      2 <= |s| && s[0] == '$' && Without(s[1..], Separator(lang)) == IntString(v)
  {
    StripText(FormatInteger(v, lang), v, Separator(lang));
  }

  lemma StripText(s: string, v: int, sep: char)
    requires !IsDigit(sep) && sep != '-'
    requires s == "$" + ((if v < 0 then "-" else "") + GroupThousands(DecimalString(Abs(v)), sep))
    ensures 2 <= |s| && s[0] == '$' && Without(s[1..], sep) == IntString(v)
  {
    var ds := DecimalString(Abs(v));
    var sign := if v < 0 then "-" else "";
    var t := sign + GroupThousands(ds, sep);
    UngroupSigned(sign, ds, sep);
    assert s[1..] == t;
  }

  lemma UngroupSigned(sign: string, ds: string, sep: char)
    requires sign == "" || sign == "-"
    requires 1 <= |ds| && AllDigits(ds) && !IsDigit(sep) && sep != '-'
    ensures Without(sign + GroupThousands(ds, sep), sep) == sign + ds
  {
    DigitsExclude(ds, sep);
    UngroupThousands(ds, sep);
    WithoutAppend(sign, GroupThousands(ds, sep), sep);
    WithoutAbsent(sign, sep);
  }

  /** The money text of a whole number reads back as that number. */
  lemma {:induction false} FormatRoundTrip(v: int, lang: Language)
    ensures ParseMoney(FormatInteger(v, lang), lang) == Some(v)
  {
    var ds, sep := DecimalString(Abs(v)), Separator(lang);
    FormatParts(v, lang);
    ParseUngrouped(ds, sep);
    DecimalRoundTrip(Abs(v));
    ParseSigned(FormatInteger(v, lang), lang, v < 0, Abs(v));
  }

  /** The pieces of a money text that the parser looks at. */
  lemma FormatParts(v: int, lang: Language)
    ensures var s := FormatInteger(v, lang);
      2 <= |s| && s[0] == '$' && (s[1] == '-' <==> v < 0) &&
      (if v < 0 then s[2..] else s[1..]) == GroupThousands(DecimalString(Abs(v)), Separator(lang))
  {
    PartsOfText(FormatInteger(v, lang), v, Separator(lang));
  }

  lemma PartsOfText(s: string, v: int, sep: char)
    requires s == "$" + ((if v < 0 then "-" else "") + GroupThousands(DecimalString(Abs(v)), sep))
    ensures 2 <= |s| && s[0] == '$' && (s[1] == '-' <==> v < 0) &&
      (if v < 0 then s[2..] else s[1..]) == GroupThousands(DecimalString(Abs(v)), sep)
  {
    var ds := DecimalString(Abs(v));
    var g := GroupThousands(ds, sep);
    if v < 0 {
      assert s[1] == '-' && s[2..] == g;
    } else {
      GroupFirst(ds, sep);
      assert s[1] == g[0] && s[1..] == g;
    }
  }

  lemma ParseUngrouped(ds: string, sep: char)
    requires 1 <= |ds| && AllDigits(ds) && !IsDigit(sep)
    ensures ParseGroupedDigits(GroupThousands(ds, sep), sep) == Some(DecimalValue(ds))
  {
    DigitsExclude(ds, sep);
    UngroupThousands(ds, sep);
  }

  lemma ParseSigned(s: string, lang: Language, negative: bool, n: nat)
    requires 2 <= |s| && s[0] == '$' && (s[1] == '-' <==> negative)
    requires ParseGroupedDigits(if negative then s[2..] else s[1..], Separator(lang)) == Some(n)
    ensures ParseMoney(s, lang) == Some(if negative then -(n as int) else n)
  {
  }

  /** The rounding picks a nearest integer: no integer is closer to x. */
  lemma RoundIsNearest(x: real, m: int)
    ensures var n := RoundHalfEven(x);
      (if n as real >= x then n as real - x else x - n as real)
      <= (if m as real >= x then m as real - x else x - m as real)
  {
    var f := x.Floor;
    assert f as real <= x < f as real + 1.0;
    if m <= f {
      assert m as real <= f as real;
    } else {
      assert m as real >= f as real + 1.0;
    }
  }

  /** A whole amount is left as it is by the rounding. */
  lemma RoundWhole(v: int)
    ensures RoundHalfEven(v as real) == v
  {
  }
}
