/** Retail prices: `calculateFinalPrice` (app.js:1625-1634) reads the
    wholesale price text and adds the fixed 1000 margin, and `formatPrice`
    (app.js:429-432, 1673-1676) prints a price with a space between groups of
    three digits. Numbers are exact reals: floating-point rounding is not
    modelled. */
module Pricing {
  import opened Wrappers
  import opened Text
  import opened Numbers

  /** The number of decimal digits at the start of `s`. */
  function LeadingDigits(s: string): (k: nat)
    ensures k <= |s| && AllDigits(s[..k])
    ensures k < |s| ==> !IsDigit(s[k])
  {
    if s == [] || !IsDigit(s[0]) then 0
    else
      var k := 1 + LeadingDigits(s[1..]);
      assert forall i :: 1 <= i < k ==> s[..k][i] == s[1..][..k - 1][i - 1];
      k
  }

  /** The value of the digits after a decimal point: 0.d₁d₂… = (d₁ + 0.d₂…) / 10. */
  function FractionValue(d: string): (v: real)
    requires AllDigits(d)
    ensures 0.0 <= v < 1.0
  {
    if d == [] then 0.0
    else
      assert AllDigits(d[1..]) by { forall i | 0 <= i < |d| - 1 ensures IsDigit(d[1..][i]) { assert d[1..][i] == d[i + 1]; } }
      (DigitValue(d[0]) as real + FractionValue(d[1..])) / 10.0
  }

  /** Whether `s` starts with a sign character. */
  function SignLength(s: string): nat {
    if s != [] && (s[0] == '+' || s[0] == '-') then 1 else 0
  }

  /** The digits before the decimal point of the number at the start of `u`. */
  function WholeDigits(u: string): (w: string)
    ensures AllDigits(w) && w <= u
  {
    u[..LeadingDigits(u)]
  }

  /** The digits after the decimal point, when one follows the whole digits. */
  function FracDigits(u: string): (fr: string)
    ensures AllDigits(fr)
  {
    var rest := u[LeadingDigits(u)..];
    if rest != [] && rest[0] == '.' then rest[1..][..LeadingDigits(rest[1..])] else []
  }

  /** `parseFloat(s)` for text without leading white space: the longest prefix
      made of an optional sign, digits and an optional `.` followed by digits
      is read; `None` is NaN, when that prefix holds no digit at all. */
  function ParseFloat(s: string): (r: Option<real>)
    ensures var u := s[SignLength(s)..];
      r.None? <==> WholeDigits(u) == [] && FracDigits(u) == []
    ensures r.Some? && SignLength(s) == 0 ==> r.value >= 0.0
  {
    var u := s[SignLength(s)..];
    var whole, frac := WholeDigits(u), FracDigits(u);
    if whole == [] && frac == [] then None
    else
      var v := DigitsValue(whole) as real + FractionValue(frac);
      Some(if SignLength(s) == 1 && s[0] == '-' then -v else v)
  }

  /** `Math.round(x)`: the nearest integer, halves rounded up. */
  function Round(x: real): (n: int)
    ensures x - 0.5 < n as real <= x + 0.5
  {
    (x + 0.5).Floor
  }

  /** The text `calculateFinalPrice` hands to `parseFloat`: the first comma
      becomes a decimal point, then every white-space character is removed. */
  function CleanPrice(optPrice: string): string {
    StripSpaces(ReplaceFirst(optPrice, ',', '.'))
  }

  /** `calculateFinalPrice(optPrice)`: the empty (falsy) price and a text that
      does not parse both give 0; otherwise the parsed value plus 1000, rounded. */
  function CalculateFinalPrice(optPrice: string): (price: int)
    ensures optPrice == [] ==> price == 0
    ensures ParseFloat(CleanPrice(optPrice)).None? ==> price == 0
  {
    if optPrice == [] then 0
    else match ParseFloat(CleanPrice(optPrice))
      case None => 0
      case Some(v) => Round(v + 1000.0)
  }

  /** A non-empty price text whose cleaned form parses as `v` is priced at `v + 1000`, rounded. */
  lemma FinalPriceOfParsed(s: string, v: real)
    requires s != [] && ParseFloat(CleanPrice(s)) == Some(v)
    ensures CalculateFinalPrice(s) == Round(v + 1000.0)
  {
  }

  lemma RoundInt(n: int)
    ensures Round(n as real) == n
  {
  }

  /** Reading the digits of a whole string. */
  lemma ParseDigits(s: string)
    requires s != [] && AllDigits(s)
    ensures ParseFloat(s) == Some(DigitsValue(s) as real)
  {
    LeadingDigitsAll(s);
    assert s[..|s|] == s && s[|s|..] == [];
    assert WholeDigits(s) == s && FracDigits(s) == [];
    assert SignLength(s) == 0 by { assert IsDigit(s[0]); }
    ParseUnsigned(s);
    assert FractionValue([]) == 0.0;
  }

  lemma {:induction false} LeadingDigitsAll(s: string)
    requires AllDigits(s)
    ensures LeadingDigits(s) == |s|
  {
    if s != [] {
      assert IsDigit(s[0]);
      LeadingDigitsAll(s[1..]);
    }
  }

  /** A digit string holds no comma and no white space. */
  lemma DigitsPlain(s: string)
    requires AllDigits(s)
    ensures ',' !in s
    ensures forall i :: 0 <= i < |s| ==> !IsSpace(s[i])
  {
    forall i | 0 <= i < |s| ensures s[i] != ',' && !IsSpace(s[i]) { assert IsDigit(s[i]); }
  }

  /** A plain digit string `n` is priced at `n + 1000`. */
  lemma FinalPriceOfDigits(s: string)
    requires s != [] && AllDigits(s)
    ensures CalculateFinalPrice(s) == DigitsValue(s) + 1000
  {
    DigitsPlain(s);
    assert CleanPrice(s) == s;
    ParseDigits(s);
    RoundInt(DigitsValue(s) + 1000);
  }

  /** JavaScript's spelling of an integer holds no comma and no white space. */
  lemma IntToStringPlain(n: int)
    ensures ',' !in IntToString(n)
    ensures CleanPrice(IntToString(n)) == IntToString(n)
  {
    var s := IntToString(n);
    var d := NatToString(if n < 0 then -n else n);
    assert forall i :: 0 <= i < |s| ==> s[i] == '-' || IsDigit(s[i]) by {
      forall i | 0 <= i < |s| ensures s[i] == '-' || IsDigit(s[i]) {
        if n < 0 && i > 0 { assert s[i] == s[1..][i - 1]; }
      }
    }
    assert ',' !in s;
    assert ReplaceFirst(s, ',', '.') == s;
  }

  /** The price text of an integer, as JavaScript prints it, reads back as that integer. */
  lemma FinalPriceOfInt(n: int)
    ensures CalculateFinalPrice(IntToString(n)) == n + 1000
  {
    var s := IntToString(n);
    IntToStringPlain(n);
    if n >= 0 {
      ParseDigits(s);
    } else {
      var d := NatToString(-n);
      ParseDigits(d);
      assert s[1..] == d;
    }
    RoundInt(n + 1000);
  }

  /** A decimal comma is read as a decimal point: the cleaned text of "a,f" parses as a + 0.f,
      so by FinalPriceOfParsed its price is that value plus 1000, rounded. */
  lemma ParseDecimalComma(a: string, f: string)
    requires a != [] && AllDigits(a) && f != [] && AllDigits(f)
    ensures CleanPrice(a + "," + f) == a + "." + f
    ensures ParseFloat(CleanPrice(a + "," + f)) == Some(DigitsValue(a) as real + FractionValue(f))
  {
    CleanDecimalComma(a, f);
    ParseDecimal(a, f);
  }

  lemma CleanDecimalComma(a: string, f: string)
    requires AllDigits(a) && AllDigits(f)
    ensures CleanPrice(a + "," + f) == a + "." + f
  {
    var t := a + "." + f;
    DigitsPlain(a);
    DigitsPlain(f);
    ReplaceFirstAt(a, ',', '.', f);
    forall i | 0 <= i < |t| ensures !IsSpace(t[i]) {
      if i < |a| { assert t[i] == a[i]; }
      else if i > |a| { assert t[i] == f[i - |a| - 1]; }
    }
  }

  lemma ParseDecimal(a: string, f: string)
    requires a != [] && AllDigits(a) && f != [] && AllDigits(f)
    ensures ParseFloat(a + "." + f) == Some(DigitsValue(a) as real + FractionValue(f))
  {
    var t := a + "." + f;
    assert SignLength(t) == 0 by { assert t[0] == a[0] && IsDigit(a[0]); }
    WholeOfDecimal(a, f);
    FracOfDecimal(a, f);
    ParseUnsigned(t);
  }

  /** Text without a sign reads as its whole digits plus its fraction digits. */
  lemma ParseUnsigned(t: string)
    requires SignLength(t) == 0 && WholeDigits(t) != []
    ensures ParseFloat(t) == Some(DigitsValue(WholeDigits(t)) as real + FractionValue(FracDigits(t)))
  {
    assert t[SignLength(t)..] == t;
  }

  lemma WholeOfDecimal(a: string, f: string)
    requires AllDigits(a)
    ensures LeadingDigits(a + "." + f) == |a|
    ensures WholeDigits(a + "." + f) == a
  {
    var t := a + "." + f;
    LeadingDigitsPrefix(a, "." + f);
    assert t == a + ("." + f);
    assert t[..|a|] == a;
  }

  lemma FracOfDecimal(a: string, f: string)
    requires AllDigits(a) && AllDigits(f)
    ensures FracDigits(a + "." + f) == f
  {
    var t := a + "." + f;
    WholeOfDecimal(a, f);
    LeadingDigitsAll(f);
    var rest := t[|a|..];
    assert rest == "." + f;
    assert rest[0] == '.' && rest[1..] == f;
    assert f[..|f|] == f;
  }

  lemma {:induction false} LeadingDigitsPrefix(a: string, b: string)
    requires AllDigits(a) && (b == [] || !IsDigit(b[0]))
    ensures LeadingDigits(a + b) == |a|
  {
    if a == [] {
      assert a + b == b;
    } else {
      assert IsDigit(a[0]);
      assert (a + b)[0] == a[0] && (a + b)[1..] == a[1..] + b;
      LeadingDigitsPrefix(a[1..], b);
    }
  }

  lemma {:induction false} ReplaceFirstAt(a: string, from: char, to: char, b: string)
    requires from !in a
    ensures ReplaceFirst(a + [from] + b, from, to) == a + [to] + b
  {
    if a == [] {
      assert a + [from] + b == [from] + b;
      assert ([from] + b)[1..] == b;
    } else {
      var rest := a[1..] + [from] + b;
      ConsRegroup(a, [from], b);
      ConsRegroup(a, [to], b);
      assert from !in a[1..];
      ReplaceFirstAt(a[1..], from, to, b);
      ReplaceFirstCons(a[0], rest, from, to);
    }
  }

  lemma ConsRegroup(a: string, x: string, b: string)
    requires a != []
    ensures [a[0]] + (a[1..] + x + b) == a + x + b
  {
    assert a == [a[0]] + a[1..];
  }

  lemma ReplaceFirstCons(c: char, t: string, from: char, to: char)
    requires c != from
    ensures ReplaceFirst([c] + t, from, to) == [c] + ReplaceFirst(t, from, to)
  {
    assert ([c] + t)[1..] == t;
  }

  /** A price text whose first character cannot start a number is priced at 0. */
  lemma FinalPriceOfText(s: string)
    requires s != [] && !IsSpace(s[0]) && !IsDigit(s[0])
    requires s[0] != '+' && s[0] != '-' && s[0] != '.' && s[0] != ','
    ensures CalculateFinalPrice(s) == 0
  {
    var c := CleanPrice(s);
    assert ReplaceFirst(s, ',', '.')[0] == s[0];
    assert c[0] == s[0];
  }

  /** White space anywhere in the price text is ignored. */
  lemma SpacesIgnored(a: string, sp: char, b: string)
    requires IsSpace(sp)
    ensures CleanPrice(a + [sp] + b) == CleanPrice(a + b)
  {
    ReplaceFirstSplit(a, [sp] + b);
    ReplaceFirstSplit(a, b);
    assert a + [sp] + b == a + ([sp] + b);
    if ',' in a {
      StripSpacesConcat(ReplaceFirst(a, ',', '.'), [sp] + b);
      StripSpacesConcat(ReplaceFirst(a, ',', '.'), b);
      assert ([sp] + b)[1..] == b;
    } else {
      assert ReplaceFirst([sp] + b, ',', '.') == [sp] + ReplaceFirst(b, ',', '.');
      StripSpacesConcat(a, [sp] + ReplaceFirst(b, ',', '.'));
      StripSpacesConcat(a, ReplaceFirst(b, ',', '.'));
      assert ([sp] + ReplaceFirst(b, ',', '.'))[1..] == ReplaceFirst(b, ',', '.');
    }
  }

  lemma {:induction false} ReplaceFirstSplit(a: string, b: string)
    ensures ReplaceFirst(a + b, ',', '.') ==
      if ',' in a then ReplaceFirst(a, ',', '.') + b else a + ReplaceFirst(b, ',', '.')
  {
    if a == [] {
      assert a + b == b;
    } else {
      assert (a + b)[0] == a[0] && (a + b)[1..] == a[1..] + b;
      if a[0] != ',' {
        ReplaceFirstSplit(a[1..], b);
        assert ',' in a <==> ',' in a[1..];
      }
    }
  }

  /** `formatPrice`'s regular expression on the digits of a number: a space
      before every position followed by a multiple of three digits. */
  function Group(d: string): string {
    if |d| <= 3 then d else Group(d[..|d| - 3]) + " " + d[|d| - 3..]
  }

  /** `formatPrice(price)` for an integer price: 0 (falsy) prints as "0". */
  function FormatPrice(price: int): string {
    if price == 0 then "0"
    else if price < 0 then "-" + Group(NatToString(-price))
    else Group(NatToString(price))
  }

  /** Every character of `Group(d)` is a digit or a space. */
  lemma {:induction false} GroupChars(d: string)
    requires AllDigits(d)
    ensures forall i :: 0 <= i < |Group(d)| ==> Group(d)[i] == ' ' || IsDigit(Group(d)[i])
    decreases |d|
  {
    if |d| > 3 {
      var init := d[..|d| - 3];
      var last := d[|d| - 3..];
      GroupChars(init);
      var g := Group(init) + " " + last;
      forall i | 0 <= i < |g| ensures g[i] == ' ' || IsDigit(g[i]) {
        if i < |Group(init)| {
          assert g[i] == Group(init)[i];
        } else if i > |Group(init)| {
          assert g[i] == last[i - |Group(init)| - 1];
        }
      }
    }
  }

  /** The groups of a digit string: the first holds one to three digits, the
      others exactly three, and joined with spaces they give the formatted text. */
  lemma {:induction false} GroupShape(d: string)
    requires d != [] && AllDigits(d)
    ensures var g := Split(Group(d), ' ');
      && 1 <= |g[0]| <= 3
      && (forall i :: 1 <= i < |g| ==> |g[i]| == 3)
      && Join(g, " ") == Group(d)
    decreases |d|
  {
    JoinSplit(Group(d), ' ');
    if |d| <= 3 {
      NoSpaceInDigits(d);
      assert IsSpace(' ');
      SplitNoSep(d, ' ');
    } else {
      var init := d[..|d| - 3];
      var last := d[|d| - 3..];
      GroupShape(init);
      NoSpaceInDigits(last);
      assert IsSpace(' ');
      SplitAppend(Group(init), ' ', last);
      assert Group(d) == Group(init) + [' '] + last;
    }
  }

  /** Removing the spaces of the grouped digits gives the digits back. */
  lemma {:induction false} GroupStrip(d: string)
    requires AllDigits(d)
    ensures StripSpaces(Group(d)) == d
    decreases |d|
  {
    if |d| <= 3 {
      NoSpaceInDigits(d);
    } else {
      var init := d[..|d| - 3];
      var last := d[|d| - 3..];
      var g := Group(init);
      GroupStrip(init);
      NoSpaceInDigits(last);
      assert Group(d) == (g + " ") + last;
      StripSpacesConcat(g + " ", last);
      StripSpacesConcat(g, " ");
      assert IsSpace(' ') && " "[1..] == [];
      assert StripSpaces(" ") == [];
      assert StripSpaces(g + " ") == init;
      assert init + last == d;
    }
  }

  lemma NoSpaceInDigits(d: string)
    requires AllDigits(d)
    ensures forall i :: 0 <= i < |d| ==> !IsSpace(d[i])
    ensures StripSpaces(d) == d
  {
    forall i | 0 <= i < |d| ensures !IsSpace(d[i]) { assert IsDigit(d[i]); }
  }

  /** Removing the spaces of a formatted price gives JavaScript's plain spelling of the number. */
  lemma FormatPriceDigits(price: int)
    ensures StripSpaces(FormatPrice(price)) == IntToString(price)
  {
    if price > 0 {
      GroupStrip(NatToString(price));
    } else if price < 0 {
      GroupStrip(NatToString(-price));
      StripSpacesConcat("-", Group(NatToString(-price)));
    }
  }

  /** A formatted price holds a leading minus, digits and spaces, and no comma. */
  lemma FormatPriceNoComma(price: int)
    ensures ',' !in FormatPrice(price)
  {
    var s := FormatPrice(price);
    if price != 0 {
      var d := NatToString(if price < 0 then -price else price);
      GroupChars(d);
      forall i | 0 <= i < |s| ensures s[i] != ',' {
        if price < 0 && i > 0 {
          assert s[i] == Group(d)[i - 1];
        }
      }
    }
  }

  /** A formatted price, read back as a price text, gives that price plus the margin. */
  lemma FormatPriceReadBack(price: int)
    ensures CalculateFinalPrice(FormatPrice(price)) == price + 1000
  {
    var s := FormatPrice(price);
    FormatPriceDigits(price);
    FormatPriceNoComma(price);
    IntToStringPlain(price);
    assert ReplaceFirst(s, ',', '.') == s;
    assert CleanPrice(s) == CleanPrice(IntToString(price));
    FinalPriceOfInt(price);
  }
}
