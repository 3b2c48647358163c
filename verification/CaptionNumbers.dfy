/** Times and elements that the caption printer does not write: decimals, exponents, signs, and unfinished elements. */
module CaptionNumbers {
  import opened Text
  import opened Decimal
  import opened Captions
  import opened CaptionPrinting

  // ---------- Numbers ----------

  lemma {:induction false} DigitRunIs(a: string, b: string)
    requires AllDigits(a) && (b == [] || !IsDigit(b[0]))
    ensures DigitRun(a + b) == |a|
  {
    if a == [] {
      assert a + b == b;
    } else {
      assert (a + b)[1..] == a[1..] + b;
      DigitRunIs(a[1..], b);
    }
  }

  lemma {:induction false} TensAndTenths(k: nat)
    ensures Power(10.0, k) == Power10(k) as real
    ensures Power(0.1, k) * Power10(k) as real == 1.0
  {
    if k > 0 {
      TensAndTenths(k - 1);
      TenTimes(Power(0.1, k - 1), Power10(k - 1));
    }
  }

  lemma TenTimes(t: real, p: nat)
    requires t * p as real == 1.0
    ensures 0.1 * t * (10 * p) as real == 1.0
  {
    assert 0.1 * t * (10.0 * p as real) == t * p as real;
  }

  /** Powers of ten and of a tenth undo each other. */
  lemma {:induction false} ScaleTimes(k: nat)
    ensures Scale(k) == Power10(k) as real
    ensures Scale(-(k as int)) * Power10(k) as real == 1.0
  {
    TensAndTenths(k);
    if k == 0 { TensAndTenths(0); }
  }

  lemma ScaleZero()
    ensures Scale(0) == 1.0
  {
  }

  /** "n.m" is n and m over a power of ten, one for each digit after the point. */
  lemma {:induction false} ParseFraction(n: nat, m: nat, width: nat) returns (x: real)
    requires width > 0 && m < Power10(width)
    ensures ParseFloat(Print(n) + ("." + Pad(m, width))) == Some(Finite(x))
    ensures x * Power10(width) as real == n as real * Power10(width) as real + m as real
  {
    hide Print, Pad, Value, Scale, ToLower;
    var whole, frac := Print(n), Pad(m, width);
    var s := whole + ("." + frac);
    PadLength(m, width);
    DigitRunIs(whole, "." + frac);
    DigitRunIs(frac, "");
    assert frac + "" == frac;
    assert s[..|whole|] == whole && s[|whole|] == '.' && s[|whole| + 1..] == frac;
    assert frac[..|frac|] == frac && frac[|frac|..] == "";
    assert s[0] == whole[0] && IsDigit(s[0]);
    x := Magnitude(whole, frac, 0);
    ScaleZero();
    ScaleTimes(width);
    assert x == n as real + m as real * Scale(-(width as int));
    TimesTens(n as real, m as real, Scale(-(width as int)), Power10(width) as real);
  }

  lemma TimesTens(n: real, m: real, t: real, p: real)
    requires t * p == 1.0
    ensures (n + m * t) * p == n * p + m
  {
    assert m * t * p == m * (t * p);
  }

  /** "nek" is n times ten to the k. */
  lemma {:induction false} ParseLarge(n: nat, k: nat, e: char)
    requires e == 'e' || e == 'E'
    ensures ParseFloat(Print(n) + ([e] + Print(k))) == Some(Finite(n as real * Power10(k) as real))
  {
    hide Print, Value, Scale, ToLower, ParseFloat, Magnitude;
    WholeMagnitude(Print(n), k);
    ScaleTimes(k);
    ExponentText(k, e);
    ParseWithExponent(Print(n), [e] + Print(k), k);
  }

  /** "ne-k" is what times ten to the k is n. */
  lemma {:induction false} ParseSmall(n: nat, k: nat, e: char) returns (x: real)
    requires e == 'e' || e == 'E'
    ensures ParseFloat(Print(n) + ([e] + ("-" + Print(k)))) == Some(Finite(x)) && x * Power10(k) as real == n as real
  {
    hide Print, Value, Scale, ToLower, ParseFloat, Magnitude;
    x := Magnitude(Print(n), "", -(k as int));
    WholeMagnitude(Print(n), -(k as int));
    ScaleTimes(k);
    ExponentText(k, e);
    ParseWithExponent(Print(n), [e] + ("-" + Print(k)), -(k as int));
    TimesTens(0.0, n as real, Scale(-(k as int)), Power10(k) as real);
  }

  lemma {:induction false} ExponentText(k: nat, e: char)
    requires e == 'e' || e == 'E'
    ensures ParseExponent([e] + Print(k)) == Some(k) && ParseExponent([e] + ("-" + Print(k))) == Some(-(k as int))
  {
    hide Print, Value;
    assert ([e] + Print(k))[1..] == Print(k) && ([e] + ("-" + Print(k)))[1..] == "-" + Print(k) && ("-" + Print(k))[1..] == Print(k);
  }

  lemma WholeMagnitude(digits: string, e: int)
    requires AllDigits(digits)
    ensures Magnitude(digits, "", e) == Value(digits) as real * Scale(e)
  {
    ValueOfNothing();
  }

  lemma {:induction false} ParseWithExponent(digits: string, exponent: string, e: int)
    requires digits != [] && AllDigits(digits) && exponent != [] && (exponent[0] == 'e' || exponent[0] == 'E')
    ensures ParseExponent(exponent) == Some(e) ==>
      ParseFloat(digits + exponent) == Some(Finite(Magnitude(digits, "", e)))
  {
    hide Value, ParseExponent, Magnitude, ToLower;
    var s := digits + exponent;
    DigitRunIs(digits, exponent);
    assert s[..|digits|] == digits && s[|digits|..] == exponent && s[|digits|] == exponent[0];
    assert s[0] == digits[0] && IsDigit(s[0]);
  }

  /** A sign in front of a number that has none. */
  lemma {:induction false} ParseSigned(s: string)
    requires !StartsWith(s, '+') && !StartsWith(s, '-')
    ensures ParseFloat("+" + s) == ParseFloat(s)
    ensures ParseFloat("-" + s) == match ParseFloat(s) case None => None case Some(x) => Some(Negated(x))
  {
    hide ParseMagnitude;
    assert ("+" + s)[1..] == s && ("-" + s)[1..] == s;
  }

  const UPPER := "ABCDEFGHIJKLMNOPQRSTUVWXYZ"
  const LOWER := "abcdefghijklmnopqrstuvwxyz"

  /** Capital letters become small ones; all other characters stay. */
  lemma {:induction false} LowerEach(s: string, i: nat, k: nat)
    requires i < |s| && k < 26
    ensures s[i] == UPPER[k] ==> ToLower(s)[i] == LOWER[k]
    ensures s[i] !in UPPER ==> ToLower(s)[i] == s[i]
  {
    LettersInRow(k);
    if 'A' <= s[i] <= 'Z' {
      LettersInRow(s[i] as int - 'A' as int);
      assert UPPER[s[i] as int - 'A' as int] == s[i];
    }
  }

  lemma LettersInRow(k: nat)
    requires k < 26
    ensures UPPER[k] as int == 'A' as int + k && LOWER[k] as int == 'a' as int + k
  {
  }

  /** The words for what is no finite number, and that no other word is read as one. */
  lemma {:induction false} ParseWords(s: string)
    requires s != [] && !IsDigit(s[0]) && s[0] !in "+-."
    ensures ParseFloat(s)
         == if ToLower(s) == "inf" || ToLower(s) == "infinity" then Some(Infinity(false))
            else if ToLower(s) == "nan" then Some(NaN)
            else None
  {
    hide ToLower;
    assert DigitRun(s) == 0;
  }

  /** Infinite times stay infinite, but those of opposite signs have no sum; there is nothing to add to what is no number. */
  lemma SumsOfFloats(x: Float, y: Float, a: real, b: real, negative: bool)
    ensures Plus(Finite(a), Finite(b)) == Finite(a + b)
    ensures Plus(Infinity(negative), Finite(a)) == Infinity(negative) == Plus(Finite(a), Infinity(negative))
    ensures Plus(Infinity(negative), Infinity(negative)) == Infinity(negative)
    ensures Plus(Infinity(negative), Infinity(!negative)) == NaN
    ensures x == NaN || y == NaN ==> Plus(x, y) == NaN
    ensures Thousandth(Finite(1000.0 * a)) == Finite(a) && (!x.Finite? ==> Thousandth(x) == x)
  {
  }

  // ---------- Elements ----------

  /** An element makes no segment exactly when its start is missing or no number, or its text is blank. */
  lemma {:induction false} SegmentDecided(attrs: string, inner: string)
    ensures var t := AttrValue(attrs, "t");
      SegmentOf(attrs, inner) == [] <==> t.None? || ParseFloat(t.value).None? || Blank(Decode(Stripped(inner, false)))
    ensures |SegmentOf(attrs, inner)| <= 1
  {
    hide AttrValue, ParseFloat, Decode, Stripped, TrimStart, TrimEnd, Thousandth, Plus, Blank;
    var text := Decode(Stripped(inner, false));
    assert Trim(text) == [] <==> Blank(text) by { BlankTrim(text); }
  }

  lemma BlankTrim(s: string)
    ensures Trim(s) == [] <==> Blank(s)
  {
    var t := TrimStart(s);
    assert t != [] ==> !Blank(t);
  }

  /** A duration that is missing, or no number, is none. */
  lemma {:induction false} BadDurationIsNone(attrs: string, inner: string)
    requires SegmentOf(attrs, inner) != []
    requires AttrValue(attrs, "d").None? || ParseFloat(AttrValue(attrs, "d").value).None?
    ensures var s := SegmentOf(attrs, inner)[0];
      s.start.Finite? ==> s.end == s.start
  {
    hide AttrValue, ParseFloat, Decode, Stripped, Trim;
  }

  /** An element whose end tag is missing takes all that follows; one whose tag does not close is not read. */
  lemma {:induction false} UnfinishedElement(gap: string, c: Caption, body: string)
    requires NoElementIn(gap) && Find(body, "</p>").None?
    ensures NextElement(gap + (PrintAttrs(c) + (">" + body))) == Element(PrintAttrs(c), body, "")
    ensures NextElement(gap + (PrintAttrs(c) + "")) == NoElement
  {
    hide PrintAttrs, Find, NoElementIn;
    var a := PrintAttrs(c);
    var xml := gap + (a + (">" + body));
    FindElement(gap, c, ">" + body);
    FindElement(gap, c, "");
    AttrsHaveNoEnd(c, body);
    assert xml[|gap|..] == a + (">" + body);
    assert (a + (">" + body))[..|a|] == a && (a + (">" + body))[|a| + 1..] == body;
    assert (gap + (a + ""))[|gap|..] == a + "";
    NoEndAtAll(c);
  }

  lemma {:induction false} NoEndAtAll(c: Caption)
    ensures Find(PrintAttrs(c) + "", ">") == None
  {
    hide Print;
    var a := PrintAttrs(c) + "";
    forall j | 0 <= j
      ensures !At(a, ">", j)
    {
      AtFirst(a, ">", j);
      if j < |a| { NoAngleInAttrs(c, j); }
    }
  }
}
