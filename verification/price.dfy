/**
 * The price normaliser of the alert engine (`AlertsManager._parse_price`):
 * a listing's price text becomes a number to compare with an alert's ceiling.
 * It never fails; a missing, "free" or unreadable price counts as 0.
 */
module Price {
  import opened Wrappers
  import opened Text

  /** The currency marker that is stripped: "zł". */
  const Zloty: string := "z\U{0142}"

  /** Tokens that mark a listing as free ("darmowe", "free", "bezpłatne"). */
  const FreeTokens: seq<string> := ["darm", "free", "bezp\U{0142}atn"]

  function Pow10(n: nat): (r: real)
    ensures r >= 1.0
  {
    if n == 0 then 1.0 else 10.0 * Pow10(n - 1)
  }

  /** The value of the digits after a decimal point: "25" is 0.25. */
  function Fraction(digits: string): (r: real)
    requires AllDigits(digits)
    ensures 0.0 <= r
  {
    DigitsValue(digits) as real / Pow10(|digits|)
  }

  /** Length of the run of digits at the front of `s`. */
  function LeadingDigits(s: string): (k: nat)
    ensures k <= |s| && AllDigits(s[..k])
    ensures k < |s| ==> !IsDigit(s[k])
    decreases |s|
  {
    if s != [] && IsDigit(s[0]) then
      var k' := LeadingDigits(s[1..]);
      assert s[..k' + 1] == [s[0]] + s[1..][..k'];
      k' + 1
    else 0
  }

  /** An unsigned decimal literal: digits, optionally a point and more digits, at least one digit in all. */
  function ParseUnsigned(s: string): Option<real>
  {
    var k := LeadingDigits(s);
    ReadNumber(s[..k], s[k..])
  }

  /** The literal whose leading digits are `whole`, followed by `rest`. */
  function ReadNumber(whole: string, rest: string): Option<real>
    requires AllDigits(whole)
  {
    if rest == [] then
      (if whole == [] then None else Some(DigitsValue(whole) as real))
    else if rest[0] != '.' || !AllDigits(rest[1..]) || (whole == [] && |rest| == 1) then None
    else Some(DigitsValue(whole) as real + Fraction(rest[1..]))
  }

  predicate HasSign(s: string)
  {
    s != [] && (s[0] == '+' || s[0] == '-')
  }

  /** `s` without its sign, if it has one. */
  function Magnitude(s: string): string
  {
    if HasSign(s) then s[1..] else s
  }

  /** A decimal literal with an optional sign. */
  function ParseDecimal(s: string): Option<real>
  {
    match ParseUnsigned(Magnitude(s))
    case None => None
    case Some(v) => Some(if HasSign(s) && s[0] == '-' then -v else v)
  }

  /** Python's `float(s)` on the decimal literals it accepts; `None` where it raises `ValueError`. */
  function ParseFloat(s: string): Option<real>
  {
    ParseDecimal(Strip(s))
  }

  /** Lower-case, drop "zł" and spaces, turn the decimal comma into a point. */
  function Clean(s: string): string
  {
    ReplaceAll(ReplaceAll(ReplaceAll(Lower(s), Zloty, ""), " ", ""), ",", ".")
  }

  predicate MentionsFree(clean: string)
  {
    Contains(clean, FreeTokens[0]) || Contains(clean, FreeTokens[1]) || Contains(clean, FreeTokens[2])
  }

  /** `_parse_price`: the number a price text stands for, 0 when there is none. */
  function ParsePrice(price: Option<string>): (r: real)
    ensures price.None? || price == Some("") ==> r == 0.0
    ensures price.Some? && MentionsFree(Clean(price.value)) ==> r == 0.0
    ensures price.Some? && ParseFloat(Clean(price.value)).None? ==> r == 0.0
  {
    if price.None? || price.value == "" then 0.0
    else
      var clean := Clean(price.value);
      if MentionsFree(clean) then 0.0
      else ParseFloat(clean).GetOr(0.0)
  }

  // ---------------------------------------------------------------------------
  // Properties.

  /** The cleaned text never holds a space or a comma, so a comma can only act as the decimal point. */
  lemma CleanHasNoSeparators(s: string)
    ensures ' ' !in Clean(s) && ',' !in Clean(s)
  {
    var a := ReplaceAll(Lower(s), Zloty, "");
    var b := ReplaceAll(a, " ", "");
    ReplaceCharRemovesIt(a, ' ', "");
    ReplaceCharRemovesIt(b, ',', ".");
    forall i | 0 <= i < |Clean(s)| ensures Clean(s)[i] != ' ' {
      ReplaceKeepsAbsentChar(b, ',', ".", ' ');
    }
  }

  /** Replacing one character by text without `x` never introduces `x`. */
  lemma {:induction false} ReplaceKeepsAbsentChar(s: string, c: char, rep: string, x: char)
    requires x !in s && x !in rep
    ensures x !in ReplaceAll(s, [c], rep)
    decreases |s|
  {
    if |s| >= 1 {
      ReplaceKeepsAbsentChar(s[1..], c, rep, x);
    }
  }

  /** After a run of digits, parsing goes on with what follows it. */
  lemma ParseAfterDigits(w: string, rest: string)
    requires AllDigits(w)
    requires rest != [] ==> !IsDigit(rest[0])
    ensures ParseUnsigned(w + rest) == ReadNumber(w, rest)
  {
    LeadingDigitsOfNumber(w, rest);
    assert (w + rest)[..|w|] == w;
    assert (w + rest)[|w|..] == rest;
  }

  lemma ReadPointed(w: string, frac: string)
    requires w != [] && AllDigits(w) && AllDigits(frac)
    ensures ReadNumber(w, "." + frac) == Some(DigitsValue(w) as real + Fraction(frac))
  {
    assert ("." + frac)[1..] == frac;
  }

  /** Text starting with a digit has no sign. */
  lemma DigitFirstUnsigned(s: string)
    requires s != [] && IsDigit(s[0])
    ensures ParseDecimal(s) == ParseUnsigned(s)
  {
  }

  /** Digits, a point and digits, read as a decimal literal. */
  lemma DigitsPointDigits(w: string, frac: string)
    requires w != [] && AllDigits(w) && AllDigits(frac)
    ensures ParseDecimal(w + "." + frac) == Some(DigitsValue(w) as real + Fraction(frac))
  {
    var s := w + ("." + frac);
    assert w + "." + frac == s;
    ParseAfterDigits(w, "." + frac);
    ReadPointed(w, frac);
    assert s[0] == w[0];
    DigitFirstUnsigned(s);
  }

  /** Digits alone, read as a decimal literal. */
  lemma DigitsOnly(w: string)
    requires w != [] && AllDigits(w)
    ensures ParseDecimal(w) == Some(DigitsValue(w) as real)
  {
    ParseAfterDigits(w, "");
    assert w + "" == w;
    DigitFirstUnsigned(w);
  }

  /** Reading `n.frac` as a decimal literal gives `n` plus the fraction. */
  lemma DecimalRoundTrip(n: nat, frac: string)
    requires AllDigits(frac)
    ensures ParseDecimal(NatToString(n) + "." + frac) ==
            Some(n as real + Fraction(frac))
  {
    DigitsPointDigits(NatToString(n), frac);
    NatToStringRoundTrip(n);
  }

  /** Reading `str(n)` as a decimal literal gives `n`. */
  lemma WholeRoundTrip(n: nat)
    ensures ParseDecimal(NatToString(n)) == Some(n as real)
  {
    DigitsOnly(NatToString(n));
    NatToStringRoundTrip(n);
  }

  lemma {:induction false} LeadingDigitsOfNumber(w: string, rest: string)
    requires AllDigits(w)
    requires rest != [] ==> !IsDigit(rest[0])
    ensures LeadingDigits(w + rest) == |w|
    decreases |w|
  {
    if w != [] {
      assert (w + rest)[1..] == w[1..] + rest;
      LeadingDigitsOfNumber(w[1..], rest);
    } else {
      assert w + rest == rest;
    }
  }

  /** Digits, a point and digits: no whitespace at either end, none of the free tokens. */
  lemma PlainNumberFacts(t: string)
    requires t != [] && IsDigit(t[0]) && IsDigit(t[|t| - 1])
    requires forall i :: 0 <= i < |t| ==> IsDigit(t[i]) || t[i] == '.'
    ensures Strip(t) == t
    ensures !MentionsFree(t)
  {
    StripOfTrimmed(t);
    NoOccurrenceWithoutChar(t, FreeTokens[0], 0);
    NoOccurrenceWithoutChar(t, FreeTokens[1], 0);
    NoOccurrenceWithoutChar(t, FreeTokens[2], 0);
  }

  /** A price text whose cleaned form is a plain number is read as that number. */
  lemma PriceOfPlainNumber(raw: string, t: string)
    requires raw != [] && Clean(raw) == t
    requires t != [] && IsDigit(t[0]) && IsDigit(t[|t| - 1])
    requires forall i :: 0 <= i < |t| ==> IsDigit(t[i]) || t[i] == '.'
    ensures ParsePrice(Some(raw)) == ParseDecimal(t).GetOr(0.0)
  {
    PlainNumberFacts(t);
  }

  /** Dropping a trailing "zł". */
  lemma DropTrailingZloty(head: string)
    requires forall i :: 0 <= i < |head| ==> head[i] != Zloty[0]
    ensures ReplaceAll(head + Zloty, Zloty, "") == head
  {
    ReplaceSkipsPlainPrefix(head, Zloty, Zloty, "");
    ReplaceAtFront([], Zloty, "");
    assert Zloty + [] == Zloty;
    assert head + [] == head;
  }

  /** Dropping a trailing space. */
  lemma DropTrailingSpace(head: string)
    requires ' ' !in head
    ensures ReplaceAll(head + " ", " ", "") == head
  {
    ReplaceSkipsPlainPrefix(head, " ", " ", "");
    ReplaceAtFront([], " ", "");
    assert " " + [] == " ";
    assert head + [] == head;
  }

  /** Turning the one comma of `w,frac` into a point. */
  lemma CommaToPoint(w: string, frac: string)
    requires AllDigits(w) && AllDigits(frac)
    ensures ReplaceAll(w + "," + frac, ",", ".") == w + "." + frac
  {
    assert w + "," + frac == w + ("," + frac);
    ReplaceSkipsPlainPrefix(w, "," + frac, ",", ".");
    ReplaceAtFront(frac, ",", ".");
    ReplaceLeavesPlain(frac, ",", ".");
    assert w + ("." + frac) == w + "." + frac;
  }

  /** What `Clean` makes of `n,frac zł`. */
  lemma CleanOfPolishPrice(w: string, frac: string)
    requires AllDigits(w) && AllDigits(frac)
    ensures Clean(w + "," + frac + " " + Zloty) == w + "." + frac
  {
    var head := w + "," + frac;
    var raw := head + " " + Zloty;
    LowerOfLowered(raw);
    assert raw == (head + " ") + Zloty;
    DropTrailingZloty(head + " ");
    DropTrailingSpace(head);
    CommaToPoint(w, frac);
  }

  /** What `Clean` makes of `n zł`. */
  lemma CleanOfWholePrice(w: string)
    requires AllDigits(w)
    ensures Clean(w + " " + Zloty) == w
  {
    var raw := w + " " + Zloty;
    LowerOfLowered(raw);
    assert raw == (w + " ") + Zloty;
    DropTrailingZloty(w + " ");
    DropTrailingSpace(w);
    ReplaceLeavesPlain(w, ",", ".");
  }

  /**
   * A price written the Polish way, `n,frac zł` (for instance "29,99 zł"),
   * is read with the comma as the decimal point.
   */
  lemma PriceWithDecimalComma(n: nat, frac: string)
    requires AllDigits(frac) && frac != []
    ensures ParsePrice(Some(NatToString(n) + "," + frac + " " + Zloty)) ==
            n as real + Fraction(frac)
  {
    var w := NatToString(n);
    var t := w + "." + frac;
    CleanOfPolishPrice(w, frac);
    PriceOfPlainNumber(w + "," + frac + " " + Zloty, t);
    DecimalRoundTrip(n, frac);
  }

  /** A whole amount followed by the currency, such as "1999 zł", is read as that amount. */
  lemma PriceOfWholeAmount(n: nat)
    ensures ParsePrice(Some(NatToString(n) + " " + Zloty)) == n as real
  {
    var w := NatToString(n);
    CleanOfWholePrice(w);
    PriceOfPlainNumber(w + " " + Zloty, w);
    WholeRoundTrip(n);
  }

  /** Small ASCII letters only. */
  predicate SmallLetters(t: string)
  {
    forall i :: 0 <= i < |t| ==> 'a' <= t[i] <= 'z'
  }

  /** A word of small letters is its own lower case. */
  lemma SmallLettersAreLower(t: string)
    requires SmallLetters(t)
    ensures Lower(t) == t
  {
    LowerOfLowered(t);
  }

  /** A text whose lower case is a word of small letters without "z" is cleaned to that word. */
  lemma CleanOfWord(s: string)
    requires SmallLetters(Lower(s)) && 'z' !in Lower(s)
    ensures Clean(s) == Lower(s)
  {
    var l := Lower(s);
    ReplaceLeavesPlain(l, Zloty, "");
    ReplaceLeavesPlain(l, " ", "");
    ReplaceLeavesPlain(l, ",", ".");
  }

  lemma FractionOfNinetyNine()
    ensures Fraction("99") == 0.99
  {
    assert DigitsValue("99") == 99 by {
      assert "9" == [] + ['9'];
      DigitsValueAppend("", '9');
      DigitsValueAppend("9", '9');
    }
    assert Pow10(2) == 100.0;
  }

  /** "29,99 zł" is 29.99. */
  lemma ExampleDecimalComma()
    ensures ParsePrice(Some("29,99 z\U{0142}")) == 29.99
  {
    assert NatToString(29) == "29";
    assert "29,99 z\U{0142}" == NatToString(29) + "," + "99" + " " + Zloty;
    PriceWithDecimalComma(29, "99");
    FractionOfNinetyNine();
  }

  /** A price whose cleaned text starts with one of the free tokens is free, whatever follows. */
  lemma PriceOfFreeWord(raw: string, k: nat)
    requires raw != [] && k < |FreeTokens| && StartsWith(Clean(raw), FreeTokens[k])
    ensures ParsePrice(Some(raw)) == 0.0
  {
    ContainsPrefix(Clean(raw), FreeTokens[k]);
  }

  /** A word of letters is no number: its price is 0. */
  lemma PriceOfWord(raw: string)
    requires raw != [] && SmallLetters(raw) && 'z' !in raw
    ensures ParsePrice(Some(raw)) == 0.0
  {
    SmallLettersAreLower(raw);
    CleanOfWord(raw);
    StripOfTrimmed(raw);
    assert LeadingDigits(raw) == 0;
  }

  /** "Darmowa" ("free") is 0. */
  lemma ExampleFree()
    ensures ParsePrice(Some("Darmowa")) == 0.0
  {
    var raw := "Darmowa";
    var word := "darmowa";
    assert Clean(raw) == word by {
      assert Lower(raw) == word by {
        assert raw == ['D'] + word[1..];
        LowerCons('D', word[1..]);
        LowerOfLowered(word[1..]);
      }
      CleanOfPlain(word);
    }
    assert StartsWith(word, FreeTokens[0]);
    PriceOfFreeWord(raw, 0);
  }

  /** A text without "z", spaces or commas comes out of the replace chain unchanged. */
  lemma CleanOfPlain(w: string)
    requires forall i :: 0 <= i < |w| ==> w[i] != 'z' && w[i] != ' ' && w[i] != ','
    ensures ReplaceAll(ReplaceAll(ReplaceAll(w, Zloty, ""), " ", ""), ",", ".") == w
  {
    ReplaceLeavesPlain(w, Zloty, "");
    ReplaceLeavesPlain(w, " ", "");
    ReplaceLeavesPlain(w, ",", ".");
  }

  /**
   * A lower-case text without spaces or commas, whose only "z" is followed by
   * something other than "ł", comes out of the replace chain unchanged.
   */
  lemma CleanAroundZ(a: string, b: string)
    requires forall i :: 0 <= i < |a| ==> a[i] != 'z' && a[i] != ' ' && a[i] != ','
    requires forall i :: 0 <= i < |b| ==> b[i] != 'z' && b[i] != ' ' && b[i] != ','
    requires b != [] && b[0] != Zloty[1]
    ensures ReplaceAll(ReplaceAll(ReplaceAll(a + ("z" + b), Zloty, ""), " ", ""), ",", ".") == a + ("z" + b)
  {
    var zb := "z" + b;
    assert ReplaceAll(zb, Zloty, "") == zb by {
      assert zb[..2] != Zloty by { assert zb[..2][1] == b[0]; }
      assert zb[1..] == b;
      ReplaceLeavesPlain(b, Zloty, "");
    }
    ReplaceSkipsPlainPrefix(a, zb, Zloty, "");
    var w := a + zb;
    assert forall i :: 0 <= i < |w| ==> w[i] != ' ' && w[i] != ',' by {
      forall i | 0 <= i < |w| ensures w[i] != ' ' && w[i] != ',' {
        if i < |a| { assert w[i] == a[i]; }
        else if i > |a| { assert w[i] == b[i - |a| - 1]; }
      }
    }
    ReplaceLeavesPlain(w, " ", "");
    ReplaceLeavesPlain(w, ",", ".");
  }

  /**
   * "Bezpłatne" ("free of charge") is 0: its "z" is not followed by "ł", so
   * the currency removal leaves it alone and the third token is found.
   */
  lemma ExampleFreePolish()
    ensures ParsePrice(Some("Bezp\U{0142}atne")) == 0.0
  {
    var raw := "Bezp\U{0142}atne";
    var word := "bezp\U{0142}atne";
    assert Clean(raw) == word by {
      var rest := "p\U{0142}atne";
      assert Lower(raw) == word by {
        assert raw == ['B'] + ("e" + ("z" + rest));
        LowerCons('B', "e" + ("z" + rest));
        LowerOfLowered("e" + ("z" + rest));
      }
      assert word == "be" + ("z" + rest);
      CleanAroundZ("be", rest);
    }
    assert StartsWith(word, FreeTokens[2]);
    PriceOfFreeWord(raw, 2);
  }

  /** Text that is no number is 0. */
  lemma ExampleGarbage()
    ensures ParsePrice(Some("garbage")) == 0.0
  {
    PriceOfWord("garbage");
  }
}
