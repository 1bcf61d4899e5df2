/** Properties of the heading level heuristic. */
module HeadingLevelLemmas {
  import opened Text
  import opened DoclingConvert

  /** `t.upper() == t` holds exactly when `t` has no lower-case letter. */
  lemma UpperFixedIff(t: string)
    ensures Upper(t) == t <==> forall i :: 0 <= i < |t| ==> !IsLowerChar(t[i])
  {
    if Upper(t) == t {
      forall i | 0 <= i < |t| ensures !IsLowerChar(t[i]) {
        assert Upper(t)[i] == ToUpperChar(t[i]);
      }
    }
  }

  /** "H1" is exactly short all-caps text: after stripping, at most 40
      characters, some letter, and no lower-case letter. */
  lemma LevelH1Iff(text: string)
    ensures var t := Strip(text);
      HeadingLevelGuess(text) == "H1" <==>
        && |t| <= 40
        && (exists i :: 0 <= i < |t| && IsAlpha(t[i]))
        && (forall i :: 0 <= i < |t| ==> !IsLowerChar(t[i]))
  {
    UpperFixedIff(Strip(text));
  }

  /** Blank text is "H2". */
  lemma BlankIsH2(text: string)
    requires AllSpace(text)
    ensures HeadingLevelGuess(text) == "H2"
  {
    StripInfix(text);
    var a, b :| AllSpace(a) && AllSpace(b) && text == a + Strip(text) + b;
    var t := Strip(text);
    forall i | 0 <= i < |t| ensures IsSpace(t[i]) {
      assert t[i] == text[|a| + i];
    }
  }

  /** When stripping leaves a text whose first character is not white space,
      that character leads the stripped text. */
  lemma StripKeepsFirst(w: string)
    requires w != [] && !IsSpace(w[0])
    ensures Strip(w) != [] && Strip(w)[0] == w[0]
  {
    StripInfix(w);
    var a, b :| AllSpace(a) && AllSpace(b) && w == a + Strip(w) + b;
    if a != [] {
      assert false;
    }
    if Strip(w) == [] {
      assert false;
    }
    assert w[0] == (a + Strip(w) + b)[0];
  }

  /** A numeric first token needs a leading digit. */
  lemma NumericPrefixStartsWithDigit(t: string)
    requires t != [] && Stripped(t)
    requires NumericPrefix(t)
    ensures IsDigit(t[0])
  {
    var window := t[..if |t| < 3 then |t| else 3];
    assert window[0] == t[0];
    StripKeepsFirst(window);
    var s := Strip(window);
    var token := TakeUntil(s, ' ');
    assert s[0] != ' ';
    assert token != [] && token[0] == t[0];
    var digits := StripRightChar(token, '.');
    assert digits != [] && digits[0] == t[0];
  }

  /** Text that does not start with a digit is "H1" when it is short all-caps
      and "H2" otherwise; it is never "H3". */
  lemma NonDigitStart(text: string)
    requires var t := Strip(text); t != [] && !IsDigit(t[0])
    ensures HeadingLevelGuess(text) == (if ShortAllCaps(Strip(text)) then "H1" else "H2")
  {
    var t := Strip(text);
    if NumericPrefix(t) {
      NumericPrefixStartsWithDigit(t);
    }
  }

  /** "H3" is a text that starts with a digit but is neither short all-caps
      nor numbered. */
  lemma LevelH3Iff(text: string)
    ensures var t := Strip(text);
      HeadingLevelGuess(text) == "H3" <==>
        t != [] && IsDigit(t[0]) && !ShortAllCaps(t) && !NumericPrefix(t)
  {
  }

  /** Stripping first changes nothing. */
  lemma LevelOfStripped(text: string)
    ensures HeadingLevelGuess(Strip(text)) == HeadingLevelGuess(text)
  {
    StripIdempotent(text);
  }

  /** Past the all-caps test only the first three characters matter. */
  lemma LevelLooksAtThreeCharacters(a: string, b: string)
    requires |Strip(a)| >= 3 && |Strip(b)| >= 3
    requires Strip(a)[..3] == Strip(b)[..3]
    requires !ShortAllCaps(Strip(a)) && !ShortAllCaps(Strip(b))
    ensures HeadingLevelGuess(a) == HeadingLevelGuess(b)
  {
    assert Strip(a)[0] == Strip(a)[..3][0];
    assert Strip(b)[0] == Strip(b)[..3][0];
  }

  /** Worked cases of the heuristic: a short all-caps numbered heading is
      "H1", and blank text is "H2". */
  lemma CapsAndBlankExamples()
    ensures HeadingLevelGuess("1. SCOPE") == "H1"
    ensures HeadingLevelGuess("") == "H2"
  {
    assert Strip("1. SCOPE") == "1. SCOPE";
    assert IsAlpha("1. SCOPE"[3]);
    UpperFixedIff("1. SCOPE");
  }

  /** Worked case: a single-digit number with a dot is "H2". */
  lemma NumberedExample()
    ensures HeadingLevelGuess("1. Scope") == "H2"
  {
    var t := "1. Scope";
    assert Strip(t) == t;
    assert IsLowerChar(t[4]);
    UpperFixedIff(t);
    assert !ShortAllCaps(t);
    assert t[..3] == "1. ";
    assert Strip("1. ") == "1.";
    assert TakeUntil("1.", ' ') == "1.";
    assert StripRightChar("1.", '.') == "1";
    assert NumericPrefix(t);
  }

  /** Worked case: a dotted subsection number is "H3", because its first
      three characters are no number. */
  lemma SubsectionExample()
    ensures HeadingLevelGuess("1.2 Scope") == "H3"
  {
    var t := "1.2 Scope";
    assert Strip(t) == t;
    assert IsLowerChar(t[5]);
    UpperFixedIff(t);
    assert !ShortAllCaps(t);
    assert t[..3] == "1.2";
    assert Strip("1.2") == "1.2";
    assert TakeUntil("1.2", ' ') == "1.2";
    assert StripRightChar("1.2", '.') == "1.2";
    assert !IsDigit("1.2"[1]);
    assert !NumericPrefix(t);
  }

  /** Worked case: a bare number with a trailing dot is "H2"; having no letter,
      it is not all-caps. */
  lemma BareNumberExample()
    ensures HeadingLevelGuess("10.") == "H2"
  {
    var t := "10.";
    assert Strip(t) == t;
    assert !ShortAllCaps(t) by {
      assert forall i :: 0 <= i < |t| ==> !IsAlpha(t[i]);
    }
    assert t[..3] == t;
    assert TakeUntil(t, ' ') == t;
    assert StripRightChar(t, '.') == "10";
    assert NumericPrefix(t);
  }

  /** Worked case: a digit glued to a word is "H3". */
  lemma GluedDigitExample()
    ensures HeadingLevelGuess("2Test") == "H3"
  {
    var t := "2Test";
    assert Strip(t) == t;
    assert IsLowerChar(t[2]);
    UpperFixedIff(t);
    assert !ShortAllCaps(t);
    assert t[..3] == "2Te";
    assert Strip("2Te") == "2Te";
    assert TakeUntil("2Te", ' ') == "2Te";
    assert StripRightChar("2Te", '.') == "2Te";
    assert !IsDigit("2Te"[1]);
    assert !NumericPrefix(t);
  }

  /** Worked case: ordinary title-case text is "H2". */
  lemma PlainExample()
    ensures HeadingLevelGuess("Introduction") == "H2"
  {
    var t := "Introduction";
    assert Strip(t) == t;
    assert IsLowerChar(t[1]);
    UpperFixedIff(t);
    NonDigitStart(t);
  }
}
