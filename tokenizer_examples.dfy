/**
 * Worked examples of the tokenizer with its default bounds 1..5: the number
 * of distinct n-grams a profile holds after collecting a short text.  The
 * platform's tables enter as hypotheses about the few characters involved.
 */
module TokenizerExamples {
  import opened Wrappers
  import opened Tokenizers

  /** The distinct n-grams the default tokenizer collects from `text`. */
  function DistinctGrams(text: string, isLetter: char -> bool, lower: char -> char): set<string> {
    Tally(map[], NGramsOf(Tokens(text, isLetter), 1, 5, lower)).Keys
  }

  /** The n-grams of the padded token " a ": the blank windows " " are skipped. */
  lemma GramsOfA()
    ensures TokenGrams(" a ", 1, 5) == ["a", " a", "a ", " a "]
  {
    var t := " a ";
    assert t[0..1] == " " && t[1..2] == "a" && t[2..3] == " ";
    assert t[1..2][0] == 'a';
    assert Blank(t[0..1]) && !Blank(t[1..2]) && Blank(t[2..3]);
    assert Windows(t, 1, 2) == [];
    assert Windows(t, 1, 1) == ["a"];
    assert Windows(t, 1, 0) == ["a"];
    assert t[0..2] == " a" && t[1..3] == "a ";
    assert t[0..2][1] == 'a' && t[1..3][0] == 'a' && t[1] == 'a';
    assert Windows(t, 2, 1) == ["a "];
    assert Windows(t, 2, 0) == [" a", "a "];
    assert t[0..3] == t && !Blank(t);
    assert Windows(t, 3, 0) == [" a "];
    assert TokenGrams(t, 4, 5) == [];
    assert TokenGrams(t, 3, 5) == [" a "];
    assert TokenGrams(t, 2, 5) == [" a", "a ", " a "];
  }

  /** A letter that lower-cases to `a` is prepared as " a ". */
  lemma PrepareA(w: string, lower: char -> char)
    requires w == "a" || w == "A"
    requires lower('a') == 'a' && lower('A') == 'a'
    ensures PrepareToken(w, lower) == Some(" a ")
  {
    TrimKeeps(w);
    assert w[1..] == [];
    assert LowerCase(w, lower) == [lower(w[0])] + LowerCase([], lower) == "a";
    assert "a"[1..] == [];
    assert LowerCase("a", lower) == [lower('a')] + LowerCase([], lower) == "a";
    assert [Pad] + "a" + [Pad] == " a ";
  }

  /** The four n-grams of " a " are distinct. */
  lemma FourGrams()
    ensures |Tally(map[], ["a", " a", "a ", " a "]).Keys| == 4
  {
    var gs := ["a", " a", "a ", " a "];
    TallyKeys(gs);
    assert " a"[0] != "a "[0];
    assert (set g | g in gs) == {"a", " a", "a ", " a "};
  }

  /** The n-grams of a token that lower-cases to "a". */
  lemma GramsOfLetterA(w: string, lower: char -> char)
    requires w == "a" || w == "A"
    requires lower('a') == 'a' && lower('A') == 'a'
    ensures RawTokenGrams(w, 1, 5, lower) == ["a", " a", "a ", " a "]
  {
    PrepareA(w, lower);
    GramsOfA();
  }

  /** "a" yields the four n-grams "a", " a", "a " and " a ". */
  lemma SingleLetter(isLetter: char -> bool, lower: char -> char)
    requires isLetter('a') && lower('a') == 'a' && lower('A') == 'a'
    ensures |DistinctGrams("a", isLetter, lower)| == 4
  {
    TokensOfWord("a", isLetter);
    GramsOfLetterA("a", lower);
    var gs := ["a", " a", "a ", " a "];
    assert ["a"][1..] == [];
    assert NGramsOf(["a"], 1, 5, lower) == gs + [];
    assert gs + [] == gs;
    FourGrams();
  }

  /** The text after "a " holds no letter, so it has no token. */
  lemma SymbolsOnly(isLetter: char -> bool)
    requires forall c | c in " )!2190$%" :: !isLetter(c)
    ensures Tokens(")! 2190 $%", isLetter) == []
  {
    var rest := ")! 2190 $%";
    assert IsGap(rest, isLetter);
    TokensOfGap(rest, [], isLetter);
    assert rest + [] == rest;
  }

  /** "a )! 2190 $%" yields the n-grams of "a" alone: non-letters only delimit. */
  lemma IgnoresNonLetters(isLetter: char -> bool, lower: char -> char)
    requires isLetter('a') && lower('a') == 'a' && lower('A') == 'a'
    requires forall c | c in " )!2190$%" :: !isLetter(c)
    ensures DistinctGrams("a )! 2190 $%", isLetter, lower) == DistinctGrams("a", isLetter, lower)
    ensures |DistinctGrams("a )! 2190 $%", isLetter, lower)| == 4
  {
    var rest := ")! 2190 $%";
    assert "a )! 2190 $%" == "a" + [' '] + rest;
    TokensAfterWord("a", ' ', rest, isLetter);
    SymbolsOnly(isLetter);
    TokensOfWord("a", isLetter);
    SingleLetter(isLetter, lower);
  }

  /** "a A a" yields the same four n-grams: the tokens agree once lower-cased. */
  lemma CaseFolding(isLetter: char -> bool, lower: char -> char)
    requires isLetter('a') && isLetter('A') && !isLetter(' ')
    requires lower('a') == 'a' && lower('A') == 'a'
    ensures |DistinctGrams("a A a", isLetter, lower)| == 4
  {
    var ws := ["a", "A", "a"];
    TokensOfJoin(ws, ' ', isLetter);
    assert Join(ws, ' ') == "a A a";
    var gs := ["a", " a", "a ", " a "];
    GramsOfLetterA("a", lower);
    GramsOfLetterA("A", lower);
    assert ws[1..][1..] == ["a"] && ws[1..] == ["A", "a"];
    assert NGramsOf(ws, 1, 5, lower) == gs + (gs + (gs + []));
    TallyKeys(gs + (gs + (gs + [])));
    TallyKeys(gs);
    assert (set g | g in gs + (gs + (gs + []))) == set g | g in gs;
    FourGrams();
  }

  /** The windows of " hi ", one lemma per length, computed position by position. */
  lemma HiWindows1()
    ensures Windows(" hi ", 1, 0) == ["h", "i"]
  {
    var t := " hi ";
    assert t[3..4] == " " && Blank(t[3..4]);
    assert Windows(t, 1, 3) == [];
    assert t[2..3] == "i" && t[2..3][0] == 'i';
    assert Windows(t, 1, 2) == ["i"];
    assert t[1..2] == "h" && t[1..2][0] == 'h';
    assert Windows(t, 1, 1) == ["h", "i"];
    assert t[0..1] == " " && Blank(t[0..1]);
  }

  lemma HiWindows2()
    ensures Windows(" hi ", 2, 0) == [" h", "hi", "i "]
  {
    var t := " hi ";
    assert t[2..4] == "i " && t[2..4][0] == 'i';
    assert Windows(t, 2, 2) == ["i "];
    assert t[1..3] == "hi" && t[1..3][0] == 'h';
    assert Windows(t, 2, 1) == ["hi", "i "];
    assert t[0..2] == " h" && t[0..2][1] == 'h';
  }

  lemma HiWindows3()
    ensures Windows(" hi ", 3, 0) == [" hi", "hi "]
  {
    var t := " hi ";
    assert t[1..4] == "hi " && t[1..4][0] == 'h';
    assert Windows(t, 3, 1) == ["hi "];
    assert t[0..3] == " hi" && t[0..3][1] == 'h';
  }

  lemma HiWindows4()
    ensures Windows(" hi ", 4, 0) == [" hi "]
  {
    var t := " hi ";
    assert t[0..4] == " hi " && t[0..4][1] == 'h';
  }

  /** The eight n-grams of the padded token " hi ", by length and then by position. */
  lemma GramsOfHi()
    ensures TokenGrams(" hi ", 1, 5) == ["h", "i"] + ([" h", "hi", "i "] + ([" hi", "hi "] + [" hi "]))
  {
    var t := " hi ";
    HiWindows1();
    HiWindows2();
    HiWindows3();
    HiWindows4();
    assert TokenGrams(t, 5, 5) == [];
    assert TokenGrams(t, 4, 5) == [" hi "] + [];
    assert TokenGrams(t, 3, 5) == [" hi", "hi "] + [" hi "];
    assert TokenGrams(t, 2, 5) == [" h", "hi", "i "] + ([" hi", "hi "] + [" hi "]);
  }

  /** The windows of " you ", one lemma per length, computed position by position. */
  lemma YouWindows1()
    ensures Windows(" you ", 1, 0) == ["y", "o", "u"]
  {
    var t := " you ";
    assert t[4..5] == " " && Blank(t[4..5]);
    assert Windows(t, 1, 4) == [];
    assert t[3..4] == "u" && t[3..4][0] == 'u';
    assert Windows(t, 1, 3) == ["u"];
    assert t[2..3] == "o" && t[2..3][0] == 'o';
    assert Windows(t, 1, 2) == ["o", "u"];
    assert t[1..2] == "y" && t[1..2][0] == 'y';
    assert Windows(t, 1, 1) == ["y", "o", "u"];
    assert t[0..1] == " " && Blank(t[0..1]);
  }

  lemma YouWindows2()
    ensures Windows(" you ", 2, 0) == [" y", "yo", "ou", "u "]
  {
    var t := " you ";
    assert t[3..5] == "u " && t[3..5][0] == 'u';
    assert Windows(t, 2, 3) == ["u "];
    assert t[2..4] == "ou" && t[2..4][0] == 'o';
    assert Windows(t, 2, 2) == ["ou", "u "];
    assert t[1..3] == "yo" && t[1..3][0] == 'y';
    assert Windows(t, 2, 1) == ["yo", "ou", "u "];
    assert t[0..2] == " y" && t[0..2][1] == 'y';
  }

  lemma YouWindows3()
    ensures Windows(" you ", 3, 0) == [" yo", "you", "ou "]
  {
    var t := " you ";
    assert t[2..5] == "ou " && t[2..5][0] == 'o';
    assert Windows(t, 3, 2) == ["ou "];
    assert t[1..4] == "you" && t[1..4][0] == 'y';
    assert Windows(t, 3, 1) == ["you", "ou "];
    assert t[0..3] == " yo" && t[0..3][1] == 'y';
  }

  lemma YouWindows4()
    ensures Windows(" you ", 4, 0) == [" you", "you "]
  {
    var t := " you ";
    assert t[1..5] == "you " && t[1..5][0] == 'y';
    assert Windows(t, 4, 1) == ["you "];
    assert t[0..4] == " you" && t[0..4][1] == 'y';
  }

  lemma YouWindows5()
    ensures Windows(" you ", 5, 0) == [" you "]
  {
    var t := " you ";
    assert t[0..5] == " you " && t[0..5][1] == 'y';
  }

  /** The thirteen n-grams of the padded token " you ", by length and then by position. */
  lemma GramsOfYou()
    ensures TokenGrams(" you ", 1, 5) == ["y", "o", "u"] + ([" y", "yo", "ou", "u "] + ([" yo", "you", "ou "] + ([" you", "you "] + [" you "])))
  {
    var t := " you ";
    YouWindows1();
    YouWindows2();
    YouWindows3();
    YouWindows4();
    YouWindows5();
    assert TokenGrams(t, 5, 5) == [" you "] + [];
    assert TokenGrams(t, 4, 5) == [" you", "you "] + [" you "];
    assert TokenGrams(t, 3, 5) == [" yo", "you", "ou "] + ([" you", "you "] + [" you "]);
    assert TokenGrams(t, 2, 5) == [" y", "yo", "ou", "u "] + ([" yo", "you", "ou "] + ([" you", "you "] + [" you "]));
  }

  /** The strings of `s` all have length `k`. */
  ghost predicate OfLength(s: set<string>, k: nat) {
    forall g | g in s :: |g| == k
  }

  /** The n-grams of each length are distinct. */
  lemma LettersSize()
    ensures |{"h", "i"} + {"y", "o", "u"}| == 5 && OfLength({"h", "i"} + {"y", "o", "u"}, 1)
  {
  }

  lemma BigramsSize()
    ensures |{" h", "hi", "i "} + {" y", "yo", "ou", "u "}| == 7 && OfLength({" h", "hi", "i "} + {" y", "yo", "ou", "u "}, 2)
  {
  }

  lemma TrigramsSize()
    ensures |{" hi", "hi "} + {" yo", "you", "ou "}| == 5 && OfLength({" hi", "hi "} + {" yo", "you", "ou "}, 3)
  {
  }

  lemma FourgramsSize()
    ensures |{" hi "} + {" you", "you "}| == 3 && OfLength({" hi "} + {" you", "you "}, 4)
  {
  }

  /** Two unions of groups, regrouped group by group. */
  lemma Regroup<T>(a1: set<T>, a2: set<T>, a3: set<T>, a4: set<T>, b1: set<T>, b2: set<T>, b3: set<T>, b4: set<T>, b5: set<T>)
    ensures (a1 + a2 + a3 + a4) + (b1 + b2 + b3 + b4 + b5) == (a1 + b1) + (a2 + b2) + (a3 + b3) + (a4 + b4) + b5
  {
  }

  /** The strings of `s` are all shorter than `k`. */
  ghost predicate ShorterThan(s: set<string>, k: nat) {
    forall g | g in s :: |g| < k
  }

  /** Adding strings longer than all of `a` adds as many distinct strings. */
  lemma AddLonger(a: set<string>, b: set<string>, k: nat)
    requires ShorterThan(a, k) && OfLength(b, k)
    ensures |a + b| == |a| + |b| && ShorterThan(a + b, k + 1)
  {
    assert a !! b;
  }

  /** The strings of a concatenation are those of its two parts. */
  lemma ElemsOfAppend(a: seq<string>, b: seq<string>)
    ensures (set g | g in a + b) == (set g | g in a) + (set g | g in b)
  {
  }

  /** The strings of a list of up to four. */
  lemma ElemsOfList(w: seq<string>)
    requires 1 <= |w| <= 4
    ensures |w| == 1 ==> (set g | g in w) == {w[0]}
    ensures |w| == 2 ==> (set g | g in w) == {w[0], w[1]}
    ensures |w| == 3 ==> (set g | g in w) == {w[0], w[1], w[2]}
    ensures |w| == 4 ==> (set g | g in w) == {w[0], w[1], w[2], w[3]}
  {
  }

  /** The distinct n-grams of " hi " and of " you ", grouped by length. */
  lemma HiElems()
    ensures (set g | g in TokenGrams(" hi ", 1, 5)) == {"h", "i"} + {" h", "hi", "i "} + {" hi", "hi "} + {" hi "}
  {
    GramsOfHi();
    var w1, w2, w3, w4 := ["h", "i"], [" h", "hi", "i "], [" hi", "hi "], [" hi "];
    ElemsOfAppend(w3, w4);
    ElemsOfAppend(w2, w3 + w4);
    ElemsOfAppend(w1, w2 + (w3 + w4));
    ElemsOfList(w1);
    ElemsOfList(w2);
    ElemsOfList(w3);
    ElemsOfList(w4);
  }

  lemma YouElems()
    ensures (set g | g in TokenGrams(" you ", 1, 5)) ==
      {"y", "o", "u"} + {" y", "yo", "ou", "u "} + {" yo", "you", "ou "} + {" you", "you "} + {" you "}
  {
    GramsOfYou();
    var w1, w2, w3, w4, w5 := ["y", "o", "u"], [" y", "yo", "ou", "u "], [" yo", "you", "ou "], [" you", "you "], [" you "];
    ElemsOfAppend(w4, w5);
    ElemsOfAppend(w3, w4 + w5);
    ElemsOfAppend(w2, w3 + (w4 + w5));
    ElemsOfAppend(w1, w2 + (w3 + (w4 + w5)));
    ElemsOfList(w1);
    ElemsOfList(w2);
    ElemsOfList(w3);
    ElemsOfList(w4);
    ElemsOfList(w5);
  }

  /** The 21 n-grams of " hi " and " you " are distinct. */
  lemma TwentyOneGrams()
    ensures |Tally(map[], TokenGrams(" hi ", 1, 5) + TokenGrams(" you ", 1, 5)).Keys| == 21
  {
    var gs := TokenGrams(" hi ", 1, 5) + TokenGrams(" you ", 1, 5);
    TallyKeys(gs);
    ElemsOfAppend(TokenGrams(" hi ", 1, 5), TokenGrams(" you ", 1, 5));
    HiElems();
    YouElems();
    var a1, a2, a3, a4: set<string> := {"h", "i"}, {" h", "hi", "i "}, {" hi", "hi "}, {" hi "};
    var b1, b2, b3, b4, b5: set<string> := {"y", "o", "u"}, {" y", "yo", "ou", "u "}, {" yo", "you", "ou "}, {" you", "you "}, {" you "};
    Regroup(a1, a2, a3, a4, b1, b2, b3, b4, b5);
    LettersSize();
    BigramsSize();
    TrigramsSize();
    FourgramsSize();
    AddLonger(a1 + b1, a2 + b2, 2);
    AddLonger(a1 + b1 + (a2 + b2), a3 + b3, 3);
    AddLonger(a1 + b1 + (a2 + b2) + (a3 + b3), a4 + b4, 4);
    AddLonger(a1 + b1 + (a2 + b2) + (a3 + b3) + (a4 + b4), b5, 5);
  }

  /** "Hi" is prepared as " hi " and "you" as " you ". */
  lemma PrepareHiYou(lower: char -> char)
    requires lower('H') == 'h' && lower('h') == 'h' && lower('i') == 'i'
    requires lower('y') == 'y' && lower('o') == 'o' && lower('u') == 'u'
    ensures PrepareToken("Hi", lower) == Some(" hi ")
    ensures PrepareToken("you", lower) == Some(" you ")
  {
    TrimKeeps("Hi");
    TrimKeeps("you");
    assert "Hi"[1..] == "i" && "hi"[1..] == "i" && "i"[1..] == [];
    assert LowerCase("i", lower) == "i";
    assert LowerCase("Hi", lower) == "hi";
    assert LowerCase("hi", lower) == "hi";
    assert [Pad] + "hi" + [Pad] == " hi ";
    assert "you"[1..] == "ou" && "ou"[1..] == "u" && "u"[1..] == [];
    assert LowerCase("u", lower) == "u";
    assert LowerCase("ou", lower) == "ou";
    assert LowerCase("you", lower) == "you";
    assert [Pad] + "you" + [Pad] == " you ";
  }

  /** "Hi you" yields 21 distinct n-grams: 8 from " hi " and 13 from " you ". */
  lemma TwoWords(isLetter: char -> bool, lower: char -> char)
    requires isLetter('H') && isLetter('i') && isLetter('y') && isLetter('o') && isLetter('u') && !isLetter(' ')
    requires lower('H') == 'h' && lower('h') == 'h' && lower('i') == 'i'
    requires lower('y') == 'y' && lower('o') == 'o' && lower('u') == 'u'
    ensures |DistinctGrams("Hi you", isLetter, lower)| == 21
  {
    var ws := ["Hi", "you"];
    TokensOfJoin(ws, ' ', isLetter);
    assert ws[1..] == ["you"] && ws[1..][1..] == [];
    assert Join(ws, ' ') == "Hi you";
    PrepareHiYou(lower);
    assert NGramsOf(ws, 1, 5, lower) == TokenGrams(" hi ", 1, 5) + (TokenGrams(" you ", 1, 5) + []);
    assert TokenGrams(" you ", 1, 5) + [] == TokenGrams(" you ", 1, 5);
    TwentyOneGrams();
  }
}
