/**
 * Slicing a text into n-grams.  The text is split into tokens, the maximal
 * runs of letters; each token is trimmed, lower-cased and padded with one
 * space on either side, and every window of the padded token whose length
 * lies in minLen..maxLen and which is not all whitespace is counted in the
 * profile.  The profile is finalized at the end.
 *
 * Letter classification and lower-casing are the platform's Unicode tables;
 * they enter the model as the functions `isLetter` and `lower`.
 */
module Tokenizers {
  import opened Wrappers
  import opened Sorting
  import opened NGrams
  import opened Profiles

  /** The padding put around every token. */
  const Pad: char := ' '

  /** Every character is whitespace in the sense of `String.trim`: at most U+0020. */
  predicate Blank(s: string) {
    forall k | 0 <= k < |s| :: s[k] <= ' '
  }

  /** Whitespace before `i` and from `j` on makes the two outer slices blank. */
  lemma BlankEnds(s: string, i: nat, j: nat)
    requires i <= j <= |s|
    requires forall k | 0 <= k < i :: s[k] <= ' '
    requires forall k | j <= k < |s| :: s[k] <= ' '
    ensures Blank(s[..i]) && Blank(s[j..])
  {
    forall k | 0 <= k < i ensures s[..i][k] <= ' ' {
      assert s[..i][k] == s[k];
    }
    forall k | 0 <= k < |s| - j ensures s[j..][k] <= ' ' {
      assert s[j..][k] == s[j + k];
    }
  }

  /** The index of the first character at or after `i` that is not whitespace, or |s|. */
  function SkipBlanks(s: string, i: nat): (n: nat)
    requires i <= |s|
    ensures i <= n <= |s| && (forall k | i <= k < n :: s[k] <= ' ') && (n < |s| ==> s[n] > ' ')
    decreases |s| - i
  {
    if i == |s| || s[i] > ' ' then i else SkipBlanks(s, i + 1)
  }

  /** The index just after the last character before `j` that is not whitespace, or 0. */
  function SkipBlanksBack(s: string, j: nat): (n: nat)
    requires j <= |s|
    ensures n <= j && (forall k | n <= k < j :: s[k] <= ' ') && (n > 0 ==> s[n - 1] > ' ')
  {
    if j == 0 || s[j - 1] > ' ' then j else SkipBlanksBack(s, j - 1)
  }

  /** `String.trim`: `s` without its leading and trailing whitespace. */
  function Trim(s: string): (r: string)
    ensures |r| == 0 <==> Blank(s)
    ensures |r| != 0 ==> r[0] > ' ' && r[|r| - 1] > ' '
  {
    var i := SkipBlanks(s, 0);
    if i == |s| then []
    else
      var j := SkipBlanksBack(s, |s|);
      assert i < j;
      s[i..j]
  }

  /** Trimming removes whitespace at the two ends and nothing else. */
  lemma {:induction false} TrimIsInfix(s: string)
    ensures exists i | 0 <= i <= |s| - |Trim(s)| ::
      Blank(s[..i]) && s[i..i + |Trim(s)|] == Trim(s) && Blank(s[i + |Trim(s)|..])
  {
    var i := SkipBlanks(s, 0);
    if i == |s| {
      assert |Trim(s)| == 0;
      assert s[..0] == [] && s[0..0] == [] && s[0..] == s;
      assert Blank(s[..0]) && s[0..0 + |Trim(s)|] == Trim(s) && Blank(s[0 + |Trim(s)|..]);
    } else {
      var j := SkipBlanksBack(s, |s|);
      assert Trim(s) == s[i..j];
      assert s[i..i + |Trim(s)|] == Trim(s);
      BlankEnds(s, i, j);
      assert i + |Trim(s)| == j;
      assert Blank(s[..i]) && s[i..i + |Trim(s)|] == Trim(s) && Blank(s[i + |Trim(s)|..]);
    }
  }

  /** A string whose ends are not whitespace is its own trim. */
  lemma {:induction false} TrimKeeps(s: string)
    requires |s| == 0 || (s[0] > ' ' && s[|s| - 1] > ' ')
    ensures Trim(s) == s
  {
    if |s| != 0 {
      assert SkipBlanks(s, 0) == 0 && SkipBlanksBack(s, |s|) == |s|;
      assert s[0..|s|] == s;
    }
  }

  /** `String.toLowerCase`, character by character. */
  function LowerCase(s: string, lower: char -> char): (r: string)
    ensures |r| == |s|
  {
    if |s| == 0 then [] else [lower(s[0])] + LowerCase(s[1..], lower)
  }

  /** Lower-casing maps every character through `lower` and keeps the rest in place. */
  lemma {:induction false} LowerCaseAt(s: string, lower: char -> char)
    ensures forall k | 0 <= k < |s| :: LowerCase(s, lower)[k] == lower(s[k])
  {
    if |s| != 0 {
      LowerCaseAt(s[1..], lower);
      forall k | 0 < k < |s| ensures LowerCase(s, lower)[k] == lower(s[k]) {
        assert LowerCase(s, lower)[k] == LowerCase(s[1..], lower)[k - 1];
      }
    }
  }

  /**
   * The prepared token: none when the trimmed token is empty, otherwise the
   * trimmed token lower-cased (twice, as the program does) between two pads.
   */
  function PrepareToken(token: string, lower: char -> char): (r: Option<string>)
    ensures r.None? <==> |Trim(token)| == 0
  {
    var t := LowerCase(Trim(token), lower);
    if |t| != 0 then Some([Pad] + LowerCase(t, lower) + [Pad]) else None
  }

  /** A prepared token is the lower-cased trimmed token between two pads. */
  lemma PrepareTokenShape(token: string, lower: char -> char)
    requires |Trim(token)| != 0
    ensures PrepareToken(token, lower).Some?
    ensures var v := PrepareToken(token, lower).value;
      && |v| == |Trim(token)| + 2
      && v[0] == Pad && v[|v| - 1] == Pad
      && forall k | 0 <= k < |Trim(token)| :: v[k + 1] == lower(lower(Trim(token)[k]))
  {
    var t := LowerCase(Trim(token), lower);
    var u := LowerCase(t, lower);
    var v := PrepareToken(token, lower).value;
    LowerCaseAt(Trim(token), lower);
    LowerCaseAt(t, lower);
    assert v == [Pad] + u + [Pad];
    forall k | 0 <= k < |Trim(token)| ensures v[k + 1] == lower(lower(Trim(token)[k])) {
      assert v[k + 1] == u[k];
    }
  }

  /** A token as the scanner delivers it: a non-empty run of letters. */
  ghost predicate IsWord(w: string, isLetter: char -> bool) {
    |w| != 0 && forall k | 0 <= k < |w| :: isLetter(w[k])
  }

  /** The length of the run of letters at the start of `s`. */
  function LetterRun(s: string, isLetter: char -> bool): (n: nat)
    ensures n <= |s| && (forall k | 0 <= k < n :: isLetter(s[k])) && (n < |s| ==> !isLetter(s[n]))
  {
    if |s| == 0 || !isLetter(s[0]) then 0 else 1 + LetterRun(s[1..], isLetter)
  }

  /** The tokens of `s` for the delimiter "one or more non-letters". */
  function Tokens(s: string, isLetter: char -> bool): (ts: seq<string>)
    ensures forall i | 0 <= i < |ts| :: IsWord(ts[i], isLetter)
    decreases |s|
  {
    if |s| == 0 then []
    else if !isLetter(s[0]) then Tokens(s[1..], isLetter)
    else
      var n := LetterRun(s, isLetter);
      [s[..n]] + Tokens(s[n..], isLetter)
  }

  /** Words joined by one delimiter character. */
  function Join(ws: seq<string>, d: char): string {
    if |ws| == 0 then []
    else if |ws| == 1 then ws[0]
    else ws[0] + [d] + Join(ws[1..], d)
  }

  /** A single word is a single token. */
  lemma {:induction false} TokensOfWord(w: string, isLetter: char -> bool)
    requires IsWord(w, isLetter)
    ensures Tokens(w, isLetter) == [w]
  {
    assert LetterRun(w, isLetter) == |w|;
    assert w[..|w|] == w;
    assert w[|w|..] == [];
  }

  /** A word followed by a delimiter is the first token of the rest. */
  lemma {:induction false} TokensAfterWord(w: string, d: char, rest: string, isLetter: char -> bool)
    requires IsWord(w, isLetter) && !isLetter(d)
    ensures Tokens(w + [d] + rest, isLetter) == [w] + Tokens(rest, isLetter)
  {
    var s := w + [d] + rest;
    assert s[|w|] == d;
    assert LetterRun(s, isLetter) == |w|;
    assert s[..|w|] == w;
    assert s[|w|..] == [d] + rest;
    assert ([d] + rest)[1..] == rest;
  }

  /** Splitting undoes joining: the tokens of words joined by a non-letter are the words. */
  lemma {:induction false} TokensOfJoin(ws: seq<string>, d: char, isLetter: char -> bool)
    requires forall i | 0 <= i < |ws| :: IsWord(ws[i], isLetter)
    requires !isLetter(d)
    ensures Tokens(Join(ws, d), isLetter) == ws
  {
    if |ws| == 1 {
      TokensOfWord(ws[0], isLetter);
    } else if |ws| > 1 {
      TokensOfJoin(ws[1..], d, isLetter);
      TokensAfterWord(ws[0], d, Join(ws[1..], d), isLetter);
    }
  }

  /** A stretch of text the delimiter pattern swallows: no letter in it. */
  ghost predicate IsGap(d: string, isLetter: char -> bool) {
    forall k | 0 <= k < |d| :: !isLetter(d[k])
  }

  /** The text `ds[0] + ws[0] + ds[1] + ... + ws[n - 1] + ds[n]`. */
  function Interleave(ds: seq<string>, ws: seq<string>): string
    requires |ds| == |ws| + 1
    decreases |ws|
  {
    if |ws| == 0 then ds[0] else ds[0] + ws[0] + Interleave(ds[1..], ws[1..])
  }

  /** Non-letters in front of a text add no token and split none. */
  lemma {:induction false} TokensOfGap(d: string, rest: string, isLetter: char -> bool)
    requires IsGap(d, isLetter)
    ensures Tokens(d + rest, isLetter) == Tokens(rest, isLetter)
    decreases |d|
  {
    if |d| == 0 {
      assert d + rest == rest;
    } else {
      assert (d + rest)[0] == d[0];
      assert (d + rest)[1..] == d[1..] + rest;
      TokensOfGap(d[1..], rest, isLetter);
    }
  }

  /** A word that ends the text or is followed by a non-letter is a whole token. */
  lemma {:induction false} TokensOfWordThen(w: string, rest: string, isLetter: char -> bool)
    requires IsWord(w, isLetter) && (|rest| == 0 || !isLetter(rest[0]))
    ensures Tokens(w + rest, isLetter) == [w] + Tokens(rest, isLetter)
  {
    var s := w + rest;
    var n := LetterRun(s, isLetter);
    assert forall k | 0 <= k < |w| :: s[k] == w[k];
    assert |rest| != 0 ==> s[|w|] == rest[0];
    assert n == |w|;
    assert s[..n] == w;
    assert s[n..] == rest;
  }

  /**
   * Uniqueness of the split: words separated by non-empty stretches of
   * non-letters, with any non-letters before the first and after the last,
   * are exactly the tokens of the text.
   */
  lemma {:induction false} TokensOfInterleave(ds: seq<string>, ws: seq<string>, isLetter: char -> bool)
    requires |ds| == |ws| + 1
    requires forall i | 0 <= i < |ws| :: IsWord(ws[i], isLetter)
    requires forall i | 0 <= i < |ds| :: IsGap(ds[i], isLetter)
    requires forall i | 1 <= i < |ws| :: |ds[i]| != 0
    ensures Tokens(Interleave(ds, ws), isLetter) == ws
    decreases |ws|
  {
    if |ws| == 0 {
      TokensOfGap(ds[0], [], isLetter);
      assert ds[0] + [] == ds[0];
    } else {
      var rest := Interleave(ds[1..], ws[1..]);
      TokensOfInterleave(ds[1..], ws[1..], isLetter);
      if |ws| == 1 {
        assert rest == ds[1];
      } else {
        assert rest == ds[1] + ws[1] + Interleave(ds[2..], ws[2..]);
        assert rest[0] == ds[1][0];
      }
      TokensOfWordThen(ws[0], rest, isLetter);
      assert ds[0] + ws[0] + rest == ds[0] + (ws[0] + rest);
      TokensOfGap(ds[0], ws[0] + rest, isLetter);
      assert [ws[0]] + ws[1..] == ws;
    }
  }

  /**
   * The stretches of non-letters around the tokens of `s`: one before each
   * token and one after the last, every inner one non-empty.
   */
  function Gaps(s: string, isLetter: char -> bool): (ds: seq<string>)
    ensures |ds| == |Tokens(s, isLetter)| + 1
    ensures forall i | 0 <= i < |ds| :: IsGap(ds[i], isLetter)
    ensures forall i | 1 <= i < |ds| - 1 :: |ds[i]| != 0
    ensures |s| != 0 && !isLetter(s[0]) ==> |ds[0]| != 0
    decreases |s|
  {
    if |s| == 0 then [[]]
    else if !isLetter(s[0]) then
      var g := Gaps(s[1..], isLetter);
      [[s[0]] + g[0]] + g[1..]
    else
      var n := LetterRun(s, isLetter);
      assert n < |s| ==> s[n..][0] == s[n];
      [[]] + Gaps(s[n..], isLetter)
  }

  /** Prepending a character to the first stretch prepends it to the text. */
  lemma InterleaveHead(ds: seq<string>, ws: seq<string>, c: char)
    requires |ds| == |ws| + 1
    ensures Interleave([[c] + ds[0]] + ds[1..], ws) == [c] + Interleave(ds, ws)
  {
    var ds' := [[c] + ds[0]] + ds[1..];
    assert ds'[1..] == ds[1..];
  }

  /**
   * Existence of the split: every text is its tokens interleaved with the
   * stretches of non-letters between them, so no letter is dropped and no
   * run of letters is split or merged.
   */
  lemma {:induction false} InterleaveGaps(s: string, isLetter: char -> bool)
    ensures Interleave(Gaps(s, isLetter), Tokens(s, isLetter)) == s
    decreases |s|
  {
    if |s| == 0 {
    } else if !isLetter(s[0]) {
      InterleaveGaps(s[1..], isLetter);
      InterleaveHead(Gaps(s[1..], isLetter), Tokens(s[1..], isLetter), s[0]);
      assert s == [s[0]] + s[1..];
    } else {
      var n := LetterRun(s, isLetter);
      InterleaveGaps(s[n..], isLetter);
      var ds := Gaps(s, isLetter);
      var ws := Tokens(s, isLetter);
      assert ds[1..] == Gaps(s[n..], isLetter) && ws[1..] == Tokens(s[n..], isLetter);
      assert s == [] + s[..n] + s[n..];
    }
  }

  /**
   * The n-grams of length `len` of the padded token `t` that start at `pos`
   * or later, in order of their start, without the all-whitespace ones.
   */
  function Windows(t: string, len: int, pos: nat): seq<string>
    decreases |t| + 1 - pos
  {
    if len < 0 || pos + len > |t| then []
    else (if Blank(t[pos..pos + len]) then [] else [t[pos..pos + len]]) + Windows(t, len, pos + 1)
  }

  /** The n-grams of `t` of every length from `len` up to `maxLen` and |t|, shortest first. */
  function TokenGrams(t: string, len: int, maxLen: int): seq<string>
    decreases |t| + 1 - len
  {
    if len > maxLen || len > |t| then []
    else Windows(t, len, 0) + TokenGrams(t, len + 1, maxLen)
  }

  /** Every n-gram submitted for one raw token: none when it is blank. */
  function RawTokenGrams(token: string, minLen: int, maxLen: int, lower: char -> char): seq<string> {
    match PrepareToken(token, lower)
    case None => []
    case Some(t) => TokenGrams(t, minLen, maxLen)
  }

  /** Every n-gram submitted for the tokens `ts`, in the order of submission. */
  function NGramsOf(ts: seq<string>, minLen: int, maxLen: int, lower: char -> char): seq<string> {
    if |ts| == 0 then []
    else RawTokenGrams(ts[0], minLen, maxLen, lower) + NGramsOf(ts[1..], minLen, maxLen, lower)
  }

  /** Unfolds the n-grams of `ts[i..]` by one token. */
  lemma NGramsOfStep(ts: seq<string>, i: nat, minLen: int, maxLen: int, lower: char -> char)
    requires i < |ts|
    ensures NGramsOf(ts[i..], minLen, maxLen, lower)
      == RawTokenGrams(ts[i], minLen, maxLen, lower) + NGramsOf(ts[i + 1..], minLen, maxLen, lower)
  {
    assert ts[i..][1..] == ts[i + 1..];
  }

  /**
   * The first window of a prepared token is taken with length minLen, so a
   * negative minLen (not above maxLen) makes `substring` fail.
   */
  ghost predicate NegativeWindow(ts: seq<string>, minLen: int, maxLen: int, lower: char -> char) {
    && minLen < 0 && minLen <= maxLen
    && exists i | 0 <= i < |ts| :: |Trim(ts[i])| != 0
  }

  /**
   * The outcome of submitting `grams` to a profile whose finalized flag is
   * `fin`: a negative window length fails before anything is submitted, and
   * a finalized profile refuses the first n-gram.
   */
  function SubmitOutcome(negative: bool, fin: bool, grams: seq<string>): Outcome {
    if negative then Fail(NegativeLength)
    else if fin && |grams| != 0 then Fail(AlreadyFinalized)
    else Pass
  }

  /**
   * Submitting one raw token: its first window is taken only when the token
   * is not blank.
   */
  function TokenOutcome(token: string, minLen: int, maxLen: int, lower: char -> char, fin: bool): Outcome {
    SubmitOutcome(minLen < 0 && minLen <= maxLen && |Trim(token)| != 0, fin, RawTokenGrams(token, minLen, maxLen, lower))
  }

  /** The outcome of submitting the tokens `ts` in order: the first failure stops the scan. */
  function TokensOutcome(ts: seq<string>, minLen: int, maxLen: int, lower: char -> char, fin: bool): Outcome {
    if |ts| == 0 then Pass
    else if TokenOutcome(ts[0], minLen, maxLen, lower, fin).Fail? then TokenOutcome(ts[0], minLen, maxLen, lower, fin)
    else TokensOutcome(ts[1..], minLen, maxLen, lower, fin)
  }

  /** Unfolds the outcome of scanning `ts[i..]` by one token. */
  lemma TokensOutcomeStep(ts: seq<string>, i: nat, minLen: int, maxLen: int, lower: char -> char, fin: bool)
    requires i < |ts|
    ensures TokensOutcome(ts[i..], minLen, maxLen, lower, fin) ==
      if TokenOutcome(ts[i], minLen, maxLen, lower, fin).Fail? then TokenOutcome(ts[i], minLen, maxLen, lower, fin)
      else TokensOutcome(ts[i + 1..], minLen, maxLen, lower, fin)
  {
    assert ts[i..][0] == ts[i] && ts[i..][1..] == ts[i + 1..];
  }

  /**
   * The scan fails with NegativeLength exactly when the length is negative
   * and some token is not blank, and with AlreadyFinalized exactly when
   * otherwise the profile is finalized and there is an n-gram to submit.
   */
  lemma {:induction false} TokensOutcomeMeaning(ts: seq<string>, minLen: int, maxLen: int, lower: char -> char, fin: bool)
    ensures TokensOutcome(ts, minLen, maxLen, lower, fin) == Fail(NegativeLength)
      <==> NegativeWindow(ts, minLen, maxLen, lower)
    ensures TokensOutcome(ts, minLen, maxLen, lower, fin) == Fail(AlreadyFinalized)
      <==> !NegativeWindow(ts, minLen, maxLen, lower) && fin && |NGramsOf(ts, minLen, maxLen, lower)| != 0
    ensures TokensOutcome(ts, minLen, maxLen, lower, fin).Fail? ==>
      TokensOutcome(ts, minLen, maxLen, lower, fin).error in {NegativeLength, AlreadyFinalized}
  {
    if |ts| != 0 {
      TokensOutcomeMeaning(ts[1..], minLen, maxLen, lower, fin);
      var neg := minLen < 0 && minLen <= maxLen;
      if NegativeWindow(ts[1..], minLen, maxLen, lower) {
        var i :| 0 <= i < |ts[1..]| && |Trim(ts[1..][i])| != 0;
        assert |Trim(ts[i + 1])| != 0;
      }
      if NegativeWindow(ts, minLen, maxLen, lower) && |Trim(ts[0])| == 0 {
        var i :| 0 <= i < |ts| && |Trim(ts[i])| != 0;
        assert i != 0 && |Trim(ts[1..][i - 1])| != 0;
      }
      if |Trim(ts[0])| == 0 {
        assert PrepareToken(ts[0], lower).None?;
      }
      if neg && |Trim(ts[0])| == 0 && NegativeWindow(ts[1..], minLen, maxLen, lower) {
      }
    }
  }

  /** Every window of length `len` of `t`, at start positions 0, 1, ..., |t| - len. */
  function AllWindows(t: string, len: nat): (ws: seq<string>)
    requires len <= |t|
    ensures |ws| == |t| - len + 1 && forall p | 0 <= p < |ws| :: ws[p] == t[p..p + len]
  {
    seq(|t| - len + 1, p requires 0 <= p <= |t| - len => t[p..p + len])
  }

  /** The strings of `ws` that are not all whitespace, in order. */
  function NonBlank(ws: seq<string>): (r: seq<string>)
    ensures forall i | 0 <= i < |r| :: r[i] in ws && !Blank(r[i])
  {
    if |ws| == 0 then []
    else (if Blank(ws[0]) then [] else [ws[0]]) + NonBlank(ws[1..])
  }

  lemma {:induction false} WindowsFrom(t: string, len: nat, pos: nat)
    requires pos <= |t| - len + 1 && len <= |t|
    ensures Windows(t, len, pos) == NonBlank(AllWindows(t, len)[pos..])
    decreases |t| + 1 - pos
  {
    var all := AllWindows(t, len);
    if pos + len <= |t| {
      WindowsFrom(t, len, pos + 1);
      assert all[pos..][0] == t[pos..pos + len];
      assert all[pos..][1..] == all[pos + 1..];
    } else {
      assert all[pos..] == [];
    }
  }

  /**
   * For each length the windows are taken at every start position from 0 to
   * |t| - len, in order, and only the all-whitespace ones are dropped.
   */
  lemma {:induction false} WindowsInOrder(t: string, len: nat)
    requires len <= |t|
    ensures Windows(t, len, 0) == NonBlank(AllWindows(t, len))
  {
    WindowsFrom(t, len, 0);
    assert AllWindows(t, len)[0..] == AllWindows(t, len);
  }

  /** The `len` characters of `t` from `pos` on. */
  function Window(t: string, pos: nat, len: nat): string
    requires pos + len <= |t|
  {
    t[pos..pos + len]
  }

  /** `g` is a window of `t` with a length in lo..hi. */
  ghost predicate WindowOf(g: string, t: string, lo: int, hi: int) {
    exists pos: nat, len: nat | lo <= len <= hi && pos + len <= |t| :: g == Window(t, pos, len)
  }

  lemma {:induction false} WindowsAreWindows(t: string, len: int, pos: nat, hi: int)
    requires len <= hi
    ensures forall g | g in Windows(t, len, pos) :: WindowOf(g, t, len, hi) && !Blank(g)
    decreases |t| + 1 - pos
  {
    if len >= 0 && pos + len <= |t| {
      WindowsAreWindows(t, len, pos + 1, hi);
      assert WindowOf(Window(t, pos, len), t, len, hi);
    }
  }

  /**
   * Every n-gram taken from a padded token is a contiguous piece of it whose
   * length lies between the bounds, and none is all whitespace.
   */
  lemma {:induction false} TokenGramsAreWindows(t: string, len: int, maxLen: int)
    ensures forall g | g in TokenGrams(t, len, maxLen) ::
      WindowOf(g, t, len, if maxLen < |t| then maxLen else |t|) && !Blank(g)
    decreases |t| + 1 - len
  {
    if len <= maxLen && len <= |t| {
      var hi := if maxLen < |t| then maxLen else |t|;
      WindowsAreWindows(t, len, 0, hi);
      TokenGramsAreWindows(t, len + 1, maxLen);
      forall g | g in TokenGrams(t, len + 1, maxLen) ensures WindowOf(g, t, len, hi) {
        var pos: nat, l: nat :| len + 1 <= l <= hi && pos + l <= |t| && g == Window(t, pos, l);
      }
    }
  }

  /** No n-gram submitted for a text is all whitespace. */
  lemma {:induction false} NoBlankNGram(ts: seq<string>, minLen: int, maxLen: int, lower: char -> char)
    ensures forall g | g in NGramsOf(ts, minLen, maxLen, lower) :: !Blank(g) && |g| != 0
  {
    if |ts| != 0 {
      NoBlankNGram(ts[1..], minLen, maxLen, lower);
      match PrepareToken(ts[0], lower)
      case None =>
      case Some(t) => TokenGramsAreWindows(t, minLen, maxLen);
    }
  }

  /**
   * What the character tables provide: letters are not whitespace and
   * lower-casing a letter gives a letter.
   */
  ghost predicate LetterTables(isLetter: char -> bool, lower: char -> char) {
    && !isLetter(Pad)
    && (forall c :: isLetter(c) ==> c > ' ')
    && (forall c {:trigger lower(c)} :: isLetter(c) ==> isLetter(lower(c)))
  }

  /** Letters anywhere, the pad only at either end. */
  ghost predicate PaddedShape(g: string, isLetter: char -> bool) {
    forall k | 0 <= k < |g| :: isLetter(g[k]) || (g[k] == Pad && (k == 0 || k == |g| - 1))
  }

  /** A prepared word: letters between two pads. */
  ghost predicate PaddedWord(t: string, isLetter: char -> bool) {
    && |t| >= 2 && t[0] == Pad && t[|t| - 1] == Pad
    && forall k | 1 <= k < |t| - 1 :: isLetter(t[k])
  }

  lemma {:induction false} PrepareWord(w: string, isLetter: char -> bool, lower: char -> char)
    requires LetterTables(isLetter, lower) && IsWord(w, isLetter)
    ensures PrepareToken(w, lower).Some? && PaddedWord(PrepareToken(w, lower).value, isLetter)
  {
    TrimKeeps(w);
    PrepareTokenShape(w, lower);
    var t := PrepareToken(w, lower).value;
    forall k | 1 <= k < |t| - 1 ensures isLetter(t[k]) {
      var c := w[k - 1];
      assert t[(k - 1) + 1] == lower(lower(c));
      assert isLetter(lower(c));
    }
  }

  lemma {:induction false} WindowShape(t: string, pos: nat, len: nat, isLetter: char -> bool)
    requires PaddedWord(t, isLetter) && pos + len <= |t|
    ensures PaddedShape(t[pos..pos + len], isLetter)
  {
    var g := t[pos..pos + len];
    forall k | 0 <= k < |g| ensures isLetter(g[k]) || (g[k] == Pad && (k == 0 || k == |g| - 1)) {
      assert g[k] == t[pos + k];
    }
  }

  lemma {:induction false} PaddedGramsShape(t: string, minLen: int, maxLen: int, isLetter: char -> bool)
    requires PaddedWord(t, isLetter)
    ensures forall g | g in TokenGrams(t, minLen, maxLen) :: PaddedShape(g, isLetter)
  {
    TokenGramsAreWindows(t, minLen, maxLen);
    forall g | g in TokenGrams(t, minLen, maxLen) ensures PaddedShape(g, isLetter) {
      var hi := if maxLen < |t| then maxLen else |t|;
      var pos: nat, len: nat :| minLen <= len <= hi && pos + len <= |t| && g == Window(t, pos, len);
      WindowShape(t, pos, len, isLetter);
    }
  }

  lemma {:induction false} ShapeOfNGrams(ts: seq<string>, minLen: int, maxLen: int, isLetter: char -> bool, lower: char -> char)
    requires LetterTables(isLetter, lower)
    requires forall i | 0 <= i < |ts| :: IsWord(ts[i], isLetter)
    ensures forall g | g in NGramsOf(ts, minLen, maxLen, lower) :: PaddedShape(g, isLetter)
  {
    if |ts| != 0 {
      ShapeOfNGrams(ts[1..], minLen, maxLen, isLetter, lower);
      PrepareWord(ts[0], isLetter, lower);
      PaddedGramsShape(PrepareToken(ts[0], lower).value, minLen, maxLen, isLetter);
    }
  }

  /**
   * Non-letters never occur in an n-gram of a text; the pad occurs only as
   * its first or last character.
   */
  lemma {:induction false} NGramShape(text: string, minLen: int, maxLen: int, isLetter: char -> bool, lower: char -> char)
    requires LetterTables(isLetter, lower)
    ensures forall g | g in NGramsOf(Tokens(text, isLetter), minLen, maxLen, lower) :: PaddedShape(g, isLetter)
  {
    ShapeOfNGrams(Tokens(text, isLetter), minLen, maxLen, isLetter, lower);
  }

  /** One more occurrence of `g`: what `Profile.AddNGram` does to the counts. */
  function Bump(c: map<string, int>, g: string): map<string, int> {
    c[g := if g in c then c[g] + 1 else 1]
  }

  /** The counts after submitting `gs` in order, starting from `c`. */
  function Tally(c: map<string, int>, gs: seq<string>): map<string, int> {
    if |gs| == 0 then c else Bump(Tally(c, gs[..|gs| - 1]), gs[|gs| - 1])
  }

  /**
   * Tallying adds exactly the submitted grams as keys and raises each count
   * by the number of its occurrences.
   */
  lemma {:induction false} TallyCounts(c: map<string, int>, gs: seq<string>)
    ensures forall g :: g in Tally(c, gs) <==> g in c || g in gs
    ensures forall g | g in Tally(c, gs) :: Tally(c, gs)[g] == (if g in c then c[g] else 0) + multiset(gs)[g]
  {
    if |gs| != 0 {
      var init := gs[..|gs| - 1];
      TallyCounts(c, init);
      assert gs == init + [gs[|gs| - 1]];
      assert forall g :: g in gs <==> g in init || g == gs[|gs| - 1];
    }
  }

  /** Submitting one more n-gram bumps its count. */
  lemma TallySnoc(c: map<string, int>, gs: seq<string>, g: string)
    ensures Tally(c, gs + [g]) == Bump(Tally(c, gs), g)
  {
    assert (gs + [g])[..|gs|] == gs;
  }

  lemma AppendAssoc<T>(a: seq<T>, b: seq<T>, c: seq<T>)
    ensures a + b + c == a + (b + c)
  {
  }

  /** Tallying two runs of n-grams one after the other is tallying their concatenation. */
  lemma {:induction false} TallyAppend(c: map<string, int>, a: seq<string>, b: seq<string>)
    ensures Tally(c, a + b) == Tally(Tally(c, a), b)
  {
    if |b| != 0 {
      var init := b[..|b| - 1];
      TallyAppend(c, a, init);
      assert (a + b)[..|a + b| - 1] == a + init;
    } else {
      assert a + b == a;
    }
  }

  /** The number of distinct n-grams of an empty profile after tallying `gs`. */
  lemma {:induction false} TallyKeys(gs: seq<string>)
    ensures Tally(map[], gs).Keys == set g | g in gs
  {
    TallyCounts(map[], gs);
  }

  class Tokenizer {
    const minLen: int
    const maxLen: int
    /** The platform's letter classification (the regex class \p{L}). */
    const isLetter: char -> bool
    /** The platform's lower-casing of one character. */
    const lower: char -> char

    /** The default bounds: n-grams of lengths 1 to 5. */
    constructor Default(isLetter: char -> bool, lower: char -> char)
      ensures minLen == 1 && maxLen == 5 && this.isLetter == isLetter && this.lower == lower
    {
      minLen := 1;
      maxLen := 5;
      this.isLetter := isLetter;
      this.lower := lower;
    }

    constructor (min: int, max: int, isLetter: char -> bool, lower: char -> char)
      ensures minLen == min && maxLen == max && this.isLetter == isLetter && this.lower == lower
    {
      minLen := min;
      maxLen := max;
      this.isLetter := isLetter;
      this.lower := lower;
    }

    /** The n-grams this tokenizer submits for `text`, in order. */
    function NGrams(text: string): seq<string> {
      NGramsOf(Tokens(text, isLetter), minLen, maxLen, lower)
    }

    /**
     * Submits the n-grams of length `len` of the padded token, start position
     * by start position.  A negative length fails at the first window.
     */
    method CollectWindows(profile: Profile, token: string, len: int) returns (r: Outcome)
      requires profile.Valid()
      modifies profile, profile.nGramMap.Values
      ensures profile.Valid()
      ensures profile.finalized == old(profile.finalized) && profile.nGramList == old(profile.nGramList)
      ensures forall n | n in profile.nGramMap.Values :: n in old(profile.nGramMap.Values) || fresh(n)
      ensures r == SubmitOutcome(len < 0, old(profile.finalized), Windows(token, len, 0))
      ensures r.Fail? || old(profile.finalized) ==> unchanged(profile) && unchanged(old(profile.nGramMap.Values))
      ensures r == Pass ==> profile.Counts() == Tally(old(profile.Counts()), Windows(token, len, 0))
    {
      if len < 0 {
        // with a negative length the first window is taken at once, and
        // substring(0, len) throws before anything is submitted
        return Fail(NegativeLength);
      }
      ghost var done: seq<string> := [];
      var pos := 0;
      while pos + len <= |token|
        invariant done + Windows(token, len, pos) == Windows(token, len, 0)
        invariant profile.Valid()
        invariant profile.finalized == old(profile.finalized) && profile.nGramList == old(profile.nGramList)
        invariant forall n | n in profile.nGramMap.Values :: n in old(profile.nGramMap.Values) || fresh(n)
        invariant profile.Counts() == Tally(old(profile.Counts()), done)
        invariant old(profile.finalized) ==> |done| == 0 && unchanged(profile) && unchanged(old(profile.nGramMap.Values))
        decreases |token| + 1 - pos
      {
        var ngram := token[pos..pos + len];
        // ngram.trim() is empty exactly when ngram is blank (see Trim)
        if !Blank(ngram) {
          assert Windows(token, len, pos) == [ngram] + Windows(token, len, pos + 1);
          ghost var before := profile.Counts();
          var res := profile.AddNGram(ngram);
          if res.Failure? {
            return Fail(res.error);
          }
          assert profile.Counts() == Bump(before, ngram);
          TallySnoc(old(profile.Counts()), done, ngram);
          AppendAssoc(done, [ngram], Windows(token, len, pos + 1));
          done := done + [ngram];
        } else {
          assert Windows(token, len, pos) == Windows(token, len, pos + 1);
        }
        pos := pos + 1;
      }
      assert done == Windows(token, len, 0);
      return Pass;
    }

    /** Submits the n-grams of a padded token, shortest first. */
    method CollectTokenNGrams(profile: Profile, token: string) returns (r: Outcome)
      requires profile.Valid()
      modifies profile, profile.nGramMap.Values
      ensures profile.Valid()
      ensures profile.finalized == old(profile.finalized) && profile.nGramList == old(profile.nGramList)
      ensures forall n | n in profile.nGramMap.Values :: n in old(profile.nGramMap.Values) || fresh(n)
      ensures r == SubmitOutcome(minLen < 0 && minLen <= maxLen, old(profile.finalized), TokenGrams(token, minLen, maxLen))
      ensures r.Fail? || old(profile.finalized) ==> unchanged(profile) && unchanged(old(profile.nGramMap.Values))
      ensures r == Pass ==> profile.Counts() == Tally(old(profile.Counts()), TokenGrams(token, minLen, maxLen))
    {
      ghost var done: seq<string> := [];
      var len := minLen;
      while len <= maxLen && len <= |token|
        invariant done + TokenGrams(token, len, maxLen) == TokenGrams(token, minLen, maxLen)
        invariant profile.Valid()
        invariant profile.finalized == old(profile.finalized) && profile.nGramList == old(profile.nGramList)
        invariant forall n | n in profile.nGramMap.Values :: n in old(profile.nGramMap.Values) || fresh(n)
        invariant profile.Counts() == Tally(old(profile.Counts()), done)
        invariant old(profile.finalized) ==> |done| == 0 && unchanged(profile) && unchanged(old(profile.nGramMap.Values))
        invariant minLen < 0 ==> len == minLen && unchanged(profile) && unchanged(old(profile.nGramMap.Values))
        decreases |token| + 1 - len
      {
        ghost var windows := Windows(token, len, 0);
        assert TokenGrams(token, len, maxLen) == windows + TokenGrams(token, len + 1, maxLen);
        r := CollectWindows(profile, token, len);
        if r.Fail? {
          return;
        }
        TallyAppend(old(profile.Counts()), done, windows);
        AppendAssoc(done, windows, TokenGrams(token, len + 1, maxLen));
        done := done + windows;
        len := len + 1;
      }
      assert done == TokenGrams(token, minLen, maxLen);
      return Pass;
    }

    /**
     * Prepares one raw token and submits its n-grams; a blank token submits
     * nothing.
     */
    method CollectToken(profile: Profile, token: string) returns (r: Outcome)
      requires profile.Valid()
      modifies profile, profile.nGramMap.Values
      ensures profile.Valid()
      ensures profile.finalized == old(profile.finalized) && profile.nGramList == old(profile.nGramList)
      ensures forall n | n in profile.nGramMap.Values :: n in old(profile.nGramMap.Values) || fresh(n)
      ensures r == TokenOutcome(token, minLen, maxLen, lower, old(profile.finalized))
      ensures r.Fail? || old(profile.finalized) || (minLen < 0 && minLen <= maxLen) ==>
        unchanged(profile) && unchanged(old(profile.nGramMap.Values))
      ensures r == Pass ==> profile.Counts() == Tally(old(profile.Counts()), RawTokenGrams(token, minLen, maxLen, lower))
    {
      var prepared := PrepareToken(token, lower);
      if prepared.Some? {
        r := CollectTokenNGrams(profile, prepared.value);
      } else {
        r := Pass;
      }
    }

    /**
     * Submits the n-grams of the tokens `tokens` in order, as the scanner
     * delivers them, stopping at the first failure (see TokensOutcome).  On
     * failure nothing has changed; on success the profile has counted
     * exactly their n-grams.
     */
    method CollectTokens(profile: Profile, tokens: seq<string>) returns (r: Outcome)
      requires profile.Valid()
      modifies profile, profile.nGramMap.Values
      ensures profile.Valid()
      ensures profile.finalized == old(profile.finalized) && profile.nGramList == old(profile.nGramList)
      ensures forall n | n in profile.nGramMap.Values :: n in old(profile.nGramMap.Values) || fresh(n)
      ensures r == TokensOutcome(tokens, minLen, maxLen, lower, old(profile.finalized))
      ensures r.Fail? ==> unchanged(profile) && unchanged(old(profile.nGramMap.Values))
      ensures r == Pass ==> profile.Counts() == Tally(old(profile.Counts()), NGramsOf(tokens, minLen, maxLen, lower))
    {
      ghost var all := NGramsOf(tokens, minLen, maxLen, lower);
      ghost var expected := TokensOutcome(tokens, minLen, maxLen, lower, profile.finalized);
      ghost var done: seq<string> := [];
      var i := 0;
      while i < |tokens|
        invariant 0 <= i <= |tokens|
        invariant done + NGramsOf(tokens[i..], minLen, maxLen, lower) == all
        invariant TokensOutcome(tokens[i..], minLen, maxLen, lower, old(profile.finalized)) == expected
        invariant profile.Valid()
        invariant profile.finalized == old(profile.finalized) && profile.nGramList == old(profile.nGramList)
        invariant forall n | n in profile.nGramMap.Values :: n in old(profile.nGramMap.Values) || fresh(n)
        invariant profile.Counts() == Tally(old(profile.Counts()), done)
        invariant old(profile.finalized) || (minLen < 0 && minLen <= maxLen) ==>
          unchanged(profile) && unchanged(old(profile.nGramMap.Values))
      {
        ghost var grams := RawTokenGrams(tokens[i], minLen, maxLen, lower);
        ghost var rest := NGramsOf(tokens[i + 1..], minLen, maxLen, lower);
        NGramsOfStep(tokens, i, minLen, maxLen, lower);
        TokensOutcomeStep(tokens, i, minLen, maxLen, lower, old(profile.finalized));
        r := CollectToken(profile, tokens[i]);
        if r.Fail? {
          return;
        }
        TallyAppend(old(profile.Counts()), done, grams);
        AppendAssoc(done, grams, rest);
        done := done + grams;
        i := i + 1;
      }
      assert done == all by {
        assert tokens[i..] == [];
      }
      return Pass;
    }

    /**
     * Submits every n-gram of `text` to `profile`: the tokens are the maximal
     * runs of letters.
     */
    method CollectNGrams(profile: Profile, text: string) returns (r: Outcome)
      requires profile.Valid()
      modifies profile, profile.nGramMap.Values
      ensures profile.Valid()
      ensures profile.finalized == old(profile.finalized) && profile.nGramList == old(profile.nGramList)
      ensures forall n | n in profile.nGramMap.Values :: n in old(profile.nGramMap.Values) || fresh(n)
      ensures r == Fail(NegativeLength) <==> NegativeWindow(Tokens(text, isLetter), minLen, maxLen, lower)
      ensures r == Fail(AlreadyFinalized) <==>
        !NegativeWindow(Tokens(text, isLetter), minLen, maxLen, lower) && old(profile.finalized) && |NGrams(text)| != 0
      ensures r.Fail? ==> r.error == NegativeLength || r.error == AlreadyFinalized
      ensures r.Fail? ==> unchanged(profile) && unchanged(old(profile.nGramMap.Values))
      ensures r == Pass ==> profile.Counts() == Tally(old(profile.Counts()), NGrams(text))
    {
      r := CollectTokens(profile, Tokens(text, isLetter));
      TokensOutcomeMeaning(Tokens(text, isLetter), minLen, maxLen, lower, old(profile.finalized));
    }

    /**
     * Computes the frequency profile of `text`: collects its n-grams and
     * finalizes the profile.  A failure of the collection propagates and
     * the profile is left as it was.
     */
    method ComputeProfile(profile: Profile, text: string) returns (r: Outcome, ghost order: seq<Entry>)
      requires profile.Valid()
      modifies profile, profile.nGramMap.Values
      ensures profile.Valid()
      ensures r.Fail? ==> unchanged(profile) && unchanged(old(profile.nGramMap.Values))
      ensures r == Fail(NegativeLength) <==> NegativeWindow(Tokens(text, isLetter), minLen, maxLen, lower)
      ensures r == Fail(AlreadyFinalized) <==>
        !NegativeWindow(Tokens(text, isLetter), minLen, maxLen, lower) && old(profile.finalized) && |NGrams(text)| != 0
      ensures r == Pass ==> profile.finalized
      ensures r == Pass && !old(profile.finalized) ==>
        && IsEnumeration(order, Tally(old(profile.Counts()), NGrams(text)))
        && profile.Entries() == Ranking(order)
        && |profile.nGramList| == Min(CutOffPos, |Tally(old(profile.Counts()), NGrams(text)).Keys|)
      ensures r == Pass && old(profile.finalized) ==>
        profile.nGramList == old(profile.nGramList) && profile.Counts() == old(profile.Counts())
    {
      r := CollectNGrams(profile, text);
      if r.Fail? {
        order := [];
        return;
      }
      order := profile.Finalize();
    }
  }

  function Min(a: int, b: int): int {
    if a < b then a else b
  }
}
