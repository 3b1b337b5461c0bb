/** `NewsScraper.contains_money`: a search for the case-insensitive pattern
    `\$[\d,]+(\.\d+)?|\b\d+\s+(dollars|usd)\b` in the title or the description,
    written as a hand-made matcher and proved equal to a direct reading of
    the pattern. */
module MoneyPattern {
  import opened TextUtil

  /** `\w` restricted to ASCII. */
  predicate IsWordChar(c: char) {
    IsAsciiLetter(c) || IsDigit(c) || c == '_'
  }

  predicate IsDigitOrComma(c: char) {
    IsDigit(c) || c == ','
  }

  /** `\b` at position `p`: a word character on exactly one side. */
  predicate WordBoundary(s: string, p: int)
    requires 0 <= p <= |s|
  {
    (p > 0 && IsWordChar(s[p - 1])) != (p < |s| && IsWordChar(s[p]))
  }

  // ---- The pattern, read directly ----------------------------------------

  /** `\$[\d,]+` matches `s[i..j]`. The optional `(\.\d+)?` that may follow
      never decides whether a match exists, so it is not spelled out. */
  ghost predicate DollarMatch(s: string, i: int, j: int) {
    0 <= i && i + 1 < j <= |s| && s[i] == '$'
    && forall m :: i < m < j ==> IsDigitOrComma(s[m])
  }

  /** `\b\d+\s+w\b` matches with the digits at `s[i..j]`, the whitespace at
      `s[j..k]` and the keyword `w`, compared case-insensitively, at `k`. */
  ghost predicate AmountMatch(s: string, i: int, j: int, k: int, w: string) {
    0 <= i < j < k && k + |w| <= |s|
    && WordBoundary(s, i)
    && (forall m :: i <= m < j ==> IsDigit(s[m]))
    && (forall m :: j <= m < k ==> IsSpace(s[m]))
    && Lower(s[k..k + |w|]) == w
    && WordBoundary(s, k + |w|)
  }

  /** Some match of the pattern begins at index `i`. */
  ghost predicate MatchStartsAt(s: string, i: int) {
    || (exists j :: DollarMatch(s, i, j))
    || (exists j, k :: AmountMatch(s, i, j, k, "dollars") || AmountMatch(s, i, j, k, "usd"))
  }

  /** `re.search` finds the pattern somewhere in `s`. */
  ghost predicate PatternOccurs(s: string) {
    exists i :: 0 <= i < |s| && MatchStartsAt(s, i)
  }

  // ---- The matcher ----------------------------------------------------------

  /** The end of the run of characters satisfying `P` that starts at `i`. */
  function RunEnd(s: string, i: nat, P: char -> bool): (j: nat)
    requires i <= |s|
    ensures i <= j <= |s|
    ensures forall m :: i <= m < j ==> P(s[m])
    ensures j == |s| || !P(s[j])
    decreases |s| - i
  {
    if i < |s| && P(s[i]) then RunEnd(s, i + 1, P) else i
  }

  /** The keyword `w` at `k`, case-insensitively, with no word character
      after it. */
  predicate KeywordAt(s: string, k: nat, w: string)
    requires k <= |s|
  {
    k + |w| <= |s| && Lower(s[k..k + |w|]) == w
    && (k + |w| == |s| || !IsWordChar(s[k + |w|]))
  }

  predicate DollarAt(s: string, i: nat)
    requires i < |s|
  {
    s[i] == '$' && i + 1 < |s| && IsDigitOrComma(s[i + 1])
  }

  /** Digits from `i` with no word character before them, then whitespace,
      then a keyword. Both runs are taken whole: the keyword starts with a
      letter, so a shorter run could never be followed by it. */
  predicate AmountAt(s: string, i: nat)
    requires i < |s|
  {
    IsDigit(s[i]) && (i == 0 || !IsWordChar(s[i - 1])) &&
    var j := RunEnd(s, i, IsDigit);
    j < |s| && IsSpace(s[j]) &&
    var k := RunEnd(s, j, IsSpace);
    KeywordAt(s, k, "dollars") || KeywordAt(s, k, "usd")
  }

  function SearchFrom(s: string, i: nat): (r: bool)
    requires i <= |s|
    ensures r ==> exists m :: i <= m < |s| && (s[m] == '$' || IsDigit(s[m]))
    decreases |s| - i
  {
    i < |s| && (DollarAt(s, i) || AmountAt(s, i) || SearchFrom(s, i + 1))
  }

  /** `re.search` with the pattern succeeds. Neither alternative can match
      without a dollar sign or a digit; MatchesIff gives the exact condition. */
  function Matches(s: string): (r: bool)
    ensures r ==> exists m :: 0 <= m < |s| && (s[m] == '$' || IsDigit(s[m]))
  {
    SearchFrom(s, 0)
  }

  // ---- The matcher agrees with the pattern --------------------------------

  lemma RunEndUnique(s: string, i: nat, j: nat, P: char -> bool)
    requires i <= j <= |s|
    requires forall m :: i <= m < j ==> P(s[m])
    requires j == |s| || !P(s[j])
    ensures RunEnd(s, i, P) == j
  {
  }

  lemma DollarAtIff(s: string, i: nat)
    requires i < |s|
    ensures DollarAt(s, i) <==> exists j :: DollarMatch(s, i, j)
  {
    if DollarAt(s, i) {
      assert DollarMatch(s, i, i + 2);
    }
  }

  /** A keyword compared case-insensitively begins and ends with a letter. */
  lemma KeywordLetters(s: string, k: nat, w: string)
    requires w == "dollars" || w == "usd"
    requires k + |w| <= |s| && Lower(s[k..k + |w|]) == w
    ensures IsAsciiLetter(s[k]) && IsAsciiLetter(s[k + |w| - 1])
  {
    assert LowerChar(s[k..k + |w|][0]) == w[0];
    assert LowerChar(s[k..k + |w|][|w| - 1]) == w[|w| - 1];
  }

  lemma AmountAtSound(s: string, i: nat)
    requires i < |s| && AmountAt(s, i)
    ensures exists j, k :: AmountMatch(s, i, j, k, "dollars") || AmountMatch(s, i, j, k, "usd")
  {
    var j := RunEnd(s, i, IsDigit);
    var k := RunEnd(s, j, IsSpace);
    var w := if KeywordAt(s, k, "dollars") then "dollars" else "usd";
    KeywordLetters(s, k, w);
    assert WordBoundary(s, i);
    assert WordBoundary(s, k + |w|);
    assert AmountMatch(s, i, j, k, w);
  }

  lemma AmountAtComplete(s: string, i: nat, j: int, k: int, w: string)
    requires i < |s| && (w == "dollars" || w == "usd") && AmountMatch(s, i, j, k, w)
    ensures AmountAt(s, i)
  {
    KeywordLetters(s, k, w);
    assert IsDigit(s[i]) && (i == 0 || !IsWordChar(s[i - 1]));
    assert !IsDigit(s[j]) && IsSpace(s[j]);
    RunEndUnique(s, i, j, IsDigit);
    assert !IsSpace(s[k]);
    RunEndUnique(s, j, k, IsSpace);
    assert KeywordAt(s, k, w);
  }

  lemma AmountAtIff(s: string, i: nat)
    requires i < |s|
    ensures AmountAt(s, i) <==> exists j, k :: AmountMatch(s, i, j, k, "dollars") || AmountMatch(s, i, j, k, "usd")
  {
    if AmountAt(s, i) {
      AmountAtSound(s, i);
    }
    if exists j, k :: AmountMatch(s, i, j, k, "dollars") || AmountMatch(s, i, j, k, "usd") {
      var j, k :| AmountMatch(s, i, j, k, "dollars") || AmountMatch(s, i, j, k, "usd");
      if AmountMatch(s, i, j, k, "dollars") {
        AmountAtComplete(s, i, j, k, "dollars");
      } else {
        AmountAtComplete(s, i, j, k, "usd");
      }
    }
  }

  /** A match starts at `i` exactly when the matcher accepts there. */
  lemma MatchStartsAtIff(s: string, i: nat)
    requires i < |s|
    ensures MatchStartsAt(s, i) <==> DollarAt(s, i) || AmountAt(s, i)
  {
    DollarAtIff(s, i);
    AmountAtIff(s, i);
  }

  lemma {:induction false} SearchFromIff(s: string, i: nat)
    requires i <= |s|
    ensures SearchFrom(s, i) <==> exists p :: i <= p < |s| && MatchStartsAt(s, p)
    decreases |s| - i
  {
    if i < |s| {
      MatchStartsAtIff(s, i);
      SearchFromIff(s, i + 1);
      if SearchFrom(s, i) {
        if DollarAt(s, i) || AmountAt(s, i) {
          assert MatchStartsAt(s, i);
        } else {
          var p :| i + 1 <= p < |s| && MatchStartsAt(s, p);
          assert i <= p;
        }
      } else {
        forall p | i <= p < |s| ensures !MatchStartsAt(s, p) {
          if p > i {
            assert i + 1 <= p;
          }
        }
      }
    }
  }

  /** The matcher finds a match exactly when the pattern occurs. */
  lemma MatchesIff(s: string)
    ensures Matches(s) <==> PatternOccurs(s)
  {
    SearchFromIff(s, 0);
  }

  /** True when the pattern occurs in the title or in the description. */
  function ContainsMoney(title: string, description: string): (r: bool)
    ensures r <==> PatternOccurs(title) || PatternOccurs(description)
  {
    MatchesIff(title);
    MatchesIff(description);
    Matches(title) || Matches(description)
  }

  /** It does not matter which of the two fields holds the amount. */
  lemma ContainsMoneySymmetric(title: string, description: string)
    ensures ContainsMoney(title, description) == ContainsMoney(description, title)
  {
  }

  // ---- Examples -------------------------------------------------------------

  /** A dollar sign with digits and commas, as in "Price: $1,200.50"; a dollar
      sign followed by a lone comma already matches. */
  lemma DollarExamples()
    ensures ContainsMoney("Price: $1,200.50", "") && ContainsMoney("$,", "")
  {
    var a, b := "Price: $1,200.50", "$,";
    assert DollarMatch(a, 7, 9);
    assert MatchStartsAt(a, 7);
    assert DollarMatch(b, 0, 2);
    assert MatchStartsAt(b, 0);
  }

  /** A number, whitespace and the keyword, as in "50 dollars paid". */
  lemma AmountExample()
    ensures ContainsMoney("50 dollars paid", "")
  {
    var a := "50 dollars paid";
    assert WordBoundary(a, 0);
    assert a[3..10] == "dollars";
    assert Lower(a[3..10]) == "dollars";
    assert WordBoundary(a, 10);
    assert AmountMatch(a, 0, 2, 3, "dollars");
    assert MatchStartsAt(a, 0);
  }

  /** "no money here" has neither a dollar sign nor a digit. */
  lemma NoMoneyExample()
    ensures !ContainsMoney("no money here", "")
  {
  }
}
