/** `str.count` and `NewsScraper.count_search_phrases`. */
module Phrases {
  import opened TextUtil

  /** The phrase `p` occurs in `s` starting at index `i`. */
  ghost predicate OccursAt(s: string, p: string, i: int) {
    0 <= i && i + |p| <= |s| && s[i..i + |p|] == p
  }

  /** Occurrences of `p` at the positions `ps`, no two of them overlapping. */
  ghost predicate NonOverlapping(s: string, p: string, ps: seq<int>) {
    && (forall k :: 0 <= k < |ps| ==> OccursAt(s, p, ps[k]))
    && (forall a, b :: 0 <= a < b < |ps| ==> ps[a] + |p| <= ps[b])
  }

  /** Python's left-to-right scan for a non-empty `p` from index `i`: after a
      hit it resumes just past the hit, otherwise one character further. */
  function CountFrom(s: string, p: string, i: nat): (r: nat)
    requires |p| > 0 && i <= |s|
    ensures r > 0 <==> exists q :: i <= q && OccursAt(s, p, q)
    decreases |s| - i
  {
    if i + |p| > |s| then 0
    else if s[i..i + |p|] == p then
      assert OccursAt(s, p, i);
      1 + CountFrom(s, p, i + |p|)
    else
      assert !OccursAt(s, p, i);
      CountFrom(s, p, i + 1)
  }

  /** `s.count(p)`; an empty `p` counts the |s| + 1 gaps between characters. */
  function Count(s: string, p: string): (r: nat)
    ensures |p| == 0 ==> r == |s| + 1
    ensures |p| > 0 ==> (r > 0 <==> exists q :: OccursAt(s, p, q))
  {
    if |p| == 0 then |s| + 1 else CountFrom(s, p, 0)
  }

  /** The positions the scan of CountFrom hits. */
  ghost function GreedyFrom(s: string, p: string, i: nat): (ps: seq<int>)
    requires |p| > 0 && i <= |s|
    ensures NonOverlapping(s, p, ps) && |ps| == CountFrom(s, p, i)
    ensures forall k :: 0 <= k < |ps| ==> i <= ps[k]
    decreases |s| - i
  {
    if i + |p| > |s| then []
    else if s[i..i + |p|] == p then [i] + GreedyFrom(s, p, i + |p|)
    else GreedyFrom(s, p, i + 1)
  }

  /** Dropping the first of a set of non-overlapping occurrences leaves a set
      of them that starts past the end of the dropped one. */
  lemma NonOverlappingTail(s: string, p: string, ps: seq<int>)
    requires NonOverlapping(s, p, ps) && ps != []
    ensures NonOverlapping(s, p, ps[1..])
    ensures forall k :: 0 <= k < |ps| - 1 ==> ps[0] + |p| <= ps[1..][k]
  {
  }

  /** No set of non-overlapping occurrences at or after `i` is larger than
      what the scan counts. */
  lemma {:induction false} CountFromIsUpperBound(s: string, p: string, i: nat, ps: seq<int>)
    requires |p| > 0 && i <= |s|
    requires NonOverlapping(s, p, ps)
    requires forall k :: 0 <= k < |ps| ==> i <= ps[k]
    ensures |ps| <= CountFrom(s, p, i)
    decreases |s| - i
  {
    if ps != [] {
      assert OccursAt(s, p, ps[0]);
      if s[i..i + |p|] == p {
        NonOverlappingTail(s, p, ps);
        CountFromIsUpperBound(s, p, i + |p|, ps[1..]);
      } else {
        assert ps[0] != i;
        CountFromIsUpperBound(s, p, i + 1, ps);
      }
    }
  }

  /** `str.count` for a non-empty phrase is the largest number of
      non-overlapping occurrences: the scan finds that many and no choice of
      positions finds more. */
  lemma CountIsMaximalNonOverlapping(s: string, p: string)
    requires |p| > 0
    ensures exists ps :: NonOverlapping(s, p, ps) && |ps| == Count(s, p)
    ensures forall ps :: NonOverlapping(s, p, ps) ==> |ps| <= Count(s, p)
  {
    var g := GreedyFrom(s, p, 0);
    assert NonOverlapping(s, p, g);
    forall ps | NonOverlapping(s, p, ps)
      ensures |ps| <= Count(s, p)
    {
      forall k | 0 <= k < |ps| ensures 0 <= ps[k] {
        assert OccursAt(s, p, ps[k]);
      }
      CountFromIsUpperBound(s, p, 0, ps);
    }
  }

  /** Case-insensitive count of the phrase in the title plus the same count in
      the description; each field is counted on its own. */
  function CountSearchPhrases(title: string, description: string, phrase: string): (r: nat)
    ensures |phrase| > 0 ==>
      (r > 0 <==>
         (exists q :: OccursAt(Lower(title), Lower(phrase), q)) ||
         (exists q :: OccursAt(Lower(description), Lower(phrase), q)))
  {
    Count(Lower(title), Lower(phrase)) + Count(Lower(description), Lower(phrase))
  }

  /** Each of the two terms is the maximal number of non-overlapping,
      case-insensitive occurrences of the phrase in its own field. */
  lemma SearchPhraseCountIsMaximal(title: string, description: string, phrase: string)
    requires |phrase| > 0
    ensures exists pt, pd ::
      && NonOverlapping(Lower(title), Lower(phrase), pt)
      && NonOverlapping(Lower(description), Lower(phrase), pd)
      && |pt| + |pd| == CountSearchPhrases(title, description, phrase)
    ensures forall pt, pd ::
      NonOverlapping(Lower(title), Lower(phrase), pt) && NonOverlapping(Lower(description), Lower(phrase), pd)
      ==> |pt| + |pd| <= CountSearchPhrases(title, description, phrase)
  {
    CountIsMaximalNonOverlapping(Lower(title), Lower(phrase));
    CountIsMaximalNonOverlapping(Lower(description), Lower(phrase));
    var pt :| NonOverlapping(Lower(title), Lower(phrase), pt) && |pt| == Count(Lower(title), Lower(phrase));
    var pd :| NonOverlapping(Lower(description), Lower(phrase), pd) && |pd| == Count(Lower(description), Lower(phrase));
    assert NonOverlapping(Lower(title), Lower(phrase), pt) && NonOverlapping(Lower(description), Lower(phrase), pd);
  }

  lemma {:induction false} LowerIdempotent(s: string)
    ensures Lower(Lower(s)) == Lower(s)
  {
  }

  /** Changing the case of any argument leaves the count as it is. */
  lemma SearchPhraseCountIgnoresCase(title: string, description: string, phrase: string)
    ensures CountSearchPhrases(Lower(title), Lower(description), Lower(phrase))
         == CountSearchPhrases(title, description, phrase)
  {
    LowerIdempotent(title);
    LowerIdempotent(description);
    LowerIdempotent(phrase);
  }

  /** Python's empty-substring rule: an empty phrase counts |title| + 1 plus
      |description| + 1. */
  lemma SearchPhraseCountEmptyPhrase(title: string, description: string)
    ensures CountSearchPhrases(title, description, "") == |title| + |description| + 2
  {
  }

  /** The hits of "dollars" in "dollars and dollars": at 0 and at 12. */
  lemma CountExampleTitle()
    ensures Count("dollars and dollars", "dollars") == 2
  {
    var t, p := "dollars and dollars", "dollars";
    assert CountFrom(t, p, 19) == 0;
    assert t[12..19] == p;
    assert CountFrom(t, p, 12) == 1;
    assert t[11..18][0] != p[0] && t[10..17][1] != p[1] && t[9..16][0] != p[0];
    assert t[8..15][0] != p[0] && t[7..14][0] != p[0];
    assert CountFrom(t, p, 7) == 1;
  }

  /** "Dollars and Dollars" and "dollars" with the phrase "dollars" give 3. */
  lemma SearchPhraseCountExample()
    ensures CountSearchPhrases("Dollars and Dollars", "dollars", "dollars") == 3
  {
    var title, description, phrase := "Dollars and Dollars", "dollars", "dollars";
    assert Lower(phrase) == "dollars";
    assert Lower(title) == "dollars and dollars";
    assert Lower(description) == "dollars";
    CountExampleTitle();
    assert Count("dollars", "dollars") == 1;
  }
}
