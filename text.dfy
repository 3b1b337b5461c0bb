/** Character classes and the text sanitiser of `NewsScraper.clean_text`.
    Every class is the ASCII part of what Python 3's `re` module uses for a
    `str` pattern. */
module TextUtil {

  predicate IsAsciiLetter(c: char) {
    'a' <= c <= 'z' || 'A' <= c <= 'Z'
  }

  /** `\d` restricted to ASCII. */
  predicate IsDigit(c: char) {
    '0' <= c <= '9'
  }

  /** `\s` restricted to ASCII: tab, line feed, vertical tab, form feed,
      carriage return, the four separators 0x1C-0x1F, and space. */
  predicate IsSpace(c: char) {
    9 <= c as int <= 13 || 28 <= c as int <= 32
  }

  /** The characters that the class `[^a-zA-Z0-9\s]` does NOT match, so that
      `clean_text` keeps them. */
  predicate IsKept(c: char) {
    IsAsciiLetter(c) || IsDigit(c) || IsSpace(c)
  }

  /** `str.lower()` on one ASCII character. */
  function LowerChar(c: char): char {
    if 'A' <= c <= 'Z' then (c as int + 32) as char else c
  }

  function Lower(s: string): string {
    seq(|s|, i requires 0 <= i < |s| => LowerChar(s[i]))
  }

  /** `re.sub(r'[^a-zA-Z0-9\s]', '', text)`: drop every character outside the
      kept classes. */
  function CleanText(s: string): (r: string)
    ensures |r| <= |s|
    ensures forall i :: 0 <= i < |r| ==> IsKept(r[i])
  {
    if s == [] then [] else (if IsKept(s[0]) then [s[0]] else []) + CleanText(s[1..])
  }

  /** `r` can be obtained from `s` by deleting characters: each character of
      `s` is either kept, in order, or dropped. */
  ghost predicate IsSubsequence(r: string, s: string) {
    if s == [] then r == []
    else (r != [] && r[0] == s[0] && IsSubsequence(r[1..], s[1..])) || IsSubsequence(r, s[1..])
  }

  /** Sanitising distributes over concatenation: each character is judged on
      its own, so one part of a text never affects another. */
  lemma {:induction false} CleanTextConcat(a: string, b: string)
    ensures CleanText(a + b) == CleanText(a) + CleanText(b)
  {
    if a == [] {
      assert a + b == b;
    } else {
      assert (a + b)[0] == a[0];
      assert (a + b)[1..] == a[1..] + b;
      CleanTextConcat(a[1..], b);
    }
  }

  /** A text that has only kept characters is left as it is. */
  lemma {:induction false} CleanTextKeepsClean(s: string)
    requires forall i :: 0 <= i < |s| ==> IsKept(s[i])
    ensures CleanText(s) == s
  {
    if s != [] {
      CleanTextKeepsClean(s[1..]);
    }
  }

  lemma CleanTextIdempotent(s: string)
    ensures CleanText(CleanText(s)) == CleanText(s)
  {
    CleanTextKeepsClean(CleanText(s));
  }

  /** The output keeps the order of the input. */
  lemma {:induction false} CleanTextIsSubsequence(s: string)
    ensures IsSubsequence(CleanText(s), s)
  {
    if s != [] {
      CleanTextIsSubsequence(s[1..]);
      if IsKept(s[0]) {
        assert CleanText(s) == [s[0]] + CleanText(s[1..]);
        assert CleanText(s)[1..] == CleanText(s[1..]);
      } else {
        assert CleanText(s) == CleanText(s[1..]);
      }
    }
  }

  /** Every kept character survives as often as it occurs, and every other
      character is gone. */
  lemma {:induction false} CleanTextCounts(s: string, c: char)
    ensures multiset(CleanText(s))[c] == if IsKept(c) then multiset(s)[c] else 0
  {
    if s != [] {
      CleanTextCounts(s[1..], c);
      assert s == [s[0]] + s[1..];
      assert multiset(s) == multiset([s[0]]) + multiset(s[1..]);
    }
  }

  lemma CleanTextExampleApostrophe()
    ensures CleanText("Apple's") == "Apples"
  {
  }

  lemma CleanTextExampleDollar()
    ensures CleanText(" $100") == " 100"
  {
  }

  lemma CleanTextExampleBang()
    ensures CleanText(" deal!") == " deal"
  {
  }

  /** The apostrophe, the dollar sign and the exclamation mark of
      "Apple's $100 deal!" go; the spaces stay. The three pieces are
      parameters fixed by the precondition: the solver then works on the
      pieces instead of unfolding the whole 18-character literal, which does
      not fit the resource bound. */
  lemma CleanTextExample(a: string, b: string, c: string)
    requires a == "Apple's" && b == " $100" && c == " deal!"
    ensures a + b + c == "Apple's $100 deal!"
    ensures CleanText(a + b + c) == "Apples 100 deal"
  {
    CleanTextExampleApostrophe();
    CleanTextExampleDollar();
    CleanTextExampleBang();
    CleanTextConcat(a, b);
    var ab := a + b;
    assert CleanText(ab) == "Apples" + " 100";
    CleanTextConcat(ab, c);
    assert CleanText(ab + c) == "Apples" + " 100" + " deal";
  }
}
