/** The pattern `signal: ([a-z ]+)$` with which a child's termination error is
    recognised as death by signal. `$` without the multi-line flag anchors at
    the end of the text, so a match is a suffix: "signal: " followed by one or
    more lower-case letters or spaces up to the end. */
module SignalMatch {
  import opened Basics

  const Prefix: string := "signal: "

  /** The character class `[a-z ]`. */
  predicate NameChar(c: char) {
    'a' <= c <= 'z' || c == ' '
  }

  /** The pattern matches `text` starting at position `i`. */
  predicate MatchesAt(text: string, i: int) {
    && 0 <= i
    && i + |Prefix| < |text|
    && text[i..i + |Prefix|] == Prefix
    && forall k :: i + |Prefix| <= k < |text| ==> NameChar(text[k])
  }

  /** Start of the longest run of `[a-z ]` characters ending at `j`. */
  function RunStart(text: string, j: nat): (k: nat)
    requires j <= |text|
    ensures k <= j
    ensures forall m :: k <= m < j ==> NameChar(text[m])
    ensures k == 0 || !NameChar(text[k - 1])
    decreases j
  {
    if j == 0 || !NameChar(text[j - 1]) then j else RunStart(text, j - 1)
  }

  /** Where the match starts, if the text matches at all. The ':' of the
      prefix is outside `[a-z ]`, so a match starts exactly seven characters
      before the trailing run of name characters; this also makes the match
      unique, so it is the leftmost one that `FindString` reports. */
  function Find(text: string): (r: Option<nat>)
    ensures r.Some? ==> MatchesAt(text, r.value)
    ensures forall i :: MatchesAt(text, i) ==> r == Some(i)
  {
    var k := RunStart(text, |text|);
    NoMatchElsewhere(text, k);
    if k >= 7 && k + 1 < |text| && text[k - 7..k] == "signal:" && text[k] == ' ' then
      assert text[k - 7..k + 1] == Prefix;
      Some(k - 7)
    else
      None
  }

  lemma NoMatchElsewhere(text: string, k: nat)
    requires k == RunStart(text, |text|)
    ensures forall i :: MatchesAt(text, i) ==>
      i == k - 7 && k >= 7 && k + 1 < |text| && text[k - 7..k] == "signal:" && text[k] == ' '
  {
    forall i | MatchesAt(text, i)
      ensures i == k - 7 && k >= 7 && k + 1 < |text| && text[k - 7..k] == "signal:" && text[k] == ' '
    {
      assert text[i + 6] == Prefix[6] == ':';
      assert text[i + 7] == Prefix[7] == ' ';
      assert text[i..i + 7] == Prefix[..7];
    }
  }

  /** `MatchString`. */
  predicate Matches(text: string) {
    Find(text).Some?
  }

  /** `FindString` on a text that matches: the whole match, prefix included. */
  function Found(text: string): (s: string)
    requires Matches(text)
    ensures exists i :: MatchesAt(text, i) && s == text[i..]
    ensures |s| > |Prefix| && s[..|Prefix|] == Prefix
  {
    text[Find(text).value..]
  }

  /** A match can never start at two places. */
  lemma MatchUnique(text: string, i: int, j: int)
    requires MatchesAt(text, i) && MatchesAt(text, j)
    ensures i == j
  {
    var _ := Find(text);
  }

  /** Whatever the child printed, an error ending in ": signal: <name>" is
      recognised and reduced to "signal: <name>". */
  lemma SignalAfterOutput(output: string, name: string)
    requires |name| > 0 && forall k :: 0 <= k < |name| ==> NameChar(name[k])
    ensures Matches(output + ": " + Prefix + name)
    ensures Found(output + ": " + Prefix + name) == Prefix + name
  {
    var text := output + ": " + Prefix + name;
    var i := |output| + 2;
    assert text[i..i + |Prefix|] == Prefix;
    assert forall k :: i + |Prefix| <= k < |text| ==> text[k] == name[k - i - |Prefix|];
    assert MatchesAt(text, i);
    assert text[i..] == Prefix + name;
  }
}
