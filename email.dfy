/**
 * The address check run before the confirmation e-mail is sent:
 * `re.match(r"[^@]+@[^@]+\.[^@]+", address)`.  `re.match` anchors the pattern
 * at the start only, so anything may follow the part it matches.
 */
module Email {

  /** No '@' in s[lo..hi]. */
  predicate NoAtIn(s: string, lo: nat, hi: nat)
    requires lo <= hi <= |s|
  {
    forall m :: lo <= m < hi ==> s[m] != '@'
  }

  /**
   * The pattern matches with its '@' at i and its '.' at j: A = s[..i] and
   * B = s[i+1..j] are non-empty without '@', and C starts with s[j+1] != '@'.
   */
  predicate MatchAt(s: string, i: nat, j: nat)
  {
    0 < i && i + 1 < j && j + 1 < |s|
    && s[i] == '@' && s[j] == '.' && s[j + 1] != '@'
    && NoAtIn(s, 0, i) && NoAtIn(s, i + 1, j)
  }

  /**
   * What the pattern means: the address begins with A@B.C where A, B and C
   * are non-empty and contain no '@' (C is matched by its first character).
   */
  predicate MatchesEmailPattern(s: string)
  {
    exists i: nat, j: nat :: i < j < |s| && MatchAt(s, i, j)
  }

  /** The position of the first `c` at or after `from`, or |s| if there is none. */
  function IndexOf(s: string, c: char, from: nat): (k: nat)
    requires from <= |s|
    ensures from <= k <= |s|
    ensures k < |s| ==> s[k] == c
    ensures forall m :: from <= m < k ==> s[m] != c
    decreases |s| - from
  {
    if from == |s| || s[from] == c then from else IndexOf(s, c, from + 1)
  }

  /**
   * The check as a scan: the first '@' must not start the text; a '.' must
   * then occur at least two characters after it and at least two characters
   * before the next '@' (or the end of the text).
   */
  function EmailAccepted(s: string): bool
  {
    var at := IndexOf(s, '@', 0);
    if at == 0 || at == |s| then false
    else
      var next := IndexOf(s, '@', at + 1);
      at + 2 < next - 1 && IndexOf(s, '.', at + 2) < next - 1
  }

  /** Whatever the scan accepts, the pattern matches. */
  lemma EmailAcceptedSound(s: string)
    requires EmailAccepted(s)
    ensures MatchesEmailPattern(s)
  {
    var at := IndexOf(s, '@', 0);
    var next := IndexOf(s, '@', at + 1);
    var j := IndexOf(s, '.', at + 2);
    assert MatchAt(s, at, j);
  }

  /** Whatever the pattern matches, the scan accepts. */
  lemma EmailAcceptedComplete(s: string)
    requires MatchesEmailPattern(s)
    ensures EmailAccepted(s)
  {
    var i: nat, j: nat :| i < j < |s| && MatchAt(s, i, j);
    var at := IndexOf(s, '@', 0);
    assert at == i;
    var next := IndexOf(s, '@', at + 1);
    assert j + 1 < next;
    assert IndexOf(s, '.', at + 2) <= j;
  }

  /** The scan accepts exactly the addresses the pattern matches. */
  lemma EmailAcceptedMatchesPattern(s: string)
    ensures EmailAccepted(s) <==> MatchesEmailPattern(s)
  {
    if EmailAccepted(s) {
      EmailAcceptedSound(s);
    }
    if MatchesEmailPattern(s) {
      EmailAcceptedComplete(s);
    }
  }

  /** Typical inputs: a plain address passes; one without a dot after the '@', or starting with '@', fails. */
  lemma EmailExamples(a: string, b: string, c: string, d: string)
    requires a == "jane@example.com" && b == "jane@localhost" && c == "@example.com" && d == "a@b.c trailing text"
    ensures MatchesEmailPattern(a) && !MatchesEmailPattern(b) && !MatchesEmailPattern(c) && MatchesEmailPattern(d)
  {
    assert MatchAt(a, 4, 12);
    assert MatchAt(d, 1, 3);
    assert forall m :: 0 <= m < |b| ==> b[m] != '.';
    assert c[0] == '@';
  }
}
