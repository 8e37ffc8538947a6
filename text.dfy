/**
 * The string helpers the booking pages use: ASCII digits (`str.isdigit`, `int`),
 * `str.replace(" ", "")` and `str.title()`.  Characters are restricted to ASCII:
 * only '0'..'9' are digits and only 'A'..'Z', 'a'..'z' are cased letters.
 */
module Text {

  predicate IsDigit(c: char) { '0' <= c <= '9' }

  predicate AllDigits(s: string) { forall i :: 0 <= i < |s| ==> IsDigit(s[i]) }

  /** `s.isdigit()`: true only for a non-empty string of digits. */
  predicate IsDigitString(s: string) { |s| > 0 && AllDigits(s) }

  function DigitValue(c: char): (n: nat)
    requires IsDigit(c)
    ensures n < 10
  {
    c as int - '0' as int
  }

  function DigitChar(n: nat): (c: char)
    requires n < 10
    ensures IsDigit(c) && DigitValue(c) == n
  {
    (n + '0' as int) as char
  }

  /** `int(s)` on a string of digits (leading zeros allowed: int("007") == 7). */
  function ParseNat(s: string): nat
    requires AllDigits(s)
  {
    if |s| == 0 then 0 else 10 * ParseNat(s[..|s| - 1]) + DigitValue(s[|s| - 1])
  }

  /** A string of k digits denotes a number below 10^k. */
  lemma {:induction false} ParseNatBound(s: string)
    requires AllDigits(s)
    ensures ParseNat(s) < Pow10(|s|)
  {
    if |s| > 0 {
      ParseNatBound(s[..|s| - 1]);
    }
  }

  /** One more digit on `b` shifts `a` one more place: `x` reads `a + b`, `y` reads `a + b1`, `z` reads `b`. */
  lemma ShiftOneDigit(x: int, y: int, z: int, p: int, w: int, q: int, d: int, pw: int)
    requires x == 10 * y + d && y == p * w + q
    requires z == 10 * q + d && pw == 10 * w
    ensures x == p * pw + z
  {
  }

  /** Reading digits left to right: the value of `a + b` is `a` shifted by |b| places plus `b`. */
  lemma {:induction false} ParseNatAppend(a: string, b: string)
    requires AllDigits(a) && AllDigits(b)
    ensures AllDigits(a + b)
    ensures ParseNat(a + b) == ParseNat(a) * Pow10(|b|) + ParseNat(b)
  {
    var ab := a + b;
    if |b| > 0 {
      var b1 := b[..|b| - 1];
      var d := DigitValue(b[|b| - 1]);
      ParseNatAppend(a, b1);
      assert ParseNat(ab) == 10 * ParseNat(a + b1) + d by {
        assert ab[..|ab| - 1] == a + b1;
      }
      ShiftOneDigit(ParseNat(ab), ParseNat(a + b1), ParseNat(b), ParseNat(a), Pow10(|b1|), ParseNat(b1), d, Pow10(|b|));
    } else {
      assert ab == a;
    }
  }

  function Pow10(k: nat): (p: nat)
    ensures p >= 1
  {
    if k == 0 then 1 else 10 * Pow10(k - 1)
  }

  /** `s.replace(" ", "")`. */
  function RemoveSpaces(s: string): (r: string)
    ensures |r| <= |s|
    ensures forall i :: 0 <= i < |r| ==> r[i] != ' '
    ensures forall c :: c in r <==> c in s && c != ' '
  {
    if |s| == 0 then []
    else if s[0] == ' ' then RemoveSpaces(s[1..])
    else [s[0]] + RemoveSpaces(s[1..])
  }

  lemma {:induction false} RemoveSpacesAppend(a: string, b: string)
    ensures RemoveSpaces(a + b) == RemoveSpaces(a) + RemoveSpaces(b)
  {
    if |a| > 0 {
      assert (a + b)[1..] == a[1..] + b;
      RemoveSpacesAppend(a[1..], b);
    } else {
      assert a + b == b;
    }
  }

  /**
   * Two texts that differ only in one non-space character still differ in
   * exactly one place once their spaces are removed.
   */
  lemma RemoveSpacesOneChange(s: string, t: string, p: nat) returns (q: nat)
    requires |t| == |s| && p < |s| && s[p] != ' ' && t[p] != ' '
    requires forall j :: 0 <= j < |s| && j != p ==> s[j] == t[j]
    ensures |RemoveSpaces(t)| == |RemoveSpaces(s)| && q < |RemoveSpaces(s)|
    ensures RemoveSpaces(s)[q] == s[p] && RemoveSpaces(t)[q] == t[p]
    ensures forall j :: 0 <= j < |RemoveSpaces(s)| && j != q ==> RemoveSpaces(s)[j] == RemoveSpaces(t)[j]
  {
    var pre, post := s[..p], s[p + 1..];
    assert t[..p] == pre && t[p + 1..] == post;
    assert s == pre + ([s[p]] + post) && t == pre + ([t[p]] + post);
    RemoveSpacesAppend(pre, [s[p]] + post);
    RemoveSpacesAppend([s[p]], post);
    RemoveSpacesAppend(pre, [t[p]] + post);
    RemoveSpacesAppend([t[p]], post);
    assert RemoveSpaces([s[p]]) == [s[p]] && RemoveSpaces([t[p]]) == [t[p]];
    var a, b := RemoveSpaces(pre), RemoveSpaces(post);
    assert RemoveSpaces(s) == a + [s[p]] + b && RemoveSpaces(t) == a + [t[p]] + b;
    q := |a|;
  }

  /** Removing spaces from a string without spaces changes nothing. */
  lemma {:induction false} RemoveSpacesNoSpaces(s: string)
    requires forall i :: 0 <= i < |s| ==> s[i] != ' '
    ensures RemoveSpaces(s) == s
  {
    if |s| > 0 {
      RemoveSpacesNoSpaces(s[1..]);
    }
  }

  predicate IsUpper(c: char) { 'A' <= c <= 'Z' }
  predicate IsLower(c: char) { 'a' <= c <= 'z' }

  /** Python's "cased" characters, restricted to ASCII letters. */
  predicate IsCased(c: char) { IsUpper(c) || IsLower(c) }

  function ToUpper(c: char): (r: char)
    ensures IsCased(r) == IsCased(c)
    ensures IsCased(c) ==> IsUpper(r)
    ensures !IsCased(c) ==> r == c
  {
    if IsLower(c) then (c as int - 32) as char else c
  }

  function ToLower(c: char): (r: char)
    ensures IsCased(r) == IsCased(c)
    ensures IsCased(c) ==> IsLower(r)
    ensures !IsCased(c) ==> r == c
  {
    if IsUpper(c) then (c as int + 32) as char else c
  }

  /**
   * `str.title()`: a cased character that follows a cased character is
   * lower-cased, one that follows anything else (or starts the string) is
   * upper-cased, every other character is kept.  `afterCased` says whether
   * the character before `s` was cased.
   */
  function TitleFrom(s: string, afterCased: bool): string
  {
    if |s| == 0 then []
    else
      var c := s[0];
      var c' := if !IsCased(c) then c else if afterCased then ToLower(c) else ToUpper(c);
      [c'] + TitleFrom(s[1..], IsCased(c))
  }

  function Title(s: string): string
  {
    TitleFrom(s, false)
  }

  /**
   * Title-casing keeps the length, keeps every non-letter where it was and
   * keeps letters letters (so "cased" positions are the same before and after).
   */
  lemma {:induction false} TitleFromShape(s: string, afterCased: bool)
    ensures |TitleFrom(s, afterCased)| == |s|
    ensures forall i :: 0 <= i < |s| ==> IsCased(TitleFrom(s, afterCased)[i]) == IsCased(s[i])
    ensures forall i :: 0 <= i < |s| && !IsCased(s[i]) ==> TitleFrom(s, afterCased)[i] == s[i]
  {
    if |s| > 0 {
      TitleFromShape(s[1..], IsCased(s[0]));
      var t := TitleFrom(s, afterCased);
      assert t[1..] == TitleFrom(s[1..], IsCased(s[0]));
      forall i | 1 <= i < |s|
        ensures IsCased(t[i]) == IsCased(s[i])
        ensures !IsCased(s[i]) ==> t[i] == s[i]
      {
        assert t[i] == t[1..][i - 1];
        assert s[i] == s[1..][i - 1];
      }
    }
  }

  /** Title-casing never brings in a comma. */
  lemma TitleNoComma(s: string)
    requires ',' !in s
    ensures ',' !in Title(s)
  {
    TitleFromShape(s, false);
    var t := Title(s);
    forall i | 0 <= i < |t| ensures t[i] != ',' {
      assert s[i] in s;
    }
  }

  /** A word starts upper-case and continues lower-case. */
  lemma {:induction false} TitleFromCase(s: string, afterCased: bool, i: nat)
    requires i < |s| && IsCased(s[i])
    ensures |TitleFrom(s, afterCased)| == |s|
    ensures var prevCased := if i == 0 then afterCased else IsCased(s[i - 1]);
            if prevCased then IsLower(TitleFrom(s, afterCased)[i]) else IsUpper(TitleFrom(s, afterCased)[i])
  {
    TitleFromShape(s, afterCased);
    if i > 0 {
      TitleFromCase(s[1..], IsCased(s[0]), i - 1);
      assert TitleFrom(s, afterCased)[i] == TitleFrom(s[1..], IsCased(s[0]))[i - 1];
    }
  }

  /** Title-casing an already title-cased string changes nothing. */
  lemma {:induction false} TitleFromIdempotent(s: string, afterCased: bool)
    ensures TitleFrom(TitleFrom(s, afterCased), afterCased) == TitleFrom(s, afterCased)
  {
    if |s| > 0 {
      var t := TitleFrom(s, afterCased);
      TitleFromShape(s, afterCased);
      TitleFromIdempotent(s[1..], IsCased(s[0]));
      assert t[1..] == TitleFrom(s[1..], IsCased(s[0]));
      assert IsCased(t[0]) == IsCased(s[0]);
    }
  }

  lemma TitleIdempotent(s: string)
    ensures Title(Title(s)) == Title(s)
  {
    TitleFromIdempotent(s, false);
  }

  /** `str.title()` keeps the length, so an empty field stays empty and only an empty field is empty. */
  lemma TitleLength(s: string)
    ensures |Title(s)| == |s|
  {
    TitleFromShape(s, false);
  }

  /** `s.split(", ")`: the pieces between the separators, scanning from the left. */
  function SplitOnComma(s: string): (r: seq<string>)
    ensures |r| >= 1
  {
    if |s| == 0 then [""]
    else if |s| >= 2 && s[0] == ',' && s[1] == ' ' then [""] + SplitOnComma(s[2..])
    else
      var rest := SplitOnComma(s[1..]);
      [[s[0]] + rest[0]] + rest[1..]
  }

  /** A text without a comma is one piece. */
  lemma {:induction false} SplitOnCommaSingle(s: string)
    requires ',' !in s
    ensures SplitOnComma(s) == [s]
  {
    if |s| > 0 {
      assert s[0] in s;
      assert forall c :: c in s[1..] ==> c in s;
      SplitOnCommaSingle(s[1..]);
      assert [s[0]] + s[1..] == s;
    }
  }

  /** Splitting `part + ", " + rest` gives `part` first when `part` has no comma. */
  lemma {:induction false} SplitOnCommaJoin(part: string, rest: string)
    requires ',' !in part
    ensures SplitOnComma(part + ", " + rest) == [part] + SplitOnComma(rest)
  {
    var s := part + ", " + rest;
    if |part| == 0 {
      assert s == ", " + rest && s[2..] == rest;
    } else {
      assert part[0] in part && s[0] == part[0];
      assert forall c :: c in part[1..] ==> c in part;
      assert s[1..] == part[1..] + ", " + rest;
      SplitOnCommaJoin(part[1..], rest);
      assert [part[0]] + part[1..] == part;
    }
  }
}
