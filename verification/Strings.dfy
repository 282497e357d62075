/** The string operations the modelled code uses, over ASCII. */
module Strings {

  function LowerChar(c: char): char {
    if 'A' <= c <= 'Z' then (c as int + 32) as char else c
  }

  /** Python's `lower()`, for ASCII text. */
  function Lower(s: string): (r: string)
    ensures |r| == |s|
    ensures forall i | 0 <= i < |s| :: r[i] == if 'A' <= s[i] <= 'Z' then (s[i] as int + 32) as char else s[i]
  {
    seq(|s|, i requires 0 <= i < |s| => LowerChar(s[i]))
  }

  /** ASCII white space, as `isspace()` has it. */
  predicate Blank(c: char) {
    c == ' ' || 9 <= c as int <= 13 || 28 <= c as int <= 31
  }

  function StripLeft(s: string): (r: string)
    ensures |r| <= |s|
  {
    if s != "" && Blank(s[0]) then StripLeft(s[1..]) else s
  }

  function StripRight(s: string): string {
    if s != "" && Blank(s[|s| - 1]) then StripRight(s[..|s| - 1]) else s
  }

  /** Python's `strip()`, for ASCII text. */
  function Strip(s: string): string {
    StripRight(StripLeft(s))
  }

  lemma {:induction false} StripLeftEndsAtText(s: string)
    ensures var r := StripLeft(s); r != "" ==> !Blank(r[0])
  {
    if s != "" {
      StripLeftEndsAtText(s[1..]);
    }
  }

  lemma {:induction false} StripRightEndsAtText(s: string)
    ensures var r := StripRight(s);
      |r| <= |s| && r == s[..|r|] && (r != "" ==> !Blank(r[|r| - 1]))
  {
    if s != "" {
      StripRightEndsAtText(s[..|s| - 1]);
    }
  }

  /** Stripped text neither starts nor ends with white space. */
  lemma StripEndsAtText(s: string)
    ensures var r := Strip(s); r != "" ==> !Blank(r[0]) && !Blank(r[|r| - 1])
  {
    StripLeftEndsAtText(s);
    StripRightEndsAtText(StripLeft(s));
  }

  lemma StripIsIdempotent(s: string)
    ensures Strip(Strip(s)) == Strip(s)
  {
    StripEndsAtText(s);
  }

  predicate EndsWith(s: string, suffix: string) {
    |suffix| <= |s| && s[|s| - |suffix|..] == suffix
  }

  /** Python's `part in s`. */
  predicate Contains(s: string, part: string) {
    part == s[..if |part| <= |s| then |part| else |s|] || (s != "" && Contains(s[1..], part))
  }

  // ---------- what they do, without their definitions ----------

  /** Tab, line feed, vertical tab, form feed, carriage return, four separators and the space. */
  lemma BlanksAre(c: char)
    ensures Blank(c) <==> c as int in {9, 10, 11, 12, 13, 28, 29, 30, 31, 32}
  {
  }

  /** Every character is white space. */
  predicate AllBlank(s: string) {
    forall i | 0 <= i < |s| :: s[i] as int in {9, 10, 11, 12, 13, 28, 29, 30, 31, 32}
  }

  lemma {:induction false} StripLeftCuts(s: string) returns (front: string)
    ensures s == front + StripLeft(s) && AllBlank(front)
  {
    front := "";
    if s != "" && Blank(s[0]) {
      BlanksAre(s[0]);
      var rest := StripLeftCuts(s[1..]);
      front := [s[0]] + rest;
      assert s == [s[0]] + s[1..];
    }
  }

  lemma {:induction false} StripRightCuts(s: string) returns (back: string)
    ensures s == StripRight(s) + back && AllBlank(back)
  {
    back := "";
    if s != "" && Blank(s[|s| - 1]) {
      BlanksAre(s[|s| - 1]);
      var rest := StripRightCuts(s[..|s| - 1]);
      back := rest + [s[|s| - 1]];
      assert s == s[..|s| - 1] + [s[|s| - 1]];
    }
  }

  /** `strip` takes white space off both ends and nothing else, until it meets other text. */
  lemma StripCutsTheEnds(s: string) returns (front: string, back: string)
    ensures s == front + Strip(s) + back && AllBlank(front) && AllBlank(back)
    ensures Strip(s) != "" ==> !Blank(Strip(s)[0]) && !Blank(Strip(s)[|Strip(s)| - 1])
  {
    front := StripLeftCuts(s);
    back := StripRightCuts(StripLeft(s));
    StripEndsAtText(s);
  }

  /** The part stands at place `i`. */
  predicate StandsAt(s: string, part: string, i: nat) {
    i + |part| <= |s| && s[i..i + |part|] == part
  }

  lemma StandsOneLater(s: string, part: string, i: nat)
    requires s != ""
    ensures StandsAt(s[1..], part, i) <==> StandsAt(s, part, i + 1)
  {
    if i + |part| < |s| {
      assert s[1..][i..i + |part|] == s[i + 1..i + 1 + |part|];
    }
  }

  lemma StandsFirstIff(s: string, part: string)
    ensures StandsAt(s, part, 0) <==> part == s[..if |part| <= |s| then |part| else |s|]
  {
  }

  /** `part in s` says that the part stands somewhere. */
  lemma {:induction false} ContainsIffItStandsSomewhere(s: string, part: string)
    ensures Contains(s, part) <==> exists i: nat :: StandsAt(s, part, i)
  {
    StandsFirstIff(s, part);
    if s != "" {
      ContainsIffItStandsSomewhere(s[1..], part);
      forall i: nat
        ensures StandsAt(s[1..], part, i) <==> StandsAt(s, part, i + 1)
      {
        StandsOneLater(s, part, i);
      }
      forall i: nat | i > 0
        ensures StandsAt(s, part, i) <==> StandsAt(s[1..], part, i - 1)
      {
        StandsOneLater(s, part, i - 1);
      }
    }
  }

  lemma EndsWithIff(s: string, suffix: string)
    ensures EndsWith(s, suffix) <==> exists front :: s == front + suffix
  {
    if EndsWith(s, suffix) {
      assert s == s[..|s| - |suffix|] + suffix;
    }
  }
}
