/** Python's `str.lower()` and `str.title()`, restricted to the letters the
    names use: the ASCII letters and the basic Cyrillic block (U+0400..U+045F).
    Every other character is uncased and maps to itself. */
module CaseMapping {

  predicate IsUpper(c: char)
  {
    ('A' <= c <= 'Z') || ('Ѐ' <= c <= 'Я')
  }

  predicate IsLower(c: char)
  {
    ('a' <= c <= 'z') || ('а' <= c <= 'џ')
  }

  /** A character that has an upper- and a lower-case form. */
  predicate IsCased(c: char)
  {
    IsUpper(c) || IsLower(c)
  }

  function LowerChar(c: char): (d: char)
    ensures IsUpper(c) ==> IsLower(d)
    ensures !IsUpper(c) ==> d == c
  {
    if 'A' <= c <= 'Z' then (c as int + 32) as char
    else if 'Ѐ' <= c <= 'Џ' then (c as int + 0x50) as char
    else if 'А' <= c <= 'Я' then (c as int + 0x20) as char
    else c
  }

  function UpperChar(c: char): (d: char)
    ensures IsLower(c) ==> IsUpper(d)
    ensures !IsLower(c) ==> d == c
  {
    if 'a' <= c <= 'z' then (c as int - 32) as char
    else if 'ѐ' <= c <= 'џ' then (c as int - 0x50) as char
    else if 'а' <= c <= 'я' then (c as int - 0x20) as char
    else c
  }

  /** Upper- and lower-casing are inverse on the cased letters, so a letter
      keeps its identity whatever case it is written in. */
  lemma CaseRoundTrip(c: char)
    ensures LowerChar(UpperChar(c)) == LowerChar(c)
    ensures UpperChar(LowerChar(c)) == UpperChar(c)
    ensures IsCased(LowerChar(c)) == IsCased(c)
    ensures IsCased(UpperChar(c)) == IsCased(c)
  {
  }

  /** `str.lower()`. */
  function Lower(s: string): (r: string)
    ensures |r| == |s|
    ensures forall i :: 0 <= i < |s| ==> r[i] == LowerChar(s[i])
  {
    seq(|s|, i requires 0 <= i < |s| => LowerChar(s[i]))
  }

  /** A lowered name has no upper-case letter left. */
  lemma LowerHasNoUpper(s: string)
    ensures forall i :: 0 <= i < |s| ==> !IsUpper(Lower(s)[i])
  {
  }

  /** Lowering twice is lowering once, so a stored name is a fixed point. */
  lemma LowerIdempotent(s: string)
    ensures Lower(Lower(s)) == Lower(s)
  {
    assert forall i :: 0 <= i < |s| ==> LowerChar(LowerChar(s[i])) == LowerChar(s[i]);
  }

  /** `str.title()` from a position whose left neighbour is cased or not:
      the first cased letter of each run of cased letters is upper-cased and
      the rest of the run lower-cased. */
  function TitleFrom(s: string, previousIsCased: bool): (r: string)
    ensures |r| == |s|
  {
    if s == [] then []
    else
      var c := if previousIsCased then LowerChar(s[0]) else UpperChar(s[0]);
      [c] + TitleFrom(s[1..], IsCased(s[0]))
  }

  /** Position by position, `TitleFrom` lower-cases a character whose left
      neighbour is cased and upper-cases every other one. */
  lemma {:induction false} TitleFromRule(s: string, previousIsCased: bool)
    ensures forall i :: 0 <= i < |s| ==>
              TitleFrom(s, previousIsCased)[i]
              == if (if i == 0 then previousIsCased else IsCased(s[i - 1])) then LowerChar(s[i]) else UpperChar(s[i])
  {
    if s != [] {
      TitleFromRule(s[1..], IsCased(s[0]));
      var r := TitleFrom(s, previousIsCased);
      assert forall i :: 1 <= i < |s| ==> r[i] == TitleFrom(s[1..], IsCased(s[0]))[i - 1] && s[1..][i - 1] == s[i];
    }
  }

  /** `str.title()`: a character that follows a cased character is
      lower-cased, every other character (the first one, and one after a
      space, digit or sign) is upper-cased; uncased characters stay as they are. */
  function Title(s: string): (r: string)
    ensures |r| == |s|
    ensures |s| > 0 ==> r[0] == UpperChar(s[0])
    ensures forall i :: 0 < i < |s| ==> r[i] == if IsCased(s[i - 1]) then LowerChar(s[i]) else UpperChar(s[i])
  {
    TitleFromRule(s, false);
    TitleFrom(s, false)
  }

  /** Title-casing writes each character either lower-cased or upper-cased. */
  lemma {:induction false} TitleFromCases(s: string, previousIsCased: bool)
    ensures forall i :: 0 <= i < |s| ==>
              TitleFrom(s, previousIsCased)[i] == LowerChar(s[i]) || TitleFrom(s, previousIsCased)[i] == UpperChar(s[i])
  {
    if s != [] {
      TitleFromCases(s[1..], IsCased(s[0]));
      var r := TitleFrom(s, previousIsCased);
      assert forall i :: 1 <= i < |s| ==> r[i] == TitleFrom(s[1..], IsCased(s[0]))[i - 1];
    }
  }

  /** Title-casing only changes the case of letters: lowering the title-cased
      text gives back the lowered text. */
  lemma LowerTitle(s: string)
    ensures Lower(Title(s)) == Lower(s)
  {
    TitleFromCases(s, false);
    forall i | 0 <= i < |s| ensures Lower(Title(s))[i] == Lower(s)[i] {
      CaseRoundTrip(s[i]);
    }
  }

  lemma {:induction false} TitleFromLower(s: string, previousIsCased: bool)
    ensures TitleFrom(Lower(s), previousIsCased) == TitleFrom(s, previousIsCased)
  {
    if s != [] {
      CaseRoundTrip(s[0]);
      TitleFromLower(s[1..], IsCased(s[0]));
      assert Lower(s)[1..] == Lower(s[1..]);
    }
  }

  /** The title-cased form of a name does not depend on the case it was
      typed in. */
  lemma TitleOfLower(s: string)
    ensures Title(Lower(s)) == Title(s)
  {
    TitleFromLower(s, false);
  }
}
