/** The string operations references and currencies are compared with, on ASCII text. */
module Text {
  import opened Common

  predicate IsSpace(c: char) {
    c == ' ' || '\t' <= c <= '\r' || '\U{1C}' <= c <= '\U{1F}'
  }

  function Upper(s: string): string {
    Map(s, (c: char) => if 'a' <= c <= 'z' then ((c as int) - 32) as char else c)
  }

  function Lower(s: string): string {
    Map(s, (c: char) => if 'A' <= c <= 'Z' then ((c as int) + 32) as char else c)
  }

  function StripLeft(s: string): string {
    if s != "" && IsSpace(s[0]) then StripLeft(s[1..]) else s
  }

  function Strip(s: string): string
    decreases |s|
  {
    if s != "" && IsSpace(s[|s| - 1]) then Strip(s[..|s| - 1]) else StripLeft(s)
  }

  /** `s` with its spaces removed. */
  function Tight(s: string): string {
    Filter(s, (c: char) => !IsSpace(c))
  }

  predicate Contains(text: string, part: string)
    decreases |text|
  {
    |part| <= |text| && (text[..|part|] == part || (text != "" && Contains(text[1..], part)))
  }

  /** A currency code as two of them are compared. */
  function Currency(code: string): string {
    Upper(Strip(code))
  }

  /** A blank field's default. */
  function Or(s: string, default: string): string {
    if s == "" then default else s
  }

  // ----- what they do, said of the characters -----

  /** The ASCII spaces: tab to carriage return, the four separators, and the blank. */
  lemma {:induction false} SpacesAre(c: char)
    ensures IsSpace(c) <==> c as int in {9, 10, 11, 12, 13, 28, 29, 30, 31, 32}
  {
  }

  ghost predicate AllSpaces(s: string) {
    forall i :: 0 <= i < |s| ==> IsSpace(s[i])
  }

  /** Neither begins nor ends with a space. */
  ghost predicate Trimmed(s: string) {
    s != "" ==> !IsSpace(s[0]) && !IsSpace(s[|s| - 1])
  }

  lemma {:induction false} StripLeftMeans(s: string) returns (left: string)
    ensures s == left + StripLeft(s) && AllSpaces(left)
    ensures StripLeft(s) != "" ==> !IsSpace(StripLeft(s)[0])
  {
    if s != "" && IsSpace(s[0]) {
      var rest := StripLeftMeans(s[1..]);
      left := [s[0]] + rest;
      assert s == [s[0]] + s[1..];
    } else {
      left := "";
    }
  }

  /** Stripped, a text is what is between the spaces it begins and those it ends with. */
  lemma {:induction false} StripMeans(s: string) returns (left: string, right: string)
    ensures s == left + Strip(s) + right && AllSpaces(left) && AllSpaces(right) && Trimmed(Strip(s))
    decreases |s|
  {
    if s != "" && IsSpace(s[|s| - 1]) {
      left, right := StripMeans(s[..|s| - 1]);
      right := right + [s[|s| - 1]];
    } else {
      left := StripLeftMeans(s);
      right := "";
      if StripLeft(s) != "" {
        assert StripLeft(s)[|StripLeft(s)| - 1] == s[|s| - 1];
      }
    }
  }

  /** Nothing else is: the stripped text is the only such middle. */
  lemma {:induction false} StripIsOnly(s: string, left: string, middle: string, right: string)
    requires s == left + middle + right && AllSpaces(left) && AllSpaces(right) && Trimmed(middle)
    ensures Strip(s) == middle
    decreases |s|
  {
    if right != "" {
      assert s[..|s| - 1] == left + middle + right[..|right| - 1];
      StripIsOnly(s[..|s| - 1], left, middle, right[..|right| - 1]);
    } else if middle != "" {
      assert s == left + middle && s[|s| - 1] == middle[|middle| - 1];
      StripLeftIsOnly(s, left, middle);
    } else if left != "" {
      assert s == left;
      assert s[..|s| - 1] == left[..|left| - 1] + middle + right;
      StripIsOnly(s[..|s| - 1], left[..|left| - 1], middle, right);
    }
  }

  lemma {:induction false} StripLeftIsOnly(s: string, left: string, middle: string)
    requires s == left + middle && AllSpaces(left) && (middle != "" ==> !IsSpace(middle[0]))
    ensures StripLeft(s) == middle
  {
    if left != "" {
      assert s[1..] == left[1..] + middle;
      StripLeftIsOnly(s[1..], left[1..], middle);
    }
  }

  /** A part is contained just where it stands somewhere in the text. */
  lemma {:induction false} ContainsMeans(text: string, part: string)
    ensures Contains(text, part) <==> exists x: string, y: string :: text == x + part + y
    decreases |text|
  {
    if Contains(text, part) {
      var x, y := ContainedAt(text, part);
    }
    forall x: string, y: string | text == x + part + y ensures Contains(text, part) {
      if x == "" {
        assert text[..|part|] == part;
      } else {
        assert text[1..] == x[1..] + part + y;
        ContainsMeans(text[1..], part);
      }
    }
  }

  lemma {:induction false} ContainedAt(text: string, part: string) returns (x: string, y: string)
    requires Contains(text, part)
    ensures text == x + part + y
    decreases |text|
  {
    if text[..|part|] == part {
      x, y := "", text[|part|..];
    } else {
      x, y := ContainedAt(text[1..], part);
      x := [text[0]] + x;
      assert text == [text[0]] + text[1..];
    }
  }

  /** Tight is character by character: a space goes, anything else stays. */
  lemma {:induction false} TightMeans(s: string, c: char)
    ensures Tight("") == "" && Tight(s + [c]) == Tight(s) + (if IsSpace(c) then "" else [c])
  {
    FilterSnoc(s, c, (c: char) => !IsSpace(c));
  }

  /** Letters move between the cases by their place in the alphabet, and nothing else moves. */
  lemma {:induction false} CasesAre(s: string)
    ensures |Upper(s)| == |Lower(s)| == |s|
    ensures forall i :: 0 <= i < |s| ==>
      && Upper(s)[i] as int == (if 'a' <= s[i] <= 'z' then s[i] as int - 'a' as int + 'A' as int else s[i] as int)
      && Lower(s)[i] as int == (if 'A' <= s[i] <= 'Z' then s[i] as int - 'A' as int + 'a' as int else s[i] as int)
  {
  }
}
