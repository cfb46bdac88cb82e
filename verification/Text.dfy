/** Python text operations on ASCII strings. */
module Text {

  predicate IsSpace(c: char) {
    c == ' ' || 9 <= c as int <= 13 || 28 <= c as int <= 31
  }

  /** `str.strip`. */
  function Strip(s: string): string {
    if s != [] && IsSpace(s[0]) then Strip(s[1..])
    else if s != [] && IsSpace(s[|s| - 1]) then Strip(s[..|s| - 1])
    else s
  }

  function LowerChar(c: char): char {
    if 'A' <= c <= 'Z' then (c as int + 32) as char else c
  }

  /** `str.lower`. */
  function Lower(s: string): string {
    seq(|s|, i requires 0 <= i < |s| => LowerChar(s[i]))
  }

  ghost predicate Blank(c: char) {
    c == ' ' || c == '\t' || c == '\n' || 11 <= c as int <= 13 || 28 <= c as int <= 31
  }

  ghost predicate AllBlank(s: string) {
    forall i | 0 <= i < |s| :: Blank(s[i])
  }

  ghost predicate Trimmed(s: string, t: string, front: string, back: string) {
    s == front + t + back && AllBlank(front) && AllBlank(back)
  }

  lemma TrimFirst(c: char, s: string, t: string, front: string, back: string)
    requires Blank(c) && Trimmed(s, t, front, back)
    ensures Trimmed([c] + s, t, [c] + front, back)
  {
    assert [c] + (front + t + back) == ([c] + front) + t + back;
  }

  lemma TrimLast(c: char, s: string, t: string, front: string, back: string)
    requires Blank(c) && Trimmed(s, t, front, back)
    ensures Trimmed(s + [c], t, front, back + [c])
  {
    assert (front + t + back) + [c] == front + t + (back + [c]);
  }

  /** No blank at either end. */
  ghost predicate Bare(s: string) {
    s != [] ==> !Blank(s[0]) && !Blank(s[|s| - 1])
  }

  lemma {:induction false} StripIsBare(s: string)
    ensures Bare(Strip(s))
    decreases |s|
  {
    if s != [] && IsSpace(s[0]) {
      StripIsBare(s[1..]);
    } else if s != [] && IsSpace(s[|s| - 1]) {
      StripIsBare(s[..|s| - 1]);
    }
  }

  /** Stripping drops blanks at both ends, all of them, and nothing else. */
  lemma {:induction false} StripDropsBlanks(s: string) returns (front: string, back: string)
    ensures Trimmed(s, Strip(s), front, back) && Bare(Strip(s))
    decreases |s|
  {
    StripIsBare(s);
    if s != [] && IsSpace(s[0]) {
      var rest := s[1..];
      front, back := StripDropsBlanks(rest);
      assert s == [s[0]] + rest;
      TrimFirst(s[0], rest, Strip(rest), front, back);
      front := [s[0]] + front;
    } else if s != [] && IsSpace(s[|s| - 1]) {
      var rest := s[..|s| - 1];
      front, back := StripDropsBlanks(rest);
      assert s == rest + [s[|s| - 1]];
      TrimLast(s[|s| - 1], rest, Strip(rest), front, back);
      back := back + [s[|s| - 1]];
    } else {
      front, back := [], [];
      assert [] + s + [] == s;
    }
  }

  lemma LowerIs(s: string, i: nat)
    requires i < |s|
    ensures |Lower(s)| == |s|
    ensures 'A' <= s[i] <= 'Z' ==> Lower(s)[i] as int == s[i] as int - 'A' as int + 'a' as int
    ensures !('A' <= s[i] <= 'Z') ==> Lower(s)[i] == s[i]
  {
  }

  predicate Binary(s: string) {
    forall i | 0 <= i < |s| :: s[i] == '0' || s[i] == '1'
  }

  /** The bits a text of zeros and ones spells, as `int(s, 2)` reads them. */
  function WordOf(s: string): (w: seq<bool>)
    ensures |w| == |s|
  {
    seq(|s|, i requires 0 <= i < |s| => s[i] == '1')
  }
}
