/** What the standard library's string functions do to the strings used here. */
module Text {

  /** unicode.IsSpace. */
  predicate IsSpace(c: char) {
    var n := c as int;
    || 0x09 <= n <= 0x0D || n == 0x20 || n == 0x85 || n == 0xA0 || n == 0x1680
    || 0x2000 <= n <= 0x200A || n == 0x2028 || n == 0x2029 || n == 0x202F || n == 0x205F || n == 0x3000
  }

  lemma AsciiSpaces(c: char)
    requires c as int < 128
    ensures IsSpace(c) <==> c == ' ' || c == '\t' || c == '\n' || c == '\r' || c as int == 0x0B || c as int == 0x0C
  {
  }

  function TrimLeft(s: string): string {
    if s != [] && IsSpace(s[0]) then TrimLeft(s[1..]) else s
  }

  function TrimRight(s: string): string {
    if s != [] && IsSpace(s[|s| - 1]) then TrimRight(s[..|s| - 1]) else s
  }

  /** strings.TrimSpace. */
  function TrimSpace(s: string): string {
    TrimRight(TrimLeft(s))
  }

  predicate Spaces(s: string) {
    forall c <- s :: IsSpace(c)
  }

  predicate Bare(s: string) {
    s == [] || (!IsSpace(s[0]) && !IsSpace(s[|s| - 1]))
  }

  /** Trimming takes away whatever white space is put around a string, and no more. */
  lemma {:induction false} TrimAround(before: string, s: string, after: string)
    requires Spaces(before) && Spaces(after) && Bare(s)
    ensures TrimSpace(before + s + after) == s
    decreases |before|
  {
    hide IsSpace;
    if before == [] {
      assert before + s + after == s + after;
      if s == [] {
        assert s + after == after;
        AllSpace(after);
      } else {
        TrimAfter(s, after);
      }
    } else {
      assert before[0] in before;
      assert forall c <- before[1..] :: c in before;
      TrimAround(before[1..], s, after);
      assert (before + s + after)[1..] == before[1..] + s + after;
    }
  }

  lemma {:induction false} AllSpace(s: string)
    requires Spaces(s)
    ensures TrimLeft(s) == []
  {
    hide IsSpace;
    if s != [] {
      assert s[0] in s;
      AllSpace(s[1..]);
    }
  }

  lemma {:induction false} TrimAfter(s: string, after: string)
    requires Spaces(after) && Bare(s) && s != []
    ensures TrimRight(s + after) == s
    decreases |after|
  {
    hide IsSpace;
    if after == [] {
      assert s + after == s;
    } else {
      var n := |after| - 1;
      assert after[n] in after;
      assert forall c <- after[..n] :: c in after;
      TrimAfter(s, after[..n]);
      assert (s + after)[..|s + after| - 1] == s + after[..n];
    }
  }

  lemma {:induction false} TrimRightIsBare(s: string)
    ensures TrimRight(s) == [] || !IsSpace(TrimRight(s)[|TrimRight(s)| - 1])
    ensures s != [] && !IsSpace(s[0]) ==> TrimRight(s) != [] && TrimRight(s)[0] == s[0]
  {
    hide IsSpace;
    if s != [] && IsSpace(s[|s| - 1]) {
      TrimRightIsBare(s[..|s| - 1]);
    }
  }

  lemma {:induction false} TrimLeftIsBare(s: string)
    ensures TrimLeft(s) == [] || !IsSpace(TrimLeft(s)[0])
  {
    hide IsSpace;
    if s != [] && IsSpace(s[0]) {
      TrimLeftIsBare(s[1..]);
    }
  }

  lemma TrimmedIsBare(s: string)
    ensures Bare(TrimSpace(s))
  {
    TrimLeftIsBare(s);
    TrimRightIsBare(TrimLeft(s));
    hide IsSpace;
  }
}
