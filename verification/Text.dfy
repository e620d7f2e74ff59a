/** Trimming of text. */
module Text {

  predicate IsSpace(c: char) {
    c == ' ' || c == '\t' || c == '\n' || c == '\r'
  }

  function StripLeft(s: string): (r: string)
    ensures |r| <= |s| && (r != "" ==> !IsSpace(r[0]))
  {
    if s != "" && IsSpace(s[0]) then StripLeft(s[1..]) else s
  }

  function StripRight(s: string): (r: string)
    ensures |r| <= |s| && r <= s && (r != "" ==> !IsSpace(r[|r| - 1]))
  {
    if s != "" && IsSpace(s[|s| - 1]) then StripRight(s[..|s| - 1]) else s
  }

  function Strip(s: string): string {
    StripRight(StripLeft(s))
  }

  /** Spaces around a text are trimmed away. */
  lemma {:induction false} StripOfSpaced(left: string, s: string, right: string)
    requires forall c :: c in left + right ==> IsSpace(c)
    requires s != "" && !IsSpace(s[0]) && !IsSpace(s[|s| - 1])
    ensures Strip(left + s + right) == s
    decreases |left| + |right|
  {
    var t := left + s + right;
    if left != "" {
      assert t[0] == left[0] && left[0] in left + right;
      assert t[1..] == left[1..] + s + right;
      assert forall c :: c in left[1..] + right ==> c in left + right;
      StripOfSpaced(left[1..], s, right);
    } else if right != "" {
      assert t[0] == s[0] && t[|t| - 1] == right[|right| - 1];
      assert right[|right| - 1] in left + right;
      assert t[..|t| - 1] == left + s + right[..|right| - 1];
      assert (left + s + right[..|right| - 1])[0] == s[0];
      assert forall c :: c in left + right[..|right| - 1] ==> c in left + right;
      StripOfSpaced(left, s, right[..|right| - 1]);
    } else {
      assert t == s;
    }
  }

  ghost predicate AllSpaces(s: string) {
    forall c :: c in s ==> IsSpace(c)
  }

  /** The text without the spaces around it. */
  ghost predicate IsTrimmed(s: string, t: string) {
    && (t != "" ==> !IsSpace(t[0]) && !IsSpace(t[|t| - 1]))
    && exists left, right :: AllSpaces(left) && AllSpaces(right) && s == left + t + right
  }

  lemma {:induction false} StripLeftDrops(s: string) returns (left: string)
    ensures AllSpaces(left) && s == left + StripLeft(s)
  {
    left := "";
    if s != "" && IsSpace(s[0]) {
      var more := StripLeftDrops(s[1..]);
      left := [s[0]] + more;
    }
  }

  lemma {:induction false} StripRightDrops(s: string) returns (right: string)
    ensures AllSpaces(right) && s == StripRight(s) + right
  {
    right := "";
    if s != "" && IsSpace(s[|s| - 1]) {
      var more := StripRightDrops(s[..|s| - 1]);
      right := more + [s[|s| - 1]];
    }
  }

  lemma {:induction false} StripOfSpaces(s: string)
    requires AllSpaces(s)
    ensures Strip(s) == ""
  {
    if s != "" {
      assert s[0] in s;
      StripOfSpaces(s[1..]);
    }
  }

  /** Trimming is exactly that. */
  lemma StripTrims(s: string, t: string)
    ensures IsTrimmed(s, t) <==> t == Strip(s)
  {
    if IsTrimmed(s, t) {
      var left, right :| AllSpaces(left) && AllSpaces(right) && s == left + t + right;
      if t == "" {
        assert s == left + right;
        StripOfSpaces(s);
      } else {
        StripOfSpaced(left, t, right);
      }
    }
    var left := StripLeftDrops(s);
    var right := StripRightDrops(StripLeft(s));
    assert s == left + Strip(s) + right;
    assert Strip(s) != "" ==> Strip(s)[0] == StripLeft(s)[0];
    assert IsTrimmed(s, Strip(s));
  }
}
