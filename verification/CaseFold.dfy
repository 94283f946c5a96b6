/** The hand-written substring search of internal/security/authlog.go. Strings are sequences
    of bytes. */
module CaseFold {
  /** Upper-case ASCII letters go to their lower-case ones, at the same place in the alphabet. */
  function Lower(c: char): (r: char)
    ensures 'A' <= c <= 'Z' ==> 'a' <= r <= 'z' && r as int - 'a' as int == c as int - 'A' as int
    ensures !('A' <= c <= 'Z') ==> r == c
  {
    if 'A' <= c <= 'Z' then (c as int + 32) as char else c
  }

  function LowerAll(s: string): (r: string)
    ensures |r| == |s|
  {
    seq(|s|, i requires 0 <= i < |s| => Lower(s[i]))
  }

  predicate HasUpper(s: string) {
    exists i :: 0 <= i < |s| && 'A' <= s[i] <= 'Z'
  }

  function Window(s: string, i: int, n: nat): (w: string)
    requires 0 <= i <= |s| - n
    ensures |w| == n
  {
    s[i..i + n]
  }

  /** Some window of s, folded to lower case, is `sub`. */
  ghost predicate WindowFoldsTo(s: string, sub: string) {
    exists i :: 0 <= i <= |s| - |sub| && LowerAll(Window(s, i, |sub|)) == sub
  }

  /** Case-insensitive containment proper: both sides are folded. */
  ghost predicate ContainsIgnoringCase(s: string, sub: string) {
    exists i :: 0 <= i <= |s| - |sub| && LowerAll(Window(s, i, |sub|)) == LowerAll(sub)
  }

  method FindCI(s: string, sub: string) returns (found: bool)
    ensures found <==> WindowFoldsTo(s, sub)
  {
    var i := 0;
    while i <= |s| - |sub|
      invariant 0 <= i
      invariant forall k :: 0 <= k < i && k <= |s| - |sub| ==> LowerAll(Window(s, k, |sub|)) != sub
    {
      var match_ := true;
      var j := 0;
      while j < |sub|
        invariant 0 <= j <= |sub|
        invariant match_
        invariant forall k :: 0 <= k < j ==> Lower(s[i + k]) == sub[k]
      {
        var a, b := s[i + j], sub[j];
        if 'A' <= a <= 'Z' {
          a := (a as int + 32) as char;
        }
        if a != b {
          match_ := false;
          assert LowerAll(Window(s, i, |sub|))[j] != sub[j];
          break;
        }
        j := j + 1;
      }
      if match_ {
        assert LowerAll(Window(s, i, |sub|)) == sub;
        return true;
      }
      i := i + 1;
    }
    return false;
  }

  /** The length guard in front of the search never changes the answer. */
  method ContainsCI(s: string, sub: string) returns (found: bool)
    ensures found <==> WindowFoldsTo(s, sub)
  {
    if |s| >= |sub| {
      found := FindCI(s, sub);
    } else {
      found := false;
    }
  }

  /** The search is case-insensitive containment for every text exactly when the needle has
      no upper-case ASCII letter; only the haystack is folded. */
  lemma CaseInsensitiveIffLowerNeedle(sub: string)
    ensures (forall s: string :: WindowFoldsTo(s, sub) <==> ContainsIgnoringCase(s, sub)) <==> !HasUpper(sub)
  {
    if !HasUpper(sub) {
      assert LowerAll(sub) == sub;
    } else {
      UpperNeedleNeverMatches(sub, sub);
      assert LowerAll(Window(sub, 0, |sub|)) == LowerAll(sub);
      assert ContainsIgnoringCase(sub, sub);
    }
  }

  lemma UpperNeedleNeverMatches(s: string, sub: string)
    requires HasUpper(sub)
    ensures !WindowFoldsTo(s, sub)
  {
    var k :| 0 <= k < |sub| && 'A' <= sub[k] <= 'Z';
    forall i | 0 <= i <= |s| - |sub|
      ensures LowerAll(Window(s, i, |sub|)) != sub
    {
      var w := Window(s, i, |sub|);
      assert LowerAll(w)[k] == Lower(w[k]);
    }
  }
}
