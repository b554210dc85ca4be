/**
 The search for the longest block of a text that occurs again without overlap.
 */
module RepeatedBlock {

  /** The block of length `n` at `i` occurs again at `j`, at or behind its end. */
  predicate RepeatsAt(s: string, n: nat, i: nat, j: nat) {
    i + n <= j && j + n <= |s| && s[i..i + n] == s[j..j + n]
  }

  ghost predicate RepeatsFrom(s: string, n: nat, i: nat) {
    exists j: nat :: RepeatsAt(s, n, i, j)
  }

  ghost predicate Repeats(s: string, n: nat) {
    exists i: nat :: RepeatsFrom(s, n, i)
  }

  /** `p` stands at `i` and repeats; no longer block does, and none of its length starts before `i`. */
  ghost predicate LongestLeftmostAt(s: string, p: string, i: nat) {
    && i + |p| <= |s| && p == s[i..i + |p|] && RepeatsFrom(s, |p|, i)
    && (forall n: nat | n > |p| :: !Repeats(s, n))
    && (forall k: nat | k < i :: !RepeatsFrom(s, |p|, k))
  }

  ghost predicate LongestLeftmost(s: string, p: string) {
    exists i: nat :: LongestLeftmostAt(s, p, i)
  }

  /** There is one such block at most, so the answer is determined. */
  lemma LongestLeftmostIsUnique(s: string, p: string, q: string)
    requires LongestLeftmost(s, p) && LongestLeftmost(s, q)
    ensures p == q
  {
    var i: nat :| LongestLeftmostAt(s, p, i);
    var j: nat :| LongestLeftmostAt(s, q, j);
    assert Repeats(s, |p|) && Repeats(s, |q|);
    assert |p| == |q|;
  }

  /** Two occurrences without overlap need twice the length, so the search may start at half. */
  lemma BlocksFitTwice(s: string, n: nat)
    requires Repeats(s, n)
    ensures n <= |s| / 2
  {
    var i: nat :| RepeatsFrom(s, n, i);
    var j: nat :| RepeatsAt(s, n, i, j);
  }

  method Test(s: string) returns (answer: string)
    ensures (exists n: nat :: n >= 2 && Repeats(s, n)) ==>
              exists p: string :: LongestLeftmost(s, p) && |p| >= 2 && answer == "yes " + p
    ensures !(exists n: nat :: n >= 2 && Repeats(s, n)) ==> answer == "no null"
  {
    var size := |s| / 2;
    forall n: nat | n > size ensures !Repeats(s, n) {
      if Repeats(s, n) {
        BlocksFitTwice(s, n);
      }
    }
    while size >= 2
      invariant size <= |s| / 2
      invariant forall n: nat | n > size :: !Repeats(s, n)
    {
      var i := 0;
      while i < |s| - size
        invariant 0 <= i <= |s| - size
        invariant forall k: nat | k < i :: !RepeatsFrom(s, size, k)
      {
        var block := s[i..i + size];
        var j := i + size;
        while j <= |s| - size
          invariant i + size <= j
          invariant forall k: nat | k < j :: !RepeatsAt(s, size, i, k)
        {
          if block == s[j..j + size] {
            assert RepeatsAt(s, size, i, j);
            assert RepeatsFrom(s, size, i) && Repeats(s, size);
            assert LongestLeftmostAt(s, block, i);
            return "yes " + block;
          }
          j := j + 1;
        }
        i := i + 1;
      }
      size := size - 1;
    }
    return "no null";
  }
}
