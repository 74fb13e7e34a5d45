/** Positions of substrings, used to say where a piece of text appears. */
module Text {

  /** `w` occurs in `s` starting at index `i`. */
  predicate OccursAt(s: string, i: nat, w: string)
  {
    i + |w| <= |s| && s[i..i + |w|] == w
  }

  predicate EndsWith(s: string, w: string)
  {
    |w| <= |s| && s[|s| - |w|..] == w
  }

  /** Each of four concatenated parts sits right after the ones before it. */
  lemma ConcatLayout(a: string, b: string, c: string, d: string)
    ensures OccursAt(a + b + c + d, 0, a)
    ensures OccursAt(a + b + c + d, |a|, b)
    ensures OccursAt(a + b + c + d, |a| + |b|, c)
    ensures OccursAt(a + b + c + d, |a| + |b| + |c|, d)
    ensures |a + b + c + d| == |a| + |b| + |c| + |d|
  {
  }
}
