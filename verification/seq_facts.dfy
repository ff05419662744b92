/** Facts about sequence concatenation that several proofs take one step
    at a time. */
module SeqFacts {

  /** Splitting off the first element commutes with appending. */
  lemma ConsAppend<T>(s: seq<T>, rest: seq<T>)
    requires |s| > 0
    ensures s + rest == [s[0]] + (s[1..] + rest)
    ensures (s + rest)[0] == s[0] && (s + rest)[1..] == s[1..] + rest
  {
    assert s == [s[0]] + s[1..];
  }

  /** A frame built field by field equals the same fields grouped into a
      body between a leading and a trailing part. */
  lemma Regroup<T>(a: seq<T>, b: seq<T>, c: seq<T>, d: seq<T>, e: seq<T>, f: seq<T>, g: seq<T>)
    ensures a + (b + c + d + (e + f)) + g == a + b + c + d + e + f + g
  {
  }

  lemma RegroupPairs<T>(a: seq<T>, b: seq<T>, c: seq<T>, d: seq<T>, e: seq<T>, g: seq<T>)
    ensures a + (b + c + (d + e)) + g == a + b + c + d + e + g
  {
  }

  lemma Pairs<T>(a: seq<T>, b: seq<T>, c: seq<T>, d: seq<T>)
    ensures a + b + c + d == (a + b) + (c + d)
  {
  }

  /** A field inside a header that sits inside a frame sits in the frame at
      the sum of the two offsets. */
  lemma SliceOfSlice<T>(h: seq<T>, a: nat, b: nat, x: seq<T>, c: nat, d: nat)
    requires a <= b <= |h| && h[a..b] == x && c <= d <= |x|
    ensures h[a + c..a + d] == x[c..d]
  {
    forall j | 0 <= j < d - c
      ensures h[a + c..a + d][j] == x[c..d][j]
    {
      assert h[a + c + j] == h[a..b][c + j];
    }
  }

  /** Two sequences that agree on a range agree on every part of it. */
  lemma SubRange<T>(x: seq<T>, y: seq<T>, lo: nat, hi: nat, a: nat, b: nat)
    requires lo <= a <= b <= hi <= |x| && hi <= |y| && x[lo..hi] == y[lo..hi]
    ensures x[a..b] == y[a..b]
  {
    forall j | 0 <= j < b - a
      ensures x[a..b][j] == y[a..b][j]
    {
      assert x[a + j] == x[lo..hi][a + j - lo];
    }
  }

  /** Each part of a concatenation is the range it occupies. */
  lemma AppendParts<T>(a: seq<T>, b: seq<T>)
    ensures (a + b)[0..|a|] == a && (a + b)[|a|..|a| + |b|] == b
  {
  }

  lemma SuffixIsRange<T>(s: seq<T>, i: nat)
    requires i <= |s|
    ensures s[i..] == s[i..|s|]
  {
  }
}
