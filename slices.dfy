/**
  * Facts about slices and concatenations of sequences, for any element
  * type. The buffer proofs use them so that no step about bytes has to
  * rediscover how `+` and `[i..j]` interact.
  */
module Slices {

  /** The two parts of a concatenation can be sliced back out. */
  lemma HeadTail<T>(a: seq<T>, b: seq<T>)
    ensures (a + b)[..|a|] == a && (a + b)[|a|..] == b
  {
  }

  /** Concatenation is associative. */
  lemma Assoc<T>(x: seq<T>, y: seq<T>, z: seq<T>)
    ensures x + (y + z) == (x + y) + z
  {
  }

  /** Prepending nothing changes nothing. */
  lemma EmptyLeft<T>(a: seq<T>, b: seq<T>)
    requires |a| == 0
    ensures a + b == b
  {
  }

  /** Cutting a sequence and joining the pieces gives it back. */
  lemma TakeDrop<T>(s: seq<T>, n: nat)
    requires n <= |s|
    ensures s[..n] + s[n..] == s
  {
  }

  /** A cut inside the first part of a concatenation. */
  lemma CutLeft<T>(a: seq<T>, b: seq<T>, n: nat)
    requires n <= |a|
    ensures (a + b)[..n] == a[..n] && (a + b)[n..] == a[n..] + b
  {
  }

  /** A slice inside the first part of a concatenation. */
  lemma SliceLeft<T>(a: seq<T>, b: seq<T>, lo: nat, hi: nat)
    requires lo <= hi <= |a|
    ensures (a + b)[lo..hi] == a[lo..hi]
  {
  }

  /** A slice inside the second part of a concatenation. */
  lemma SliceRight<T>(a: seq<T>, b: seq<T>, lo: nat, hi: nat)
    requires |a| <= lo <= hi <= |a| + |b|
    ensures (a + b)[lo..hi] == b[lo - |a|..hi - |a|]
  {
  }

  /** Two adjacent slices join into one. */
  lemma Adjacent<T>(s: seq<T>, lo: nat, mid: nat, hi: nat)
    requires lo <= mid <= hi <= |s|
    ensures s[lo..mid] + s[mid..hi] == s[lo..hi]
  {
  }

  /** The whole of a sequence as a slice. */
  lemma Whole<T>(s: seq<T>)
    ensures s[0..|s|] == s && s[..|s|] == s && s[0..] == s && s[|s|..] == []
  {
  }

  /**
    * Replacing `from..off` of `start` by x and then `off..next` of the
    * result by y replaces `from..next` of `start` by x + y.
    */
  lemma Splice<T>(start: seq<T>, mid: seq<T>, now: seq<T>, from: nat, off: nat, next: nat, x: seq<T>, y: seq<T>)
    requires from <= off <= next <= |start| && |x| == off - from && |y| == next - off
    requires mid == start[..from] + x + start[off..]
    requires now == mid[..off] + y + mid[next..]
    ensures mid[off..next] == start[off..next]
    ensures now == start[..from] + (x + y) + start[next..]
  {
    assert mid[..off] == start[..from] + x;
    assert mid[next..] == start[next..];
  }

  /** Appending nothing changes nothing. */
  lemma EmptyRight<T>(a: seq<T>, b: seq<T>)
    requires |b| == 0
    ensures a + b == a
  {
  }

  /** A prefix of a prefix. */
  lemma TakeTake<T>(s: seq<T>, m: nat, n: nat)
    requires n <= m <= |s|
    ensures s[..m][..n] == s[..n]
  {
  }

  /** Slices that start at 0 or run to the end. */
  lemma Ends<T>(s: seq<T>, n: nat)
    requires n <= |s|
    ensures s[0..n] == s[..n] && s[n..|s|] == s[n..] && |s[..0]| == 0
  {
  }

  /**
    * Writing e, then a after it, then b after that, over `orig` from `off`
    * on leaves e + a + b there and everything else as it was.
    */
  lemma Extend<T>(orig: seq<T>, before: seq<T>, mid: seq<T>, after: seq<T>, off: nat, e: seq<T>, a: seq<T>, b: seq<T>)
    requires off + |e| + |a| + |b| <= |orig|
    requires before == orig[..off] + e + orig[off + |e|..]
    requires mid == before[..off + |e|] + a + before[off + |e| + |a|..]
    requires after == mid[..off + |e| + |a|] + b + mid[off + |e| + |a| + |b|..]
    ensures after == orig[..off] + (e + (a + b)) + orig[off + |e| + |a| + |b|..]
  {
    assert before[..off + |e|] == orig[..off] + e;
    assert before[off + |e| + |a|..] == orig[off + |e| + |a|..];
    assert mid[..off + |e| + |a|] == orig[..off] + e + a;
    assert mid[off + |e| + |a| + |b|..] == orig[off + |e| + |a| + |b|..];
  }

  /** A sequence is its three pieces around two cuts. */
  lemma Split3<T>(s: seq<T>, lo: nat, hi: nat)
    requires lo <= hi <= |s|
    ensures s[..lo] + s[lo..hi] + s[hi..] == s
  {
  }

  /** The middle piece of a concatenation of three. */
  lemma Middle<T>(x: seq<T>, y: seq<T>, z: seq<T>)
    ensures (x + y + z)[|x|..|x| + |y|] == y
  {
  }

  /** A slice of a slice is a slice of the whole. */
  lemma SliceOfSlice<T>(s: seq<T>, lo: nat, hi: nat, a: nat, b: nat)
    requires lo <= hi <= |s| && a <= b <= hi - lo
    ensures s[lo..hi][a..b] == s[lo + a..lo + b]
  {
    var u := s[lo..hi];
    forall t | 0 <= t < b - a
      ensures u[a..b][t] == s[lo + a..lo + b][t]
    {
      assert u[a..b][t] == u[a + t] == s[lo + a + t];
    }
  }
}
