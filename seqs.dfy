/** Concatenation of a sequence of chunks, the shape every list of the mesh
    builder takes: each loop iteration extends a list by one fixed-size chunk. */
module Seqs {

  /** The chunks of `ss` joined in order. */
  function Concat<T>(ss: seq<seq<T>>): seq<T>
  {
    ConcatPrefix(ss, |ss|)
  }

  /** The first `n` chunks of `ss` joined in order: what a loop has appended
      after `n` iterations. */
  function ConcatPrefix<T>(ss: seq<seq<T>>, n: nat): seq<T>
    requires n <= |ss|
  {
    if n == 0 then [] else ConcatPrefix(ss, n - 1) + ss[n - 1]
  }

  /** Appending the next chunk behind a fixed prefix extends the joined prefix
      by one chunk. */
  lemma ConcatExtend<T>(prefix: seq<T>, ss: seq<seq<T>>, n: nat)
    requires n < |ss|
    ensures prefix + ConcatPrefix(ss, n) + ss[n] == prefix + ConcatPrefix(ss, n + 1)
  {
    AppendAssoc(prefix, ConcatPrefix(ss, n), ss[n]);
  }

  lemma AppendAssoc<T>(a: seq<T>, b: seq<T>, c: seq<T>)
    ensures a + b + c == a + (b + c)
  {
  }

  lemma MulSucc(k: nat, n: nat)
    ensures k * (n + 1) == k * n + k
  {
  }

  lemma {:induction false} MulMonotone(k: nat, a: nat, b: nat)
    requires a <= b
    ensures k * a <= k * b
  {
    if a < b {
      MulMonotone(k, a, b - 1);
      MulSucc(k, b - 1);
    }
  }

  /** Chunks of a common size `k` concatenate to `k` elements per chunk. */
  lemma ConcatLength<T>(ss: seq<seq<T>>, k: nat)
    requires forall n :: 0 <= n < |ss| ==> |ss[n]| == k
    ensures |Concat(ss)| == k * |ss|
  {
    PrefixLength(ss, k, |ss|);
  }

  lemma {:induction false} PrefixLength<T>(ss: seq<seq<T>>, k: nat, n: nat)
    requires forall m :: 0 <= m < |ss| ==> |ss[m]| == k
    requires n <= |ss|
    ensures |ConcatPrefix(ss, n)| == k * n
  {
    if n > 0 {
      PrefixLength(ss, k, n - 1);
      MulSucc(k, n - 1);
    }
  }

  /** Element `c` of chunk `m` sits at position `k * m + c` of the concatenation
      when every chunk has `k` elements. */
  lemma ConcatAt<T>(ss: seq<seq<T>>, k: nat, m: nat, c: nat)
    requires forall n :: 0 <= n < |ss| ==> |ss[n]| == k
    requires m < |ss| && c < k
    ensures k * m + c < |Concat(ss)|
    ensures Concat(ss)[k * m + c] == ss[m][c]
  {
    PrefixAt(ss, k, |ss|, m, c);
  }

  lemma {:induction false} PrefixAt<T>(ss: seq<seq<T>>, k: nat, n: nat, m: nat, c: nat)
    requires forall i :: 0 <= i < |ss| ==> |ss[i]| == k
    requires n <= |ss| && m < n && c < k
    ensures k * m + c < |ConcatPrefix(ss, n)|
    ensures ConcatPrefix(ss, n)[k * m + c] == ss[m][c]
  {
    PrefixLength(ss, k, n);
    PrefixLength(ss, k, n - 1);
    MulSucc(k, n - 1);
    if m < n - 1 {
      PrefixAt(ss, k, n - 1, m, c);
      MulMonotone(k, m + 1, n - 1);
      MulSucc(k, m);
    }
  }

  /** Every element of the concatenation comes from one of the chunks. */
  lemma ConcatMember<T>(ss: seq<seq<T>>, x: T)
    requires x in Concat(ss)
    ensures exists m :: 0 <= m < |ss| && x in ss[m]
  {
    PrefixMember(ss, |ss|, x);
  }

  lemma {:induction false} PrefixMember<T>(ss: seq<seq<T>>, n: nat, x: T)
    requires n <= |ss| && x in ConcatPrefix(ss, n)
    ensures exists m :: 0 <= m < n && x in ss[m]
  {
    if x in ConcatPrefix(ss, n - 1) {
      PrefixMember(ss, n - 1, x);
    } else {
      assert x in ss[n - 1];
    }
  }
}
