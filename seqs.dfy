/** Facts about sequences shared by the selection lists and the result lists. */
module Seqs {

  /** No element occurs twice. */
  predicate NoDup<T(==)>(s: seq<T>) {
    forall i, j :: 0 <= i < j < |s| ==> s[i] != s[j]
  }

  /** `r` is obtained from `s` by deleting elements, keeping the order of the rest. */
  predicate IsSubseq<T(==)>(r: seq<T>, s: seq<T>)
    decreases |s|
  {
    r == [] || (s != [] && ((r[0] == s[0] && IsSubseq(r[1..], s[1..])) || IsSubseq(r, s[1..])))
  }

  lemma {:induction false} SubseqMembers<T>(r: seq<T>, s: seq<T>)
    requires IsSubseq(r, s)
    ensures forall x :: x in r ==> x in s
    decreases |s|
  {
    if r != [] {
      if r[0] == s[0] && IsSubseq(r[1..], s[1..]) {
        SubseqMembers(r[1..], s[1..]);
        assert forall x :: x in r ==> x == r[0] || x in r[1..];
      } else {
        SubseqMembers(r, s[1..]);
      }
    }
  }

  lemma {:induction false} PrefixOfSubseq<T>(r: seq<T>, s: seq<T>, n: nat)
    requires IsSubseq(r, s) && n <= |r|
    ensures IsSubseq(r[..n], s)
    decreases |s|
  {
    if n > 0 {
      if r[0] == s[0] && IsSubseq(r[1..], s[1..]) {
        PrefixOfSubseq(r[1..], s[1..], n - 1);
        assert r[..n][1..] == r[1..][..n - 1];
      } else {
        PrefixOfSubseq(r, s[1..], n);
      }
    }
  }

  lemma {:induction false} SubseqRefl<T>(s: seq<T>)
    ensures IsSubseq(s, s)
    decreases |s|
  {
    if s != [] {
      SubseqRefl(s[1..]);
    }
  }

  /** Deleting elements cannot create a duplicate. */
  lemma {:induction false} SubseqNoDup<T>(r: seq<T>, s: seq<T>)
    requires IsSubseq(r, s) && NoDup(s)
    ensures NoDup(r)
    decreases |s|
  {
    if r != [] {
      if r[0] == s[0] && IsSubseq(r[1..], s[1..]) {
        SubseqNoDup(r[1..], s[1..]);
        SubseqMembers(r[1..], s[1..]);
        assert forall j :: 1 <= j < |r| ==> r[j] in s[1..];
        assert forall j :: 0 <= j < |s| - 1 ==> s[1..][j] != s[0];
      } else {
        SubseqNoDup(r, s[1..]);
      }
    }
  }

  lemma {:induction false} SubseqTrans<T>(r: seq<T>, s: seq<T>, u: seq<T>)
    requires IsSubseq(r, s) && IsSubseq(s, u)
    ensures IsSubseq(r, u)
    decreases |u|
  {
    if r != [] && u != [] {
      if s[0] == u[0] && IsSubseq(s[1..], u[1..]) {
        if r[0] == s[0] && IsSubseq(r[1..], s[1..]) {
          SubseqTrans(r[1..], s[1..], u[1..]);
        } else {
          SubseqTrans(r, s[1..], u[1..]);
        }
      } else {
        SubseqTrans(r, s, u[1..]);
      }
    }
  }

  /** Two duplicate-free lists with no common element concatenate to a duplicate-free list. */
  lemma NoDupConcat<T>(a: seq<T>, b: seq<T>)
    requires NoDup(a) && NoDup(b)
    requires forall x :: x in a ==> x !in b
    ensures NoDup(a + b)
  {
    forall i, j | 0 <= i < j < |a + b| ensures (a + b)[i] != (a + b)[j] {
      if i < |a| && j >= |a| {
        assert (a + b)[i] in a && (a + b)[j] == b[j - |a|];
      }
    }
  }
}
