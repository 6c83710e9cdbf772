/**
 * Stable subsequence selection: the boolean-mask row indexing `table[mask]`
 * that every cell reader uses to narrow its table.
 */
module Sequences {

  /** The elements of `s` that satisfy `p`, in their original order. */
  function Where<T>(s: seq<T>, p: T -> bool): (r: seq<T>)
    ensures |r| <= |s|
  {
    if s == [] then []
    else if p(s[0]) then [s[0]] + Where(s[1..], p)
    else Where(s[1..], p)
  }

  /** Every selected element is an element of `s` that passes, and every passing element is selected. */
  lemma {:induction false} WhereMembers<T>(s: seq<T>, p: T -> bool)
    ensures forall i :: 0 <= i < |Where(s, p)| ==> Where(s, p)[i] in s && p(Where(s, p)[i])
    ensures forall j :: 0 <= j < |s| && p(s[j]) ==> s[j] in Where(s, p)
  {
    if s != [] {
      WhereMembers(s[1..], p);
      assert forall j :: 1 <= j < |s| ==> s[j] == s[1..][j - 1];
    }
  }

  /**
   * The positions from `from` on whose element satisfies `p`: each one valid
   * and selected, strictly ascending, and none of the selected positions missing.
   */
  function KeptFrom<T>(s: seq<T>, p: T -> bool, from: nat): (ix: seq<nat>)
    requires from <= |s|
    ensures forall k :: 0 <= k < |ix| ==> from <= ix[k] < |s| && p(s[ix[k]])
    ensures forall k, l :: 0 <= k < l < |ix| ==> ix[k] < ix[l]
    ensures forall j :: from <= j < |s| && p(s[j]) ==> j in ix
    decreases |s| - from
  {
    if from == |s| then []
    else
      var rest := KeptFrom(s, p, from + 1);
      if p(s[from]) then [from] + rest else rest
  }

  /** The positions of `s` whose element satisfies `p`, in ascending order. */
  function Kept<T>(s: seq<T>, p: T -> bool): (ix: seq<nat>)
    ensures forall k :: 0 <= k < |ix| ==> ix[k] < |s| && p(s[ix[k]])
    ensures forall k, l :: 0 <= k < l < |ix| ==> ix[k] < ix[l]
    ensures forall j :: 0 <= j < |s| && p(s[j]) ==> j in ix
  {
    KeptFrom(s, p, 0)
  }

  /** Selecting from the suffix at `from` keeps as many elements as `KeptFrom` lists positions. */
  lemma {:induction false} WhereLengthFrom<T>(s: seq<T>, p: T -> bool, from: nat)
    requires from <= |s|
    ensures |Where(s[from..], p)| == |KeptFrom(s, p, from)|
    decreases |s| - from
  {
    if from < |s| {
      WhereLengthFrom(s, p, from + 1);
      assert s[from..][1..] == s[from + 1..];
    }
  }

  /** Element `k` selected from the suffix at `from` sits at the `k`-th `KeptFrom` position. */
  lemma {:induction false} WhereAtKeptFrom<T>(s: seq<T>, p: T -> bool, from: nat, k: nat)
    requires from <= |s|
    requires k < |KeptFrom(s, p, from)|
    ensures |Where(s[from..], p)| == |KeptFrom(s, p, from)|
    ensures Where(s[from..], p)[k] == s[KeptFrom(s, p, from)[k]]
    decreases |s| - from
  {
    WhereLengthFrom(s, p, from);
    var t := s[from..];
    assert t != [] && t[0] == s[from] && t[1..] == s[from + 1..];
    var rest := KeptFrom(s, p, from + 1);
    if p(s[from]) {
      assert KeptFrom(s, p, from) == [from] + rest;
      assert Where(t, p) == [s[from]] + Where(s[from + 1..], p);
      if k > 0 {
        WhereAtKeptFrom(s, p, from + 1, k - 1);
      }
    } else {
      assert KeptFrom(s, p, from) == rest;
      assert Where(t, p) == Where(s[from + 1..], p);
      WhereAtKeptFrom(s, p, from + 1, k);
    }
  }

  /**
   * `Where` is exactly the elements at the `Kept` positions: output element
   * `k` is the input element at the `k`-th selected position.
   */
  lemma WhereAtKept<T>(s: seq<T>, p: T -> bool)
    ensures |Where(s, p)| == |Kept(s, p)|
    ensures forall k :: 0 <= k < |Kept(s, p)| ==> Where(s, p)[k] == s[Kept(s, p)[k]]
  {
    assert s[0..] == s;
    WhereLengthFrom(s, p, 0);
    forall k | 0 <= k < |Kept(s, p)| ensures Where(s, p)[k] == s[Kept(s, p)[k]] {
      WhereAtKeptFrom(s, p, 0, k);
    }
  }

  /** A selection that every element passes keeps the whole sequence. */
  lemma {:induction false} WhereAll<T>(s: seq<T>, p: T -> bool)
    requires forall i :: 0 <= i < |s| ==> p(s[i])
    ensures Where(s, p) == s
  {
    if s != [] {
      assert forall i :: 0 <= i < |s[1..]| ==> s[1..][i] == s[i + 1];
      WhereAll(s[1..], p);
    }
  }

  /** Two selections in a row are one selection by their conjunction. */
  lemma {:induction false} WhereWhere<T>(s: seq<T>, p: T -> bool, q: T -> bool, both: T -> bool)
    requires forall x :: both(x) == (p(x) && q(x))
    ensures Where(Where(s, p), q) == Where(s, both)
  {
    if s != [] {
      WhereWhere(s[1..], p, q, both);
      if p(s[0]) {
        assert ([s[0]] + Where(s[1..], p))[1..] == Where(s[1..], p);
      }
    }
  }

  /** Selections by predicates that agree everywhere are equal. */
  lemma {:induction false} WhereSame<T>(s: seq<T>, p: T -> bool, q: T -> bool)
    requires forall x :: p(x) == q(x)
    ensures Where(s, p) == Where(s, q)
  {
    if s != [] {
      WhereSame(s[1..], p, q);
    }
  }
}
