/** Sequence shapes that the generators' accumulation loops produce:
    appending one list per step, appending a value only on some steps,
    and keeping the elements that pass a test. */
module Seqs {
  import opened Geometry

  /** The lists of `ss` appended one after another, in order. */
  function Flatten<T>(ss: seq<seq<T>>): seq<T>
  {
    if |ss| == 0 then [] else Flatten(ss[..|ss| - 1]) + ss[|ss| - 1]
  }

  /** List `i` appears, right after all earlier lists, at the front of
      the flattened result. */
  lemma {:induction false} FlattenInOrder<T>(ss: seq<seq<T>>, i: nat)
    requires i < |ss|
    ensures Flatten(ss[..i]) + ss[i] <= Flatten(ss)
  {
    var m := |ss| - 1;
    assert ss[..|ss|] == ss;
    if i < m {
      FlattenInOrder(ss[..m], i);
      assert ss[..m][..i] == ss[..i];
      var a := Flatten(ss[..i]) + ss[i];
      var b := Flatten(ss[..m]);
      assert (b + ss[m])[..|a|] == b[..|a|];
    } else {
      assert ss[..m] == ss[..i];
    }
  }

  /** When every list is non-empty, the result is at least as long as
      the number of lists. */
  lemma {:induction false} FlattenLength<T>(ss: seq<seq<T>>)
    requires forall i :: 0 <= i < |ss| ==> |ss[i]| >= 1
    ensures |Flatten(ss)| >= |ss|
  {
    if |ss| > 0 {
      FlattenLength(ss[..|ss| - 1]);
    }
  }

  /** When every list holds one element, flattening keeps those elements
      in their order. */
  lemma {:induction false} FlattenSingletons<T>(ss: seq<seq<T>>)
    requires forall i :: 0 <= i < |ss| ==> |ss[i]| == 1
    ensures |Flatten(ss)| == |ss|
    ensures forall i :: 0 <= i < |ss| ==> Flatten(ss)[i] == ss[i][0]
  {
    if |ss| > 0 {
      var m := |ss| - 1;
      FlattenSingletons(ss[..m]);
      assert forall i :: 0 <= i < m ==> ss[..m][i] == ss[i];
    }
  }

  /** Flattening `n` lists of length `m` gives `n·m` elements. */
  lemma {:induction false} FlattenUniformLength<T>(ss: seq<seq<T>>, m: nat)
    requires forall i :: 0 <= i < |ss| ==> |ss[i]| == m
    ensures |Flatten(ss)| == |ss| * m
  {
    if |ss| > 0 {
      FlattenUniformLength(ss[..|ss| - 1], m);
    }
  }

  /** Flattening lists that all have length `m` lays them out row by row:
      element `j` of list `i` lands at index `i·m + j`. */
  lemma {:induction false} FlattenUniformAt<T>(ss: seq<seq<T>>, m: nat, i: nat, j: nat)
    requires forall k :: 0 <= k < |ss| ==> |ss[k]| == m
    requires i < |ss| && j < m
    ensures i * m + j < |Flatten(ss)| && Flatten(ss)[i * m + j] == ss[i][j]
  {
    var n := |ss| - 1;
    var front := ss[..n];
    FlattenUniformLength(front, m);
    FlattenUniformLength(ss, m);
    if i < n {
      FlattenUniformAt(front, m, i, j);
      TimesMonotone(i + 1, n, m as real);
      assert (i + 1) * m <= n * m;
    }
  }

  /** The values of the `Some` entries of `opts`, in order. */
  function Somes<T>(opts: seq<Option<T>>): (r: seq<T>)
    ensures |r| <= |opts|
  {
    if |opts| == 0 then []
    else
      var earlier := Somes(opts[..|opts| - 1]);
      match opts[|opts| - 1]
      case None => earlier
      case Some(v) => earlier + [v]
  }

  /** A value is collected exactly when some entry holds it. */
  lemma {:induction false} SomesMembership<T>(opts: seq<Option<T>>, v: T)
    ensures v in Somes(opts) <==> exists i :: 0 <= i < |opts| && opts[i] == Some(v)
  {
    if |opts| > 0 {
      var m := |opts| - 1;
      SomesMembership(opts[..m], v);
      assert forall i :: 0 <= i < m ==> opts[..m][i] == opts[i];
    }
  }

  /** Each `Some` entry contributes exactly one value: the result is as
      long as the set of indices holding a `Some`. */
  lemma {:induction false} SomesCount<T>(opts: seq<Option<T>>)
    ensures |Somes(opts)| == |set i | 0 <= i < |opts| && opts[i].Some?|
  {
    if |opts| > 0 {
      var m := |opts| - 1;
      var front := opts[..m];
      SomesCount(front);
      var before := set i | 0 <= i < |front| && front[i].Some?;
      var all := set i | 0 <= i < |opts| && opts[i].Some?;
      assert before == set i | 0 <= i < m && opts[i].Some?;
      if opts[m].Some? {
        assert all == before + {m};
        assert m !in before;
      } else {
        assert all == before;
      }
    }
  }

  /** Collecting a prefix of `opts` gives a prefix of the collected
      values. */
  lemma {:induction false} SomesPrefix<T>(opts: seq<Option<T>>, j: nat)
    requires j <= |opts|
    ensures Somes(opts[..j]) <= Somes(opts)
    decreases |opts|
  {
    if j < |opts| {
      var m := |opts| - 1;
      SomesPrefix(opts[..m], j);
      assert opts[..m][..j] == opts[..j];
    } else {
      assert opts[..j] == opts;
    }
  }

  /** A `Some` entry's value sits in the result right after the values of
      the entries before it. */
  lemma SomesAt<T>(opts: seq<Option<T>>, i: nat)
    requires i < |opts| && opts[i].Some?
    ensures |Somes(opts[..i])| < |Somes(opts)|
    ensures Somes(opts)[|Somes(opts[..i])|] == opts[i].value
  {
    var upto := opts[..i + 1];
    assert upto[..i] == opts[..i];
    assert Somes(upto) == Somes(opts[..i]) + [opts[i].value];
    SomesPrefix(opts, i + 1);
  }

  /** With no `None` entry, every entry contributes its value. */
  lemma {:induction false} SomesAll<T>(opts: seq<Option<T>>)
    requires forall i :: 0 <= i < |opts| ==> opts[i].Some?
    ensures |Somes(opts)| == |opts|
  {
    if |opts| > 0 {
      SomesAll(opts[..|opts| - 1]);
    }
  }

  /** `s` back to front. */
  function Reverse<T>(s: seq<T>): (r: seq<T>)
    ensures |r| == |s| && forall k :: 0 <= k < |s| ==> r[k] == s[|s| - 1 - k]
  {
    seq(|s|, k requires 0 <= k < |s| => s[|s| - 1 - k])
  }

  /** `a` can be obtained from `b` by deleting elements. */
  predicate IsSubsequence<T(==)>(a: seq<T>, b: seq<T>)
    decreases |b|
  {
    |a| == 0 ||
    (|b| > 0 && ((a[0] == b[0] && IsSubsequence(a[1..], b[1..])) || IsSubsequence(a, b[1..])))
  }

  /** The elements of `s` that pass `keep`, in their original order. */
  function Filter<T>(s: seq<T>, keep: T -> bool): (r: seq<T>)
    ensures |r| <= |s|
    ensures forall k :: 0 <= k < |r| ==> keep(r[k])
  {
    if |s| == 0 then []
    else if keep(s[0]) then [s[0]] + Filter(s[1..], keep)
    else Filter(s[1..], keep)
  }

  /** Filtering deletes elements and never reorders them. */
  lemma {:induction false} FilterIsSubsequence<T>(s: seq<T>, keep: T -> bool)
    ensures IsSubsequence(Filter(s, keep), s)
  {
    if |s| > 0 {
      FilterIsSubsequence(s[1..], keep);
      if keep(s[0]) {
        assert ([s[0]] + Filter(s[1..], keep))[1..] == Filter(s[1..], keep);
      }
    }
  }

  /** An element survives filtering exactly when it occurs in `s` and
      passes `keep`. */
  lemma {:induction false} FilterMembership<T>(s: seq<T>, keep: T -> bool, v: T)
    ensures v in Filter(s, keep) <==> v in s && keep(v)
  {
    if |s| > 0 {
      FilterMembership(s[1..], keep, v);
      assert s == [s[0]] + s[1..];
    }
  }
}
