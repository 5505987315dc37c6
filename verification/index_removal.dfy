/**
 * Removing a set of positions from a list by deleting them one at a time,
 * largest first, so that no deletion shifts a position still to be deleted
 * (`BPJsDebuggerImpl.removeExternalEvents`).
 */
module IndexRemoval {
  import IntSets

  /**
   * `s` without the elements at the positions in `drop`; the others keep
   * their relative order. Positions outside `s` are ignored.
   */
  function Without<T>(s: seq<T>, drop: set<int>): seq<T>
  {
    if |s| == 0 then []
    else Without(s[..|s| - 1], drop) + (if |s| - 1 in drop then [] else [s[|s| - 1]])
  }

  /** Dropping nothing keeps the list. */
  lemma {:induction false} WithoutNothing<T>(s: seq<T>)
    ensures Without(s, {}) == s
  {
    if |s| > 0 {
      WithoutNothing(s[..|s| - 1]);
    }
  }

  /** Only the positions inside the list matter. */
  lemma {:induction false} WithoutInRange<T>(s: seq<T>, d1: set<int>, d2: set<int>)
    requires forall i :: 0 <= i < |s| ==> (i in d1 <==> i in d2)
    ensures Without(s, d1) == Without(s, d2)
  {
    if |s| > 0 {
      WithoutInRange(s[..|s| - 1], d1, d2);
    }
  }

  /** Every position dropped is one element fewer. */
  lemma {:induction false} WithoutLength<T>(s: seq<T>, drop: set<int>)
    requires forall i :: i in drop ==> 0 <= i < |s|
    ensures |Without(s, drop)| == |s| - |drop|
  {
    if |s| == 0 {
      assert forall d :: d !in drop;
      assert drop == {};
    } else {
      var n := |s| - 1;
      var rest := drop - {n};
      WithoutInRange(s[..n], drop, rest);
      WithoutLength(s[..n], rest);
      if n in drop {
        assert drop == rest + {n};
      } else {
        assert rest == drop;
      }
    }
  }

  /** An element at a position not dropped survives, and every survivor sits at a position not dropped. */
  lemma {:induction false} WithoutMembers<T>(s: seq<T>, drop: set<int>, x: T)
    ensures x in Without(s, drop) <==> exists i :: 0 <= i < |s| && i !in drop && s[i] == x
  {
    if |s| > 0 {
      var n := |s| - 1;
      WithoutMembers(s[..n], drop, x);
      if x in Without(s, drop) && x !in Without(s[..n], drop) {
        assert s[n] == x;
      }
      if exists i :: 0 <= i < |s| && i !in drop && s[i] == x {
        var i :| 0 <= i < |s| && i !in drop && s[i] == x;
        if i < n {
          assert s[..n][i] == x;
        }
      }
    }
  }

  /**
   * Deleting position `k` from `Without(s, drop)` when every dropped position
   * lies above `k` is the same as dropping `k` too: positions below the
   * dropped ones have not moved.
   */
  lemma {:induction false} WithoutBelow<T>(s: seq<T>, drop: set<int>, k: int)
    requires 0 <= k < |s|
    requires forall d :: d in drop ==> k < d
    ensures k < |Without(s, drop)|
    ensures Without(s, drop + {k}) == Without(s, drop)[..k] + Without(s, drop)[k + 1..]
  {
    var n := |s| - 1;
    var w := Without(s, drop);
    if n == k {
      WithoutInRange(s[..n], drop + {k}, {});
      WithoutInRange(s[..n], drop, {});
      WithoutNothing(s[..n]);
      assert w == s[..n] + [s[n]];
    } else {
      WithoutBelow(s[..n], drop, k);
      var w' := Without(s[..n], drop);
      var tail := if n in drop then [] else [s[n]];
      assert w == w' + tail;
      assert w[..k] == w'[..k];
      assert w[k + 1..] == w'[k + 1..] + tail;
    }
  }

  /**
   * Copy `list` and delete the positions in `indices` from the copy, largest
   * first. The positions must lie inside the list.
   */
  method RemoveDescending<T>(list: seq<T>, indices: set<int>) returns (r: seq<T>)
    requires forall i :: i in indices ==> 0 <= i < |list|
    ensures r == Without(list, indices)
    ensures |r| == |list| - |indices|
  {
    r := list;
    var pending := indices;
    WithoutNothing(list);
    assert indices - pending == {};
    while pending != {}
      invariant pending <= indices
      invariant forall p, q :: p in pending && q in indices - pending ==> p < q
      invariant r == Without(list, indices - pending)
      decreases |pending|
    {
      IntSets.MaxExists(pending);
      var k :| IntSets.IsMax(pending, k);
      WithoutBelow(list, indices - pending, k);
      r := r[..k] + r[k + 1..];
      assert (indices - pending) + {k} == indices - (pending - {k});
      pending := pending - {k};
    }
    assert indices - pending == indices;
    WithoutLength(list, indices);
  }
}
