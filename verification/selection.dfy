/**
 * Order-preserving selections: what a loop or comprehension that keeps some
 * elements of a sequence, in order, and drops the rest produces.
 */
module Selection {

  import opened Wrappers

  /**
   * `ks` lists, in increasing order, exactly the positions of `xs` that
   * `pick` keeps, and `ys` holds what it keeps from each of them.
   */
  ghost predicate Selects<T, U>(xs: seq<T>, pick: T -> Option<U>, ks: seq<int>, ys: seq<U>) {
    && |ks| == |ys|
    && (forall j :: 0 <= j < |ks| ==> 0 <= ks[j] < |xs| && pick(xs[ks[j]]) == Some(ys[j]))
    && (forall i, j :: 0 <= i < j < |ks| ==> ks[i] < ks[j])
    && (forall k :: 0 <= k < |xs| && pick(xs[k]).Some? ==> exists j :: 0 <= j < |ks| && ks[j] == k)
  }

  lemma SelectsEmpty<T, U>(pick: T -> Option<U>)
    ensures Selects([], pick, [], [])
  {
  }

  /** Appending an element extends the selection by that element when it is kept. */
  lemma SelectsAppend<T, U>(xs: seq<T>, pick: T -> Option<U>, ks: seq<int>, ys: seq<U>, x: T)
    requires Selects(xs, pick, ks, ys)
    ensures pick(x).None? ==> Selects(xs + [x], pick, ks, ys)
    ensures pick(x).Some? ==> Selects(xs + [x], pick, ks + [|xs|], ys + [pick(x).value])
  {
    var all := xs + [x];
    assert forall k :: 0 <= k < |xs| ==> all[k] == xs[k];
    if pick(x).Some? {
      var ks' := ks + [|xs|];
      forall k | 0 <= k < |all| && pick(all[k]).Some?
        ensures exists j :: 0 <= j < |ks'| && ks'[j] == k
      {
        if k == |xs| {
          assert ks'[|ks|] == k;
        } else {
          var j :| 0 <= j < |ks| && ks[j] == k;
          assert ks'[j] == k;
        }
      }
    }
  }

  /** Dropping the last element drops it from the selection when it was kept. */
  lemma SelectsDropLast<T, U>(xs: seq<T>, pick: T -> Option<U>, ks: seq<int>, ys: seq<U>)
    requires xs != [] && Selects(xs, pick, ks, ys)
    ensures var init, last := xs[..|xs| - 1], xs[|xs| - 1];
      && (pick(last).None? ==> Selects(init, pick, ks, ys))
      && (pick(last).Some? ==>
            && ks != [] && ks[|ks| - 1] == |init| && ys[|ys| - 1] == pick(last).value
            && Selects(init, pick, ks[..|ks| - 1], ys[..|ys| - 1]))
  {
    if pick(xs[|xs| - 1]).None? {
      SelectsDropDropped(xs, pick, ks, ys);
    } else {
      SelectsLastKept(xs, pick, ks, ys);
      SelectsDropKept(xs, pick, ks, ys);
    }
  }

  lemma SelectsDropDropped<T, U>(xs: seq<T>, pick: T -> Option<U>, ks: seq<int>, ys: seq<U>)
    requires xs != [] && Selects(xs, pick, ks, ys) && pick(xs[|xs| - 1]).None?
    ensures Selects(xs[..|xs| - 1], pick, ks, ys)
  {
    var init := xs[..|xs| - 1];
    assert forall k :: 0 <= k < |init| ==> init[k] == xs[k];
    forall j | 0 <= j < |ks| ensures ks[j] < |init| {
      assert pick(xs[ks[j]]) == Some(ys[j]);
    }
  }

  lemma SelectsDropKept<T, U>(xs: seq<T>, pick: T -> Option<U>, ks: seq<int>, ys: seq<U>)
    requires xs != [] && Selects(xs, pick, ks, ys)
    requires ks != [] && ks[|ks| - 1] == |xs| - 1
    ensures ys[|ys| - 1] == pick(xs[|xs| - 1]).value
    ensures Selects(xs[..|xs| - 1], pick, ks[..|ks| - 1], ys[..|ys| - 1])
  {
    var init := xs[..|xs| - 1];
    assert forall k :: 0 <= k < |init| ==> init[k] == xs[k];
    var n := |ks| - 1;
    var ks', ys' := ks[..n], ys[..n];
    assert pick(xs[ks[n]]) == Some(ys[n]);
    forall j | 0 <= j < n ensures ks'[j] < |init| {
      assert ks[j] < ks[n];
    }
    forall k | 0 <= k < |init| && pick(init[k]).Some? ensures exists j :: 0 <= j < n && ks'[j] == k {
      var j :| 0 <= j < |ks| && ks[j] == k;
      assert ks'[j] == k;
    }
  }

  /** When the last element is kept, it is the last position selected. */
  lemma SelectsLastKept<T, U>(xs: seq<T>, pick: T -> Option<U>, ks: seq<int>, ys: seq<U>)
    requires xs != [] && Selects(xs, pick, ks, ys) && pick(xs[|xs| - 1]).Some?
    ensures ks != [] && ks[|ks| - 1] == |xs| - 1
  {
    var m :| 0 <= m < |ks| && ks[m] == |xs| - 1;
    var n := |ks| - 1;
    assert 0 <= ks[n] < |xs|;
    assert forall j :: 0 <= j < n ==> ks[j] < ks[n];
  }

  /** A selection is determined by what is selected from. */
  lemma {:induction false} SelectsUnique<T, U>(xs: seq<T>, pick: T -> Option<U>,
                                              ks1: seq<int>, ys1: seq<U>, ks2: seq<int>, ys2: seq<U>)
    requires Selects(xs, pick, ks1, ys1) && Selects(xs, pick, ks2, ys2)
    ensures ks1 == ks2 && ys1 == ys2
  {
    if xs != [] {
      var init := xs[..|xs| - 1];
      SelectsDropLast(xs, pick, ks1, ys1);
      SelectsDropLast(xs, pick, ks2, ys2);
      if pick(xs[|xs| - 1]).None? {
        SelectsUnique(init, pick, ks1, ys1, ks2, ys2);
      } else {
        var n1, n2 := |ks1| - 1, |ks2| - 1;
        SelectsUnique(init, pick, ks1[..n1], ys1[..n1], ks2[..n2], ys2[..n2]);
        assert ks1 == ks1[..n1] + [ks1[n1]] && ks2 == ks2[..n2] + [ks2[n2]];
        assert ys1 == ys1[..n1] + [ys1[n1]] && ys2 == ys2[..n2] + [ys2[n2]];
      }
    }
  }
}
