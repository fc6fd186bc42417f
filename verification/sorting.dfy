/**
 * `sorted(...)` over the two kinds of collection the solver sorts: sets of
 * tile indices and sets of category names.
 */
module Sorting {

  import opened Strings

  function Elems<T>(s: seq<T>): set<T> {
    set x | x in s
  }

  /** Sorted ascending with no duplicates. */
  predicate StrictlyAscending(s: seq<int>) {
    forall i, j :: 0 <= i < j < |s| ==> s[i] < s[j]
  }

  /** Puts `x` into its place in an ascending sequence, unless it is already there. */
  function InsertSorted(x: int, s: seq<int>): (r: seq<int>)
    requires StrictlyAscending(s)
    ensures StrictlyAscending(r)
    ensures Elems(r) == Elems(s) + {x}
    ensures r[0] == x || (s != [] && r[0] == s[0])
  {
    if s == [] then [x]
    else if x < s[0] then
      AscendingCons(x, s);
      ElemsCons(x, s);
      [x] + s
    else if x == s[0] then s
    else
      AscendingTail(s);
      var tail := InsertSorted(x, s[1..]);
      ElemsCons(s[0], s[1..]);
      ElemsCons(s[0], tail);
      AscendingCons(s[0], tail);
      [s[0]] + tail
  }

  lemma ElemsCons<T>(h: T, t: seq<T>)
    ensures Elems([h] + t) == {h} + Elems(t)
  {
  }

  /** The tail of an ascending sequence is ascending and above its head. */
  lemma AscendingTail(s: seq<int>)
    requires StrictlyAscending(s) && s != []
    ensures StrictlyAscending(s[1..]) && [s[0]] + s[1..] == s
    ensures forall y :: y in s[1..] ==> s[0] < y
  {
  }

  /** A head below the first element keeps an ascending sequence ascending. */
  lemma AscendingCons(h: int, t: seq<int>)
    requires StrictlyAscending(t) && (t == [] || h < t[0])
    ensures StrictlyAscending([h] + t)
  {
    var r := [h] + t;
    forall i, j | 0 <= i < j < |r|
      ensures r[i] < r[j]
    {
      if i == 0 && j > 1 {
        assert t[0] < t[j - 1];
      }
    }
  }

  /** sorted(set(xs)): the distinct elements of `xs` in ascending order. */
  function SortedUnique(xs: seq<int>): (r: seq<int>)
    ensures StrictlyAscending(r)
    ensures Elems(r) == Elems(xs)
  {
    if xs == [] then []
    else
      var init := xs[..|xs| - 1];
      assert xs == init + [xs[|xs| - 1]];
      assert Elems(xs) == Elems(init) + {xs[|xs| - 1]};
      InsertSorted(xs[|xs| - 1], SortedUnique(init))
  }

  lemma ElemsAppend<T>(s: seq<T>, x: T)
    ensures Elems(s + [x]) == Elems(s) + {x}
  {
  }

  lemma ElemsEmpty<T>(s: seq<T>)
    ensures Elems(s) == {} <==> s == []
  {
    if s != [] {
      assert s[0] in Elems(s);
    }
  }

  /** Two strictly ascending sequences with the same elements are equal. */
  lemma {:induction false} AscendingUnique(a: seq<int>, b: seq<int>)
    requires StrictlyAscending(a) && StrictlyAscending(b)
    requires Elems(a) == Elems(b)
    ensures a == b
  {
    ElemsEmpty(a);
    ElemsEmpty(b);
    if a != [] && b != [] {
      assert a[0] in Elems(b) && b[0] in Elems(a);
      assert a[0] == b[0];
      assert Elems(a[1..]) == Elems(a) - {a[0]} by {
        forall x | x in Elems(a) - {a[0]} ensures x in Elems(a[1..]) {
          var k :| 0 <= k < |a| && a[k] == x;
          assert k != 0;
          assert a[1..][k - 1] == x;
        }
      }
      assert Elems(b[1..]) == Elems(b) - {b[0]} by {
        forall x | x in Elems(b) - {b[0]} ensures x in Elems(b[1..]) {
          var k :| 0 <= k < |b| && b[k] == x;
          assert k != 0;
          assert b[1..][k - 1] == x;
        }
      }
      AscendingUnique(a[1..], b[1..]);
    }
  }

  /** The elements of `xs` that belong to `s`, in their order in `xs`. */
  function Present(xs: seq<int>, s: set<int>): (r: seq<int>)
    ensures Elems(r) == Elems(xs) * s
  {
    if xs == [] then []
    else
      assert Elems(xs) == {xs[0]} + Elems(xs[1..]);
      var tail := Present(xs[1..], s);
      assert Elems([xs[0]] + tail) == {xs[0]} + Elems(tail);
      if xs[0] in s then [xs[0]] + tail else tail
  }

  /** sorted(i for i in s if i in order): the members of `s` found in `order`, ascending. */
  function SortedMembers(s: set<int>, order: seq<int>): (r: seq<int>)
    ensures StrictlyAscending(r)
    ensures Elems(r) == s * Elems(order)
  {
    SortedUnique(Present(order, s))
  }

  /** Category names sorted the way Python sorts strings, each once. */
  predicate NamesAscending(s: seq<string>) {
    forall i, j :: 0 <= i < j < |s| ==> StrLess(s[i], s[j])
  }

  /** The members of `s`, in the order they have in `keys`. */
  function KeepMembers(keys: seq<string>, s: set<string>): (r: seq<string>)
    ensures Elems(r) == Elems(keys) * s
    ensures NamesAscending(keys) ==> NamesAscending(r)
  {
    if keys == [] then []
    else
      var tail := KeepMembers(keys[1..], s);
      assert Elems(keys) == {keys[0]} + Elems(keys[1..]);
      assert NamesAscending(keys) ==> forall y :: y in tail ==> StrLess(keys[0], y) by {
        if NamesAscending(keys) {
          forall y | y in tail ensures StrLess(keys[0], y) {
            assert y in Elems(tail);
            var k :| 0 <= k < |keys| - 1 && keys[1..][k] == y;
            assert keys[k + 1] == y;
          }
        }
      }
      assert Elems([keys[0]] + tail) == {keys[0]} + Elems(tail);
      if keys[0] in s then [keys[0]] + tail else tail
  }
}
