/** Splice-based reordering of an ordered sequence, shared by the board's list
    order and by every list's task order.

    The store copies an array and then calls JavaScript's `splice` on the copy:
    `splice(i, 1)` takes out the element at `i`, and `splice(i, 0, x)` puts `x`
    in front of position `i`, where an index past the end means "at the end".
    `Array.prototype.filter` is modelled by `Without`. */
module Splice {

  /** The position `splice(i, 0, x)` inserts at, in an array of length `len`. */
  function Clamped(len: nat, i: nat): (r: nat)
    ensures r <= len
    ensures i <= len ==> r == i
    ensures len < i ==> r == len
  {
    if i <= len then i else len
  }

  /** The array left by `splice(i, 1)`. */
  function RemoveAt<T>(s: seq<T>, i: nat): (r: seq<T>)
    requires i < |s|
    ensures |r| == |s| - 1
  {
    s[..i] + s[i + 1..]
  }

  /** Removing loses exactly one occurrence of `s[i]`. */
  lemma RemoveAtCount<T>(s: seq<T>, i: nat)
    requires i < |s|
    ensures multiset(RemoveAt(s, i)) + multiset{s[i]} == multiset(s)
  {
    assert s == s[..i] + [s[i]] + s[i + 1..];
  }

  /** The elements in front of `i` stay where they were; those behind it move
      up by one. */
  lemma RemoveAtShifts<T>(s: seq<T>, i: nat)
    requires i < |s|
    ensures var r := RemoveAt(s, i);
      && (forall k :: 0 <= k < i ==> r[k] == s[k])
      && (forall k :: i <= k < |r| ==> r[k] == s[k + 1])
  {
  }

  /** The array left by `splice(i, 0, x)`: one element longer, with `x` at
      the (clamped) index `i`. */
  function InsertAt<T>(s: seq<T>, i: nat, x: T): (r: seq<T>)
    ensures |r| == |s| + 1
    ensures r[Clamped(|s|, i)] == x
  {
    var k := Clamped(|s|, i);
    s[..k] + [x] + s[k..]
  }

  /** Inserting adds exactly one occurrence of `x`. */
  lemma InsertAtCount<T>(s: seq<T>, i: nat, x: T)
    ensures multiset(InsertAt(s, i, x)) == multiset(s) + multiset{x}
  {
    var k := Clamped(|s|, i);
    assert s == s[..k] + s[k..];
  }

  /** The elements in front of the insertion point stay where they were;
      those behind it move down by one. */
  lemma InsertAtShifts<T>(s: seq<T>, i: nat, x: T)
    ensures var r, k := InsertAt(s, i, x), Clamped(|s|, i);
      && (forall j :: 0 <= j < k ==> r[j] == s[j])
      && (forall j :: k < j < |r| ==> r[j] == s[j - 1])
  {
  }

  /** Taking out what was just put in gives back the original. */
  lemma InsertThenRemove<T>(s: seq<T>, i: nat, x: T)
    ensures RemoveAt(InsertAt(s, i, x), Clamped(|s|, i)) == s
  {
    var k := Clamped(|s|, i);
    var t := InsertAt(s, i, x);
    InsertAtShifts(s, i, x);
    RemoveAtShifts(t, k);
  }

  /** Putting an element back where it was taken from gives back the original. */
  lemma RemoveThenInsert<T>(s: seq<T>, i: nat)
    requires i < |s|
    ensures InsertAt(RemoveAt(s, i), i, s[i]) == s
  {
    var r := RemoveAt(s, i);
    RemoveAtShifts(s, i);
    InsertAtShifts(r, i, s[i]);
  }

  /** Remove the element at `from`, then insert it at `to`, where `to` counts
      positions in the shortened sequence: a permutation that puts the moved
      element at (the clamped) `to`. */
  function Move<T>(s: seq<T>, from: nat, to: nat): (r: seq<T>)
    requires from < |s|
    ensures |r| == |s|
    ensures r[Clamped(|s| - 1, to)] == s[from]
  {
    InsertAt(RemoveAt(s, from), to, s[from])
  }

  /** A move is a permutation. */
  lemma MovePermutes<T>(s: seq<T>, from: nat, to: nat)
    requires from < |s|
    ensures multiset(Move(s, from, to)) == multiset(s)
  {
    RemoveAtCount(s, from);
    InsertAtCount(RemoveAt(s, from), to, s[from]);
  }

  /** The other elements keep their relative order: taking the moved element
      out again leaves exactly what taking it out of `s` left. Together with
      where it lands, this determines the result of a move. */
  lemma MoveKeepsOthersInOrder<T>(s: seq<T>, from: nat, to: nat)
    requires from < |s|
    ensures RemoveAt(Move(s, from, to), Clamped(|s| - 1, to)) == RemoveAt(s, from)
  {
    InsertThenRemove(RemoveAt(s, from), to, s[from]);
  }

  /** Moving to the position the element already has changes nothing. */
  lemma MoveInPlace<T>(s: seq<T>, i: nat)
    requires i < |s|
    ensures Move(s, i, i) == s
  {
    RemoveThenInsert(s, i);
  }

  /** Moving the element back from where it landed restores the sequence. */
  lemma MoveBack<T>(s: seq<T>, from: nat, to: nat)
    requires from < |s|
    ensures Move(Move(s, from, to), Clamped(|s| - 1, to), from) == s
  {
    MoveKeepsOthersInOrder(s, from, to);
    RemoveThenInsert(s, from);
  }

  /** No element occurs twice. */
  predicate Distinct<T(==)>(s: seq<T>)
  {
    forall i, j :: 0 <= i < j < |s| ==> s[i] != s[j]
  }

  /** Two sequences share no element. */
  predicate Disjoint<T(==)>(a: seq<T>, b: seq<T>)
  {
    forall x :: x in a ==> x !in b
  }

  lemma RemoveAtKeepsDistinct<T>(s: seq<T>, i: nat)
    requires i < |s| && Distinct(s)
    ensures Distinct(RemoveAt(s, i)) && s[i] !in RemoveAt(s, i)
  {
    RemoveAtShifts(s, i);
  }

  lemma InsertAtKeepsDistinct<T>(s: seq<T>, i: nat, x: T)
    requires Distinct(s) && x !in s
    ensures Distinct(InsertAt(s, i, x))
  {
    InsertAtShifts(s, i, x);
  }

  lemma MoveKeepsDistinct<T>(s: seq<T>, from: nat, to: nat)
    requires from < |s| && Distinct(s)
    ensures Distinct(Move(s, from, to))
  {
    RemoveAtKeepsDistinct(s, from);
    InsertAtKeepsDistinct(RemoveAt(s, from), to, s[from]);
  }

  /** `s.filter(y => y !== x)`: every occurrence of `x` removed, everything
      else kept as often as it occurred. */
  function Without<T(==)>(s: seq<T>, x: T): (r: seq<T>)
    ensures x !in r
    ensures multiset(r) == multiset(s)[x := 0]
    ensures x !in s ==> r == s
  {
    if s == [] then []
    else
      assert s == [s[0]] + s[1..];
      if s[0] == x then Without(s[1..], x) else [s[0]] + Without(s[1..], x)
  }

  /** Filtering works piecewise, so the kept elements stay in their order. */
  lemma {:induction false} WithoutAppend<T>(a: seq<T>, b: seq<T>, x: T)
    ensures Without(a + b, x) == Without(a, x) + Without(b, x)
  {
    if a != [] {
      assert (a + b)[1..] == a[1..] + b;
      WithoutAppend(a[1..], b, x);
    } else {
      assert a + b == b;
    }
  }

  lemma {:induction false} WithoutKeepsDistinct<T>(s: seq<T>, x: T)
    requires Distinct(s)
    ensures Distinct(Without(s, x))
  {
    if s != [] {
      assert Distinct(s[1..]);
      WithoutKeepsDistinct(s[1..], x);
      if s[0] != x {
        var w := Without(s[1..], x);
        assert s[0] !in s[1..];
        assert multiset(w)[s[0]] == multiset(s[1..])[s[0]] == 0;
        assert s[0] !in w;
        var r := [s[0]] + w;
        assert forall j :: 0 < j < |r| ==> r[j] == w[j - 1];
      }
    }
  }

  /** In a sequence without repeats, filtering out an element is removing it
      at its one position: the rest keep their order. */
  lemma {:induction false} WithoutDistinctIsRemoveAt<T>(s: seq<T>, i: nat)
    requires i < |s| && Distinct(s)
    ensures Without(s, s[i]) == RemoveAt(s, i)
  {
    DistinctTail(s);
    if i == 0 {
      assert Without(s, s[0]) == Without(s[1..], s[0]);
    } else {
      var tail := s[1..];
      assert tail[i - 1] == s[i];
      WithoutDistinctIsRemoveAt(tail, i - 1);
      assert Without(s, s[i]) == [s[0]] + Without(tail, s[i]);
      ConsRemoveAt(s, i);
    }
  }

  lemma DistinctTail<T>(s: seq<T>)
    requires s != [] && Distinct(s)
    ensures Distinct(s[1..]) && s[0] !in s[1..]
  {
    var tail := s[1..];
    forall j | 0 <= j < |tail| ensures tail[j] != s[0] {
      assert tail[j] == s[j + 1];
    }
  }

  lemma ConsRemoveAt<T>(s: seq<T>, i: nat)
    requires 0 < i < |s|
    ensures [s[0]] + RemoveAt(s[1..], i - 1) == RemoveAt(s, i)
  {
    var tail := s[1..];
    assert tail[..i - 1] == s[1..i];
    assert tail[i..] == s[i + 1..];
    assert [s[0]] + s[1..i] == s[..i];
  }

  /** Post-removal indexing on a list order: `[A, B, C]` moved from 0 to 2. */
  lemma MoveLastExample()
    ensures Move(['A', 'B', 'C'], 0, 2) == ['B', 'C', 'A']
  {
    var s := ['A', 'B', 'C'];
    assert RemoveAt(s, 0) == ['B', 'C'];
    assert InsertAt(['B', 'C'], 2, 'A') == ['B', 'C', 'A'];
  }

  /** `[A, B, C]` moved from 2 to 0. */
  lemma MoveFirstExample()
    ensures Move(['A', 'B', 'C'], 2, 0) == ['C', 'A', 'B']
  {
    var s := ['A', 'B', 'C'];
    assert RemoveAt(s, 2) == ['A', 'B'];
    assert InsertAt(['A', 'B'], 0, 'C') == ['C', 'A', 'B'];
  }

  /** A task order `[1, 2, 3, 4]` moved from 0 to 2 within its list. */
  lemma MoveWithinExample()
    ensures Move([1, 2, 3, 4], 0, 2) == [2, 3, 1, 4]
  {
    var s := [1, 2, 3, 4];
    assert s[..0] + s[1..] == [2, 3, 4];
    var t := [2, 3, 4];
    assert t[..2] + [1] + t[2..] == [2, 3, 1, 4];
  }
}
