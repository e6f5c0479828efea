/**
 * List operations the admin screens use: `Array.prototype.findIndex`, `filter`, and the
 * `arrayMove` helper of the drag-and-drop library, which is specified by its documented
 * contract (take the element out at `from`, put it back in at `to`).
 */
module Sequences {

  /** `s.findIndex(e => e === x)`: the first position of `x`, or -1 when it is absent. */
  function FindIndex<T(==)>(s: seq<T>, x: T): (r: int)
    ensures -1 <= r < |s|
    ensures r == -1 <==> x !in s
    ensures 0 <= r ==> s[r] == x && x !in s[..r]
  {
    if s == [] then -1
    else if s[0] == x then 0
    else
      var k := FindIndex(s[1..], x);
      assert s[1..][..if k < 0 then 0 else k] == s[1..1 + if k < 0 then 0 else k];
      if k < 0 then -1 else k + 1
  }

  /** The list without its element at position `i`. */
  function RemoveAt<T>(s: seq<T>, i: nat): (r: seq<T>)
    requires i < |s|
    ensures |r| == |s| - 1
    ensures forall j :: 0 <= j < i ==> r[j] == s[j]
    ensures forall j :: i <= j < |r| ==> r[j] == s[j + 1]
  {
    s[..i] + s[i + 1..]
  }

  /** The list with `x` inserted so that it ends up at position `i`. */
  function InsertAt<T>(s: seq<T>, i: nat, x: T): (r: seq<T>)
    requires i <= |s|
    ensures |r| == |s| + 1
    ensures r[i] == x
    ensures forall j :: 0 <= j < i ==> r[j] == s[j]
    ensures forall j :: i < j < |r| ==> r[j] == s[j - 1]
  {
    s[..i] + [x] + s[i..]
  }

  /** `arrayMove(s, from, to)`: the element at `from` is removed and re-inserted at `to`. */
  function Move<T>(s: seq<T>, from: nat, to: nat): (r: seq<T>)
    requires from < |s| && to < |s|
  {
    InsertAt(RemoveAt(s, from), to, s[from])
  }

  /**
   * A position-by-position description of a move, independent of Move's definition:
   * the moved element sits at `to`, the elements strictly between the two positions shift
   * by one towards `from`, and everything outside that window stays where it was.
   */
  function MovedAt<T>(s: seq<T>, from: nat, to: nat, k: nat): T
    requires from < |s| && to < |s| && k < |s|
  {
    if k == to then s[from]
    else if from < to && from <= k < to then s[k + 1]
    else if to < from && to < k <= from then s[k - 1]
    else s[k]
  }

  lemma MoveAt<T>(s: seq<T>, from: nat, to: nat, k: nat)
    requires from < |s| && to < |s| && k < |s|
    ensures |Move(s, from, to)| == |s|
    ensures Move(s, from, to)[k] == MovedAt(s, from, to, k)
  {
  }

  /** The moved element lands exactly at the target position. */
  lemma MoveLands<T>(s: seq<T>, from: nat, to: nat)
    requires from < |s| && to < |s|
    ensures |Move(s, from, to)| == |s| && Move(s, from, to)[to] == s[from]
  {
  }

  /** Taking the moved element back out leaves the others in their original relative order. */
  lemma MoveKeepsOthersInOrder<T>(s: seq<T>, from: nat, to: nat)
    requires from < |s| && to < |s|
    ensures |Move(s, from, to)| == |s|
    ensures RemoveAt(Move(s, from, to), to) == RemoveAt(s, from)
  {
    var m := Move(s, from, to);
    var a, b := RemoveAt(m, to), RemoveAt(s, from);
    assert |a| == |b|;
    forall j | 0 <= j < |a| ensures a[j] == b[j] {
      if j < to { assert a[j] == m[j]; } else { assert a[j] == m[j + 1]; }
    }
  }

  /** A move is a permutation of the list. */
  lemma MoveIsPermutation<T>(s: seq<T>, from: nat, to: nat)
    requires from < |s| && to < |s|
    ensures multiset(Move(s, from, to)) == multiset(s)
  {
    var rest := RemoveAt(s, from);
    assert s == s[..from] + [s[from]] + s[from + 1..];
    assert rest == s[..from] + s[from + 1..];
    assert multiset(s) == multiset(rest) + multiset{s[from]};
    assert Move(s, from, to) == rest[..to] + [s[from]] + rest[to..];
    assert rest == rest[..to] + rest[to..];
  }

  /** Moving an element onto its own position changes nothing. */
  lemma MoveToSelf<T>(s: seq<T>, i: nat)
    requires i < |s|
    ensures Move(s, i, i) == s
  {
    assert forall k :: 0 <= k < |s| ==> Move(s, i, i)[k] == s[k];
  }

  /** `s.filter(e => e !== x)`: every element equal to `x` removed, the rest in order. */
  function RemoveAll<T(==)>(s: seq<T>, x: T): (r: seq<T>)
    ensures x !in r
    ensures multiset(r) == multiset(s)[x := 0]
    ensures x !in s ==> r == s
  {
    if s == [] then []
    else
      var tail := RemoveAll(s[1..], x);
      assert s == [s[0]] + s[1..];
      if s[0] == x then tail else [s[0]] + tail
  }

  /** Filtering distributes over concatenation, so the kept elements stay in order. */
  lemma {:induction false} RemoveAllAppend<T>(a: seq<T>, b: seq<T>, x: T)
    ensures RemoveAll(a + b, x) == RemoveAll(a, x) + RemoveAll(b, x)
  {
    if a == [] {
      assert a + b == b;
    } else {
      assert (a + b)[1..] == a[1..] + b;
      RemoveAllAppend(a[1..], b, x);
    }
  }

  /** Removing twice is removing once. */
  lemma RemoveAllIdempotent<T>(s: seq<T>, x: T)
    ensures RemoveAll(RemoveAll(s, x), x) == RemoveAll(s, x)
  {
  }

  /** Elements pairwise distinct. */
  predicate Distinct<T(==)>(s: seq<T>) {
    forall i, j :: 0 <= i < j < |s| ==> s[i] != s[j]
  }

  /** In a list without repeats the head does not occur again, and the tail has no repeats. */
  lemma DistinctUncons<T>(s: seq<T>)
    requires Distinct(s) && s != []
    ensures s[0] !in s[1..] && Distinct(s[1..])
  {
    forall i | 0 <= i < |s| - 1 ensures s[1..][i] != s[0] {
      assert s[1..][i] == s[i + 1];
    }
    forall i, j | 0 <= i < j < |s| - 1 ensures s[1..][i] != s[1..][j] {
      assert s[1..][i] == s[i + 1] && s[1..][j] == s[j + 1];
    }
  }

  /** A move neither adds nor loses elements. */
  lemma MoveMembers<T>(s: seq<T>, from: nat, to: nat)
    requires from < |s| && to < |s|
    ensures forall x :: x in Move(s, from, to) <==> x in s
  {
    MoveIsPermutation(s, from, to);
    forall x ensures x in Move(s, from, to) <==> x in s {
      assert x in Move(s, from, to) <==> x in multiset(Move(s, from, to));
      assert x in s <==> x in multiset(s);
    }
  }

  /** A move of a list without repeats has no repeats. */
  lemma MoveDistinct<T>(s: seq<T>, from: nat, to: nat)
    requires from < |s| && to < |s| && Distinct(s)
    ensures Distinct(Move(s, from, to))
  {
    var m := Move(s, from, to);
    forall i, j | 0 <= i < j < |m| ensures m[i] != m[j] {
      MoveAt(s, from, to, i);
      MoveAt(s, from, to, j);
    }
  }
}
