/**
 * Value helpers shared by the itinerary model: an optional value, JavaScript's
 * `Array.prototype.slice`, and the ascending key order in which
 * `Object.entries` visits the integer keys of an object.
 */
module Prelude {

  datatype Option<T> = None | Some(value: T)

  function Min(a: int, b: int): int
  {
    if a <= b then a else b
  }

  /**
   * `s.slice(start, end)` for non-negative arguments: the elements at
   * positions start, ..., end - 1 that exist, in order.
   */
  function Slice<T>(s: seq<T>, start: nat, end: nat): (r: seq<T>)
    ensures |r| == (if Min(end, |s|) <= start then 0 else Min(end, |s|) - start)
    ensures |r| <= |s| && |r| <= end
    ensures forall i :: 0 <= i < |r| ==> r[i] == s[start + i]
  {
    if Min(end, |s|) <= start then [] else s[start..Min(end, |s|)]
  }

  /** Every element of a slice is an element of the sliced sequence. */
  lemma SliceMembers<T>(s: seq<T>, start: nat, end: nat)
    ensures forall x :: x in Slice(s, start, end) ==> x in s
  {
    var r := Slice(s, start, end);
    forall x | x in r ensures x in s {
      var i :| 0 <= i < |r| && r[i] == x;
      assert s[start + i] == x;
    }
  }

  /**
   * `front` followed by as many leading elements of `more` as still fit under
   * `cap`, the whole then cut at `cap` elements.
   */
  function TopUp<T>(front: seq<T>, more: seq<T>, cap: nat): seq<T>
  {
    Slice(front + Slice(more, 0, cap - Min(|front|, cap)), 0, cap)
  }

  /**
   * A top-up that starts within the cap keeps `front` whole and then takes a
   * prefix of `more`, as much as fits or as there is.
   */
  lemma SliceTopUp<T>(front: seq<T>, more: seq<T>, cap: nat)
    requires |front| <= cap
    ensures |TopUp(front, more, cap)| == Min(cap, |front| + |more|)
    ensures TopUp(front, more, cap)[..|front|] == front
    ensures TopUp(front, more, cap)[|front|..] == more[..|TopUp(front, more, cap)| - |front|]
  {
    var tail := Slice(more, 0, cap - |front|);
    var filled := front + tail;
    var r := Slice(filled, 0, cap);
    assert |r| == |filled|;
    assert r == filled;
    assert r[..|front|] == front;
    assert r[|front|..] == tail;
    assert tail == more[..|tail|];
  }

  /** `m` is the least element of `s`. */
  predicate IsLeast(s: set<nat>, m: nat)
  {
    m in s && forall x :: x in s ==> m <= x
  }

  lemma LeastExists(s: set<nat>)
    requires s != {}
    ensures exists m :: IsLeast(s, m)
    decreases |s|
  {
    var y :| y in s;
    if s == {y} {
      assert IsLeast(s, y);
    } else {
      LeastExists(s - {y});
      var m :| IsLeast(s - {y}, m);
      assert forall x :: x in s ==> x == y || x in s - {y};
      if y < m {
        assert IsLeast(s, y);
      } else {
        assert IsLeast(s, m);
      }
    }
  }

  predicate StrictlyAscending(keys: seq<nat>)
  {
    forall i, j :: 0 <= i < j < |keys| ==> keys[i] < keys[j]
  }

  /** Dropping the last key keeps the order; every earlier key is smaller. */
  lemma AscendingSplit(keys: seq<nat>)
    requires keys != [] && StrictlyAscending(keys)
    ensures StrictlyAscending(keys[..|keys| - 1])
    ensures forall i :: 0 <= i < |keys| - 1 ==> keys[i] < keys[|keys| - 1]
    ensures keys[|keys| - 1] !in keys[..|keys| - 1]
    ensures keys == keys[..|keys| - 1] + [keys[|keys| - 1]]
  {
  }

  /**
   * The keys of an object with integer-like keys, in the order
   * `Object.entries` and `Object.keys` list them: ascending.
   */
  function SortedKeys(s: set<nat>): (keys: seq<nat>)
    ensures StrictlyAscending(keys)
    ensures forall k :: k in keys <==> k in s
    ensures |keys| == |s|
    decreases |s|
  {
    if s == {} then []
    else
      LeastExists(s);
      var m :| IsLeast(s, m);
      var rest := SortedKeys(s - {m});
      assert forall k :: k in rest ==> m < k;
      [m] + rest
  }
}
