/**
 * The iteration order of the reflector's `client_map`: a `std::map` keyed by
 * client id, so every loop over it visits the ids in ascending order.
 */
module ClientOrder {

  ghost predicate StrictlyIncreasing(s: seq<nat>) {
    forall i, j :: 0 <= i < j < |s| ==> s[i] < s[j]
  }

  predicate IsLeast(m: nat, s: set<nat>) {
    m in s && forall x :: x in s ==> m <= x
  }

  /** Every non-empty finite set of ids has a least element. */
  lemma {:induction false} LeastExists(s: set<nat>)
    requires s != {}
    ensures exists m :: IsLeast(m, s)
    decreases |s|
  {
    var x :| x in s;
    if s != {x} {
      LeastExists(s - {x});
      var m :| IsLeast(m, s - {x});
      assert forall y :: y in s ==> y == x || y in s - {x};
      if x < m {
        assert IsLeast(x, s);
      } else {
        assert IsLeast(m, s);
      }
    } else {
      assert IsLeast(x, s);
    }
  }

  /** The ids of `s` in the order a `std::map` iterates them. */
  ghost function SortedIds(s: set<nat>): (r: seq<nat>)
    ensures forall x :: x in r ==> x in s
    decreases |s|
  {
    if s == {} then []
    else
      LeastExists(s);
      var m :| IsLeast(m, s);
      [m] + SortedIds(s - {m})
  }

  /** The iteration visits every id of the set once, in ascending order. */
  lemma {:induction false} SortedIdsSpec(s: set<nat>)
    ensures StrictlyIncreasing(SortedIds(s))
    ensures forall x :: x in s <==> x in SortedIds(s)
    ensures |SortedIds(s)| == |s|
    decreases |s|
  {
    if s != {} {
      LeastExists(s);
      var m :| IsLeast(m, s);
      SortedIdsFirst(s, m);
      SortedIdsSpec(s - {m});
      var r := SortedIds(s);
      assert forall x :: x in s ==> x == m || x in s - {m};
      forall i, j | 0 <= i < j < |r| ensures r[i] < r[j] {
        if i == 0 {
          assert r[j] in SortedIds(s - {m});
        } else {
          assert r[i] == SortedIds(s - {m})[i - 1];
        }
      }
    }
  }

  /** One step of a loop over a shrinking set `rest`: the least remaining id
      moves from the rest of the iteration to the visited prefix `done`. */
  lemma VisitLeast(order: seq<nat>, done: seq<nat>, rest: set<nat>, m: nat)
    requires order == done + SortedIds(rest)
    requires IsLeast(m, rest)
    ensures order == (done + [m]) + SortedIds(rest - {m})
    ensures m in order
  {
    SortedIdsFirst(rest, m);
  }

  /** Iteration starts at the least id and continues over the others. */
  lemma SortedIdsFirst(s: set<nat>, m: nat)
    requires IsLeast(m, s)
    ensures SortedIds(s) == [m] + SortedIds(s - {m})
  {
  }

  /** A map holding three ids visits them smallest first. */
  lemma SortedThree(a: nat, b: nat, c: nat)
    requires a < b < c
    ensures SortedIds({a, b, c}) == [a, b, c]
  {
    SortedIdsFirst({a, b, c}, a);
    assert {a, b, c} - {a} == {b, c};
    SortedIdsFirst({b, c}, b);
    assert {b, c} - {b} == {c};
    SortedIdsFirst({c}, c);
    assert {c} - {c} == {};
  }

  /** A map holding two ids visits the smaller first. */
  lemma SortedTwo(a: nat, b: nat)
    requires a < b
    ensures SortedIds({a, b}) == [a, b]
  {
    SortedIdsFirst({a, b}, a);
    assert {a, b} - {a} == {b};
    SortedIdsFirst({b}, b);
    assert {b} - {b} == {};
  }
}
