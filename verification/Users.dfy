/** The entities of the service's core data (service/core_data.h). */
module Users {

  type Id = int
  type Money = int
  type Byte = b: int | 0 <= b < 256
  type Name = seq<Byte>

  const INVALID_SECOND := 60
  const INVALID_RATING := -1

  /** The second of the minute a user connected in; INVALID_SECOND means "not connected". */
  type Second = s: int | 0 <= s <= INVALID_SECOND

  datatype Option<+T> = None | Some(value: T)

  /** What the service keeps of a user who has won nothing this week. */
  datatype BasicUserData = BasicUserData(secondConnected: Second, name: Name)

  /** A user who takes part in this week's rating. `id` never changes. */
  class FullUserData {
    const id: Id
    var secondConnected: Second
    var name: Name
    var amountWon: Money
    var rating: int

    constructor (userId: Id, winnings: Money, basicData: BasicUserData)
      ensures id == userId && amountWon == winnings && rating == INVALID_RATING
      ensures secondConnected == basicData.secondConnected && name == basicData.name
    {
      id := userId;
      amountWon := winnings;
      secondConnected := basicData.secondConnected;
      name := basicData.name;
      rating := INVALID_RATING;
    }
  }

  // ------------------------------------------------------------------------------------------
  // Iteration over an ordered map or set of ids
  // ------------------------------------------------------------------------------------------

  lemma NonEmpty(s: set<Id>)
    requires s != {}
    ensures exists x :: x in s
  {
    if forall x :: x !in s {
      assert false;
    }
  }

  lemma {:induction false} FindGreatest(s: set<Id>) returns (z: Id)
    requires s != {}
    ensures z in s && forall y :: y in s ==> y <= z
  {
    NonEmpty(s);
    var x :| x in s;
    var rest := s - {x};
    assert forall y :: y in s ==> y == x || y in rest;
    z := x;
    if rest != {} {
      var m := FindGreatest(rest);
      if m > x { z := m; }
    }
  }

  lemma GreatestExists(s: set<Id>)
    requires s != {}
    ensures exists x :: x in s && forall y :: y in s ==> y <= x
  {
    var z := FindGreatest(s);
  }

  function Greatest(s: set<Id>): (x: Id)
    requires s != {}
    ensures x in s && forall y :: y in s ==> y <= x
  {
    GreatestExists(s);
    var x :| x in s && forall y :: y in s ==> y <= x;
    x
  }

  ghost predicate Below(x: Id, y: Id) {
    x < y
  }

  ghost predicate Ascending(ids: seq<Id>) {
    forall i, j {:trigger Below(ids[i], ids[j])} :: 0 <= i < j < |ids| ==> Below(ids[i], ids[j])
  }

  ghost predicate InBoth(id: Id, ids: seq<Id>, s: set<Id>) {
    id in ids <==> id in s
  }

  /** `ids` lists the elements of `s` in order. */
  ghost predicate Lists(ids: seq<Id>, s: set<Id>) {
    Ascending(ids) && forall id {:trigger InBoth(id, ids, s)} :: InBoth(id, ids, s)
  }

  /** The last id is greater than the ones before it. */
  lemma AscendingInit(ids: seq<Id>)
    requires ids != [] && Ascending(ids)
    ensures var last := |ids| - 1; Ascending(ids[..last]) && ids[last] !in ids[..last]
  {
    var last := |ids| - 1;
    forall i, j | 0 <= i < j < last
      ensures Below(ids[..last][i], ids[..last][j])
    {
      assert Below(ids[i], ids[j]);
    }
    forall i | 0 <= i < last
      ensures ids[i] != ids[last]
    {
      assert Below(ids[i], ids[last]);
    }
  }

  lemma ListGrows(ids: seq<Id>, s: set<Id>, x: Id)
    requires x in s && Lists(ids, s - {x}) && forall y :: y in s ==> y <= x
    ensures Lists(ids + [x], s)
  {
    var r := ids + [x];
    forall i, j | 0 <= i < j < |r|
      ensures Below(r[i], r[j])
    {
      assert InBoth(r[i], ids, s - {x});
      assert j < |ids| ==> Below(ids[i], ids[j]);
    }
    forall id
      ensures InBoth(id, r, s)
    {
      assert InBoth(id, ids, s - {x});
    }
  }

  lemma LastIsGreatest(ids: seq<Id>, s: set<Id>)
    requires ids != [] && Lists(ids, s)
    ensures var x := ids[|ids| - 1]; x in s && (forall y :: y in s ==> y <= x) && Lists(ids[..|ids| - 1], s - {x})
  {
    var x, init := ids[|ids| - 1], ids[..|ids| - 1];
    assert InBoth(x, ids, s);
    AscendingInit(ids);
    assert ids == init + [x];
    forall y | y in s
      ensures y <= x
    {
      assert InBoth(y, ids, s);
      var i :| 0 <= i < |ids| && ids[i] == y;
      assert i < |ids| - 1 ==> Below(ids[i], x);
    }
    forall id
      ensures InBoth(id, init, s - {x})
    {
      assert InBoth(id, ids, s);
    }
  }

  lemma ListsNothing(ids: seq<Id>, s: set<Id>)
    requires Lists(ids, s)
    ensures ids == [] <==> s == {}
  {
    if ids != [] {
      assert InBoth(ids[0], ids, s);
    } else {
      forall x
        ensures x !in s
      {
        assert InBoth(x, ids, s);
      }
    }
  }

  /** There is only one ordered list of a set. */
  lemma {:induction false} ListUnique(a: seq<Id>, b: seq<Id>, s: set<Id>)
    requires Lists(a, s) && Lists(b, s)
    ensures a == b
  {
    ListsNothing(a, s);
    ListsNothing(b, s);
    if a != [] {
      LastIsGreatest(a, s);
      LastIsGreatest(b, s);
      ListUnique(a[..|a| - 1], b[..|b| - 1], s - {a[|a| - 1]});
      assert a == a[..|a| - 1] + [a[|a| - 1]] && b == b[..|b| - 1] + [b[|b| - 1]];
    }
  }

  lemma {:induction false} ListExists(s: set<Id>)
    ensures exists ids :: Lists(ids, s)
  {
    if s == {} {
      assert forall id :: InBoth(id, [], s);
      assert Lists([], s);
    } else {
      var x := Greatest(s);
      ListExists(s - {x});
      var ids :| Lists(ids, s - {x});
      ListGrows(ids, s, x);
    }
  }

  /** The order in which an ordered set or map is iterated over. */
  ghost function SortedIds(s: set<Id>): (ids: seq<Id>)
    ensures Lists(ids, s)
  {
    ListExists(s);
    var ids :| Lists(ids, s);
    ids
  }

  method IdsInOrder(s: set<Id>) returns (ids: seq<Id>)
    ensures ids == SortedIds(s)
    ensures forall id :: id in ids ==> id in s
  {
    if s == {} {
      ids := [];
      assert forall id :: InBoth(id, ids, s);
    } else {
      var x := Greatest(s);
      ids := IdsInOrder(s - {x});
      ListGrows(ids, s, x);
      ids := ids + [x];
    }
    ListUnique(ids, SortedIds(s), s);
    assert forall id :: InBoth(id, ids, s) ==> id in ids ==> id in s;
  }
}
