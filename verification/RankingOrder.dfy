/**
 What the rating ought to be after a batch of deals, stated without reference to how the
 service computes it: an order on users, and the one sequence of users sorted by it.
 */
module RankingOrder {
  import opened Users

  /**
   A batch of deals on top of a ranking.
   `base` is the ranking before it, `before` the amounts of its users, `index` their places, and
   `totals` maps every user the batch touches (ranked or new to the rating) to the new total.
   */
  datatype Batch = Batch(base: seq<FullUserData>, before: seq<Money>,
                         index: map<FullUserData, int>, totals: map<FullUserData, Money>)
  {
    /** The ranking is sorted by descending amount, places are right, ids name users. */
    ghost predicate Valid() {
      && |before| == |base|
      && (forall i :: 0 <= i < |base| ==> base[i] in index && index[base[i]] == i)
      && (forall u :: u in index ==> 0 <= index[u] < |base| && base[index[u]] == u)
      && (forall i, j :: 0 <= i < j < |base| ==> before[i] >= before[j])
      && (forall u, v {:trigger IdsTell(u, v)} :: u in totals && v in totals ==> IdsTell(u, v))
    }

    ghost predicate IdsTell(u: FullUserData, v: FullUserData) {
      u.id == v.id ==> u == v
    }

    /** The users of the new ranking: the ranked ones and the ones new to it. */
    ghost predicate Ranked(u: FullUserData) {
      u in index || u in totals
    }

    ghost function After(u: FullUserData): Money
      requires Valid() && Ranked(u)
    {
      if u in totals then totals[u] else before[index[u]]
    }

    /** Tie rule: unchanged users first, in their old order, then changed users by descending id. */
    ghost predicate TieBefore(u: FullUserData, v: FullUserData)
      requires Valid() && Ranked(u) && Ranked(v)
    {
      if u in totals then v in totals && u.id > v.id
      else v in totals || index[u] < index[v]
    }

    /** `u` is to be ranked above `v`. */
    ghost predicate Before(u: FullUserData, v: FullUserData)
      requires Valid() && Ranked(u) && Ranked(v)
    {
      After(u) > After(v) || (After(u) == After(v) && TieBefore(u, v))
    }

    ghost predicate AllRanked(s: seq<FullUserData>) {
      forall i :: 0 <= i < |s| ==> Ranked(s[i])
    }

    ghost predicate Sorted(s: seq<FullUserData>)
      requires Valid() && AllRanked(s)
    {
      forall i, j :: 0 <= i < j < |s| ==> Before(s[i], s[j])
    }

    /** `s` is the new ranking: every ranked user, and sorted. */
    ghost predicate IsRanking(s: seq<FullUserData>)
      requires Valid()
    {
      && AllRanked(s)
      && Sorted(s)
      && (forall u :: u in index ==> u in s)
      && (forall u :: u in totals ==> u in s)
    }

    /** No user the batch leaves alone gets a better place than before. */
    ghost predicate NobodyRises(s: seq<FullUserData>) {
      forall i, q {:trigger NotRisen(s, i, q)} :: 0 <= i < |s| && 0 <= q < |base| ==> NotRisen(s, i, q)
    }

    /** If the user at old place `q` is at `i` now and left alone, that is no improvement. */
    ghost predicate NotRisen(s: seq<FullUserData>, i: nat, q: nat)
      requires i < |s| && q < |base|
    {
      base[q] !in totals && s[i] == base[q] ==> i >= q
    }
  }

  lemma BeforeTransitive(b: Batch, u: FullUserData, v: FullUserData, w: FullUserData)
    requires b.Valid() && b.Ranked(u) && b.Ranked(v) && b.Ranked(w)
    requires b.Before(u, v) && b.Before(v, w)
    ensures b.Before(u, w)
  {
  }

  lemma BeforeTotal(b: Batch, u: FullUserData, v: FullUserData)
    requires b.Valid() && b.Ranked(u) && b.Ranked(v)
    ensures !(b.Before(u, v) && b.Before(v, u))
    ensures u != v ==> b.Before(u, v) || b.Before(v, u)
  {
    assert u in b.totals && v in b.totals ==> b.IdsTell(u, v);
  }

  /** A sorted sequence lists nobody twice. */
  lemma SortedDistinct(b: Batch, s: seq<FullUserData>)
    requires b.Valid() && b.AllRanked(s) && b.Sorted(s)
    ensures forall i, j :: 0 <= i < j < |s| ==> s[i] != s[j]
  {
    forall i, j | 0 <= i < j < |s|
      ensures s[i] != s[j]
    {
      BeforeTotal(b, s[i], s[j]);
    }
  }

  /** There is only one way to sort a given set of users. */
  lemma {:induction false} SortedUnique(b: Batch, s: seq<FullUserData>, t: seq<FullUserData>)
    requires b.Valid() && b.AllRanked(s) && b.AllRanked(t) && b.Sorted(s) && b.Sorted(t)
    requires forall u :: u in s <==> u in t
    ensures s == t
  {
    SortedDistinct(b, s);
    SortedDistinct(b, t);
    assert (s != [] ==> s[0] in t) && (t != [] ==> t[0] in s);
    if s != [] {
      BeforeTotal(b, s[0], t[0]);
      assert s[0] == t[0];
      assert s == [s[0]] + s[1..] && t == [t[0]] + t[1..];
      forall u
        ensures u in s[1..] <==> u in t[1..]
      {
        assert u in s <==> u == s[0] || u in s[1..];
        assert u in t <==> u == t[0] || u in t[1..];
      }
      SortedUnique(b, s[1..], t[1..]);
    }
  }

  /** The ranking after a batch is unique. */
  lemma RankingUnique(b: Batch, s: seq<FullUserData>, t: seq<FullUserData>)
    requires b.Valid() && b.IsRanking(s) && b.IsRanking(t)
    ensures s == t
  {
    forall u
      ensures u in s <==> u in t
    {
      if u in s { assert b.Ranked(u); }
      if u in t { assert b.Ranked(u); }
    }
    SortedUnique(b, s, t);
  }

  // ------------------------------------------------------------------------------------------
  // A simple way to get there: take the changed users out, put them back one at a time.
  // ------------------------------------------------------------------------------------------

  /** The users of `s` the batch leaves alone. */
  ghost function Unchanged(b: Batch, s: seq<FullUserData>): (r: seq<FullUserData>) {
    if s == [] then [] else (if s[0] in b.totals then [] else [s[0]]) + Unchanged(b, s[1..])
  }

  /** Put `u` below everybody with a higher total and below unchanged users with the same total. */
  ghost function Insert(b: Batch, s: seq<FullUserData>, u: FullUserData): (r: seq<FullUserData>)
    requires b.Valid() && b.AllRanked(s) && u in b.totals
    ensures |r| == |s| + 1 && b.AllRanked(r)
    ensures u in r && (forall v :: v in r ==> v in s || v == u) && (forall v :: v in s ==> v in r)
  {
    if s == [] then [u]
    else if b.After(s[0]) < b.After(u) || (b.After(s[0]) == b.After(u) && s[0] in b.totals) then [u] + s
    else
      var r := Insert(b, s[1..], u);
      assert s == [s[0]] + s[1..];
      [s[0]] + r
  }

  /** `us` lists the changed users once each, by ascending id. */
  ghost predicate ListsChanged(b: Batch, us: seq<FullUserData>) {
    && (forall i :: 0 <= i < |us| ==> us[i] in b.totals)
    && (forall i, j :: 0 <= i < j < |us| ==> us[i].id < us[j].id)
    && (forall u :: u in b.totals ==> u in us)
  }

  ghost function InsertAll(b: Batch, s: seq<FullUserData>, us: seq<FullUserData>): (r: seq<FullUserData>)
    requires b.Valid() && b.AllRanked(s) && (forall i :: 0 <= i < |us| ==> us[i] in b.totals)
    ensures b.AllRanked(r)
    ensures (forall v :: v in r ==> v in s || v in us) && (forall v :: v in s ==> v in r) && (forall v :: v in us ==> v in r)
  {
    if us == [] then s
    else
      var last := |us| - 1;
      assert us == us[..last] + [us[last]];
      Insert(b, InsertAll(b, s, us[..last]), us[last])
  }

  /** Delete the changed users, then insert them again in the order of their ids. */
  ghost function Reference(b: Batch, us: seq<FullUserData>): (r: seq<FullUserData>)
    requires b.Valid() && ListsChanged(b, us)
  {
    UnchangedMembers(b, b.base);
    InsertAll(b, Unchanged(b, b.base), us)
  }

  lemma {:induction false} UnchangedMembers(b: Batch, s: seq<FullUserData>)
    ensures forall u :: u in Unchanged(b, s) <==> u in s && u !in b.totals
    ensures b.Valid() && b.AllRanked(s) ==> b.AllRanked(Unchanged(b, s))
  {
    if s != [] {
      UnchangedMembers(b, s[1..]);
      assert s == [s[0]] + s[1..];
      if b.Valid() && b.AllRanked(s) {
        assert b.AllRanked(s[1..]) by {
          forall i | 0 <= i < |s[1..]|
            ensures b.Ranked(s[1..][i])
          {
            assert s[1..][i] == s[i + 1];
          }
        }
      }
    }
  }

  lemma {:induction false} UnchangedSorted(b: Batch, k: nat)
    requires b.Valid() && k <= |b.base|
    ensures b.AllRanked(Unchanged(b, b.base[k..])) && b.Sorted(Unchanged(b, b.base[k..]))
    decreases |b.base| - k
  {
    UnchangedMembers(b, b.base[k..]);
    if k < |b.base| {
      UnchangedSorted(b, k + 1);
      UnchangedMembers(b, b.base[k + 1..]);
      assert b.base[k..][1..] == b.base[k + 1..];
      var rest := Unchanged(b, b.base[k + 1..]);
      if b.base[k] !in b.totals {
        forall i | 0 <= i < |rest|
          ensures b.Before(b.base[k], rest[i])
        {
          assert rest[i] in b.base[k + 1..];
        }
      }
    }
  }

  lemma {:induction false} InsertSorted(b: Batch, s: seq<FullUserData>, u: FullUserData)
    requires b.Valid() && b.AllRanked(s) && b.Sorted(s) && u in b.totals
    requires forall v :: v in s && v in b.totals ==> v.id < u.id
    ensures b.Sorted(Insert(b, s, u))
  {
    if s != [] {
      var rest := s[1..];
      assert s == [s[0]] + rest;
      if b.After(s[0]) < b.After(u) || (b.After(s[0]) == b.After(u) && s[0] in b.totals) {
        assert s[0] in s;
        forall i | 0 <= i < |s|
          ensures b.Before(u, s[i])
        {
          if i > 0 { BeforeTransitive(b, u, s[0], s[i]); }
        }
      } else {
        InsertSorted(b, rest, u);
        var r := Insert(b, rest, u);
        forall i | 0 <= i < |r|
          ensures b.Before(s[0], r[i])
        {
          assert r[i] in r;
          assert r[i] == u || r[i] in rest;
        }
      }
    }
  }

  lemma {:induction false} InsertAllSorted(b: Batch, s: seq<FullUserData>, us: seq<FullUserData>)
    requires b.Valid() && b.AllRanked(s) && b.Sorted(s)
    requires forall i :: 0 <= i < |us| ==> us[i] in b.totals
    requires forall i, j :: 0 <= i < j < |us| ==> us[i].id < us[j].id
    requires forall u :: u in s ==> u !in b.totals
    ensures b.Sorted(InsertAll(b, s, us))
  {
    if us != [] {
      var last := |us| - 1;
      InsertAllSorted(b, s, us[..last]);
      InsertSorted(b, InsertAll(b, s, us[..last]), us[last]);
    }
  }

  /** Deleting and re-inserting gives the ranking. */
  lemma ReferenceIsRanking(b: Batch, us: seq<FullUserData>)
    requires b.Valid() && ListsChanged(b, us)
    ensures b.IsRanking(Reference(b, us))
  {
    UnchangedMembers(b, b.base);
    UnchangedSorted(b, 0);
    assert b.base[0..] == b.base;
    InsertAllSorted(b, Unchanged(b, b.base), us);
    forall u | u in b.index
      ensures u in Reference(b, us)
    {
      assert b.base[b.index[u]] == u;
    }
  }

  /** Whatever is sorted is what deleting and re-inserting gives. */
  lemma RankingIsReference(b: Batch, s: seq<FullUserData>, us: seq<FullUserData>)
    requires b.Valid() && ListsChanged(b, us) && b.IsRanking(s)
    ensures s == Reference(b, us)
  {
    ReferenceIsRanking(b, us);
    RankingUnique(b, s, Reference(b, us));
  }

  // ------------------------------------------------------------------------------------------
  // Winning money cannot lift the others.
  // ------------------------------------------------------------------------------------------

  ghost predicate Distinct<T>(s: seq<T>) {
    forall i, j :: 0 <= i < j < |s| ==> s[i] != s[j]
  }

  ghost function Elements<T>(s: seq<T>): set<T> {
    set x | x in s
  }

  lemma {:induction false} ElementsCount<T>(s: seq<T>)
    ensures |Elements(s)| <= |s|
    ensures Distinct(s) ==> |Elements(s)| == |s|
  {
    if s != [] {
      var last := |s| - 1;
      ElementsCount(s[..last]);
      assert s == s[..last] + [s[last]];
      assert Elements(s) == Elements(s[..last]) + {s[last]};
    }
  }

  lemma SubsetCount<T>(s: set<T>, t: set<T>)
    requires s <= t
    ensures |s| <= |t|
  {
    assert t == s + (t - s);
  }

  /** Every ranked user the batch touches ends up with more than before. */
  ghost predicate OnlyWins(b: Batch)
    requires b.Valid()
  {
    forall u :: u in b.totals && u in b.index ==> b.totals[u] > b.before[b.index[u]]
  }

  /** If every deal total is positive, no unchanged user gets a better place. */
  lemma WinsLiftNobodyElse(b: Batch, s: seq<FullUserData>)
    requires b.Valid() && OnlyWins(b) && b.IsRanking(s)
    ensures b.NobodyRises(s)
  {
    forall i, q | 0 <= i < |s| && 0 <= q < |b.base| && b.base[q] !in b.totals && s[i] == b.base[q]
      ensures b.NotRisen(s, i, q)
    {
      forall p | 0 <= p < q
        ensures b.base[p] in s[..i]
      {
        assert b.before[p] >= b.before[q];
        assert b.Before(b.base[p], b.base[q]);
        var j :| 0 <= j < |s| && s[j] == b.base[p];
        BeforeTotal(b, b.base[p], b.base[q]);
        assert j < i;
        assert s[..i][j] == s[j];
      }
      assert Elements(b.base[..q]) <= Elements(s[..i]);
      assert Distinct(b.base[..q]);
      ElementsCount(b.base[..q]);
      ElementsCount(s[..i]);
      SubsetCount(Elements(b.base[..q]), Elements(s[..i]));
    }
  }

  // ------------------------------------------------------------------------------------------
  // When exactly somebody else is lifted
  // ------------------------------------------------------------------------------------------

  /** Touched users who were ahead of `u` and end up behind. */
  ghost function Fallen(b: Batch, u: FullUserData): set<FullUserData>
    requires b.Valid() && u in b.index
  {
    set v | v in b.totals && v in b.index && b.index[v] < b.index[u] && b.Before(u, v)
  }

  /** Touched users who were not ahead of `u` and end up ahead. */
  ghost function Overtakers(b: Batch, u: FullUserData): set<FullUserData>
    requires b.Valid() && u in b.index
  {
    set v | v in b.totals && (v in b.index ==> b.index[v] > b.index[u]) && b.Before(v, u)
  }

  lemma PrefixMembers(b: Batch, s: seq<FullUserData>, i: nat, v: FullUserData)
    requires b.Valid() && b.IsRanking(s) && i < |s|
    ensures v in s[..i] <==> b.Ranked(v) && b.Before(v, s[i])
  {
    if v in s[..i] {
      var j :| 0 <= j < i && s[j] == v;
      assert b.Before(s[j], s[i]);
    }
    if b.Ranked(v) && b.Before(v, s[i]) {
      var j :| 0 <= j < |s| && s[j] == v;
      BeforeTotal(b, v, s[i]);
      assert j < i;
      assert s[..i][j] == v;
    }
  }

  lemma DifferenceCount<T>(s: set<T>, t: set<T>)
    ensures |t| - |s| == |t - s| - |s - t|
  {
    assert s == (s - t) + s * t && t == (t - s) + s * t;
  }

  lemma AheadBefore(b: Batch, q: nat, v: FullUserData)
    requires b.Valid() && q < |b.base|
    ensures v in b.base[..q] <==> v in b.index && b.index[v] < q
  {
    if v in b.index && b.index[v] < q {
      assert b.base[..q][b.index[v]] == v;
    }
  }

  /** Who is ahead of an untouched user now and was not before, and the other way around. */
  lemma Passing(b: Batch, s: seq<FullUserData>, i: nat, u: FullUserData, v: FullUserData)
    requires b.Valid() && b.IsRanking(s) && i < |s| && s[i] == u && u in b.index && u !in b.totals
    ensures v in s[..i] && v !in b.base[..b.index[u]] <==> v in Overtakers(b, u)
    ensures v in b.base[..b.index[u]] && v !in s[..i] <==> v in Fallen(b, u)
  {
    PrefixMembers(b, s, i, v);
    AheadBefore(b, b.index[u], v);
    if b.Ranked(v) && v != u { BeforeTotal(b, v, u); }
  }

  /** The new place of an untouched user: the old one, more overtakers, less fallen users. */
  lemma NewPlace(b: Batch, s: seq<FullUserData>, i: nat, u: FullUserData)
    requires b.Valid() && b.IsRanking(s) && i < |s| && s[i] == u && u in b.index && u !in b.totals
    ensures i == b.index[u] + |Overtakers(b, u)| - |Fallen(b, u)|
  {
    var q := b.index[u];
    var was, now := Elements(b.base[..q]), Elements(s[..i]);
    forall v
      ensures v in now - was <==> v in Overtakers(b, u)
      ensures v in was - now <==> v in Fallen(b, u)
    {
      Passing(b, s, i, u, v);
    }
    assert now - was == Overtakers(b, u) && was - now == Fallen(b, u);
    DifferenceCount(was, now);
    SortedDistinct(b, s);
    assert Distinct(s[..i]) && Distinct(b.base[..q]);
    ElementsCount(s[..i]);
    ElementsCount(b.base[..q]);
  }

  /** Nobody rises exactly if no untouched user sees more users fall behind than come past. */
  lemma NobodyRisesExactly(b: Batch, s: seq<FullUserData>)
    requires b.Valid() && b.IsRanking(s)
    ensures b.NobodyRises(s) <==>
            forall u :: u in b.index && u !in b.totals ==> |Fallen(b, u)| <= |Overtakers(b, u)|
  {
    forall u | u in b.index && u !in b.totals
      ensures exists i :: 0 <= i < |s| && s[i] == u && (|Fallen(b, u)| <= |Overtakers(b, u)| <==> b.NotRisen(s, i, b.index[u]))
    {
      var i :| 0 <= i < |s| && s[i] == u;
      NewPlace(b, s, i, u);
    }
    forall i, q | 0 <= i < |s| && 0 <= q < |b.base| && b.base[q] !in b.totals && s[i] == b.base[q]
      ensures b.NotRisen(s, i, q) <==> |Fallen(b, s[i])| <= |Overtakers(b, s[i])|
    {
      NewPlace(b, s, i, s[i]);
    }
  }

  /** A deal of nothing, and a user with the same amount: the other one rises. */
  lemma ZeroDealLifts(u: FullUserData, v: FullUserData, amount: Money)
    requires u != v
    ensures var b := Batch([u, v], [amount, amount], map[u := 0, v := 1], map[u := amount]);
            && b.Valid() && b.IsRanking([v, u]) && !b.NobodyRises([v, u])
  {
    var b := Batch([u, v], [amount, amount], map[u := 0, v := 1], map[u := amount]);
    assert b.Valid();
    assert b.Before(v, u);
    assert !b.NotRisen([v, u], 0, 1);
  }
}
