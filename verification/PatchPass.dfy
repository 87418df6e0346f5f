/**
 The patch list of service/rating_calculator.cpp and what one right-to-left walk along it
 builds: the patches say how many ranked users stay behind a spot, and the walk copies the
 blocks between the spots.
 */
module PatchPass {
  import opened Users
  import opened RankingOrder

  datatype RatingPatchEntry =
    | OldPosition(elementsAfter: nat)
    | NewPosition(elementsAfter: nat, userData: FullUserData, amountWon: Money)
  {
    function Amount(): Money {
      if OldPosition? then 0 else amountWon
    }

    /** The comparison of the patch multiset; new positions precede old ones. */
    predicate Less(right: RatingPatchEntry) {
      if elementsAfter != right.elementsAfter then elementsAfter < right.elementsAfter
      else if NewPosition? != right.NewPosition? then NewPosition?
      else Amount() < right.Amount()
    }

    /** Less, with equal entries told apart by the id of the user: the order of insertion. */
    ghost predicate Precedes(right: RatingPatchEntry) {
      || Less(right)
      || (!right.Less(this) && NewPosition? && right.NewPosition? && userData.id < right.userData.id)
    }
  }

  /** Insertion into a multiset: behind everything that is not greater. */
  function Emplace(ps: seq<RatingPatchEntry>, p: RatingPatchEntry): (r: seq<RatingPatchEntry>)
    ensures |r| == |ps| + 1 && p in r
    ensures forall e :: e in ps ==> e in r
    ensures forall e :: e in r ==> e in ps || e == p
  {
    if ps == [] then [p]
    else if p.Less(ps[0]) then [p] + ps
    else
      assert ps == [ps[0]] + ps[1..];
      [ps[0]] + Emplace(ps[1..], p)
  }

  function Net(p: RatingPatchEntry): int {
    if p.NewPosition? then 1 else -1
  }

  /** New positions minus old ones. */
  function NetNew(ps: seq<RatingPatchEntry>): int {
    if ps == [] then 0 else Net(ps[0]) + NetNew(ps[1..])
  }

  lemma {:induction false} NetNewAppend(ps: seq<RatingPatchEntry>, p: RatingPatchEntry)
    ensures NetNew(ps + [p]) == NetNew(ps) + Net(p)
  {
    if ps == [] {
      assert ps + [p] == [p];
    } else {
      assert (ps + [p])[1..] == ps[1..] + [p];
      NetNewAppend(ps[1..], p);
    }
  }

  lemma {:induction false} NetNewEmplace(ps: seq<RatingPatchEntry>, p: RatingPatchEntry)
    ensures NetNew(Emplace(ps, p)) == NetNew(ps) + Net(p)
  {
    if ps != [] {
      if p.Less(ps[0]) {
        assert ([p] + ps)[1..] == ps;
      } else {
        NetNewEmplace(ps[1..], p);
        assert ([ps[0]] + Emplace(ps[1..], p))[1..] == Emplace(ps[1..], p);
      }
    }
  }

  ghost predicate InOrder(ps: seq<RatingPatchEntry>) {
    forall i, j {:trigger ps[i].Precedes(ps[j])} :: 0 <= i < j < |ps| ==> ps[i].Precedes(ps[j])
  }

  /** An entry inserted later than its equals keeps the list in order. */
  lemma {:induction false} EmplaceKeepsOrder(ps: seq<RatingPatchEntry>, p: RatingPatchEntry)
    requires InOrder(ps)
    requires forall e :: e in ps ==> e.Precedes(p) || p.Less(e)
    ensures InOrder(Emplace(ps, p))
  {
    if ps != [] {
      assert ps[0] in ps;
      if p.Less(ps[0]) {
        forall i | 0 <= i < |ps|
          ensures p.Precedes(ps[i])
        {
          assert i > 0 ==> ps[0].Precedes(ps[i]);
        }
      } else {
        EmplaceKeepsOrder(ps[1..], p);
        var r := Emplace(ps[1..], p);
        forall i | 0 <= i < |r|
          ensures ps[0].Precedes(r[i])
        {
          assert r[i] in r;
          if r[i] != p {
            var j :| 0 <= j < |ps[1..]| && ps[1..][j] == r[i];
            assert ps[j + 1] == r[i];
          }
        }
      }
    }
  }

  /** `ea` is the number of amounts below `winnings`, and they are the last ones. */
  ghost predicate IsElementsAfter(amounts: seq<Money>, winnings: Money, ea: nat) {
    ea <= |amounts| && forall i :: 0 <= i < |amounts| ==> (amounts[i] < winnings <==> i >= |amounts| - ea)
  }

  // ------------------------------------------------------------------------------------------
  // The walk
  // ------------------------------------------------------------------------------------------

  /** Spots of the patches lie in a ranking of `n` users and move to the left. */
  ghost predicate Placed(n: nat, ps: seq<RatingPatchEntry>) {
    && (forall i :: 0 <= i < |ps| ==> ps[i].elementsAfter <= n && (ps[i].OldPosition? ==> ps[i].elementsAfter < n))
    && (forall i, j {:trigger SpotsInOrder(ps[i], ps[j])} :: 0 <= i < j < |ps| ==> SpotsInOrder(ps[i], ps[j]))
  }

  ghost predicate SpotsInOrder(p: RatingPatchEntry, q: RatingPatchEntry) {
    p.elementsAfter <= q.elementsAfter && (p.OldPosition? ==> p.elementsAfter < q.elementsAfter)
  }

  /** How many users of the old ranking the walk has not reached after `k` patches. */
  ghost function Frontier(n: nat, ps: seq<RatingPatchEntry>, k: nat): (f: nat)
    requires Placed(n, ps) && k <= |ps|
    ensures f <= n
  {
    if k == 0 then n else n - ps[k - 1].elementsAfter - (if ps[k - 1].OldPosition? then 1 else 0)
  }

  /** Where the block in front of the next patch starts. */
  ghost function Spot(n: nat, p: RatingPatchEntry): int {
    n - p.elementsAfter
  }

  /** The part of the new ranking that is complete after `k` patches. */
  ghost function Tail(base: seq<FullUserData>, ps: seq<RatingPatchEntry>, k: nat): (t: seq<FullUserData>)
    requires Placed(|base|, ps) && k <= |ps|
  {
    if k == 0 then []
    else
      var p := ps[k - 1];
      assert k > 1 ==> SpotsInOrder(ps[k - 2], p);
      var s := base[Spot(|base|, p)..Frontier(|base|, ps, k - 1)] + Tail(base, ps, k - 1);
      if p.NewPosition? then [p.userData] + s else s
  }

  /** The new ranking. */
  ghost function Patched(base: seq<FullUserData>, ps: seq<RatingPatchEntry>): seq<FullUserData>
    requires Placed(|base|, ps)
  {
    base[..Frontier(|base|, ps, |ps|)] + Tail(base, ps, |ps|)
  }

  lemma TailStep(base: seq<FullUserData>, ps: seq<RatingPatchEntry>, k: nat)
    requires Placed(|base|, ps) && k < |ps|
    ensures Spot(|base|, ps[k]) <= Frontier(|base|, ps, k)
    ensures Frontier(|base|, ps, k + 1) == Spot(|base|, ps[k]) - (if ps[k].OldPosition? then 1 else 0)
    ensures Tail(base, ps, k + 1) ==
            var s := base[Spot(|base|, ps[k])..Frontier(|base|, ps, k)] + Tail(base, ps, k);
            if ps[k].NewPosition? then [ps[k].userData] + s else s
  {
    assert k > 0 ==> SpotsInOrder(ps[k - 1], ps[k]);
  }

  lemma {:induction false} TailGrows(base: seq<FullUserData>, ps: seq<RatingPatchEntry>, k: nat)
    requires Placed(|base|, ps) && k <= |ps|
    ensures |Tail(base, ps, k)| <= |Tail(base, ps, |ps|)|
    decreases |ps| - k
  {
    if k == |ps| {
    } else {
      TailStep(base, ps, k);
      TailGrows(base, ps, k + 1);
    }
  }

  /** Places the walk has left behind the write position when it reaches patch `k`. */
  ghost function Offset(base: seq<FullUserData>, ps: seq<RatingPatchEntry>, size: nat, k: nat): int
    requires Placed(|base|, ps) && k <= |ps|
  {
    size - |Tail(base, ps, k)| - Frontier(|base|, ps, k)
  }

  /** The block in front of patch `k`, if there is one, is not moved to the left. */
  ghost predicate BlockMovesRight(base: seq<FullUserData>, ps: seq<RatingPatchEntry>, size: nat, k: nat)
    requires Placed(|base|, ps) && k < |ps|
  {
    Spot(|base|, ps[k]) < Frontier(|base|, ps, k) ==> Offset(base, ps, size, k) >= 0
  }

  /** No block of users in front of the first `k` patches is moved to the left. */
  ghost predicate MovedRight(base: seq<FullUserData>, ps: seq<RatingPatchEntry>, size: nat, k: nat)
    requires Placed(|base|, ps) && k <= |ps|
  {
    forall j :: 0 <= j < k ==> BlockMovesRight(base, ps, size, j)
  }

  /** No block is ever moved to the left. */
  ghost predicate MovesRight(base: seq<FullUserData>, ps: seq<RatingPatchEntry>, size: nat)
    requires Placed(|base|, ps)
  {
    MovedRight(base, ps, size, |ps|)
  }

  // ------------------------------------------------------------------------------------------
  // The walk builds the ranking
  // ------------------------------------------------------------------------------------------

  ghost predicate IsNewOf(p: RatingPatchEntry, u: FullUserData) {
    p.NewPosition? && p.userData == u
  }

  ghost predicate HasNew(ps: seq<RatingPatchEntry>, u: FullUserData) {
    exists k :: 0 <= k < |ps| && IsNewOf(ps[k], u)
  }

  /** The patches of a batch: one per old position of a changed user, one per new position. */
  ghost predicate IsPatchList(b: Batch, ps: seq<RatingPatchEntry>)
  {
    && InOrder(ps)
    && (forall k {:trigger PatchOf(b, ps[k])} :: 0 <= k < |ps| ==> PatchOf(b, ps[k]))
    && LeavesOutOld(b, ps)
    && (forall u {:trigger HasNew(ps, u)} :: u in b.totals ==> HasNew(ps, u))
  }

  ghost predicate LeavesOutOld(b: Batch, ps: seq<RatingPatchEntry>) {
    forall q :: 0 <= q < |b.base| ==> LeavesOut(b, ps, q)
  }

  ghost predicate LeavesOut(b: Batch, ps: seq<RatingPatchEntry>, q: nat)
    requires q < |b.base|
  {
    b.base[q] in b.totals ==> OldPosition(|b.base| - 1 - q) in ps
  }

  ghost predicate PatchOf(b: Batch, p: RatingPatchEntry)
  {
    match p
    case OldPosition(ea) => ea < |b.base| && b.base[|b.base| - 1 - ea] in b.totals
    case NewPosition(ea, u, amount) => u in b.totals && amount == b.totals[u] && IsElementsAfter(b.before, amount, ea)
  }

  /** One more changed user; the batch is worked through by ascending id. */
  ghost function Changed(b: Batch, u: FullUserData, total: Money): Batch {
    b.(totals := b.totals[u := total])
  }

  ghost predicate MayChange(b: Batch, u: FullUserData) {
    u !in b.totals && forall v :: v in b.totals ==> v.id < u.id
  }

  lemma ChangedValid(b: Batch, u: FullUserData, total: Money)
    requires b.Valid() && MayChange(b, u)
    ensures Changed(b, u, total).Valid()
  {
    var c := Changed(b, u, total);
    forall v, w | v in c.totals && w in c.totals
      ensures c.IdsTell(v, w)
    {
      assert v in b.totals && w in b.totals ==> b.IdsTell(v, w);
    }
  }

  lemma PatchOfStays(b: Batch, u: FullUserData, total: Money, p: RatingPatchEntry)
    requires b.Valid() && MayChange(b, u) && PatchOf(b, p)
    ensures PatchOf(Changed(b, u, total), p)
  {
  }

  lemma OldInOrder(b: Batch, ps: seq<RatingPatchEntry>, u: FullUserData)
    requires b.Valid() && IsPatchList(b, ps) && u in b.index && u !in b.totals
    ensures InOrder(Emplace(ps, OldPosition(|b.base| - 1 - b.index[u])))
  {
    var p := OldPosition(|b.base| - 1 - b.index[u]);
    forall e | e in ps
      ensures e.Precedes(p) || p.Less(e)
    {
      assert PatchOf(b, e) by { PatchOfMember(b, ps, e); }
    }
    EmplaceKeepsOrder(ps, p);
  }

  lemma PatchOfMember(b: Batch, ps: seq<RatingPatchEntry>, e: RatingPatchEntry)
    requires b.Valid() && e in ps
    requires forall k {:trigger PatchOf(b, ps[k])} :: 0 <= k < |ps| ==> PatchOf(b, ps[k])
    ensures PatchOf(b, e)
  {
    var k :| 0 <= k < |ps| && ps[k] == e;
    assert PatchOf(b, ps[k]);
  }

  lemma NewInOrder(ps: seq<RatingPatchEntry>, p: RatingPatchEntry)
    requires InOrder(ps) && p.NewPosition?
    requires forall e :: e in ps && e.NewPosition? ==> e.userData.id < p.userData.id
    ensures InOrder(Emplace(ps, p))
  {
    EmplaceKeepsOrder(ps, p);
  }

  lemma GrownPatchOf(b: Batch, ps: seq<RatingPatchEntry>, u: FullUserData, total: Money, e: RatingPatchEntry)
    requires b.Valid() && IsPatchList(b, ps) && MayChange(b, u)
    requires e in ps || PatchOf(Changed(b, u, total), e)
    ensures PatchOf(Changed(b, u, total), e)
  {
    if e in ps {
      PatchOfMember(b, ps, e);
      PatchOfStays(b, u, total, e);
    }
  }

  lemma GrownLeavesOut(b: Batch, ps: seq<RatingPatchEntry>, u: FullUserData, total: Money, qs: seq<RatingPatchEntry>, q: nat)
    requires b.Valid() && LeavesOutOld(b, ps) && q < |b.base|
    requires forall e :: e in ps ==> e in qs
    requires u in b.index ==> OldPosition(|b.base| - 1 - b.index[u]) in qs
    ensures LeavesOut(Changed(b, u, total), qs, q)
  {
    assert LeavesOut(b, ps, q);
  }

  lemma GrownHasNew(ps: seq<RatingPatchEntry>, qs: seq<RatingPatchEntry>, u: FullUserData)
    requires forall e :: e in ps ==> e in qs
    requires HasNew(ps, u)
    ensures HasNew(qs, u)
  {
    var j :| 0 <= j < |ps| && IsNewOf(ps[j], u);
    assert ps[j] in qs;
    var k :| 0 <= k < |qs| && qs[k] == ps[j];
  }

  /** A list of patches stays one when it gets the patches of one more user. */
  lemma PatchListGrows(b: Batch, ps: seq<RatingPatchEntry>, u: FullUserData, total: Money, qs: seq<RatingPatchEntry>)
    requires b.Valid() && IsPatchList(b, ps) && MayChange(b, u)
    requires InOrder(qs) && forall e :: e in ps ==> e in qs
    requires forall e :: e in qs ==> e in ps || PatchOf(Changed(b, u, total), e)
    requires u in b.index ==> OldPosition(|b.base| - 1 - b.index[u]) in qs
    requires HasNew(qs, u)
    ensures IsPatchList(Changed(b, u, total), qs)
  {
    forall k | 0 <= k < |qs|
      ensures PatchOf(Changed(b, u, total), qs[k])
    {
      GrownPatchOf(b, ps, u, total, qs[k]);
    }
    forall q | 0 <= q < |b.base|
      ensures LeavesOut(Changed(b, u, total), qs, q)
    {
      GrownLeavesOut(b, ps, u, total, qs, q);
    }
    forall v | v in b.totals
      ensures HasNew(qs, v)
    {
      assert HasNew(ps, v);
      GrownHasNew(ps, qs, v);
    }
  }

  lemma NewIdsBelow(b: Batch, ps: seq<RatingPatchEntry>, u: FullUserData, e: RatingPatchEntry)
    requires b.Valid() && IsPatchList(b, ps) && MayChange(b, u) && e in ps && e.NewPosition?
    ensures e.userData.id < u.id
  {
    PatchOfMember(b, ps, e);
  }

  /** A user with a place in the rating gets two patches. */
  lemma AddRanked(b: Batch, ps: seq<RatingPatchEntry>, u: FullUserData, total: Money, ea: nat)
    requires b.Valid() && IsPatchList(b, ps) && MayChange(b, u) && u in b.index
    requires IsElementsAfter(b.before, total, ea)
    ensures var qs := Emplace(Emplace(ps, OldPosition(|b.base| - 1 - b.index[u])), NewPosition(ea, u, total));
            && Changed(b, u, total).Valid() && IsPatchList(Changed(b, u, total), qs)
            && NetNew(qs) == NetNew(ps)
  {
    var p, r := OldPosition(|b.base| - 1 - b.index[u]), NewPosition(ea, u, total);
    var ps', qs := Emplace(ps, p), Emplace(Emplace(ps, p), r);
    ChangedValid(b, u, total);
    NetNewEmplace(ps, p);
    NetNewEmplace(ps', r);
    OldInOrder(b, ps, u);
    forall e | e in ps' && e.NewPosition?
      ensures e.userData.id < u.id
    {
      NewIdsBelow(b, ps, u, e);
    }
    NewInOrder(ps', r);
    assert PatchOf(Changed(b, u, total), p) && PatchOf(Changed(b, u, total), r);
    var k :| 0 <= k < |qs| && qs[k] == r;
    assert IsNewOf(qs[k], u);
    PatchListGrows(b, ps, u, total, qs);
  }

  /** A user new to the rating gets one. */
  lemma AddFresh(b: Batch, ps: seq<RatingPatchEntry>, u: FullUserData, total: Money, ea: nat)
    requires b.Valid() && IsPatchList(b, ps) && MayChange(b, u) && u !in b.index
    requires IsElementsAfter(b.before, total, ea)
    ensures var qs := Emplace(ps, NewPosition(ea, u, total));
            && Changed(b, u, total).Valid() && IsPatchList(Changed(b, u, total), qs)
            && NetNew(qs) == NetNew(ps) + 1
  {
    ChangedValid(b, u, total);
    NetNewEmplace(ps, NewPosition(ea, u, total));
    var r := NewPosition(ea, u, total);
    forall e | e in ps && e.NewPosition?
      ensures e.userData.id < u.id
    {
      NewIdsBelow(b, ps, u, e);
    }
    NewInOrder(ps, r);
    assert PatchOf(Changed(b, u, total), r);
    var qs := Emplace(ps, r);
    var k :| 0 <= k < |qs| && qs[k] == r;
    assert IsNewOf(qs[k], u);
    PatchListGrows(b, ps, u, total, qs);
  }

  /** The two emplacements for a ranked user. */
  method EmplaceRanked(ps: seq<RatingPatchEntry>, oldElementsAfter: nat, ea: nat, u: FullUserData, total: Money, ghost b: Batch)
    returns (qs: seq<RatingPatchEntry>)
    requires b.Valid() && IsPatchList(b, ps) && MayChange(b, u) && u in b.index
    requires oldElementsAfter == |b.base| - 1 - b.index[u]
    requires IsElementsAfter(b.before, total, ea)
    ensures Changed(b, u, total).Valid() && IsPatchList(Changed(b, u, total), qs)
    ensures NetNew(qs) == NetNew(ps)
  {
    qs := Emplace(ps, OldPosition(oldElementsAfter));
    qs := Emplace(qs, NewPosition(ea, u, total));
    AddRanked(b, ps, u, total, ea);
  }

  /** The emplacement for a user without a place. */
  method EmplaceFresh(ps: seq<RatingPatchEntry>, ea: nat, u: FullUserData, total: Money, ghost b: Batch)
    returns (qs: seq<RatingPatchEntry>)
    requires b.Valid() && IsPatchList(b, ps) && MayChange(b, u) && u !in b.index
    requires IsElementsAfter(b.before, total, ea)
    ensures Changed(b, u, total).Valid() && IsPatchList(Changed(b, u, total), qs)
    ensures NetNew(qs) == NetNew(ps) + 1
  {
    qs := Emplace(ps, NewPosition(ea, u, total));
    AddFresh(b, ps, u, total, ea);
  }

  lemma PatchListPlaced(b: Batch, ps: seq<RatingPatchEntry>)
    requires b.Valid() && IsPatchList(b, ps)
    ensures Placed(|b.base|, ps)
  {
    forall i | 0 <= i < |ps|
      ensures ps[i].elementsAfter <= |b.base| && (ps[i].OldPosition? ==> ps[i].elementsAfter < |b.base|)
    {
      assert PatchOf(b, ps[i]);
    }
    forall i, j | 0 <= i < j < |ps|
      ensures SpotsInOrder(ps[i], ps[j])
    {
      assert ps[i].Precedes(ps[j]);
    }
  }

  /** A changed user the walk has passed has been left out. */
  lemma PassedOldPosition(b: Batch, ps: seq<RatingPatchEntry>, k: nat, q: nat)
    requires LeavesOutOld(b, ps) && Placed(|b.base|, ps) && k <= |ps|
    requires q < Frontier(|b.base|, ps, k) && b.base[q] in b.totals
    ensures k < |ps| && q < Spot(|b.base|, ps[k])
  {
    assert LeavesOut(b, ps, q);
    var j :| 0 <= j < |ps| && ps[j] == OldPosition(|b.base| - 1 - q);
    assert j < k - 1 ==> SpotsInOrder(ps[j], ps[k - 1]);
    assert k < j ==> SpotsInOrder(ps[k], ps[j]);
    if j < k { assert false; }
  }

  /** The users of the block in front of patch `k` are unchanged. */
  lemma BlockMember(b: Batch, ps: seq<RatingPatchEntry>, k: nat, u: FullUserData)
    requires b.Valid() && LeavesOutOld(b, ps) && Placed(|b.base|, ps) && k < |ps|
    requires Spot(|b.base|, ps[k]) <= Frontier(|b.base|, ps, k)
    requires u in b.base[Spot(|b.base|, ps[k])..Frontier(|b.base|, ps, k)]
    ensures u in b.index && u !in b.totals
    ensures Spot(|b.base|, ps[k]) <= b.index[u] < Frontier(|b.base|, ps, k)
  {
    var from := Spot(|b.base|, ps[k]);
    var block := b.base[from..Frontier(|b.base|, ps, k)];
    var i :| 0 <= i < |block| && block[i] == u;
    if u in b.totals { PassedOldPosition(b, ps, k, from + i); }
  }

  lemma UnchangedVersusNew(b: Batch, ps: seq<RatingPatchEntry>, q: nat, j: nat)
    requires b.Valid() && j < |ps| && ps[j].NewPosition? && PatchOf(b, ps[j])
    requires q < |b.base| && b.base[q] !in b.totals
    ensures q < Spot(|b.base|, ps[j]) ==> b.Before(b.base[q], ps[j].userData)
    ensures q >= Spot(|b.base|, ps[j]) ==> b.Before(ps[j].userData, b.base[q])
  {
  }

  lemma NewVersusNew(b: Batch, ps: seq<RatingPatchEntry>, i: nat, j: nat)
    requires b.Valid() && InOrder(ps) && i < j < |ps| && ps[i].NewPosition? && ps[j].NewPosition?
    requires PatchOf(b, ps[i]) && PatchOf(b, ps[j])
    ensures b.Before(ps[j].userData, ps[i].userData)
  {
    assert ps[i].Precedes(ps[j]);
    if ps[i].elementsAfter < ps[j].elementsAfter {
      var q := |b.base| - ps[j].elementsAfter;
      assert b.before[q] < ps[j].amountWon;
      assert b.before[q] >= ps[i].amountWon;
    }
  }

  /** Where a user of the finished part comes from. */
  ghost predicate ComesFrom(b: Batch, ps: seq<RatingPatchEntry>, k: nat, u: FullUserData)
    requires Placed(|b.base|, ps) && k <= |ps|
  {
    || (u in b.index && u !in b.totals && b.index[u] >= Frontier(|b.base|, ps, k))
    || (exists j :: 0 <= j < k && IsNewOf(ps[j], u))
  }

  lemma OneStepOfTail(base: seq<FullUserData>, ps: seq<RatingPatchEntry>, k: nat, u: FullUserData)
    requires Placed(|base|, ps) && k < |ps| && u in Tail(base, ps, k + 1)
    ensures Spot(|base|, ps[k]) <= Frontier(|base|, ps, k)
    ensures IsNewOf(ps[k], u) || u in Tail(base, ps, k) || u in base[Spot(|base|, ps[k])..Frontier(|base|, ps, k)]
  {
    TailStep(base, ps, k);
  }

  lemma ComesFromEarlier(b: Batch, ps: seq<RatingPatchEntry>, k: nat, u: FullUserData)
    requires Placed(|b.base|, ps) && k < |ps| && ComesFrom(b, ps, k, u)
    ensures ComesFrom(b, ps, k + 1, u)
  {
    TailStep(b.base, ps, k);
  }

  lemma {:induction false} TailMember(b: Batch, ps: seq<RatingPatchEntry>, k: nat, u: FullUserData)
    requires b.Valid() && LeavesOutOld(b, ps) && Placed(|b.base|, ps) && k <= |ps|
    requires u in Tail(b.base, ps, k)
    ensures ComesFrom(b, ps, k, u)
  {
    if k > 0 {
      OneStepOfTail(b.base, ps, k - 1, u);
      if IsNewOf(ps[k - 1], u) {
      } else if u in Tail(b.base, ps, k - 1) {
        TailMember(b, ps, k - 1, u);
        ComesFromEarlier(b, ps, k - 1, u);
      } else {
        BlockMember(b, ps, k - 1, u);
      }
    }
  }

  /** Everybody in the finished part ranks below a changed user who is put in front of it. */
  lemma NewAboveTail(b: Batch, ps: seq<RatingPatchEntry>, k: nat, v: FullUserData)
    requires b.Valid() && IsPatchList(b, ps) && Placed(|b.base|, ps)
    requires k < |ps| && ps[k].NewPosition? && v in Tail(b.base, ps, k)
    ensures b.Ranked(ps[k].userData) && b.Ranked(v) && b.Before(ps[k].userData, v)
  {
    TailStep(b.base, ps, k);
    TailMember(b, ps, k, v);
    assert PatchOf(b, ps[k]);
    if j :| 0 <= j < k && IsNewOf(ps[j], v) {
      assert PatchOf(b, ps[j]);
      NewVersusNew(b, ps, j, k);
    } else {
      UnchangedVersusNew(b, ps, b.index[v], k);
    }
  }

  lemma BlockAboveNew(b: Batch, ps: seq<RatingPatchEntry>, k: nat, u: FullUserData, j: nat)
    requires b.Valid() && Placed(|b.base|, ps) && j < k <= |ps| && ps[j].NewPosition? && PatchOf(b, ps[j])
    requires u in b.index && u !in b.totals && b.index[u] < Frontier(|b.base|, ps, k)
    ensures b.Ranked(ps[j].userData) && b.Before(u, ps[j].userData)
  {
    assert j < k - 1 ==> SpotsInOrder(ps[j], ps[k - 1]);
    UnchangedVersusNew(b, ps, b.index[u], j);
  }

  /** Everybody in the finished part ranks below the unchanged users the walk has not reached. */
  lemma BlockAboveTail(b: Batch, ps: seq<RatingPatchEntry>, k: nat, u: FullUserData, v: FullUserData)
    requires b.Valid() && IsPatchList(b, ps) && Placed(|b.base|, ps)
    requires k <= |ps| && v in Tail(b.base, ps, k)
    requires u in b.index && u !in b.totals && b.index[u] < Frontier(|b.base|, ps, k)
    ensures b.Ranked(v) && b.Before(u, v)
  {
    TailMember(b, ps, k, v);
    if j :| 0 <= j < k && IsNewOf(ps[j], v) {
      assert PatchOf(b, ps[j]);
      BlockAboveNew(b, ps, k, u, j);
    }
  }

  lemma SortedConcat(b: Batch, s: seq<FullUserData>, t: seq<FullUserData>)
    requires b.Valid() && b.AllRanked(s) && b.AllRanked(t) && b.Sorted(s) && b.Sorted(t)
    requires forall u, v :: u in s && v in t ==> b.Before(u, v)
    ensures b.AllRanked(s + t) && b.Sorted(s + t)
  {
  }

  lemma BlockSorted(b: Batch, from: nat, to: nat)
    requires b.Valid() && from <= to <= |b.base|
    requires forall u :: u in b.base[from..to] ==> u !in b.totals
    ensures b.AllRanked(b.base[from..to]) && b.Sorted(b.base[from..to])
  {
    var block := b.base[from..to];
    forall i | 0 <= i < |block|
      ensures block[i] == b.base[from + i] && block[i] !in b.totals
    {
      assert block[i] in block;
    }
  }

  /** The block that patch `k` moves in front of the finished part. */
  ghost function Block(base: seq<FullUserData>, ps: seq<RatingPatchEntry>, k: nat): seq<FullUserData>
    requires Placed(|base|, ps) && k < |ps|
  {
    TailStep(base, ps, k);
    base[Spot(|base|, ps[k])..Frontier(|base|, ps, k)]
  }

  lemma BlockTailSorted(b: Batch, ps: seq<RatingPatchEntry>, k: nat)
    requires b.Valid() && IsPatchList(b, ps) && Placed(|b.base|, ps) && k < |ps|
    requires b.AllRanked(Tail(b.base, ps, k)) && b.Sorted(Tail(b.base, ps, k))
    ensures var s := Block(b.base, ps, k) + Tail(b.base, ps, k); b.AllRanked(s) && b.Sorted(s)
  {
    TailStep(b.base, ps, k);
    var block, t := Block(b.base, ps, k), Tail(b.base, ps, k);
    forall u | u in block
      ensures u in b.index && u !in b.totals && b.index[u] < Frontier(|b.base|, ps, k)
    {
      BlockMember(b, ps, k, u);
    }
    BlockSorted(b, Spot(|b.base|, ps[k]), Frontier(|b.base|, ps, k));
    forall u, v | u in block && v in t
      ensures b.Before(u, v)
    {
      BlockAboveTail(b, ps, k, u, v);
    }
    SortedConcat(b, block, t);
  }

  lemma NewAboveAll(b: Batch, ps: seq<RatingPatchEntry>, k: nat, v: FullUserData)
    requires b.Valid() && IsPatchList(b, ps) && Placed(|b.base|, ps)
    requires k < |ps| && ps[k].NewPosition?
    requires v in Block(b.base, ps, k) + Tail(b.base, ps, k)
    ensures b.Ranked(ps[k].userData) && b.Ranked(v) && b.Before(ps[k].userData, v)
  {
    assert PatchOf(b, ps[k]);
    TailStep(b.base, ps, k);
    if v in Tail(b.base, ps, k) {
      NewAboveTail(b, ps, k, v);
    } else {
      BlockMember(b, ps, k, v);
      UnchangedVersusNew(b, ps, b.index[v], k);
    }
  }

  lemma PrependSorted(b: Batch, u: FullUserData, s: seq<FullUserData>)
    requires b.Valid() && b.Ranked(u) && b.AllRanked(s) && b.Sorted(s)
    requires forall v :: v in s ==> b.Before(u, v)
    ensures b.AllRanked([u] + s) && b.Sorted([u] + s)
  {
    SortedConcat(b, [u], s);
  }

  lemma NewTailSorted(b: Batch, ps: seq<RatingPatchEntry>, k: nat)
    requires b.Valid() && IsPatchList(b, ps) && Placed(|b.base|, ps) && k < |ps| && ps[k].NewPosition?
    requires var s := Block(b.base, ps, k) + Tail(b.base, ps, k); b.AllRanked(s) && b.Sorted(s)
    ensures var s := [ps[k].userData] + (Block(b.base, ps, k) + Tail(b.base, ps, k)); b.AllRanked(s) && b.Sorted(s)
  {
    var s := Block(b.base, ps, k) + Tail(b.base, ps, k);
    assert PatchOf(b, ps[k]);
    forall v | v in s
      ensures b.Ranked(v) && b.Before(ps[k].userData, v)
    {
      NewAboveAll(b, ps, k, v);
    }
    PrependSorted(b, ps[k].userData, s);
  }

  lemma {:induction false} TailSorted(b: Batch, ps: seq<RatingPatchEntry>, k: nat)
    requires b.Valid() && IsPatchList(b, ps) && Placed(|b.base|, ps) && k <= |ps|
    ensures b.AllRanked(Tail(b.base, ps, k)) && b.Sorted(Tail(b.base, ps, k))
  {
    if k > 0 {
      TailSorted(b, ps, k - 1);
      TailStep(b.base, ps, k - 1);
      BlockTailSorted(b, ps, k - 1);
      if ps[k - 1].NewPosition? { NewTailSorted(b, ps, k - 1); }
    }
  }

  // ------------------------------------------------------------------------------------------
  // Nobody is lost
  // ------------------------------------------------------------------------------------------

  lemma StepReaches(b: Batch, ps: seq<RatingPatchEntry>, k: nat, u: FullUserData)
    requires b.Valid() && Placed(|b.base|, ps) && k < |ps| && PatchOf(b, ps[k])
    requires ComesFrom(b, ps, k + 1, u) && !ComesFrom(b, ps, k, u) && !IsNewOf(ps[k], u)
    ensures u in Block(b.base, ps, k)
  {
    TailStep(b.base, ps, k);
    assert !exists j :: 0 <= j < k + 1 && IsNewOf(ps[j], u);
    var from := Spot(|b.base|, ps[k]);
    assert from <= b.index[u] < Frontier(|b.base|, ps, k);
    assert Block(b.base, ps, k)[b.index[u] - from] == u;
  }

  lemma PiecesInTail(base: seq<FullUserData>, ps: seq<RatingPatchEntry>, k: nat, u: FullUserData)
    requires Placed(|base|, ps) && k < |ps|
    requires IsNewOf(ps[k], u) || u in Block(base, ps, k) || u in Tail(base, ps, k)
    ensures u in Tail(base, ps, k + 1)
  {
    TailStep(base, ps, k);
  }

  /** Unchanged users the walk has reached, and changed users it has placed, are in the finished part. */
  lemma {:induction false} TailHas(b: Batch, ps: seq<RatingPatchEntry>, k: nat, u: FullUserData)
    requires b.Valid() && Placed(|b.base|, ps) && k <= |ps|
    requires (forall j {:trigger PatchOf(b, ps[j])} :: 0 <= j < |ps| ==> PatchOf(b, ps[j]))
    requires ComesFrom(b, ps, k, u)
    ensures u in Tail(b.base, ps, k)
  {
    if k > 0 {
      assert PatchOf(b, ps[k - 1]);
      if ComesFrom(b, ps, k - 1, u) {
        TailHas(b, ps, k - 1, u);
      } else if !IsNewOf(ps[k - 1], u) {
        StepReaches(b, ps, k - 1, u);
      }
      PiecesInTail(b.base, ps, k - 1, u);
    }
  }

  lemma PatchedHas(b: Batch, ps: seq<RatingPatchEntry>, u: FullUserData)
    requires b.Valid() && IsPatchList(b, ps) && Placed(|b.base|, ps)
    requires b.Ranked(u)
    ensures u in Patched(b.base, ps)
  {
    if u in b.totals {
      assert HasNew(ps, u);
      var k :| 0 <= k < |ps| && IsNewOf(ps[k], u);
      TailHas(b, ps, |ps|, u);
    } else if b.index[u] >= Frontier(|b.base|, ps, |ps|) {
      TailHas(b, ps, |ps|, u);
    } else {
      assert b.base[..Frontier(|b.base|, ps, |ps|)][b.index[u]] == u;
    }
  }

  lemma PatchedSorted(b: Batch, ps: seq<RatingPatchEntry>)
    requires b.Valid() && IsPatchList(b, ps) && Placed(|b.base|, ps)
    ensures b.AllRanked(Patched(b.base, ps)) && b.Sorted(Patched(b.base, ps))
  {
    var f, t := Frontier(|b.base|, ps, |ps|), Tail(b.base, ps, |ps|);
    TailSorted(b, ps, |ps|);
    forall u | u in b.base[..f]
      ensures u in b.index && u !in b.totals && b.index[u] < f
    {
      var q :| 0 <= q < f && b.base[..f][q] == u;
      if u in b.totals { PassedOldPosition(b, ps, |ps|, q); }
    }
    BlockSorted(b, 0, f);
    assert b.base[0..f] == b.base[..f];
    forall u, v | u in b.base[..f] && v in t
      ensures b.Ranked(v) && b.Before(u, v)
    {
      BlockAboveTail(b, ps, |ps|, u, v);
    }
    SortedConcat(b, b.base[..f], t);
  }

  /** The walk along the patches of a batch builds exactly the new ranking. */
  lemma PatchedIsRanking(b: Batch, ps: seq<RatingPatchEntry>)
    requires b.Valid() && IsPatchList(b, ps)
    ensures Placed(|b.base|, ps) && b.IsRanking(Patched(b.base, ps))
  {
    PatchListPlaced(b, ps);
    PatchedSorted(b, ps);
    forall u | b.Ranked(u)
      ensures u in Patched(b.base, ps)
    {
      PatchedHas(b, ps, u);
    }
  }

  /** ... and so agrees with deleting the changed users and re-inserting them one by one. */
  lemma PatchedIsReference(b: Batch, ps: seq<RatingPatchEntry>, us: seq<FullUserData>)
    requires b.Valid() && IsPatchList(b, ps) && ListsChanged(b, us)
    ensures Placed(|b.base|, ps) && Patched(b.base, ps) == Reference(b, us)
  {
    PatchedIsRanking(b, ps);
    RankingIsReference(b, Patched(b.base, ps), us);
  }

  /** The vector grows by one for every new position and shrinks by one for every old one. */
  lemma {:induction false} TailSize(base: seq<FullUserData>, ps: seq<RatingPatchEntry>, k: nat)
    requires Placed(|base|, ps) && k <= |ps|
    ensures |Tail(base, ps, k)| == |base| - Frontier(|base|, ps, k) + NetNew(ps[..k])
  {
    if k > 0 {
      TailSize(base, ps, k - 1);
      TailStep(base, ps, k - 1);
      assert ps[..k] == ps[..k - 1] + [ps[k - 1]];
      NetNewAppend(ps[..k - 1], ps[k - 1]);
    }
  }

  // ------------------------------------------------------------------------------------------
  // When the walk may run at all
  // ------------------------------------------------------------------------------------------

  ghost predicate IsSuffix<T>(t: seq<T>, s: seq<T>) {
    |t| <= |s| && forall i :: 0 <= i < |t| ==> s[|s| - |t| + i] == t[i]
  }

  lemma SuffixTransitive<T>(r: seq<T>, s: seq<T>, t: seq<T>)
    requires IsSuffix(r, s) && IsSuffix(s, t)
    ensures IsSuffix(r, t)
  {
    forall i | 0 <= i < |r|
      ensures t[|t| - |r| + i] == r[i]
    {
      assert s[|s| - |r| + i] == r[i];
    }
  }

  lemma SuffixOfConcat<T>(s: seq<T>, t: seq<T>)
    ensures IsSuffix(t, s + t)
  {
  }

  lemma TailStepSuffix(base: seq<FullUserData>, ps: seq<RatingPatchEntry>, k: nat)
    requires Placed(|base|, ps) && k < |ps|
    ensures IsSuffix(Tail(base, ps, k), Tail(base, ps, k + 1))
  {
    TailStep(base, ps, k);
    var t := Tail(base, ps, k);
    var s := base[Spot(|base|, ps[k])..Frontier(|base|, ps, k)] + t;
    SuffixOfConcat(base[Spot(|base|, ps[k])..Frontier(|base|, ps, k)], t);
    if ps[k].NewPosition? {
      SuffixOfConcat([ps[k].userData], s);
      SuffixTransitive(t, s, [ps[k].userData] + s);
    }
  }

  /** Finished parts are final. */
  lemma {:induction false} TailIsSuffix(base: seq<FullUserData>, ps: seq<RatingPatchEntry>, k: nat)
    requires Placed(|base|, ps) && k <= |ps|
    ensures IsSuffix(Tail(base, ps, k), Patched(base, ps))
    decreases |ps| - k
  {
    if k == |ps| {
      SuffixOfConcat(base[..Frontier(|base|, ps, |ps|)], Tail(base, ps, |ps|));
    } else {
      TailIsSuffix(base, ps, k + 1);
      TailStepSuffix(base, ps, k);
      SuffixTransitive(Tail(base, ps, k), Tail(base, ps, k + 1), Patched(base, ps));
    }
  }

  /** A user of a moved block ends up `Offset` places to the right. */
  lemma MovedTo(base: seq<FullUserData>, ps: seq<RatingPatchEntry>, k: nat, q: nat)
    requires Placed(|base|, ps) && k < |ps|
    requires Spot(|base|, ps[k]) <= q < Frontier(|base|, ps, k)
    ensures var s := Patched(base, ps); var i := q + Offset(base, ps, |s|, k);
            0 <= i < |s| && s[i] == base[q]
  {
    TailStep(base, ps, k);
    TailIsSuffix(base, ps, k + 1);
    var from, t := Spot(|base|, ps[k]), Tail(base, ps, k + 1);
    var skip := if ps[k].NewPosition? then 1 else 0;
    assert t[skip + q - from] == base[q];
  }

  /** Every unchanged user the walk has reached was in one of the blocks. */
  lemma {:induction false} FindBlock(b: Batch, ps: seq<RatingPatchEntry>, k: nat, q: nat) returns (j: nat)
    requires b.Valid() && Placed(|b.base|, ps) && k <= |ps|
    requires (forall j {:trigger PatchOf(b, ps[j])} :: 0 <= j < |ps| ==> PatchOf(b, ps[j]))
    requires Frontier(|b.base|, ps, k) <= q < |b.base| && b.base[q] !in b.totals
    ensures j < k && Spot(|b.base|, ps[j]) <= q < Frontier(|b.base|, ps, j)
  {
    j := k - 1;
    assert PatchOf(b, ps[j]);
    assert Frontier(|b.base|, ps, j + 1) == Spot(|b.base|, ps[j]) - (if ps[j].OldPosition? then 1 else 0) by {
      TailStep(b.base, ps, j);
    }
    if Frontier(|b.base|, ps, j) <= q {
      j := FindBlock(b, ps, j, q);
    }
  }

  /** The blocks all move to the right exactly if the batch lifts nobody it does not touch. */
  lemma MovesRightExactly(b: Batch, ps: seq<RatingPatchEntry>)
    requires b.Valid() && IsPatchList(b, ps) && Placed(|b.base|, ps)
    ensures var s := Patched(b.base, ps); MovesRight(b.base, ps, |s|) <==> b.NobodyRises(s)
  {
    var s := Patched(b.base, ps);
    if MovesRight(b.base, ps, |s|) {
      forall i, q | 0 <= i < |s| && 0 <= q < |b.base| && b.base[q] !in b.totals && s[i] == b.base[q]
        ensures b.NotRisen(s, i, q)
      {
        StaysOrMovesRight(b, ps, i, q);
      }
    } else {
      var k :| 0 <= k < |ps| && !BlockMovesRight(b.base, ps, |s|, k);
      BlockRises(b, ps, k);
    }
  }

  lemma StaysOrMovesRight(b: Batch, ps: seq<RatingPatchEntry>, i: nat, q: nat)
    requires b.Valid() && IsPatchList(b, ps) && Placed(|b.base|, ps)
    requires i < |Patched(b.base, ps)| && q < |b.base| && b.base[q] !in b.totals && Patched(b.base, ps)[i] == b.base[q]
    requires MovesRight(b.base, ps, |Patched(b.base, ps)|)
    ensures i >= q
  {
    var s := Patched(b.base, ps);
    PatchedSorted(b, ps);
    SortedDistinct(b, s);
    if q < Frontier(|b.base|, ps, |ps|) {
      assert s[q] == b.base[q];
    } else {
      var k := FindBlock(b, ps, |ps|, q);
      assert BlockMovesRight(b.base, ps, |s|, k);
      MovedTo(b.base, ps, k, q);
    }
  }

  lemma BlockRises(b: Batch, ps: seq<RatingPatchEntry>, k: nat)
    requires b.Valid() && IsPatchList(b, ps) && Placed(|b.base|, ps) && k < |ps|
    requires Spot(|b.base|, ps[k]) < Frontier(|b.base|, ps, k)
    requires Offset(b.base, ps, |Patched(b.base, ps)|, k) < 0
    ensures !b.NobodyRises(Patched(b.base, ps))
  {
    var q, s := Spot(|b.base|, ps[k]), Patched(b.base, ps);
    MovedTo(b.base, ps, k, q);
    if b.base[q] in b.totals { PassedOldPosition(b, ps, k, q); }
    assert !b.NotRisen(s, q + Offset(b.base, ps, |s|, k), q);
  }

  // ------------------------------------------------------------------------------------------
  // The vector during the walk
  // ------------------------------------------------------------------------------------------

  /**
   The vector `a` holds the finished part `t` at its end, and in front of that the users the walk
   has not reached yet: the first `f` users of the old ranking, as far as `t` leaves room for them.
   */
  ghost predicate Layout(a: seq<FullUserData?>, base: seq<FullUserData>, f: nat, t: seq<FullUserData>) {
    && |t| <= |a| && f <= |base| <= |a|
    && a[|a| - |t|..] == t
    && forall i :: 0 <= i < f && i < |a| - |t| ==> a[i] == base[i]
  }

  /** A block of `length` elements at `pos` copied `offset` places to the right. */
  ghost function Shifted(a: seq<FullUserData?>, pos: nat, length: nat, offset: nat): seq<FullUserData?>
    requires pos + length + offset <= |a|
  {
    a[..pos + offset] + a[pos..pos + length] + a[pos + length + offset..]
  }

  lemma MoveKeepsLayout(a: seq<FullUserData?>, base: seq<FullUserData>, f: nat, t: seq<FullUserData>, spot: nat)
    requires Layout(a, base, f, t) && spot <= f <= |a| - |t|
    ensures Layout(Shifted(a, spot, f - spot, |a| - |t| - f), base, spot, base[spot..f] + t)
  {
    var c, s := Shifted(a, spot, f - spot, |a| - |t| - f), base[spot..f] + t;
    assert a[spot..f] == base[spot..f];
    assert c[|c| - |s|..] == s;
  }

  lemma EmptyMoveKeepsLayout(a: seq<FullUserData?>, base: seq<FullUserData>, f: nat, t: seq<FullUserData>)
    requires Layout(a, base, f, t)
    ensures Layout(a, base, f, base[f..f] + t)
  {
    assert base[f..f] + t == t;
  }

  lemma InsertKeepsLayout(a: seq<FullUserData?>, base: seq<FullUserData>, f: nat, t: seq<FullUserData>, u: FullUserData)
    requires Layout(a, base, f, t) && |t| < |a|
    ensures Layout(a[|a| - |t| - 1 := u], base, f, [u] + t)
  {
    var c := a[|a| - |t| - 1 := u];
    assert c[|c| - |t| - 1..] == [u] + t;
  }

  lemma ShorterLayout(a: seq<FullUserData?>, base: seq<FullUserData>, f: nat, t: seq<FullUserData>)
    requires Layout(a, base, f, t) && f > 0
    ensures Layout(a, base, f - 1, t)
  {
  }

  /** The walk before patch `k`: how far it is, what it has built, and that it has only moved to the right. */
  ghost predicate WalkAt(a: seq<FullUserData?>, base: seq<FullUserData>, ps: seq<RatingPatchEntry>, k: nat, passed: int, offset: int)
    requires Placed(|base|, ps) && k <= |ps|
  {
    var f, t := Frontier(|base|, ps, k), Tail(base, ps, k);
    && Layout(a, base, f, t)
    && passed == |base| - f
    && offset == |a| - |t| - f
  }

  lemma WalkEnds(a: seq<FullUserData?>, base: seq<FullUserData>, ps: seq<RatingPatchEntry>, passed: int, offset: int)
    requires Placed(|base|, ps) && |a| == |Patched(base, ps)| && WalkAt(a, base, ps, |ps|, passed, offset)
    ensures a == Patched(base, ps) && offset == 0
  {
  }

  lemma PatchSizes(b: Batch, ps: seq<RatingPatchEntry>)
    requires b.Valid() && IsPatchList(b, ps)
    ensures Placed(|b.base|, ps) && |Patched(b.base, ps)| == |b.base| + NetNew(ps)
    ensures MovesRight(b.base, ps, |Patched(b.base, ps)|) <==> b.NobodyRises(Patched(b.base, ps))
  {
    PatchListPlaced(b, ps);
    TailSize(b.base, ps, |ps|);
    assert ps[..|ps|] == ps;
    MovesRightExactly(b, ps);
  }
}
