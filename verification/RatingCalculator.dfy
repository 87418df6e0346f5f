/** The recalculation itself (service/rating_calculator.cpp): users, online sets and the rating. */
module RatingCalculator {
  import opened Users
  import opened Incoming
  import opened Batching
  import opened RankingOrder
  import opened PatchPass

  /** Active users are those with a place and those about to get one. */
  ghost predicate PlacesOk(users: set<FullUserData>, b: Batch) {
    b.index.Keys + b.totals.Keys == users
  }

  lemma PlacesGrow(users: set<FullUserData>, b: Batch, u: FullUserData, total: Money)
    requires PlacesOk(users, b) && u !in users && forall v :: v in b.totals ==> v.id < u.id
    ensures u !in b.index && MayChange(b, u) && PlacesOk(users + {u}, Changed(b, u, total))
  {
  }

  /** The batch is what the deals make of the users' totals, for those who are known. */
  ghost predicate BatchOf(b: Batch, known: CoreState, deals: map<Id, Money>) {
    && (forall u :: u in b.index ==> u.id in known && 0 <= b.index[u] < |b.before|
                                     && known[u.id].total == Some(b.before[b.index[u]]))
    && (forall u :: u in b.totals ==> u.id in known && u.id in deals
                                      && b.totals[u] == Won(known[u.id]) + deals[u.id])
    && (forall u :: u in b.index && u.id in deals ==> u in b.totals)
    && (forall id :: id in deals && id in known ==> exists u :: u in b.totals && u.id == id)
  }

  /** Positive deals lift the users who made them, and nobody else. */
  lemma PositiveDeals(b: Batch, known: CoreState, deals: map<Id, Money>, s: seq<FullUserData>)
    requires b.Valid() && BatchOf(b, known, deals) && b.IsRanking(s)
    requires forall id :: id in deals && id in known ==> deals[id] > 0
    ensures b.NobodyRises(s)
  {
    WinsLiftNobodyElse(b, s);
  }

  class RatingCalculatorImpl {
    // core data
    var silentUsers: map<Id, BasicUserData>
    var activeUsers: map<Id, FullUserData>
    var rating: array<FullUserData?>
    // iteration data: who is to be announced in which second
    var usersOnline: seq<set<FullUserData>>
    // what has been put on the error queue
    var errors: seq<ProtocolError>
    // the state of one recalculation
    var ratingPatches: seq<RatingPatchEntry>
    var freshRatings: nat
    // what all this says about every user
    ghost var known: CoreState
    // the objects of the active users
    ghost var users: set<FullUserData>

    /** Active users are found under their ids. */
    ghost predicate ActiveOk()
      reads this`activeUsers, this`users
    {
      && (forall id :: id in activeUsers ==> activeUsers[id] in users && activeUsers[id].id == id)
      && (forall u :: u in users ==> u.id in activeUsers && activeUsers[u.id] == u)
    }

    /** Nobody is silent and active. */
    ghost predicate UsersOk()
      reads this`silentUsers, this`activeUsers, this`users
    {
      ActiveOk() && silentUsers.Keys !! activeUsers.Keys
    }

    /** Online set s holds exactly the active users who connected in second s. */
    ghost predicate OnlineOk()
      reads this`users, this`usersOnline, users`secondConnected
    {
      && |usersOnline| == INVALID_SECOND
      && (forall s, u {:trigger u in usersOnline[s]} ::
            0 <= s < INVALID_SECOND && u in usersOnline[s] ==> u in users && u.secondConnected == s)
      && (forall u :: u in users && u.secondConnected < INVALID_SECOND ==> u in usersOnline[u.secondConnected])
    }

    /** The rating lists every active user once, at the stored place, by descending amount. */
    ghost predicate RatingOk()
      reads this`users, this`rating, rating, users`rating, users`amountWon
    {
      && (forall i :: 0 <= i < rating.Length ==> rating[i] != null && rating[i] in users && rating[i].rating == i)
      && (forall u {:trigger u.rating} :: u in users ==> 0 <= u.rating < rating.Length && rating[u.rating] == u)
      && (forall i, j {:trigger rating[i].amountWon, rating[j].amountWon} ::
            0 <= i < j < rating.Length ==> rating[i].amountWon >= rating[j].amountWon)
    }

    /** `known` is what the maps say. */
    ghost predicate KnownOk()
      reads this`known, this`silentUsers, this`activeUsers, this`users
      reads users`name, users`secondConnected, users`amountWon
    {
      && known.Keys == silentUsers.Keys + activeUsers.Keys
      && (forall id :: id in silentUsers ==>
                         known[id] == UserState(silentUsers[id].name, silentUsers[id].secondConnected, None))
      && (forall u :: u in users ==>
                        u.id in known && known[u.id] == UserState(u.name, u.secondConnected, Some(u.amountWon)))
    }

    ghost predicate Valid()
      reads this`silentUsers, this`activeUsers, this`users, this`usersOnline, this`rating, this`known
      reads rating, users`name, users`secondConnected, users`amountWon, users`rating
    {
      UsersOk() && OnlineOk() && RatingOk() && KnownOk()
    }

    constructor ()
      ensures Valid() && known == map[] && errors == []
    {
      silentUsers, activeUsers := map[], map[];
      rating := new FullUserData?[0];
      usersOnline := seq(INVALID_SECOND, _ => {});
      errors, ratingPatches, freshRatings := [], [], 0;
      known, users := map[], {};
    }

    /** Announced in a second are exactly those who connected in it and have won something since the last drop. */
    lemma WhoIsAnnounced(s: Second, id: Id)
      requires Valid() && s < INVALID_SECOND
      ensures (exists u :: u in usersOnline[s] && u.id == id) <==>
              id in known && known[id].second == s && known[id].total.Some?
    {
      if id in activeUsers {
        assert activeUsers[id] in users;
      }
    }

    method UserExists(userId: Id) returns (found: bool)
      ensures found <==> userId in silentUsers || userId in activeUsers
    {
      found := userId in silentUsers || userId in activeUsers;
    }

    // ----------------------------------------------------------------------------------------
    // The weekly drop
    // ----------------------------------------------------------------------------------------

    method SilenceActiveUsers()
      requires UsersOk()
      modifies this`silentUsers
      ensures silentUsers.Keys == old(silentUsers.Keys) + activeUsers.Keys
      ensures forall id :: id in old(silentUsers) ==> silentUsers[id] == old(silentUsers[id])
      ensures forall id :: id in activeUsers ==>
                             silentUsers[id] == BasicUserData(activeUsers[id].secondConnected, activeUsers[id].name)
    {
      var todo := activeUsers.Keys;
      while todo != {}
        invariant todo <= activeUsers.Keys
        invariant silentUsers.Keys == old(silentUsers.Keys) + (activeUsers.Keys - todo)
        invariant forall id :: id in old(silentUsers) ==> silentUsers[id] == old(silentUsers[id])
        invariant forall id :: id in activeUsers && id !in todo ==>
                                 silentUsers[id] == BasicUserData(activeUsers[id].secondConnected, activeUsers[id].name)
      {
        NonEmpty(todo);
        var id :| id in todo;
        silentUsers := silentUsers[id := BasicUserData(activeUsers[id].secondConnected, activeUsers[id].name)];
        todo := todo - {id};
      }
    }

    /** Everybody is silent again, the rating and the online sets are empty. */
    method DropRating()
      requires Valid()
      modifies this`silentUsers, this`activeUsers, this`usersOnline, this`rating, this`known, this`users
      ensures Valid() && activeUsers == map[] && rating.Length == 0
      ensures known == Drop(old(known))
    {
      SilenceActiveUsers();
      activeUsers, users := map[], {};
      usersOnline := seq(INVALID_SECOND, _ => {});
      rating := new FullUserData?[0];
      known := Drop(known);
    }

    // ----------------------------------------------------------------------------------------
    // Registrations, renames and connections
    // ----------------------------------------------------------------------------------------

    method ProcessRegistration(userId: Id, name: Name)
      requires Valid()
      modifies this`silentUsers, this`errors, this`known
      ensures Valid()
      ensures Books(known, errors) == Handle(old(Books(known, errors)), UserRegistered(userId, name))
    {
      var found := UserExists(userId);
      if found {
        errors := errors + [MultipleRegistrationError(userId)];
      } else {
        silentUsers := silentUsers[userId := BasicUserData(INVALID_SECOND, name)];
      }
      known := Apply(known, UserRegistered(userId, name));
    }

    method RegisterEach(pending: map<Id, Name>)
      requires Valid()
      modifies this`silentUsers, this`errors, this`known
      ensures Valid()
      ensures Books(known, errors) == RegisterStage(old(Books(known, errors)), pending)
    {
      var ids := IdsInOrder(pending.Keys);
      for k := 0 to |ids|
        invariant Valid()
        invariant Books(known, errors) == Sweep(old(Books(known, errors)), ids[..k], Registering(pending))
      {
        SweepStep(old(Books(known, errors)), ids, k, Registering(pending));
        assert ids[k] in ids;
        ProcessRegistration(ids[k], pending[ids[k]]);
      }
      assert ids[..|ids|] == ids;
      SweepRegisters(old(Books(known, errors)), pending);
    }

    method ProcessRegistrations(buffer: IncomingDataBuffer)
      requires Valid()
      modifies this`silentUsers, this`errors, this`known, buffer`usersRegistered
      ensures Valid()
      ensures Books(known, errors) == RegisterStage(old(Books(known, errors)), old(buffer.Value()).registered)
      ensures buffer.Value() == old(buffer.Value()).(registered := map[])
    {
      RegisterEach(buffer.usersRegistered);
      buffer.usersRegistered := map[];
    }

    method RenameActive(user: FullUserData, name: Name)
      requires Valid() && user in users
      modifies this`known, user`name
      ensures Valid()
      ensures known == Apply(old(known), UserRenamed(user.id, name))
    {
      user.name := name;
      known := Apply(known, UserRenamed(user.id, name));
    }

    method RenameSilent(userId: Id, name: Name)
      requires Valid() && userId in silentUsers
      modifies this`silentUsers, this`known
      ensures Valid()
      ensures known == Apply(old(known), UserRenamed(userId, name))
    {
      silentUsers := silentUsers[userId := silentUsers[userId].(name := name)];
      known := Apply(known, UserRenamed(userId, name));
    }

    method ProcessRename(userId: Id, name: Name)
      requires Valid()
      modifies this`silentUsers, this`errors, this`known, users`name
      ensures Valid()
      ensures Books(known, errors) == Handle(old(Books(known, errors)), UserRenamed(userId, name))
    {
      if userId in activeUsers {
        RenameActive(activeUsers[userId], name);
      } else if userId in silentUsers {
        RenameSilent(userId, name);
      } else {
        errors := errors + [UserUnrecognizedError(userId)];
      }
    }

    method RenameEach(pending: map<Id, Name>)
      requires Valid()
      modifies this`silentUsers, this`errors, this`known, users`name
      ensures Valid()
      ensures Books(known, errors) == RenameStage(old(Books(known, errors)), pending)
    {
      var ids := IdsInOrder(pending.Keys);
      for k := 0 to |ids|
        invariant Valid()
        invariant Books(known, errors) == Sweep(old(Books(known, errors)), ids[..k], Renaming(pending))
      {
        SweepStep(old(Books(known, errors)), ids, k, Renaming(pending));
        assert ids[k] in ids;
        ProcessRename(ids[k], pending[ids[k]]);
      }
      assert ids[..|ids|] == ids;
      SweepRenames(old(Books(known, errors)), pending);
    }

    method ProcessRenames(buffer: IncomingDataBuffer)
      requires Valid()
      modifies this`silentUsers, this`errors, this`known, users`name, buffer`usersRenamed
      ensures Valid()
      ensures Books(known, errors) == RenameStage(old(Books(known, errors)), old(buffer.Value()).renamed)
      ensures buffer.Value() == old(buffer.Value()).(renamed := map[])
    {
      RenameEach(buffer.usersRenamed);
      buffer.usersRenamed := map[];
    }

    /** An active user moves from one online set to another. */
    method ChangeConnection(user: FullUserData, second: Second)
      requires UsersOk() && OnlineOk() && user in users
      modifies this`usersOnline, user`secondConnected
      ensures OnlineOk()
      ensures user.secondConnected == second
    {
      if user.secondConnected < INVALID_SECOND {
        usersOnline := usersOnline[user.secondConnected := usersOnline[user.secondConnected] - {user}];
      }
      user.secondConnected := second;
      if second < INVALID_SECOND {
        usersOnline := usersOnline[second := usersOnline[second] + {user}];
      }
    }

    method ConnectActive(user: FullUserData, second: Second)
      requires Valid() && user in users
      modifies this`usersOnline, this`known, user`secondConnected
      ensures Valid()
      ensures known == Apply(old(known), UserConnected(user.id, second))
    {
      ChangeConnection(user, second);
      known := Apply(known, UserConnected(user.id, second));
    }

    method ConnectSilent(userId: Id, second: Second)
      requires Valid() && userId in silentUsers
      modifies this`silentUsers, this`known
      ensures Valid()
      ensures known == Apply(old(known), UserConnected(userId, second))
    {
      silentUsers := silentUsers[userId := silentUsers[userId].(secondConnected := second)];
      known := Apply(known, UserConnected(userId, second));
    }

    method ProcessConnectionChange(userId: Id, second: Second)
      requires Valid()
      modifies this`silentUsers, this`usersOnline, this`errors, this`known, users`secondConnected
      ensures Valid()
      ensures Books(known, errors) == Handle(old(Books(known, errors)), UserConnected(userId, second))
    {
      if userId in activeUsers {
        ConnectActive(activeUsers[userId], second);
      } else if userId in silentUsers {
        ConnectSilent(userId, second);
      } else {
        errors := errors + [UserUnrecognizedError(userId)];
      }
    }

    method ConnectEach(pending: map<Id, Second>)
      requires Valid()
      modifies this`silentUsers, this`usersOnline, this`errors, this`known, users`secondConnected
      ensures Valid()
      ensures Books(known, errors) == ConnectStage(old(Books(known, errors)), pending)
    {
      var ids := IdsInOrder(pending.Keys);
      for k := 0 to |ids|
        invariant Valid()
        invariant Books(known, errors) == Sweep(old(Books(known, errors)), ids[..k], Connecting(pending))
      {
        SweepStep(old(Books(known, errors)), ids, k, Connecting(pending));
        assert ids[k] in ids;
        ProcessConnectionChange(ids[k], pending[ids[k]]);
      }
      assert ids[..|ids|] == ids;
      SweepConnects(old(Books(known, errors)), pending);
    }

    method ProcessConnectionChanges(buffer: IncomingDataBuffer)
      requires Valid()
      modifies this`silentUsers, this`usersOnline, this`errors, this`known, users`secondConnected, buffer`connectionChanges
      ensures Valid()
      ensures Books(known, errors) == ConnectStage(old(Books(known, errors)), old(buffer.Value()).connections)
      ensures buffer.Value() == old(buffer.Value()).(connections := map[])
    {
      ConnectEach(buffer.connectionChanges);
      buffer.connectionChanges := map[];
    }

    // ----------------------------------------------------------------------------------------
    // Deals
    // ----------------------------------------------------------------------------------------

    /** The rating is the one the batch starts from. */
    ghost predicate BasedOn(base: seq<FullUserData>, before: seq<Money>)
      reads this`rating, rating, base`amountWon, base`rating
    {
      && rating[..] == base
      && |before| == |base|
      && (forall i :: 0 <= i < |base| ==> base[i].amountWon == before[i] && base[i].rating == i)
    }

    /** The batch that changes nothing. */
    lemma Basis() returns (b: Batch)
      requires UsersOk() && RatingOk()
      ensures b.Valid() && IsPatchList(b, []) && BasedOn(b.base, b.before) && PlacesOk(users, b)
      ensures b.totals == map[]
    {
      var before, index := [], map[];
      while |before| < rating.Length
        invariant |before| <= rating.Length
        invariant forall i :: 0 <= i < |before| ==> before[i] == rating[i].amountWon
        invariant forall i :: 0 <= i < |before| ==> rating[i] in index && index[rating[i]] == i
        invariant forall u :: u in index ==> 0 <= index[u] < |before| && rating[index[u]] == u
      {
        var i := |before|;
        before, index := before + [rating[i].amountWon], index[rating[i] := i];
      }
      b := Batch(rating[..], before, index, map[]);
      forall u | u in users
        ensures u in b.index
      {
        assert rating[u.rating] == u;
      }
    }

    /** How many ranked users have won less; the halving of std::upper_bound. */
    method RatingElementsAfter(winnings: Money, ghost b: Batch) returns (ea: nat)
      requires b.Valid() && BasedOn(b.base, b.before)
      ensures IsElementsAfter(b.before, winnings, ea)
    {
      var first, length := 0, rating.Length;
      while length > 0
        invariant 0 <= first && 0 <= length && first + length <= rating.Length
        invariant forall i :: 0 <= i < first ==> b.before[i] >= winnings
        invariant forall i :: first + length <= i < rating.Length ==> b.before[i] < winnings
      {
        var half := length / 2;
        var middle := first + half;
        assert rating[middle] == b.base[middle];
        if winnings > rating[middle].amountWon {
          length := half;
        } else {
          first := middle + 1;
          length := length - half - 1;
        }
      }
      ea := rating.Length - first;
    }

    /** A user with a place in the rating: one patch takes the user out, one puts the user back. */
    method PatchRanked(userProfile: FullUserData, deal: Money, ghost b: Batch) returns (ghost c: Batch)
      requires b.Valid() && IsPatchList(b, ratingPatches) && BasedOn(b.base, b.before)
      requires userProfile in b.index && MayChange(b, userProfile)
      modifies this`ratingPatches
      ensures c == Changed(b, userProfile, userProfile.amountWon + deal)
      ensures c.Valid() && IsPatchList(c, ratingPatches)
      ensures NetNew(ratingPatches) == old(NetNew(ratingPatches))
    {
      var total := userProfile.amountWon + deal;
      var ea := RatingElementsAfter(total, b);
      assert b.base[b.index[userProfile]].rating == b.index[userProfile];
      var elementsAfter := rating.Length - userProfile.rating - 1;
      assert elementsAfter == |b.base| - 1 - b.index[userProfile];
      ratingPatches := EmplaceRanked(ratingPatches, elementsAfter, ea, userProfile, total, b);
      c := Changed(b, userProfile, total);
    }

    /** A user new to the rating: one patch, and one more element in the rating. */
    method PatchFresh(userProfile: FullUserData, ghost b: Batch) returns (ghost c: Batch)
      requires b.Valid() && IsPatchList(b, ratingPatches) && BasedOn(b.base, b.before)
      requires userProfile !in b.index && MayChange(b, userProfile)
      requires freshRatings == NetNew(ratingPatches)
      modifies this`ratingPatches, this`freshRatings
      ensures c == Changed(b, userProfile, userProfile.amountWon)
      ensures c.Valid() && IsPatchList(c, ratingPatches)
      ensures freshRatings == NetNew(ratingPatches)
    {
      var ea := RatingElementsAfter(userProfile.amountWon, b);
      freshRatings := freshRatings + 1;
      ratingPatches := EmplaceFresh(ratingPatches, ea, userProfile, userProfile.amountWon, b);
      c := Changed(b, userProfile, userProfile.amountWon);
    }

    method AddToOnline(userProfile: FullUserData)
      requires ActiveOk() && OnlineOk() && userProfile.id !in activeUsers
      modifies this`activeUsers, this`usersOnline, this`users
      ensures ActiveOk() && OnlineOk()
      ensures activeUsers == old(activeUsers)[userProfile.id := userProfile]
      ensures users == old(users) + {userProfile}
    {
      if userProfile.secondConnected != INVALID_SECOND {
        var s := userProfile.secondConnected;
        usersOnline := usersOnline[s := usersOnline[s] + {userProfile}];
      }
      activeUsers, users := activeUsers[userProfile.id := userProfile], users + {userProfile};
    }

    /** While deals are worked through, the users in `totals` still have to be credited. */
    ghost predicate PendingOk(totals: map<FullUserData, Money>, deals: map<Id, Money>)
      reads this`known, this`silentUsers, this`activeUsers, this`users
      reads users`name, users`secondConnected, users`amountWon
    {
      && known.Keys == silentUsers.Keys + activeUsers.Keys
      && (forall id :: id in silentUsers ==>
                         known[id] == UserState(silentUsers[id].name, silentUsers[id].secondConnected, None))
      && (forall u :: u in users ==>
                        && u.id in known && known[u.id].name == u.name && known[u.id].second == u.secondConnected
                        && (u in totals ==> u.id in deals && totals[u] == Won(known[u.id]) + deals[u.id])
                        && (u !in totals ==> known[u.id].total == Some(u.amountWon)))
    }

    /** A silent user becomes active and, if connected, joins the online set of that second. */
    method Activate(userId: Id, deal: Money, ghost totals: map<FullUserData, Money>, ghost deals: map<Id, Money>)
      returns (userProfile: FullUserData)
      requires UsersOk() && OnlineOk() && PendingOk(totals, deals)
      requires userId in silentUsers && userId in deals && deals[userId] == deal
      modifies this`silentUsers, this`activeUsers, this`usersOnline, this`users
      ensures UsersOk() && OnlineOk() && PendingOk(totals[userProfile := deal], deals)
      ensures fresh(userProfile) && userProfile.id == userId && userProfile.amountWon == deal
      ensures users == old(users) + {userProfile}
      ensures activeUsers == old(activeUsers)[userId := userProfile]
      ensures userId !in silentUsers && silentUsers.Keys <= old(silentUsers.Keys)
    {
      userProfile := new FullUserData(userId, deal, silentUsers[userId]);
      AddToOnline(userProfile);
      silentUsers := silentUsers - {userId};
    }

    /** All that holds between two entries of the deal map. */
    ghost predicate Preparing(b: Batch, deals: map<Id, Money>)
      reads this`silentUsers, this`activeUsers, this`users, this`usersOnline, this`rating, this`known
      reads this`ratingPatches, this`freshRatings, rating, b.base`amountWon, b.base`rating
      reads users`name, users`secondConnected, users`amountWon
    {
      && UsersOk() && OnlineOk() && PendingOk(b.totals, deals)
      && b.Valid() && IsPatchList(b, ratingPatches) && BasedOn(b.base, b.before) && PlacesOk(users, b)
      && freshRatings == NetNew(ratingPatches)
    }

    method DealForRanked(userProfile: FullUserData, deal: Money, ghost b: Batch, ghost deals: map<Id, Money>)
      returns (ghost c: Batch)
      requires Preparing(b, deals) && userProfile in users
      requires userProfile.id in deals && deals[userProfile.id] == deal
      requires forall u :: u in b.totals ==> u.id < userProfile.id
      modifies this`ratingPatches
      ensures Preparing(c, deals)
      ensures c == Changed(b, userProfile, userProfile.amountWon + deal)
    {
      assert MayChange(b, userProfile);
      c := PatchRanked(userProfile, deal, b);
    }

    /** The new active user gets a patch. */
    method PatchActivated(userProfile: FullUserData, ghost b: Batch, ghost deals: map<Id, Money>)
      returns (ghost c: Batch)
      requires UsersOk() && OnlineOk() && PendingOk(b.totals[userProfile := userProfile.amountWon], deals)
      requires b.Valid() && IsPatchList(b, ratingPatches) && BasedOn(b.base, b.before)
      requires freshRatings == NetNew(ratingPatches)
      requires userProfile !in b.index && MayChange(b, userProfile)
      requires PlacesOk(users, Changed(b, userProfile, userProfile.amountWon))
      modifies this`ratingPatches, this`freshRatings
      ensures Preparing(c, deals)
      ensures c == Changed(b, userProfile, userProfile.amountWon)
    {
      c := PatchFresh(userProfile, b);
    }

    method DealForSilent(userId: Id, deal: Money, ghost b: Batch, ghost deals: map<Id, Money>)
      returns (userProfile: FullUserData, ghost c: Batch)
      requires Preparing(b, deals) && userId in silentUsers
      requires userId in deals && deals[userId] == deal
      requires forall u :: u in b.totals ==> u.id < userId
      modifies this`silentUsers, this`activeUsers, this`users, this`usersOnline
      modifies this`ratingPatches, this`freshRatings
      ensures Preparing(c, deals)
      ensures fresh(userProfile) && users == old(users) + {userProfile}
      ensures activeUsers == old(activeUsers)[userId := userProfile]
      ensures userId !in silentUsers && silentUsers.Keys <= old(silentUsers.Keys)
      ensures c == Changed(b, userProfile, deal)
    {
      userProfile := Activate(userId, deal, b.totals, deals);
      PlacesGrow(old(users), b, userProfile, deal);
      c := PatchActivated(userProfile, b, deals);
    }

    ghost predicate IsDone(b: Batch, id: Id)
      reads this`silentUsers, this`users
    {
      id !in silentUsers && forall u :: u in users && u.id == id ==> u in b.totals
    }

    /** One entry of the deal map: at most two patches, or a protocol error. */
    method ProcessDeal(userId: Id, deal: Money, ghost b: Batch, ghost deals: map<Id, Money>) returns (ghost c: Batch)
      requires Preparing(b, deals)
      requires userId in deals && deals[userId] == deal
      requires forall u :: u in b.totals ==> u.id < userId
      modifies this`silentUsers, this`activeUsers, this`users, this`usersOnline
      modifies this`errors, this`ratingPatches, this`freshRatings
      ensures Preparing(c, deals) && c == b.(totals := c.totals)
      ensures IsDone(c, userId) && silentUsers.Keys <= old(silentUsers.Keys)
      ensures fresh(users - old(users)) && users - old(users) <= c.totals.Keys
      ensures b.totals.Keys <= c.totals.Keys && forall u :: u in c.totals ==> u in b.totals || u.id == userId
      ensures errors == old(errors) + if userId in known then [] else [UserUnrecognizedError(userId)]
    {
      assert userId in known <==> userId in silentUsers || userId in activeUsers;
      if userId in activeUsers {
        c := DealForRanked(activeUsers[userId], deal, b, deals);
      } else if userId in silentUsers {
        var userProfile;
        userProfile, c := DealForSilent(userId, deal, b, deals);
      } else {
        errors := errors + [UserUnrecognizedError(userId)];
        c := b;
      }
    }

    /** Before the first deal. */
    lemma NothingDone(deals: map<Id, Money>, ids: seq<Id>) returns (b: Batch)
      requires Valid() && ratingPatches == [] && freshRatings == 0
      ensures Preparing(b, deals) && Done(b, ids, 0)
      ensures b.totals == map[]
    {
      b := Basis();
    }

    /** The deals of the first `k` ids have been worked through, later ones not touched. */
    ghost predicate Done(b: Batch, ids: seq<Id>, k: nat)
      reads this`silentUsers, this`users
    {
      && (forall j {:trigger IsDone(b, ids[j])} :: 0 <= j < k && j < |ids| ==> IsDone(b, ids[j]))
      && (forall u :: u in b.totals ==> k > 0 && |ids| >= k && u.id <= ids[k - 1])
    }

    /** The k-th entry of the deal map. */
    method ProcessDealAt(k: nat, ids: seq<Id>, deals: map<Id, Money>, ghost b: Batch) returns (ghost c: Batch)
      requires k < |ids| && Ascending(ids) && ids[k] in deals
      requires Preparing(b, deals) && Done(b, ids, k)
      modifies this`silentUsers, this`activeUsers, this`users, this`usersOnline
      modifies this`errors, this`ratingPatches, this`freshRatings
      ensures Preparing(c, deals) && Done(c, ids, k + 1)
      ensures errors == old(errors) + if ids[k] in known then [] else [UserUnrecognizedError(ids[k])]
      ensures c.base == b.base && c.before == b.before && c.index == b.index
      ensures forall u :: u in users ==> u in old(users) || fresh(u)
    {
      assert k > 0 ==> Below(ids[k - 1], ids[k]);
      c := ProcessDeal(ids[k], deals[ids[k]], b, deals);
      forall j | 0 <= j < k
        ensures IsDone(c, ids[j])
      {
        assert old(IsDone(b, ids[j]));
      }
    }

    /** The deal map from its first entry to its last. */
    method ProcessDealMap(ids: seq<Id>, deals: map<Id, Money>) returns (ghost b: Batch)
      requires Valid() && ratingPatches == [] && freshRatings == 0
      requires Ascending(ids) && forall id :: id in ids ==> id in deals
      modifies this`silentUsers, this`activeUsers, this`users, this`usersOnline
      modifies this`errors, this`ratingPatches, this`freshRatings
      ensures Preparing(b, deals) && Done(b, ids, |ids|)
      ensures forall u :: u in users ==> u in old(users) || fresh(u)
      ensures errors == old(errors) + UnrecognizedErrors(ids, known.Keys)
    {
      b := NothingDone(deals, ids);
      for k := 0 to |ids|
        invariant Preparing(b, deals) && Done(b, ids, k)
        invariant forall u :: u in users ==> u in old(users) || fresh(u)
        invariant errors == old(errors) + UnrecognizedErrors(ids[..k], known.Keys)
      {
        ErrorsStep(old(errors), ids, k, known.Keys);
        b := ProcessDealAt(k, ids, deals, b);
      }
      assert ids[..|ids|] == ids;
    }

    lemma DoneIsAll(b: Batch, ids: seq<Id>, deals: map<Id, Money>)
      requires Lists(ids, deals.Keys) && Done(b, ids, |ids|)
      ensures forall id :: id in deals ==> IsDone(b, id)
    {
      forall id | id in deals
        ensures IsDone(b, id)
      {
        assert InBoth(id, ids, deals.Keys);
        var j :| 0 <= j < |ids| && ids[j] == id;
      }
    }

    /** Every deal ends up in a patch or in an error. The map is emptied first, not last; nobody else reads it. */
    method ProcessDeals(buffer: IncomingDataBuffer) returns (ghost b: Batch)
      requires Valid() && ratingPatches == [] && freshRatings == 0
      modifies this`silentUsers, this`activeUsers, this`users, this`usersOnline
      modifies this`errors, this`ratingPatches, this`freshRatings, buffer`dealsWon
      ensures Preparing(b, old(buffer.Value()).deals)
      ensures forall id :: id in old(buffer.Value()).deals ==> IsDone(b, id)
      ensures forall u :: u in users ==> u in old(users) || fresh(u)
      ensures errors == old(errors) + UnrecognizedErrors(SortedIds(old(buffer.Value()).deals.Keys), known.Keys)
      ensures buffer.Value() == old(buffer.Value()).(deals := map[])
    {
      var deals := buffer.dealsWon;
      buffer.dealsWon := map[];
      var ids := IdsInOrder(deals.Keys);
      b := ProcessDealMap(ids, deals);
      DoneIsAll(b, ids, deals);
    }

    // ----------------------------------------------------------------------------------------
    // The patch pass
    // ----------------------------------------------------------------------------------------

    method ResizeRating(size: nat)
      requires size >= rating.Length
      modifies this`rating
      ensures fresh(rating) && rating.Length == size
      ensures rating[..old(rating.Length)] == old(rating[..])
    {
      var a := new FullUserData?[size](_ => null);
      forall i | 0 <= i < rating.Length {
        a[i] := rating[i];
      }
      rating := a;
    }

    /** memmove to the right; false where the source's assertion fails. */
    method RatingMoveBlock(pos: int, length: int, offset: int) returns (ok: bool)
      modifies rating
      ensures ok <==> length == 0 || offset == 0 ||
                      (0 <= pos < rating.Length && length > 0 && offset > 0 && pos + length + offset <= rating.Length)
      ensures length == 0 || offset == 0 ==> rating[..] == old(rating[..])
      ensures ok && length != 0 && offset != 0 ==> rating[..] == Shifted(old(rating[..]), pos, length, offset)
    {
      if length == 0 || offset == 0 { return true; }
      ok := 0 <= pos < rating.Length && length > 0 && offset > 0 && pos + length + offset <= rating.Length;
      if !ok { return; }
      forall i | pos <= i < pos + length {
        rating[i + offset] := rating[i];
      }
    }

    /** False where the source's assertion fails. */
    method RatingInsert(pos: int, value: FullUserData) returns (ok: bool)
      modifies rating
      ensures ok <==> 0 <= pos < rating.Length
      ensures ok ==> rating[..] == old(rating[..])[pos := value]
    {
      ok := 0 <= pos < rating.Length;
      if !ok { return; }
      rating[pos] := value;
    }

    /** Moves the block between the previous spot and this one. */
    method MoveToSpot(position: int, blockLength: int, offset: int,
                      ghost base: seq<FullUserData>, ghost f: nat, ghost t: seq<FullUserData>)
      returns (ok: bool)
      requires Layout(rating[..], base, f, t)
      requires 0 <= position <= f && blockLength == f - position && offset == rating.Length - |t| - f
      modifies rating
      ensures ok <==> blockLength == 0 || offset >= 0
      ensures ok ==> Layout(rating[..], base, position, base[position..f] + t)
    {
      ghost var a := rating[..];
      ok := RatingMoveBlock(position, blockLength, offset);
      if blockLength == 0 {
        EmptyMoveKeepsLayout(a, base, f, t);
      } else if ok {
        MoveKeepsLayout(a, base, f, t, position);
        if offset == 0 { assert Shifted(a, position, blockLength, offset) == a; }
      }
    }

    /** Takes a user out of the rating: the block moves, the old place is skipped. */
    method ApplyOldPosition(position: int, blockLength: int, offset: int,
                            ghost base: seq<FullUserData>, ghost f: nat, ghost t: seq<FullUserData>)
      returns (ok: bool)
      requires Layout(rating[..], base, f, t)
      requires 0 < position <= f && blockLength == f - position && offset == rating.Length - |t| - f
      modifies rating
      ensures ok <==> blockLength == 0 || offset >= 0
      ensures ok ==> Layout(rating[..], base, position - 1, base[position..f] + t)
    {
      ok := MoveToSpot(position, blockLength, offset, base, f, t);
      if ok { ShorterLayout(rating[..], base, position, base[position..f] + t); }
    }

    /** Puts a user in: the block moves, the user goes in front of it, the winnings are updated. */
    method ApplyNewPosition(position: int, blockLength: int, offset: int, userData: FullUserData, amount: Money,
                            ghost base: seq<FullUserData>, ghost f: nat, ghost t: seq<FullUserData>)
      returns (ok: bool)
      requires Layout(rating[..], base, f, t)
      requires 0 <= position <= f && blockLength == f - position && offset == rating.Length - |t| - f
      requires blockLength + |t| < rating.Length
      modifies rating, userData`amountWon
      ensures ok <==> blockLength == 0 || offset >= 0
      ensures ok ==> Layout(rating[..], base, position, [userData] + (base[position..f] + t))
      ensures ok ==> userData.amountWon == amount
    {
      ok := MoveToSpot(position, blockLength, offset, base, f, t);
      if !ok { return; }
      ghost var a, s := rating[..], base[position..f] + t;
      var spot := position + offset - 1;
      assert spot == |a| - |s| - 1;
      InsertKeepsLayout(a, base, position, s, userData);
      ok := RatingInsert(spot, userData);
      assert rating[..] == a[|a| - |s| - 1 := userData];
      userData.amountWon := amount;
    }

    /** One patch: the block in front of its spot moves, then the old place is skipped or the new one filled. */
    method ApplyPatch(ratingPatch: RatingPatchEntry, oldSize: nat, lengthDone: int, oldPositions: int, offset: int,
                      ghost base: seq<FullUserData>, ghost ps: seq<RatingPatchEntry>, ghost k: nat)
      returns (ok: bool, lengthDone': int, oldPositions': int, offset': int)
      requires Placed(|base|, ps) && k < |ps| && ps[k] == ratingPatch
      requires oldSize == |base| && rating.Length == |Patched(base, ps)|
      requires WalkAt(rating[..], base, ps, k, lengthDone + oldPositions, offset)
      modifies rating, (if ratingPatch.NewPosition? then {ratingPatch.userData} else {})`amountWon
      ensures ok <==> BlockMovesRight(base, ps, rating.Length, k)
      ensures ok ==> WalkAt(rating[..], base, ps, k + 1, lengthDone' + oldPositions', offset')
      ensures ok && ratingPatch.NewPosition? ==> ratingPatch.userData.amountWon == ratingPatch.amountWon
    {
      ghost var f, t := Frontier(|base|, ps, k), Tail(base, ps, k);
      TailStep(base, ps, k);
      TailIsSuffix(base, ps, k + 1);
      var position := oldSize - ratingPatch.elementsAfter;
      var blockLength := ratingPatch.elementsAfter - lengthDone - oldPositions;
      lengthDone', oldPositions' := lengthDone + blockLength, oldPositions;
      if ratingPatch.OldPosition? {
        oldPositions' := oldPositions + 1;
        ok := ApplyOldPosition(position, blockLength, offset, base, f, t);
        offset' := offset + 1;
      } else {
        ok := ApplyNewPosition(position, blockLength, offset, ratingPatch.userData, ratingPatch.amountWon, base, f, t);
        offset' := offset - 1;
      }
    }

    /** The amounts of the users placed by the first `k` patches are the new ones. */
    static ghost predicate Credited(b: Batch, ps: seq<RatingPatchEntry>, k: nat)
      reads b.totals.Keys`amountWon
    {
      forall j {:trigger ps[j]} :: 0 <= j < k && j < |ps| && ps[j].NewPosition? && ps[j].userData in b.totals ==>
                 ps[j].userData.amountWon == b.totals[ps[j].userData]
    }

    static lemma AllCredited(b: Batch, ps: seq<RatingPatchEntry>)
      requires IsPatchList(b, ps) && Credited(b, ps, |ps|)
      ensures forall u :: u in b.totals ==> u.amountWon == b.totals[u]
    {
      forall u | u in b.totals
        ensures u.amountWon == b.totals[u]
      {
        assert HasNew(ps, u);
        var j :| 0 <= j < |ps| && IsNewOf(ps[j], u);
      }
    }

    /** One patch of a list, with the amount it sets. */
    method ApplyPatchOf(k: nat, oldSize: nat, lengthDone: int, oldPositions: int, offset: int, ghost b: Batch)
      returns (ok: bool, lengthDone': int, oldPositions': int, offset': int)
      requires Placed(|b.base|, ratingPatches) && k < |ratingPatches| && PatchOf(b, ratingPatches[k])
      requires oldSize == |b.base| && rating.Length == |Patched(b.base, ratingPatches)|
      requires WalkAt(rating[..], b.base, ratingPatches, k, lengthDone + oldPositions, offset)
      requires MovedRight(b.base, ratingPatches, rating.Length, k) && Credited(b, ratingPatches, k)
      modifies rating, b.totals.Keys`amountWon
      ensures ok ==> WalkAt(rating[..], b.base, ratingPatches, k + 1, lengthDone' + oldPositions', offset')
      ensures ok ==> MovedRight(b.base, ratingPatches, rating.Length, k + 1) && Credited(b, ratingPatches, k + 1)
      ensures !ok ==> !MovesRight(b.base, ratingPatches, rating.Length)
    {
      ok, lengthDone', oldPositions', offset' :=
        ApplyPatch(ratingPatches[k], oldSize, lengthDone, oldPositions, offset, b.base, ratingPatches, k);
    }

    /** The loop over the patches, on a rating that has its new size already. */
    method WalkPatches(oldRatingVectorSize: nat, ghost b: Batch) returns (ok: bool)
      requires Placed(|b.base|, ratingPatches) && oldRatingVectorSize == |b.base|
      requires forall k {:trigger PatchOf(b, ratingPatches[k])} :: 0 <= k < |ratingPatches| ==> PatchOf(b, ratingPatches[k])
      requires rating.Length == |Patched(b.base, ratingPatches)|
      requires WalkAt(rating[..], b.base, ratingPatches, 0, 0, freshRatings)
      modifies rating, b.totals.Keys`amountWon
      ensures ok <==> MovesRight(b.base, ratingPatches, rating.Length)
      ensures ok ==> rating[..] == Patched(b.base, ratingPatches) && Credited(b, ratingPatches, |ratingPatches|)
    {
      var oldPositions, lengthDone := 0, 0;
      var offset: int := freshRatings;
      ok := true;
      for k := 0 to |ratingPatches|
        invariant WalkAt(rating[..], b.base, ratingPatches, k, lengthDone + oldPositions, offset)
        invariant MovedRight(b.base, ratingPatches, rating.Length, k) && Credited(b, ratingPatches, k)
      {
        assert PatchOf(b, ratingPatches[k]);
        ok, lengthDone, oldPositions, offset := ApplyPatchOf(k, oldRatingVectorSize, lengthDone, oldPositions, offset, b);
        if !ok { return; }
      }
      WalkEnds(rating[..], b.base, ratingPatches, lengthDone + oldPositions, offset);
    }

    /**
     The right-to-left pass over the patches, in place. It gets to the end exactly if the batch
     lifts nobody it does not touch; then the rating is the patched one.
     */
    method ApplyPatches(ghost b: Batch) returns (ok: bool)
      requires b.Valid() && IsPatchList(b, ratingPatches) && rating[..] == b.base
      requires freshRatings == NetNew(ratingPatches)
      modifies this`rating, b.totals.Keys`amountWon
      ensures Placed(|b.base|, ratingPatches) && fresh(rating)
      ensures ok <==> b.NobodyRises(Patched(b.base, ratingPatches))
      ensures ok ==> rating[..] == Patched(b.base, ratingPatches)
      ensures ok ==> forall u :: u in b.totals ==> u.amountWon == b.totals[u]
    {
      PatchSizes(b, ratingPatches);
      var oldRatingVectorSize := rating.Length;
      ResizeRating(oldRatingVectorSize + freshRatings);
      ok := WalkPatches(oldRatingVectorSize, b);
      if ok { AllCredited(b, ratingPatches); }
    }

    // ----------------------------------------------------------------------------------------
    // The whole recalculation
    // ----------------------------------------------------------------------------------------

    /** Everybody's place is written down. */
    method RatingRefreshPositions(ghost s: seq<FullUserData>)
      requires rating[..] == s && Distinct(s)
      modifies Elements(s)`rating
      ensures forall i :: 0 <= i < |s| ==> s[i].rating == i
    {
      for pos := 0 to rating.Length
        invariant forall i :: 0 <= i < pos ==> s[i].rating == i
      {
        assert rating[pos] == s[pos] && s[pos] in Elements(s);
        rating[pos].rating := pos;
      }
    }

    /** The users have the amounts after the batch. */
    static ghost predicate AmountsOk(b: Batch)
      requires b.Valid()
      reads b.index.Keys`amountWon, b.totals.Keys`amountWon
    {
      && (forall u :: u in b.totals ==> u.amountWon == b.totals[u])
      && (forall u :: u in b.index && u !in b.totals ==> u.amountWon == b.before[b.index[u]])
    }

    /** The new ranking, with all places and amounts written down, is a good rating. */
    lemma RankingIsRating(b: Batch, s: seq<FullUserData>)
      requires b.Valid() && PlacesOk(users, b) && AmountsOk(b)
      requires b.IsRanking(s) && rating[..] == s && forall i :: 0 <= i < |s| ==> s[i].rating == i
      ensures RatingOk()
    {
      forall i | 0 <= i < rating.Length
        ensures rating[i] != null && rating[i] in users && rating[i].rating == i
      {
        assert rating[i] == s[i] && b.Ranked(s[i]);
      }
      forall u | u in users
        ensures 0 <= u.rating < rating.Length && rating[u.rating] == u
      {
        assert b.Ranked(u);
        var i :| 0 <= i < |s| && s[i] == u;
        assert rating[i] == u;
      }
      forall i, j | 0 <= i < j < rating.Length
        ensures rating[i].amountWon >= rating[j].amountWon
      {
        assert rating[i] == s[i] && rating[j] == s[j] && b.Before(s[i], s[j]);
        assert b.After(s[i]) >= b.After(s[j]);
      }
    }

    /** `before` has the names and seconds of all users, and the totals from before the deals. */
    ghost predicate Expecting(b: Batch, deals: map<Id, Money>, before: CoreState)
      reads this`silentUsers, this`activeUsers, this`users, users`name, users`secondConnected
    {
      && before.Keys == silentUsers.Keys + activeUsers.Keys
      && (forall id :: id in silentUsers ==> id !in deals)
      && (forall id :: id in silentUsers ==>
                         before[id] == UserState(silentUsers[id].name, silentUsers[id].secondConnected, None))
      && (forall u :: u in users ==>
                        && u.id in before && before[u.id] == UserState(u.name, u.secondConnected, before[u.id].total)
                        && if u in b.totals then u.id in deals && b.totals[u] == Won(before[u.id]) + deals[u.id]
                           else
                             && u.id !in deals && u in b.index && 0 <= b.index[u] < |b.before|
                             && before[u.id].total == Some(b.before[b.index[u]]))
    }

    lemma AllDone(b: Batch, deals: map<Id, Money>)
      requires Preparing(b, deals) && forall id :: id in deals ==> IsDone(b, id)
      ensures Expecting(b, deals, known)
    {
      forall id | id in silentUsers
        ensures id !in deals
      {
        assert !IsDone(b, id);
      }
      forall u | u in users && u !in b.totals
        ensures u.id !in deals && u in b.index && 0 <= b.index[u] < |b.before|
        ensures known[u.id].total == Some(b.before[b.index[u]])
      {
        assert IsDone(b, u.id) ==> u in b.totals;
        assert b.base[b.index[u]] == u;
      }
    }

    /** The users have been credited with their deals. */
    lemma CreditIsKnown(b: Batch, deals: map<Id, Money>, before: CoreState)
      requires ActiveOk() && b.Valid() && AmountsOk(b) && Expecting(b, deals, before) && known == Credit(before, deals)
      ensures KnownOk()
    {
    }

    /** The pass, with amounts: users outside the batch keep theirs. */
    method ApplyBatch(ghost b: Batch) returns (ok: bool, ghost s: seq<FullUserData>)
      requires b.Valid() && IsPatchList(b, ratingPatches) && BasedOn(b.base, b.before)
      requires freshRatings == NetNew(ratingPatches)
      modifies this`rating, b.totals.Keys`amountWon
      ensures b.IsRanking(s)
      ensures ok <==> b.NobodyRises(s)
      ensures ok ==> rating[..] == s && AmountsOk(b)
    {
      PatchedIsRanking(b, ratingPatches);
      s := Patched(b.base, ratingPatches);
      forall u | u in b.index
        ensures u.amountWon == b.before[b.index[u]]
      {
        assert b.base[b.index[u]] == u;
      }
      ok := ApplyPatches(b);
    }

    /** What comes after the preparation: the pass, and the new places. */
    method Rerank(ghost b: Batch) returns (ok: bool, ghost s: seq<FullUserData>)
      requires b.Valid() && IsPatchList(b, ratingPatches) && BasedOn(b.base, b.before)
      requires freshRatings == NetNew(ratingPatches) && PlacesOk(users, b)
      modifies this`rating, users`amountWon, users`rating
      ensures b.IsRanking(s)
      ensures ok <==> b.NobodyRises(s)
      ensures ok ==> RatingOk() && rating[..] == s && AmountsOk(b)
    {
      ok, s := ApplyBatch(b);
      if !ok { return; }
      forall u | u in s
        ensures u in users
      {
        assert b.Ranked(u);
      }
      SortedDistinct(b, s);
      RatingRefreshPositions(s);
      RankingIsRating(b, s);
    }

    method Rebuild(ghost b: Batch, ghost deals: map<Id, Money>) returns (ok: bool, ghost s: seq<FullUserData>)
      requires UsersOk() && OnlineOk() && Expecting(b, deals, known)
      requires b.Valid() && IsPatchList(b, ratingPatches) && BasedOn(b.base, b.before)
      requires freshRatings == NetNew(ratingPatches) && PlacesOk(users, b)
      modifies this`rating, users`amountWon, users`rating
      ensures b.IsRanking(s)
      ensures ok <==> b.NobodyRises(s)
      ensures UsersOk() && OnlineOk() && Expecting(b, deals, known)
      ensures ok ==> RatingOk() && rating[..] == s && AmountsOk(b)
    {
      ok, s := Rerank(b);
    }

    ghost method NoteCredits(b: Batch, deals: map<Id, Money>)
      requires UsersOk() && OnlineOk() && RatingOk() && Expecting(b, deals, known)
      requires b.Valid() && AmountsOk(b)
      modifies this`known
      ensures Valid()
      ensures known == Credit(old(known), deals)
    {
      known := Credit(known, deals);
      CreditIsKnown(b, deals, old(known));
    }

    /** New names and connections. */
    method ProcessChanges(buffer: IncomingDataBuffer)
      requires Valid()
      modifies this`silentUsers, this`usersOnline, this`errors, this`known
      modifies users`name, users`secondConnected
      modifies buffer`usersRenamed, buffer`connectionChanges
      ensures Valid()
      ensures Books(known, errors) == ConnectStage(RenameStage(old(Books(known, errors)), old(buffer.Value()).renamed),
                                                   old(buffer.Value()).connections)
      ensures buffer.Value() == old(buffer.Value()).(renamed := map[], connections := map[])
    {
      ProcessRenames(buffer);
      ProcessConnectionChanges(buffer);
    }

    /** Everything in the buffer but the deals. */
    method ProcessUsers(buffer: IncomingDataBuffer)
      requires Valid()
      modifies this`silentUsers, this`usersOnline, this`errors, this`known
      modifies users`name, users`secondConnected
      modifies buffer`usersRegistered, buffer`usersRenamed, buffer`connectionChanges
      ensures Valid()
      ensures Books(known, errors) == UpdateStages(old(Books(known, errors)), old(buffer.Value()))
      ensures buffer.Value() == EMPTY.(deals := old(buffer.Value()).deals)
    {
      ProcessRegistrations(buffer);
      ProcessChanges(buffer);
    }

    ghost predicate RatedAsKnown()
      reads this`known, this`rating, rating, set i | 0 <= i < rating.Length :: rating[i]
    {
      forall i :: 0 <= i < rating.Length ==>
                    rating[i] != null && rating[i].id in known && known[rating[i].id].total == Some(rating[i].amountWon)
    }

    lemma ExpectingBatch(b: Batch, deals: map<Id, Money>)
      requires UsersOk() && b.Valid() && PlacesOk(users, b) && BasedOn(b.base, b.before)
      requires Expecting(b, deals, known) && RatedAsKnown()
      ensures BatchOf(b, known, deals)
    {
      forall u | u in b.index
        ensures u.id in known && known[u.id].total == Some(b.before[b.index[u]])
      {
        assert b.base[b.index[u]] == u && rating[b.index[u]] == u;
      }
      forall id | id in deals && id in known
        ensures exists u :: u in b.totals && u.id == id
      {
        assert activeUsers[id] in b.totals;
      }
    }

    /** The deals, turned into patches. */
    method PreparePatches(buffer: IncomingDataBuffer) returns (ghost b: Batch)
      requires Valid() && ratingPatches == [] && freshRatings == 0
      modifies this`silentUsers, this`activeUsers, this`users, this`usersOnline
      modifies this`errors, this`ratingPatches, this`freshRatings, buffer`dealsWon
      ensures UsersOk() && OnlineOk() && Expecting(b, old(buffer.Value()).deals, known)
      ensures b.Valid() && IsPatchList(b, ratingPatches) && BasedOn(b.base, b.before)
      ensures freshRatings == NetNew(ratingPatches) && PlacesOk(users, b)
      ensures BatchOf(b, known, old(buffer.Value()).deals)
      ensures forall u :: u in users ==> u in old(users) || fresh(u)
      ensures errors == old(errors) + UnrecognizedErrors(SortedIds(old(buffer.Value()).deals.Keys), known.Keys)
      ensures buffer.Value() == old(buffer.Value()).(deals := map[])
    {
      assert RatedAsKnown();
      b := ProcessDeals(buffer);
      AllDone(b, old(buffer.Value()).deals);
      ExpectingBatch(b, old(buffer.Value()).deals);
    }

    /** The pass, the new places, and the books. */
    method Finish(ghost b: Batch, ghost deals: map<Id, Money>) returns (ok: bool, ghost s: seq<FullUserData>)
      requires UsersOk() && OnlineOk() && Expecting(b, deals, known)
      requires b.Valid() && IsPatchList(b, ratingPatches) && BasedOn(b.base, b.before)
      requires freshRatings == NetNew(ratingPatches) && PlacesOk(users, b)
      modifies this`rating, this`known, users`amountWon, users`rating
      ensures b.IsRanking(s) && (ok <==> b.NobodyRises(s))
      ensures ok ==> Valid() && rating[..] == s && Books(known, errors) == Books(Credit(old(known), deals), old(errors))
    {
      ok, s := Rebuild(b, deals);
      if ok { NoteCredits(b, deals); }
    }

    /** The deals: patches first, then the pass. */
    method ProcessDealsAndRating(buffer: IncomingDataBuffer) returns (ok: bool, ghost b: Batch, ghost s: seq<FullUserData>)
      requires Valid() && ratingPatches == [] && freshRatings == 0
      modifies this`silentUsers, this`activeUsers, this`users, this`usersOnline, this`rating, this`errors, this`known
      modifies this`ratingPatches, this`freshRatings, buffer`dealsWon, users`amountWon, users`rating
      ensures b.Valid() && b.base == old(rating[..]) && BatchOf(b, old(known), old(buffer.Value()).deals)
      ensures b.IsRanking(s) && (ok <==> b.NobodyRises(s))
      ensures ok ==> Valid() && rating[..] == s
      ensures ok ==> Books(known, errors) == CreditStage(old(Books(known, errors)), old(buffer.Value()).deals)
      ensures buffer.Value() == old(buffer.Value()).(deals := map[])
      ensures forall u :: u in users ==> u in old(users) || fresh(u)
    {
      b := PreparePatches(buffer);
      ok, s := Finish(b, old(buffer.Value()).deals);
    }

    /** A recalculation without a drop; `mid` is what is known when the deals begin. */
    method RecalculateKeeping(buffer: IncomingDataBuffer)
      returns (ok: bool, ghost mid: Books, ghost b: Batch, ghost s: seq<FullUserData>)
      requires Valid() && ratingPatches == [] && freshRatings == 0
      modifies this, buffer, users
      ensures mid == UpdateStages(old(Books(known, errors)), old(buffer.Value()))
      ensures b.Valid() && b.base == old(rating[..]) && BatchOf(b, mid.known, old(buffer.Value()).deals)
      ensures b.IsRanking(s) && (ok <==> b.NobodyRises(s))
      ensures ok ==> Valid() && rating[..] == s && Books(known, errors) == CreditStage(mid, old(buffer.Value()).deals)
      ensures buffer.Value() == EMPTY
      ensures forall u :: u in users ==> u in old(users) || fresh(u)
    {
      ProcessUsers(buffer);
      mid := Books(known, errors);
      ok, b, s := ProcessDealsAndRating(buffer);
    }

    /** No patches yet, and no rating if it is to be dropped. */
    method Begin(dropOldRating: bool)
      requires Valid()
      modifies this`silentUsers, this`activeUsers, this`users, this`usersOnline, this`rating, this`known
      modifies this`ratingPatches, this`freshRatings
      ensures Valid() && ratingPatches == [] && freshRatings == 0 && users <= old(users)
      ensures Books(known, errors) == Books(Start(old(known), dropOldRating), old(errors))
      ensures rating[..] == if dropOldRating then [] else old(rating[..])
    {
      ratingPatches, freshRatings := [], 0;
      if dropOldRating {
        DropRating();
      }
    }

    /**
     The recalculation. `b` is the batch of deals on top of the rating, `s` the ranking sorted by
     the new amounts. It fails on an assertion exactly if a user the batch leaves alone would
     have to move up, which takes a deal that is not positive.
     */
    method Recalculate(dropOldRating: bool, buffer: IncomingDataBuffer)
      returns (ok: bool, ghost b: Batch, ghost s: seq<FullUserData>)
      requires Valid()
      modifies this, buffer, users
      ensures var start, was := Books(Start(old(known), dropOldRating), old(errors)), old(buffer.Value());
              && BatchOf(b, UpdateStages(start, was).known, was.deals)
              && (ok ==> Valid() && rating[..] == s && Books(known, errors) == AllStages(start, was))
              && ((forall id :: id in was.deals ==> was.deals[id] > 0) ==> ok)
      ensures b.Valid() && b.base == if dropOldRating then [] else old(rating[..])
      ensures b.IsRanking(s) && (ok <==> b.NobodyRises(s))
      ensures buffer.Value() == EMPTY
      ensures forall u :: u in users ==> u in old(users) || fresh(u)
    {
      Begin(dropOldRating);
      ghost var mid;
      ok, mid, b, s := RecalculateKeeping(buffer);
      if forall id :: id in old(buffer.Value()).deals ==> old(buffer.Value()).deals[id] > 0 {
        PositiveDeals(b, mid.known, old(buffer.Value()).deals, s);
      }
    }
  }
}
