/**
 The service without its threads: minute by minute, messages are dispatched and the rating is
 recalculated (service/overseer.cpp, service/rating_announcer.cpp).
 */
module Service {
  import opened Users
  import opened Incoming
  import opened Batching
  import opened RankingOrder
  import opened RatingCalculator

  ghost predicate PositiveDeal(m: Message) {
    m.UserDealWon? ==> m.amount > 0
  }

  ghost predicate OnlyPositiveDeals(minute: Minute) {
    forall i :: 0 <= i < |minute.messages| ==> PositiveDeal(minute.messages[i])
  }

  lemma {:induction false} FoldIsPositive(msgs: seq<Message>)
    requires forall i :: 0 <= i < |msgs| ==> PositiveDeal(msgs[i])
    ensures forall id :: id in FoldAll(msgs).deals ==> FoldAll(msgs).deals[id] > 0
  {
    if msgs != [] {
      assert PositiveDeal(msgs[|msgs| - 1]);
      FoldIsPositive(msgs[..|msgs| - 1]);
    }
  }

  /** The messages of a minute are dispatched to an empty buffer. */
  method DispatchAll(dispatcher: MessageDispatcher, messages: seq<Message>)
    requires dispatcher.buffer.Value() == EMPTY
    modifies dispatcher`ratingJobs, dispatcher.buffer
    ensures dispatcher.buffer.Value() == FoldAll(messages)
  {
    for k := 0 to |messages|
      invariant dispatcher.buffer.Value() == FoldAll(messages[..k])
    {
      assert messages[..k + 1] == messages[..k] + [messages[k]];
      FoldAppend(messages[..k], messages[k]);
      dispatcher.Dispatch(messages[k]);
    }
    assert messages[..|messages|] == messages;
  }

  /** A batch of this minute's deals on top of the rating that moves somebody up whom it leaves alone. */
  ghost predicate Fails(b: Batch, s: seq<FullUserData>, known: CoreState, minute: Minute) {
    var was := FoldAll(minute.messages);
    && b.Valid() && b.IsRanking(s) && !b.NobodyRises(s)
    && BatchOf(b, Updated(Start(known, minute.dropOldRating), was), was.deals)
  }

  /** The recalculation of a minute whose messages are in the buffer. */
  method RecalculateMinute(calculator: RatingCalculatorImpl, buffer: IncomingDataBuffer, minute: Minute)
    returns (ok: bool, ghost b: Batch, ghost s: seq<FullUserData>)
    requires calculator.Valid() && buffer.Value() == FoldAll(minute.messages)
    modifies calculator, calculator.users, buffer
    ensures buffer.Value() == EMPTY
    ensures forall u :: u in calculator.users ==> u in old(calculator.users) || fresh(u)
    ensures ok ==> calculator.Valid() && calculator.known == AfterMinute(old(calculator.known), minute)
    ensures !ok ==> Fails(b, s, old(calculator.known), minute)
    ensures OnlyPositiveDeals(minute) ==> ok
  {
    StagesAreRecalculation(Books(Start(calculator.known, minute.dropOldRating), calculator.errors), FoldAll(minute.messages));
    ok, b, s := calculator.Recalculate(minute.dropOldRating, buffer);
    if OnlyPositiveDeals(minute) { FoldIsPositive(minute.messages); }
  }

  method ServeMinute(calculator: RatingCalculatorImpl, dispatcher: MessageDispatcher, minute: Minute)
    returns (ok: bool, ghost b: Batch, ghost s: seq<FullUserData>)
    requires calculator.Valid() && dispatcher.buffer.Value() == EMPTY
    modifies calculator, calculator.users, dispatcher`ratingJobs, dispatcher.buffer
    ensures dispatcher.buffer.Value() == EMPTY && dispatcher.buffer == old(dispatcher.buffer)
    ensures forall u :: u in calculator.users ==> u in old(calculator.users) || fresh(u)
    ensures ok ==> calculator.Valid() && calculator.known == AfterMinute(old(calculator.known), minute)
    ensures !ok ==> Fails(b, s, old(calculator.known), minute)
    ensures OnlyPositiveDeals(minute) ==> ok
  {
    DispatchAll(dispatcher, minute.messages);
    ok, b, s := RecalculateMinute(calculator, dispatcher.buffer, minute);
  }

  /**
   Any number of minutes: as long as no recalculation fails, all invariants hold and the users are
   those that the messages call for. One that fails has a batch that moves somebody up whom it leaves
   alone, and a deal that is not positive.
   */
  method Serve(calculator: RatingCalculatorImpl, dispatcher: MessageDispatcher, minutes: seq<Minute>)
    returns (served: nat, ghost b: Batch, ghost s: seq<FullUserData>)
    requires calculator.Valid() && dispatcher.buffer.Value() == EMPTY
    modifies calculator, calculator.users, dispatcher`ratingJobs, dispatcher.buffer
    ensures served <= |minutes|
    ensures served == |minutes| ==>
              calculator.Valid() && calculator.known == AfterMinutes(old(calculator.known), minutes)
    ensures served < |minutes| ==>
              Fails(b, s, AfterMinutes(old(calculator.known), minutes[..served]), minutes[served])
              && !OnlyPositiveDeals(minutes[served])
  {
    served, b, s := 0, Batch([], [], map[], map[]), [];
    while served < |minutes|
      invariant served <= |minutes| && calculator.Valid() && dispatcher.buffer.Value() == EMPTY
      invariant calculator.known == AfterMinutes(old(calculator.known), minutes[..served])
      invariant forall u :: u in calculator.users ==> u in old(calculator.users) || fresh(u)
    {
      assert minutes[..served + 1] == minutes[..served] + [minutes[served]];
      OneMoreMinute(old(calculator.known), minutes[..served], minutes[served]);
      var ok;
      ok, b, s := ServeMinute(calculator, dispatcher, minutes[served]);
      if !ok { return; }
      served := served + 1;
    }
    assert minutes[..|minutes|] == minutes;
  }

  // ------------------------------------------------------------------------------------------
  // Who gets a report each minute
  // ------------------------------------------------------------------------------------------

  lemma RegisteredAndConnected(id: Id, name: Name, second: Second)
    ensures AfterMinutes(map[], [Minute(false, [UserRegistered(id, name), UserConnected(id, second)])]) ==
            map[id := UserState(name, second, None)]
  {
    var m, c := UserRegistered(id, name), UserConnected(id, second);
    assert [Minute(false, [m, c])][..0] == [] && [m, c][..1] == [m] && [m][..0] == [];
    assert FoldAll([m]) == EMPTY.(registered := map[id := name]);
    assert FoldAll([m, c]) == EMPTY.(registered := map[id := name], connections := map[id := second]);
  }

  /** A user who has registered and connected, but made no deal, is not announced. */
  method ConnectedWithoutDeals(id: Id, name: Name, second: Second) returns (calculator: RatingCalculatorImpl)
    requires second < INVALID_SECOND
    ensures calculator.Valid() && calculator.known == map[id := UserState(name, second, None)]
    ensures forall s, u :: 0 <= s < INVALID_SECOND && u in calculator.usersOnline[s] ==> u.id != id
  {
    calculator := new RatingCalculatorImpl();
    var buffer := new IncomingDataBuffer();
    var dispatcher := new MessageDispatcher(buffer);
    var minutes := [Minute(false, [UserRegistered(id, name), UserConnected(id, second)])];
    var served, _, _ := Serve(calculator, dispatcher, minutes);
    RegisteredAndConnected(id, name, second);
    forall s | 0 <= s < INVALID_SECOND
      ensures forall u :: u in calculator.usersOnline[s] ==> u.id != id
    {
      calculator.WhoIsAnnounced(s, id);
    }
  }

  // ------------------------------------------------------------------------------------------
  // A recalculation that fails
  // ------------------------------------------------------------------------------------------

  /** A deal of nothing for a user with as much as the next one puts that one in front. */
  lemma TieIsBroken(b: Batch, s: seq<FullUserData>, known: CoreState, i: nat)
    requires b.Valid() && b.IsRanking(s) && i + 1 < |b.base|
    requires BatchOf(b, known, map[b.base[i].id := 0])
    requires known[b.base[i].id].total == known[b.base[i + 1].id].total && b.base[i].id != b.base[i + 1].id
    ensures !b.NobodyRises(s)
  {
    var u, v := b.base[i], b.base[i + 1];
    assert b.index[u] == i && b.index[v] == i + 1;
    assert u in b.totals && v !in b.totals;
    assert forall w :: w in b.totals ==> b.IdsTell(w, u);
    assert Overtakers(b, v) == {};
    assert u in Fallen(b, v);
    NobodyRisesExactly(b, s);
  }

  lemma OneDealOnly(known: CoreState, id: Id, amount: Money)
    ensures FoldAll([UserDealWon(id, amount)]) == EMPTY.(deals := map[id := amount])
    ensures Updated(known, EMPTY.(deals := map[id := amount])) == known
  {
    assert [UserDealWon(id, amount)][..0] == [];
    var r := Updated(known, EMPTY.(deals := map[id := amount]));
    assert r.Keys == known.Keys && forall u :: u in known ==> r[u] == known[u];
  }

  /**
   Whenever two neighbours in the rating have won the same, a minute with a deal of nothing for the
   first of them makes the recalculation fail on its assertion.
   */
  method ZeroDealFails(calculator: RatingCalculatorImpl, dispatcher: MessageDispatcher, i: nat)
    returns (ok: bool, ghost b: Batch, ghost s: seq<FullUserData>)
    requires calculator.Valid() && dispatcher.buffer.Value() == EMPTY
    requires i + 1 < calculator.rating.Length
    requires calculator.rating[i].amountWon == calculator.rating[i + 1].amountWon
    modifies calculator, calculator.users, dispatcher`ratingJobs, dispatcher.buffer
    ensures !ok && Fails(b, s, old(calculator.known), Minute(false, [UserDealWon(old(calculator.rating[i].id), 0)]))
  {
    var id := calculator.rating[i].id;
    ghost var known := calculator.known;
    ghost var next := calculator.rating[i + 1].id;
    assert calculator.rating[i] in calculator.users && calculator.rating[i + 1] in calculator.users;
    assert known[id].total == known[next].total;
    DispatchAll(dispatcher, [UserDealWon(id, 0)]);
    OneDealOnly(known, id, 0);
    StagesAreRecalculation(Books(known, calculator.errors), EMPTY.(deals := map[id := 0]));
    ok, b, s := calculator.Recalculate(false, dispatcher.buffer);
    TieIsBroken(b, s, known, i);
  }

  lemma TwoTraders(name: Name, amount: Money)
    ensures var m := [UserRegistered(1, name), UserRegistered(2, name), UserDealWon(1, amount), UserDealWon(2, amount)];
            var u := UserState(name, INVALID_SECOND, Some(amount));
            AfterMinute(map[], Minute(false, m)) == map[1 := u, 2 := u]
  {
    var m := [UserRegistered(1, name), UserRegistered(2, name), UserDealWon(1, amount), UserDealWon(2, amount)];
    var names := map[1 := name, 2 := name];
    assert m[..3][..2] == m[..2] && m[..2][..1] == m[..1] && m[..1][..0] == [];
    assert FoldAll(m[..1]) == EMPTY.(registered := map[1 := name]);
    assert FoldAll(m[..2]) == EMPTY.(registered := names);
    assert FoldAll(m[..3]) == EMPTY.(registered := names, deals := map[1 := amount]);
    assert FoldAll(m) == EMPTY.(registered := names, deals := map[1 := amount, 2 := amount]);
    RecalculatedAt(map[], FoldAll(m), 1);
    RecalculatedAt(map[], FoldAll(m), 2);
  }

  lemma TwoTied(calculator: RatingCalculatorImpl, u: UserState)
    requires calculator.Valid() && calculator.known == map[1 := u, 2 := u] && u.total.Some?
    ensures calculator.rating.Length > 1 && calculator.rating[0] != null && calculator.rating[1] != null
    ensures calculator.rating[0].amountWon == calculator.rating[1].amountWon
  {
    assert 1 in calculator.activeUsers && 2 in calculator.activeUsers;
    var one, two := calculator.activeUsers[1], calculator.activeUsers[2];
    assert one in calculator.users && two in calculator.users && one != two;
    assert one.rating != two.rating;
    assert calculator.rating[0] in calculator.users && calculator.rating[1] in calculator.users;
  }

  /** It takes two minutes: two traders win the same, then one of them nothing. */
  method ServiceFails(name: Name, amount: Money) returns (ok: bool, ghost b: Batch, ghost s: seq<FullUserData>)
    requires amount > 0
    ensures var u := UserState(name, INVALID_SECOND, Some(amount));
            !ok && exists id :: Fails(b, s, map[1 := u, 2 := u], Minute(false, [UserDealWon(id, 0)]))
  {
    var calculator := new RatingCalculatorImpl();
    var buffer := new IncomingDataBuffer();
    var dispatcher := new MessageDispatcher(buffer);
    var messages := [UserRegistered(1, name), UserRegistered(2, name), UserDealWon(1, amount), UserDealWon(2, amount)];
    ok, b, s := ServeMinute(calculator, dispatcher, Minute(false, messages));
    TwoTraders(name, amount);
    TwoTied(calculator, UserState(name, INVALID_SECOND, Some(amount)));
    ok, b, s := ZeroDealFails(calculator, dispatcher, 0);
  }
}
