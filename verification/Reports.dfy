/**
 What a worker reports to a user from the recalculated core data (service/worker_pool.cpp): the rating
 message, put on the users and places of the rating calculator.
 */
module Reports {
  import opened Users
  import opened Incoming
  import opened Batching
  import opened BinaryStorage
  import opened Transport
  import opened RatingCalculator
  import opened RatingMessage

  // ------------------------------------------------------------------------------------------
  // The widths of the service's types
  // ------------------------------------------------------------------------------------------

  /** Ids are `int`, and the protocol has one byte for the length of a name. */
  predicate FitsWire(id: Id, name: Name) {
    FitsSigned(id, 4) && |name| < 256
  }

  predicate MessageFits(m: Message) {
    && (m.UserRegistered? ==> FitsWire(m.id, m.name))
    && (m.UserRenamed? ==> |m.name| < 256)
  }

  ghost predicate NamesFit(known: CoreState) {
    forall id :: id in known ==> FitsWire(id, known[id].name)
  }

  ghost predicate AmountsFit(known: CoreState) {
    forall id :: id in known && known[id].total.Some? ==> FitsSigned(known[id].total.value, MONETARY_SIZE)
  }

  lemma {:induction false} FoldFits(msgs: seq<Message>)
    requires forall i :: 0 <= i < |msgs| ==> MessageFits(msgs[i])
    ensures forall id :: id in FoldAll(msgs).registered ==> FitsWire(id, FoldAll(msgs).registered[id])
    ensures forall id :: id in FoldAll(msgs).renamed ==> |FoldAll(msgs).renamed[id]| < 256
  {
    if msgs != [] {
      assert MessageFits(msgs[|msgs| - 1]);
      FoldFits(msgs[..|msgs| - 1]);
    }
  }

  ghost predicate MinuteFits(minute: Minute) {
    forall i :: 0 <= i < |minute.messages| ==> MessageFits(minute.messages[i])
  }

  /** As the messages fit, ids and names always do. */
  lemma {:induction false} KnownFits(minutes: seq<Minute>)
    requires forall k :: 0 <= k < |minutes| ==> MinuteFits(minutes[k])
    ensures NamesFit(AfterMinutes(map[], minutes))
  {
    if minutes != [] {
      var before, last := minutes[..|minutes| - 1], minutes[|minutes| - 1];
      KnownFits(before);
      assert MinuteFits(last);
      FoldFits(last.messages);
      forall id | id in AfterMinutes(map[], minutes)
        ensures FitsWire(id, AfterMinutes(map[], minutes)[id].name)
      {
        RecalculatedAt(Start(AfterMinutes(map[], before), last.dropOldRating), FoldAll(last.messages), id);
      }
    }
  }

  // ------------------------------------------------------------------------------------------
  // The rating as a worker reads it
  // ------------------------------------------------------------------------------------------

  /** The users of the rating, place by place. */
  ghost predicate Shows(c: RatingCalculatorImpl, es: seq<Entry>)
    requires c.Valid()
    reads c, c.rating, c.users
  {
    |es| == c.rating.Length
    && forall i :: 0 <= i < |es| ==> es[i] == Entry(c.rating[i].id, c.rating[i].amountWon, c.rating[i].name)
  }

  lemma RatingIsStorable(c: RatingCalculatorImpl, es: seq<Entry>)
    requires c.Valid() && Shows(c, es) && NamesFit(c.known) && AmountsFit(c.known)
    ensures AllStorable(es)
  {
    forall i | 0 <= i < |es|
      ensures Storable(es[i])
    {
      assert c.rating[i] in c.users;
    }
  }

  /** Reading back the message to a user with a place in the rating: the user's line is in it. */
  lemma LineAt(es: seq<Entry>, place: nat, rest: seq<Byte>) returns (pack: Pack, k: nat)
    requires AllStorable(es) && place < |es| && FitsSigned(|es|, 4)
    ensures FitsSigned(es[place].id, 4)
    ensures TakePack(Payload(es, es[place].id, place)[1..] + rest) == Some(Parsed(pack, rest))
    ensures pack.userId == es[place].id && pack.ratingPos == place && pack.ratingLength == |es|
    ensures k < |pack.ratings| && pack.ratings[k] == es[place] && PlaceOf(|es|, place, k) == place
  {
    assert Storable(es[place]);
    PackRoundTrip(es, es[place].id, place, rest);
    pack := Pack(es[place].id, |es|, place, Selected(es, place));
    WhoIsShown(es, place);
    assert IsShown(|es|, place, |pack.ratings|, place) <==> IsNear(place, place);
    k :| 0 <= k < |pack.ratings| && PlaceOf(|es|, place, k) == place;
  }

  lemma MoreIsInFront(c: RatingCalculatorImpl, u: FullUserData, v: FullUserData)
    requires c.Valid() && u in c.users && v in c.users && v.amountWon > u.amountWon
    ensures v.rating < u.rating
  {
    assert c.rating[v.rating] == v && c.rating[u.rating] == u;
  }

  /** The message to an active user: the own place, and the own line among the lines; nobody with more is behind. */
  lemma OwnLine(c: RatingCalculatorImpl, es: seq<Entry>, u: FullUserData, rest: seq<Byte>) returns (pack: Pack, k: nat)
    requires c.Valid() && Shows(c, es) && NamesFit(c.known) && AmountsFit(c.known) && FitsSigned(|es|, 4)
    requires u in c.users
    ensures AllStorable(es) && FitsSigned(u.id, 4) && 0 <= u.rating < |es|
    ensures TakePack(Payload(es, u.id, u.rating)[1..] + rest) == Some(Parsed(pack, rest))
    ensures pack.userId == u.id && pack.ratingPos == u.rating && pack.ratingLength == c.rating.Length
    ensures k < |pack.ratings| && pack.ratings[k] == Entry(u.id, u.amountWon, u.name)
    ensures PlaceOf(|es|, u.rating, k) == u.rating
    ensures forall v :: v in c.users && v.amountWon > u.amountWon ==> v.rating < u.rating
  {
    RatingIsStorable(c, es);
    assert c.rating[u.rating] == u;
    pack, k := LineAt(es, u.rating, rest);
    forall v | v in c.users && v.amountWon > u.amountWon
      ensures v.rating < u.rating
    {
      MoreIsInFront(c, u, v);
    }
  }

  /** The place in the message to a user: behind the last one if the user has no place yet. */
  ghost function ReportedPlace(c: RatingCalculatorImpl, id: Id): (place: nat)
    requires c.Valid()
    reads c, c.rating, c.users
    ensures place <= c.rating.Length
    ensures IsRated(c.known, id) <==> place < c.rating.Length
    ensures place < c.rating.Length ==> c.rating[place].id == id
  {
    if id in c.activeUsers then
      assert c.activeUsers[id] in c.users;
      c.activeUsers[id].rating
    else c.rating.Length
  }

  /** A job for a user given by id, on what the recalculation has left. */
  method ReportById(worker: RatingBufferData, c: RatingCalculatorImpl, es: seq<Entry>, id: Id, promised: bool)
    returns (found: bool)
    requires c.Valid() && Shows(c, es) && FitsSigned(|es|, 4)
    requires AllStorable(es) && worker.Cached(es) && FitsSigned(id, 4)
    modifies worker`sent, worker.buffer
    ensures worker.Cached(es)
    ensures found <==> id in c.known || promised
    ensures worker.sent == old(worker.sent) + if found then [Frame(Payload(es, id, ReportedPlace(c, id)))] else []
  {
    assert forall u :: u in c.activeUsers ==> c.activeUsers[u] in c.users;
    var places := map u: Id | u in c.activeUsers :: c.activeUsers[u].rating as nat;
    found := worker.ProcessRating(es, places, c.silentUsers.Keys, id, promised);
  }
}
