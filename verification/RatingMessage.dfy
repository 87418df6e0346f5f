/**
 The rating message: how a worker builds it from a cache of the top positions
 (service/worker_pool.cpp), and how the client reads it (ipc/protocol.h).
 */
module RatingMessage {
  import opened Users
  import opened BinaryStorage
  import opened Transport

  const TOP_POSITIONS := 10
  const COMPETITION_DISTANCE := 10
  const USER_RATING: Byte := 2
  const INVALID_USER_ID := -1

  /** One line of the rating, as a worker reads it from a user. */
  datatype Entry = Entry(id: Id, winnings: Money, name: Name)

  /** The widths of the service's types. */
  predicate Storable(e: Entry) {
    FitsSigned(e.id, 4) && FitsSigned(e.winnings, MONETARY_SIZE) && |e.name| < 256
  }

  predicate AllStorable(es: seq<Entry>) {
    forall i :: 0 <= i < |es| ==> Storable(es[i])
  }

  function Header(id: Id, ratingLength: int, ratingPos: int): (bytes: seq<Byte>)
    requires FitsSigned(id, 4) && FitsSigned(ratingLength, 4) && FitsSigned(ratingPos, 4)
    ensures |bytes| == 12
  {
    Int(id, 4) + Int(ratingLength, 4) + Int(ratingPos, 4)
  }

  function EncodeEntry(e: Entry): (bytes: seq<Byte>)
    requires Storable(e)
    ensures |bytes| == 5 + MONETARY_SIZE + |e.name|
  {
    Int(e.id, 4) + Int(e.winnings, MONETARY_SIZE) + Buffer(e.name)
  }

  function EncodeEntries(es: seq<Entry>): (bytes: seq<Byte>)
    requires AllStorable(es)
    ensures |bytes| <= (260 + MONETARY_SIZE) * |es|
  {
    if es == [] then [] else EncodeEntries(es[..|es| - 1]) + EncodeEntry(es[|es| - 1])
  }

  // ------------------------------------------------------------------------------------------
  // Who is shown
  // ------------------------------------------------------------------------------------------

  function Min(a: int, b: int): int { if a <= b then a else b }

  function Max(a: int, b: int): int { if a >= b then a else b }

  function TopCount(ratingLength: nat): nat {
    Min(TOP_POSITIONS, ratingLength)
  }

  function RangeBegin(ratingPos: nat): nat {
    Max(TOP_POSITIONS, ratingPos - COMPETITION_DISTANCE)
  }

  function RangeEnd(ratingLength: nat, ratingPos: nat): nat {
    Min(ratingLength, ratingPos + COMPETITION_DISTANCE + 1)
  }

  /** What a loop from `begin` to `end` visits. */
  function Between(es: seq<Entry>, begin: nat, end: nat): (r: seq<Entry>)
    requires end <= |es|
    ensures |r| == Max(0, end - begin)
    ensures AllStorable(es) ==> AllStorable(r)
  {
    if begin < end then es[begin..end] else []
  }

  /** The top of the rating, and the surroundings of a position as far as they are below the top. */
  function Selected(rating: seq<Entry>, ratingPos: nat): (es: seq<Entry>)
    requires ratingPos <= |rating|
  {
    rating[..TopCount(|rating|)] + Between(rating, RangeBegin(ratingPos), RangeEnd(|rating|, ratingPos))
  }

  /** The place in the rating of the k-th line. */
  function PlaceOf(ratingLength: nat, ratingPos: nat, k: nat): nat {
    if k < TopCount(ratingLength) then k else RangeBegin(ratingPos) + k - TopCount(ratingLength)
  }

  /** The reader's count: top positions, competition above, competition below and the user. */
  function EntryCount(ratingLength: int, ratingPos: int): int {
    Min(TOP_POSITIONS, ratingPos)
    + (if ratingPos > TOP_POSITIONS then Min(ratingPos - TOP_POSITIONS, COMPETITION_DISTANCE) else 0)
    + Min(ratingLength - ratingPos, COMPETITION_DISTANCE + 1)
  }

  /** The reader expects as many lines as the writer writes, and never more than 31. */
  lemma CountsAgree(rating: seq<Entry>, ratingPos: nat)
    requires ratingPos <= |rating|
    ensures |Selected(rating, ratingPos)| == EntryCount(|rating|, ratingPos) <= 31
  {
  }

  /** Among the first ten places, or at most ten places away. */
  predicate IsNear(ratingPos: nat, i: nat) {
    i < 10 || ratingPos - 10 <= i <= ratingPos + 10
  }

  ghost predicate IsShown(ratingLength: nat, ratingPos: nat, lines: nat, i: nat) {
    exists k :: 0 <= k < lines && PlaceOf(ratingLength, ratingPos, k) == i
  }

  /** The lines are those of the first ten places and of the places at most ten away, once each and in order. */
  lemma WhoIsShown(rating: seq<Entry>, ratingPos: nat)
    requires ratingPos <= |rating|
    ensures var n, es := |rating|, Selected(rating, ratingPos);
            && (forall k :: 0 <= k < |es| ==> PlaceOf(n, ratingPos, k) < n && es[k] == rating[PlaceOf(n, ratingPos, k)])
            && (forall j, k :: 0 <= j < k < |es| ==> PlaceOf(n, ratingPos, j) < PlaceOf(n, ratingPos, k))
            && (forall i :: 0 <= i < n ==> (IsShown(n, ratingPos, |es|, i) <==> IsNear(ratingPos, i)))
  {
    var n, es := |rating|, Selected(rating, ratingPos);
    forall i | 0 <= i < n
      ensures IsShown(n, ratingPos, |es|, i) <==> IsNear(ratingPos, i)
    {
      if IsNear(ratingPos, i) {
        var k := if i < TOP_POSITIONS then i else i - RangeBegin(ratingPos) + TopCount(n);
        assert 0 <= k < |es| && PlaceOf(n, ratingPos, k) == i;
      }
    }
  }

  // ------------------------------------------------------------------------------------------
  // From scratch
  // ------------------------------------------------------------------------------------------

  /** The message code, the header and the lines. */
  function Payload(rating: seq<Entry>, id: Id, ratingPos: nat): (bytes: seq<Byte>)
    requires ratingPos <= |rating| && AllStorable(rating) && FitsSigned(id, 4) && FitsSigned(|rating|, 4)
  {
    assert AllStorable(Selected(rating, ratingPos));
    [USER_RATING] + Header(id, |rating|, ratingPos) + EncodeEntries(Selected(rating, ratingPos))
  }

  /** Every frame fits its size field, so the size is not cut off. */
  lemma FrameFits(rating: seq<Entry>, id: Id, ratingPos: nat)
    requires ratingPos <= |rating| && AllStorable(rating) && FitsSigned(id, 4) && FitsSigned(|rating|, 4)
    ensures var frame := Frame(Payload(rating, id, ratingPos));
            |frame| <= 15 + 31 * (260 + MONETARY_SIZE) && Number(frame[..2]) == |frame|
  {
    CountsAgree(rating, ratingPos);
    var payload := Payload(rating, id, ratingPos);
    SizeFits(2 + |payload|);
    assert Frame(payload)[..2] == Digits(2 + |payload|, 2);
  }

  /** Byte by byte: size, code, user, length of the rating, place; then the lines. */
  lemma OnTheWire(rating: seq<Entry>, id: Id, ratingPos: nat)
    requires ratingPos <= |rating| && AllStorable(rating) && FitsSigned(id, 4) && FitsSigned(|rating|, 4)
    ensures var f := Frame(Payload(rating, id, ratingPos));
            && |f| >= 15 && IsShort(f[..2], |f|) && f[2] == 2 && IsWord(f[3..7], id)
            && IsWord(f[7..11], |rating|) && IsWord(f[11..15], ratingPos)
            && AllStorable(Selected(rating, ratingPos)) && f[15..] == EncodeEntries(Selected(rating, ratingPos))
  {
    FrameFits(rating, id, ratingPos);
    var f, lines := Frame(Payload(rating, id, ratingPos)), EncodeEntries(Selected(rating, ratingPos));
    Slices(Digits(|f|, 2), Int(id, 4), Int(|rating|, 4), Int(ratingPos, 4), lines);
    ShortLayout(|f|);
    WordLayout(id);
    WordLayout(|rating|);
    WordLayout(ratingPos);
  }

  lemma Slices(size: seq<Byte>, a: seq<Byte>, b: seq<Byte>, c: seq<Byte>, lines: seq<Byte>)
    requires |size| == 2 && |a| == |b| == |c| == 4
    ensures var f := size + ([USER_RATING] + (a + b + c) + lines);
            f[..2] == size && f[2] == USER_RATING && f[3..7] == a && f[7..11] == b && f[11..15] == c && f[15..] == lines
  {
  }

  /** A line: id, amount, and the name behind its length. */
  lemma LineOnTheWire(e: Entry)
    requires Storable(e)
    ensures var l := EncodeEntry(e);
            && IsWord(l[..4], e.id) && IsAmount(l[4..4 + MONETARY_SIZE], e.winnings)
            && l[4 + MONETARY_SIZE..] == [|e.name| as Byte] + e.name
  {
    WordLayout(e.id);
    AmountLayout(e.winnings);
    var l := EncodeEntry(e);
    assert l[..4] == Int(e.id, 4) && l[4..4 + MONETARY_SIZE] == Int(e.winnings, MONETARY_SIZE);
  }

  lemma {:induction false} EncodeConcat(a: seq<Entry>, b: seq<Entry>)
    requires AllStorable(a) && AllStorable(b)
    ensures AllStorable(a + b) && EncodeEntries(a + b) == EncodeEntries(a) + EncodeEntries(b)
  {
    if b == [] {
      assert a + b == a;
    } else {
      var init, last := b[..|b| - 1], b[|b| - 1];
      assert AllStorable(a + b);
      assert (a + b)[..|a + b| - 1] == a + init && (a + b)[|a + b| - 1] == last;
      EncodeConcat(a, init);
      Associative(EncodeEntries(a), EncodeEntries(init), EncodeEntry(last));
    }
  }

  lemma OneMore(es: seq<Entry>, begin: nat, i: nat)
    requires AllStorable(es) && begin <= i < |es|
    ensures EncodeEntries(Between(es, begin, i + 1)) == EncodeEntries(Between(es, begin, i)) + EncodeEntry(es[i])
  {
    var r := Between(es, begin, i + 1);
    assert r[..|r| - 1] == Between(es, begin, i) && r[|r| - 1] == es[i];
  }

  // ------------------------------------------------------------------------------------------
  // The worker
  // ------------------------------------------------------------------------------------------

  method StorePackHeader(buffer: BinaryOStream, id: Id, ratingLength: int, ratingPos: int)
    requires buffer.Valid() && FitsSigned(id, 4) && FitsSigned(ratingLength, 4) && FitsSigned(ratingPos, 4)
    modifies buffer
    ensures buffer.Valid() && buffer.curPos == old(buffer.curPos) + 12
    ensures buffer.storage == Overlay(old(buffer.storage), old(buffer.curPos), Header(id, ratingLength, ratingPos))
  {
    OverlayTwice(buffer.storage, buffer.curPos, Int(id, 4), Int(ratingLength, 4));
    OverlayTwice(buffer.storage, buffer.curPos, Int(id, 4) + Int(ratingLength, 4), Int(ratingPos, 4));
    buffer.WritePod(Int(id, 4));
    buffer.WritePod(Int(ratingLength, 4));
    buffer.WritePod(Int(ratingPos, 4));
  }

  method StorePackEntry(buffer: BinaryOStream, e: Entry)
    requires buffer.Valid() && Storable(e)
    modifies buffer
    ensures buffer.Valid() && buffer.curPos == old(buffer.curPos) + |EncodeEntry(e)|
    ensures buffer.storage == Overlay(old(buffer.storage), old(buffer.curPos), EncodeEntry(e))
  {
    OverlayTwice(buffer.storage, buffer.curPos, Int(e.id, 4), Int(e.winnings, MONETARY_SIZE));
    OverlayTwice(buffer.storage, buffer.curPos, Int(e.id, 4) + Int(e.winnings, MONETARY_SIZE), Buffer(e.name));
    buffer.WritePod(Int(e.id, 4));
    buffer.WritePod(Int(e.winnings, MONETARY_SIZE));
    buffer.WriteBuffer(e.name);
  }

  /** A worker's rating buffer. `sent` is what it has given to the transport. */
  class RatingBufferData {
    const buffer: BinaryOStream
    var base: nat
    var topRatingsEnd: nat
    var sent: seq<seq<Byte>>

    /** There is room for a size, and the message code. */
    ghost predicate Adapted()
      reads this, buffer
    {
      buffer.Valid() && base == 3 <= |buffer.storage| && buffer.storage[2] == USER_RATING
    }

    /** Behind the space for size and header, the buffer holds the top of this rating, and nothing else. */
    ghost predicate Cached(rating: seq<Entry>)
      requires AllStorable(rating)
      reads this, buffer
    {
      && Adapted() && topRatingsEnd == buffer.curPos == |buffer.storage| && 15 <= |buffer.storage|
      && buffer.storage == buffer.storage[..15] + EncodeEntries(rating[..TopCount(|rating|)])
    }

    constructor ()
      ensures Adapted() && fresh(buffer) && sent == []
    {
      var b := new BinaryOStream();
      b.WritePod(Digits(0, 2));
      b.WritePod([USER_RATING]);
      buffer, base, topRatingsEnd, sent := b, b.curPos, 0, [];
    }

    /** Appends the lines from `begin` to `end`. */
    method StoreRange(rating: seq<Entry>, begin: nat, end: nat)
      requires buffer.Valid() && buffer.curPos == |buffer.storage| && AllStorable(rating) && end <= |rating|
      modifies buffer
      ensures buffer.Valid() && buffer.curPos == |buffer.storage|
      ensures buffer.storage == old(buffer.storage) + EncodeEntries(Between(rating, begin, end))
    {
      var i := begin;
      while i < end
        invariant begin <= i && buffer.Valid() && buffer.curPos == |buffer.storage|
        invariant buffer.storage == old(buffer.storage) + EncodeEntries(Between(rating, begin, Min(i, end)))
      {
        OneMore(rating, begin, i);
        Associative(old(buffer.storage), EncodeEntries(Between(rating, begin, i)), EncodeEntry(rating[i]));
        OverlayAppends(buffer.storage, EncodeEntry(rating[i]));
        StorePackEntry(buffer, rating[i]);
        i := i + 1;
      }
      assert Between(rating, begin, Min(i, end)) == Between(rating, begin, end);
    }

    method CacheTopRatings(rating: seq<Entry>)
      requires Adapted() && AllStorable(rating)
      modifies this`topRatingsEnd, buffer
      ensures Cached(rating)
    {
      var ok := buffer.Rewind(base);
      ghost var head := buffer.storage;
      OverlayAppends(head, Header(INVALID_USER_ID, 0, 0));
      StorePackHeader(buffer, INVALID_USER_ID, 0, 0);
      StoreRange(rating, 0, TopCount(|rating|));
      topRatingsEnd := buffer.curPos;
      assert Between(rating, 0, TopCount(|rating|)) == rating[..TopCount(|rating|)];
      ghost var lines := EncodeEntries(rating[..TopCount(|rating|)]);
      assert buffer.storage == (head + Header(INVALID_USER_ID, 0, 0)) + lines;
    }

    /** Window and header are added to the cached top. */
    method Complete(rating: seq<Entry>, id: Id, ratingPos: nat)
      requires AllStorable(rating) && Cached(rating)
      requires ratingPos <= |rating| && FitsSigned(id, 4) && FitsSigned(|rating|, 4)
      modifies buffer
      ensures buffer.Valid() && 2 <= |buffer.storage| && buffer.storage[2..] == Payload(rating, id, ratingPos)
    {
      ghost var was, top := buffer.storage, EncodeEntries(rating[..TopCount(|rating|)]);
      var begin, end := Max(TOP_POSITIONS, ratingPos - COMPETITION_DISTANCE),
                        Min(|rating|, ratingPos + COMPETITION_DISTANCE + 1);
      ghost var window := EncodeEntries(Between(rating, begin, end));
      StoreRange(rating, begin, end);
      Associative(was[..15], top, window);
      EncodeConcat(rating[..TopCount(|rating|)], Between(rating, begin, end));
      var ok := buffer.SetPos(base);
      ReplaceHeader(was[..15], top + window, Header(id, |rating|, ratingPos));
      StorePackHeader(buffer, id, |rating|, ratingPos);
    }

    /**
     Window, header and size are added to the cached top, the frame is sent, and the cache is
     what it was before.
     */
    method ProcessRatingImpl(rating: seq<Entry>, id: Id, ratingPos: nat)
      requires AllStorable(rating) && Cached(rating)
      requires ratingPos <= |rating| && FitsSigned(id, 4) && FitsSigned(|rating|, 4)
      modifies this`sent, buffer
      ensures Cached(rating)
      ensures sent == old(sent) + [Frame(Payload(rating, id, ratingPos))]
    {
      Complete(rating, id, ratingPos);
      var frame := WriteMessage(buffer);
      sent := sent + [frame];
      CutBack(rating, id, ratingPos);
      var ok := buffer.Rewind(topRatingsEnd);
    }

    /**
     A job for a user given by id: active users get their place, silent users and those whose
     registration is still in the buffer the place behind the last; others an error.
     */
    method ProcessRating(rating: seq<Entry>, activeUsers: map<Id, nat>, silentUsers: set<Id>, id: Id, promised: bool)
      returns (found: bool)
      requires AllStorable(rating) && Cached(rating) && FitsSigned(id, 4) && FitsSigned(|rating|, 4)
      requires forall u :: u in activeUsers ==> activeUsers[u] < |rating|
      modifies this`sent, buffer
      ensures Cached(rating)
      ensures found <==> id in activeUsers || id in silentUsers || promised
      ensures sent == old(sent) + if !found then []
                                  else [Frame(Payload(rating, id, if id in activeUsers then activeUsers[id] else |rating|))]
    {
      if id in activeUsers {
        ProcessRatingImpl(rating, id, activeUsers[id]);
        return true;
      }
      if id in silentUsers || promised {
        ProcessRatingImpl(rating, id, |rating|);
        return true;
      }
      found := false;
    }
  }

  lemma ReplaceHeader(head: seq<Byte>, lines: seq<Byte>, header: seq<Byte>)
    requires |head| == 15 && head[2] == USER_RATING && |header| == 12
    ensures var r := Overlay(head + lines, 3, header); |r| == 15 + |lines| && r[2..] == [USER_RATING] + header + lines
  {
  }

  /** A frame cut off behind the top lines is a cache again. */
  lemma CutBack(rating: seq<Entry>, id: Id, ratingPos: nat)
    requires ratingPos <= |rating| && AllStorable(rating) && FitsSigned(id, 4) && FitsSigned(|rating|, 4)
    ensures var frame, top := Frame(Payload(rating, id, ratingPos)), EncodeEntries(rating[..TopCount(|rating|)]);
            && 15 + |top| <= |frame|
            && frame[..15 + |top|] == frame[..15] + top && frame[2] == USER_RATING
  {
    var window := Between(rating, RangeBegin(ratingPos), RangeEnd(|rating|, ratingPos));
    EncodeConcat(rating[..TopCount(|rating|)], window);
    CutFrame(Header(id, |rating|, ratingPos), EncodeEntries(rating[..TopCount(|rating|)]), EncodeEntries(window));
  }

  lemma CutFrame(header: seq<Byte>, top: seq<Byte>, window: seq<Byte>)
    requires |header| == 12
    ensures var frame := Frame([USER_RATING] + header + (top + window));
            frame[..15 + |top|] == frame[..15] + top && frame[2] == USER_RATING
  {
  }

  // ------------------------------------------------------------------------------------------
  // The client
  // ------------------------------------------------------------------------------------------

  datatype Pack = Pack(userId: Id, ratingLength: int, ratingPos: int, ratings: seq<Entry>)

  function TakeEntry(input: seq<Byte>): (r: Option<Parsed<Entry>>) {
    match TakeInt(input, 4)
    case None => None
    case Some(id) =>
      match TakeInt(id.rest, MONETARY_SIZE)
      case None => None
      case Some(winnings) =>
        match TakeBuffer(winnings.rest)
        case None => None
        case Some(name) => Some(Parsed(Entry(id.value, winnings.value, name.value), name.rest))
  }

  function TakeEntries(input: seq<Byte>, count: nat): (r: Option<Parsed<seq<Entry>>>) {
    if count == 0 then Some(Parsed([], input))
    else
      match TakeEntry(input)
      case None => None
      case Some(first) => Prepend([first.value], TakeEntries(first.rest, count - 1))
  }

  function Prepend(es: seq<Entry>, r: Option<Parsed<seq<Entry>>>): Option<Parsed<seq<Entry>>> {
    match r
    case None => None
    case Some(p) => Some(Parsed(es + p.value, p.rest))
  }

  /** The header alone: user, length, position. */
  function TakeHeader(input: seq<Byte>): (r: Option<Parsed<(Id, int, int)>>) {
    match TakeInt(input, 4)
    case None => None
    case Some(id) =>
      match TakeInt(id.rest, 4)
      case None => None
      case Some(length) =>
        match TakeInt(length.rest, 4)
        case None => None
        case Some(pos) => Some(Parsed((id.value, length.value, pos.value), pos.rest))
  }

  /** As many lines as the header calls for; None stands for the assertion and the underflow exception. */
  function TakeLines(id: Id, ratingLength: int, ratingPos: int, input: seq<Byte>): (r: Option<Parsed<Pack>>) {
    if !(0 <= ratingPos <= ratingLength) then None
    else
      match TakeEntries(input, EntryCount(ratingLength, ratingPos))
      case None => None
      case Some(es) => Some(Parsed(Pack(id, ratingLength, ratingPos, es.value), es.rest))
  }

  function TakePack(input: seq<Byte>): (r: Option<Parsed<Pack>>) {
    match TakeHeader(input)
    case None => None
    case Some(h) => TakeLines(h.value.0, h.value.1, h.value.2, h.rest)
  }

  lemma TakesEntry(e: Entry, rest: seq<Byte>)
    requires Storable(e)
    ensures TakeEntry(EncodeEntry(e) + rest) == Some(Parsed(e, rest))
  {
    var name := Buffer(e.name) + rest;
    assert EncodeEntry(e) + rest == Int(e.id, 4) + (Int(e.winnings, MONETARY_SIZE) + name);
    TakesInt(e.id, 4, Int(e.winnings, MONETARY_SIZE) + name);
    TakesInt(e.winnings, MONETARY_SIZE, name);
    TakesBuffer(e.name, rest);
  }

  lemma {:induction false} TakesEntries(es: seq<Entry>, rest: seq<Byte>)
    requires AllStorable(es)
    ensures TakeEntries(EncodeEntries(es) + rest, |es|) == Some(Parsed(es, rest))
  {
    if es == [] {
      assert EncodeEntries(es) + rest == rest;
    } else {
      assert es == [es[0]] + es[1..] && [es[0]][..0] == [];
      EncodeConcat([es[0]], es[1..]);
      assert EncodeEntries([es[0]]) == EncodeEntry(es[0]);
      Associative(EncodeEntry(es[0]), EncodeEntries(es[1..]), rest);
      TakesEntry(es[0], EncodeEntries(es[1..]) + rest);
      TakesEntries(es[1..], rest);
    }
  }

  lemma BehindCode(a: seq<Byte>, b: seq<Byte>, c: seq<Byte>, d: seq<Byte>, rest: seq<Byte>)
    ensures ([USER_RATING] + (a + b + c) + d)[1..] + rest == a + (b + (c + (d + rest)))
  {
  }

  /** What a worker sends is what the client gets, to the last byte. */
  lemma PackRoundTrip(rating: seq<Entry>, id: Id, ratingPos: nat, rest: seq<Byte>)
    requires ratingPos <= |rating| && AllStorable(rating) && FitsSigned(id, 4) && FitsSigned(|rating|, 4)
    ensures TakePack(Payload(rating, id, ratingPos)[1..] + rest) ==
            Some(Parsed(Pack(id, |rating|, ratingPos, Selected(rating, ratingPos)), rest))
  {
    var es := Selected(rating, ratingPos);
    assert AllStorable(es);
    var lines := EncodeEntries(es) + rest;
    BehindCode(Int(id, 4), Int(|rating|, 4), Int(ratingPos, 4), EncodeEntries(es), rest);
    TakesInt(id, 4, Int(|rating|, 4) + (Int(ratingPos, 4) + lines));
    TakesInt(|rating|, 4, Int(ratingPos, 4) + lines);
    TakesInt(ratingPos, 4, lines);
    assert TakeHeader(Payload(rating, id, ratingPos)[1..] + rest) == Some(Parsed((id, |rating|, ratingPos), lines));
    CountsAgree(rating, ratingPos);
    TakesEntries(es, rest);
  }

  /** The client's message object; `Init` fills it from a stream. */
  class RatingPackMessage {
    var userId: Id
    var ratingLength: int
    var ratingPos: int
    var ratings: seq<Entry>

    constructor () {
      userId, ratingLength, ratingPos, ratings := INVALID_USER_ID, 0, 0, [];
    }

    method ReadEntry(buffer: BinaryIStream) returns (e: Option<Entry>)
      requires buffer.Valid()
      modifies buffer
      ensures buffer.Valid()
      ensures match TakeEntry(old(buffer.Rest()))
              case None => e == None
              case Some(p) => e == Some(p.value) && buffer.Rest() == p.rest
    {
      var id := buffer.ReadInt(4);
      if id == None { return None; }
      var winnings := buffer.ReadInt(MONETARY_SIZE);
      if winnings == None { return None; }
      var name := buffer.ReadBuffer();
      e := match name case None => None case Some(n) => Some(Entry(id.value, winnings.value, n));
    }

    method ReadEntries(buffer: BinaryIStream, count: nat) returns (ok: bool)
      requires buffer.Valid()
      modifies buffer, this`ratings
      ensures buffer.Valid()
      ensures match TakeEntries(old(buffer.Rest()), count)
              case None => !ok
              case Some(p) => ok && ratings == p.value && buffer.Rest() == p.rest
    {
      ratings := [];
      PrependTwice([], [], TakeEntries(buffer.Rest(), count));
      for i := 0 to count
        invariant buffer.Valid()
        invariant TakeEntries(old(buffer.Rest()), count) == Prepend(ratings, TakeEntries(buffer.Rest(), count - i))
      {
        ghost var rest := buffer.Rest();
        var e := ReadEntry(buffer);
        if e == None { return false; }
        PrependTwice(ratings, [e.value], TakeEntries(buffer.Rest(), count - i - 1));
        ratings := ratings + [e.value];
      }
      ok := true;
    }

    method ReadHeader(buffer: BinaryIStream) returns (ok: bool)
      requires buffer.Valid()
      modifies buffer, this`userId, this`ratingLength, this`ratingPos
      ensures buffer.Valid()
      ensures match TakeHeader(old(buffer.Rest()))
              case None => !ok
              case Some(h) => ok && (userId, ratingLength, ratingPos) == h.value && buffer.Rest() == h.rest
    {
      var id := buffer.ReadInt(4);
      if id == None { return false; }
      var length := buffer.ReadInt(4);
      if length == None { return false; }
      var pos := buffer.ReadInt(4);
      if pos == None { return false; }
      userId, ratingLength, ratingPos := id.value, length.value, pos.value;
      ok := true;
    }

    method ReadLines(buffer: BinaryIStream) returns (ok: bool)
      requires buffer.Valid()
      modifies buffer, this`ratings
      ensures buffer.Valid()
      ensures match TakeLines(userId, ratingLength, ratingPos, old(buffer.Rest()))
              case None => !ok
              case Some(p) => ok && Pack(userId, ratingLength, ratingPos, ratings) == p.value && buffer.Rest() == p.rest
    {
      if !(ratingLength >= 0 && ratingPos >= 0 && ratingPos <= ratingLength) { return false; }
      var ratingEntryCount :=
        Min(TOP_POSITIONS, ratingPos)
        + (if ratingPos > TOP_POSITIONS then Min(ratingPos - TOP_POSITIONS, COMPETITION_DISTANCE) else 0)
        + Min(ratingLength - ratingPos, COMPETITION_DISTANCE + 1);
      ok := ReadEntries(buffer, ratingEntryCount);
    }

    method Init(buffer: BinaryIStream) returns (ok: bool)
      requires buffer.Valid()
      modifies buffer, this
      ensures buffer.Valid()
      ensures match TakePack(old(buffer.Rest()))
              case None => !ok
              case Some(p) => ok && Pack(userId, ratingLength, ratingPos, ratings) == p.value && buffer.Rest() == p.rest
    {
      ok := ReadHeader(buffer);
      if ok { ok := ReadLines(buffer); }
    }
  }

  lemma PrependTwice(a: seq<Entry>, b: seq<Entry>, r: Option<Parsed<seq<Entry>>>)
    ensures Prepend(a, Prepend(b, r)) == Prepend(a + b, r)
    ensures Prepend([], r) == r
  {
    if r.Some? {
      Associative(a, b, r.value.value);
      assert [] + r.value.value == r.value.value;
    }
  }
}
