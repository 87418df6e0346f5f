/**
 The announcer's minutes (service/rating_announcer.cpp): when the rating is recalculated, when it is
 dropped, and which seconds are announced, for any clock that does not run backwards.
 */
module RatingAnnouncer {
  import opened Users
  import opened DateTime

  /** What the announcer does, in order. */
  datatype Event =
    | Recalculation(drop: bool)
    | NewWeek(start: Time)         // after a drop: the rating belongs to this week
    | Announcement(second: nat)    // the users connected in this second get their rating
    | WeekTurned(start: Time)      // a new week has been noticed

  const UNSET: Time := 0

  /** From one second of the minute to its end. */
  function Announcements(from: nat): (es: seq<Event>)
    requires from <= 60
    ensures |es| == 60 - from && forall i :: 0 <= i < |es| ==> es[i] == Announcement(from + i)
  {
    seq(60 - from, i requires 0 <= i < 60 - from => Announcement(from + i))
  }

  /** One minute; `week` is set by a drop, `turn` is the new week noticed at the end, if any. */
  function MinuteOf(drop: bool, week: Time, from: nat, turn: Option<Time>): (es: seq<Event>)
    requires from <= 60
  {
    [Recalculation(drop)] + (if drop then [NewWeek(week)] else []) + Announcements(from)
    + match turn case None => [] case Some(start) => [WeekTurned(start)]
  }

  // ------------------------------------------------------------------------------------------
  // The turn of the week
  // ------------------------------------------------------------------------------------------

  /** What has to come j events after a week turn was noticed: a last minute of the old rating, then the drop. */
  function AfterTurn(j: nat): (e: Event)
    requires 1 <= j <= 62
  {
    if j == 1 then Recalculation(false) else if j <= 61 then Announcement(j - 2) else Recalculation(true)
  }

  predicate FollowsTurn(es: seq<Event>, p: nat, q: nat)
    requires p < q < |es|
  {
    es[p].WeekTurned? && q <= p + 62 ==> es[q] == AfterTurn(q - p)
  }

  /** Every drop but one at the very start is preceded by a week turn and the minute in between. */
  predicate ComesAfterTurn(es: seq<Event>, q: nat)
    requires q < |es|
  {
    q > 0 && es[q] == Recalculation(true) ==> q >= 62 && es[q - 62].WeekTurned?
  }

  /** The events around the turns of the week are the right ones, as far as they have come. */
  predicate TurnsOk(es: seq<Event>) {
    && (forall p, q {:trigger FollowsTurn(es, p, q)} :: 0 <= p < q < |es| ==> FollowsTurn(es, p, q))
    && (forall q {:trigger ComesAfterTurn(es, q)} :: 0 <= q < |es| ==> ComesAfterTurn(es, q))
  }

  /** The turn has been dealt with, or is the one to be dealt with next. */
  predicate TurnDone(es: seq<Event>, turned: bool, drop: bool, p: nat)
    requires p < |es|
  {
    es[p].WeekTurned? ==> p + 62 < |es| || (turned && p == |es| - 1) || (drop && p == |es| - 62)
  }

  /** Between two minutes. */
  predicate BetweenMinutes(es: seq<Event>, turned: bool, drop: bool) {
    && !(turned && drop) && TurnsOk(es)
    && (turned ==> es != [] && es[|es| - 1].WeekTurned?)
    && (drop && es != [] ==> |es| >= 62 && es[|es| - 62].WeekTurned?)
    && (forall p {:trigger TurnDone(es, turned, drop, p)} :: 0 <= p < |es| ==> TurnDone(es, turned, drop, p))
  }

  lemma NextFollows(es: seq<Event>, turned: bool, drop: bool, week: Time, from: nat, turn: Option<Time>, p: nat, q: nat)
    requires from <= 60 && BetweenMinutes(es, turned, drop) && (turned ==> from == 0 && turn == None)
    requires p < q < |es + MinuteOf(drop, week, from, turn)|
    ensures FollowsTurn(es + MinuteOf(drop, week, from, turn), p, q)
  {
    var m := MinuteOf(drop, week, from, turn);
    if q < |es| {
      assert FollowsTurn(es, p, q);
    } else if p < |es| {
      assert TurnDone(es, turned, drop, p);
      assert (es + m)[q] == m[q - |es|];
    }
  }

  lemma NextComesAfter(es: seq<Event>, turned: bool, drop: bool, week: Time, from: nat, turn: Option<Time>, q: nat)
    requires from <= 60 && BetweenMinutes(es, turned, drop)
    requires q < |es + MinuteOf(drop, week, from, turn)|
    ensures ComesAfterTurn(es + MinuteOf(drop, week, from, turn), q)
  {
    if q < |es| { assert ComesAfterTurn(es, q); }
  }

  /** A minute keeps the shape: a turn noticed is followed by a quiet minute, that one by a drop. */
  lemma NextMinute(es: seq<Event>, turned: bool, drop: bool, week: Time, from: nat, turn: Option<Time>)
    requires from <= 60 && BetweenMinutes(es, turned, drop) && (turned ==> from == 0 && turn == None)
    ensures BetweenMinutes(es + MinuteOf(drop, week, from, turn), turn.Some?, turned)
  {
    var m := MinuteOf(drop, week, from, turn);
    forall p, q | 0 <= p < q < |es + m|
      ensures FollowsTurn(es + m, p, q)
    {
      NextFollows(es, turned, drop, week, from, turn, p, q);
    }
    forall q | 0 <= q < |es + m|
      ensures ComesAfterTurn(es + m, q)
    {
      NextComesAfter(es, turned, drop, week, from, turn, q);
    }
    forall p | 0 <= p < |es + m|
      ensures TurnDone(es + m, turn.Some?, turned, p)
    {
      if p < |es| { assert TurnDone(es, turned, drop, p); }
    }
  }

  /** Event p notices a turn, event p + 62 drops, and in between there is one quiet minute with all its seconds. */
  predicate QuietMinuteBetween(es: seq<Event>, p: nat) {
    && p + 62 < |es| && es[p].WeekTurned? && es[p + 62] == Recalculation(true)
    && es[p + 1..p + 62] == [Recalculation(false)] + Announcements(0)
  }

  lemma TurnThenDrop(es: seq<Event>, turned: bool, drop: bool, p: nat)
    requires BetweenMinutes(es, turned, drop) && p + 62 < |es| && es[p].WeekTurned?
    ensures QuietMinuteBetween(es, p)
  {
    var quiet, s := [Recalculation(false)] + Announcements(0), es[p + 1..p + 62];
    assert FollowsTurn(es, p, p + 62);
    forall i | 0 <= i < 61
      ensures s[i] == quiet[i]
    {
      assert FollowsTurn(es, p, p + 1 + i);
    }
  }

  /** Every drop, but one at the very start, ends the quiet minute after a turn of the week. */
  lemma DropEndsQuietMinute(es: seq<Event>, turned: bool, drop: bool, q: nat)
    requires BetweenMinutes(es, turned, drop) && 0 < q < |es| && es[q] == Recalculation(true)
    ensures q >= 62 && QuietMinuteBetween(es, q - 62)
  {
    assert ComesAfterTurn(es, q);
    TurnThenDrop(es, turned, drop, q - 62);
  }

  // ------------------------------------------------------------------------------------------
  // The weeks of the drops
  // ------------------------------------------------------------------------------------------

  predicate WeeksInOrder(es: seq<Event>, i: nat, j: nat)
    requires i < j < |es|
  {
    es[i].NewWeek? && es[j].NewWeek? ==> es[i].start < es[j].start
  }

  /** Every drop is for a later week than the one before, none later than `date`. */
  predicate DatesOk(es: seq<Event>, date: Time) {
    && (forall i, j {:trigger WeeksInOrder(es, i, j)} :: 0 <= i < j < |es| ==> WeeksInOrder(es, i, j))
    && (forall i :: 0 <= i < |es| && es[i].NewWeek? ==> es[i].start <= date)
  }

  lemma NextDates(es: seq<Event>, date: Time, drop: bool, week: Time, from: nat, turn: Option<Time>)
    requires from <= 60 && DatesOk(es, date) && (drop ==> date < week)
    ensures DatesOk(es + MinuteOf(drop, week, from, turn), if drop then week else date)
  {
    var m := MinuteOf(drop, week, from, turn);
    forall i, j | 0 <= i < j < |es + m|
      ensures WeeksInOrder(es + m, i, j)
    {
      if j < |es| { assert WeeksInOrder(es, i, j); }
    }
  }

  class RatingAnnouncer {
    var ratingExpirationDate: Time
    var dropOldRating: bool
    var weekJustTurned: bool
    var chronoSetIndex: nat
    // the latest time seen, and what has been done
    ghost var clock: Time
    ghost var events: seq<Event>

    /** In a week: the date is not past it, and before it if a drop is to come. */
    ghost predicate ValidIn(week: Time)
      reads this
    {
      && BetweenMinutes(events, weekJustTurned, dropOldRating) && DatesOk(events, ratingExpirationDate)
      && ratingExpirationDate <= week && (weekJustTurned || dropOldRating ==> ratingExpirationDate < week)
      && chronoSetIndex < 60 && (weekJustTurned ==> chronoSetIndex == 0)
    }

    ghost predicate Valid()
      reads this
    {
      ValidIn(CurrentWeekStart(clock))
    }

    /**
     A first start, or one with the date kept from an earlier run, whose week has begun. `now` and
     `later` are the two clock readings.
     */
    constructor (keptDate: Time, now: Time, later: Time)
      requires keptDate == UNSET || keptDate <= CurrentWeekStart(now)
      requires now <= later
      ensures Valid() && events == [] && clock == later
      ensures dropOldRating <==> keptDate != UNSET && keptDate != CurrentWeekStart(now)
      ensures ratingExpirationDate == if keptDate == UNSET then CurrentWeekStart(now) else keptDate
      ensures keptDate == 0 ==> !dropOldRating && ratingExpirationDate == CurrentWeekStart(now)
      ensures !weekJustTurned && chronoSetIndex == CurrentSecondIndex(later)
    {
      dropOldRating, weekJustTurned := false, false;
      var currentWeekStart := CurrentWeekStart(now);
      if keptDate == UNSET {
        ratingExpirationDate := currentWeekStart;
      } else {
        ratingExpirationDate := keptDate;
        if keptDate != currentWeekStart {
          dropOldRating := true;
        }
      }
      chronoSetIndex := CurrentSecondIndex(later);
      clock, events := later, [];
      WeekStartMonotone(now, later);
    }

    /** Announces the seconds that are left of the minute. */
    method AnnounceAll()
      requires chronoSetIndex <= 60
      modifies this`chronoSetIndex, this`events
      ensures chronoSetIndex == 60 && events == old(events) + Announcements(old(chronoSetIndex))
    {
      ghost var all := Announcements(chronoSetIndex);
      while chronoSetIndex < 60
        invariant old(chronoSetIndex) <= chronoSetIndex <= 60
        invariant events == old(events) + all[..chronoSetIndex - old(chronoSetIndex)]
      {
        events := events + [Announcement(chronoSetIndex)];
        chronoSetIndex := chronoSetIndex + 1;
      }
    }

    /** The recalculation; `thisWeek` is the week of the time after it. */
    method Recalculate(thisWeek: Time)
      modifies this`dropOldRating, this`ratingExpirationDate, this`events
      ensures !dropOldRating && ratingExpirationDate == if old(dropOldRating) then thisWeek else old(ratingExpirationDate)
      ensures events == old(events) + [Recalculation(old(dropOldRating))] + if old(dropOldRating) then [NewWeek(thisWeek)] else []
    {
      events := events + [Recalculation(dropOldRating)];
      if dropOldRating {
        dropOldRating := false;
        ratingExpirationDate := thisWeek;
        events := events + [NewWeek(ratingExpirationDate)];
      }
    }

    /** The end of a minute, in week `thisWeek`; the next one starts with second `second` if it starts with a drop. */
    method FinishMinute(thisWeek: Time, second: nat)
      requires !dropOldRating && second < 60
      modifies this`dropOldRating, this`weekJustTurned, this`chronoSetIndex, this`events
      ensures chronoSetIndex == if old(weekJustTurned) then second else 0
      ensures dropOldRating == old(weekJustTurned)
      ensures weekJustTurned <==> !old(weekJustTurned) && thisWeek > ratingExpirationDate
      ensures events == old(events) + if weekJustTurned then [WeekTurned(thisWeek)] else []
    {
      if weekJustTurned {
        dropOldRating := true;
        weekJustTurned := false;
        chronoSetIndex := second;
      } else {
        if thisWeek > ratingExpirationDate {
          weekJustTurned := true;
          events := events + [WeekTurned(thisWeek)];
        }
        chronoSetIndex := 0;
      }
    }

    /** One turn of the announcer's loop, given the weeks and the second that the clock tells. */
    method Work(ghost week: Time, thisWeek: Time, endWeek: Time, second: nat)
      requires ValidIn(week) && week <= thisWeek <= endWeek && second < 60
      modifies this`dropOldRating, this`weekJustTurned, this`chronoSetIndex, this`ratingExpirationDate, this`events
      ensures ValidIn(endWeek)
      ensures var turn := if weekJustTurned then Some(endWeek) else None;
              events == old(events) + MinuteOf(old(dropOldRating), thisWeek, old(chronoSetIndex), turn)
      ensures weekJustTurned <==> !old(weekJustTurned) && endWeek > ratingExpirationDate
      ensures dropOldRating <==> old(weekJustTurned)
      ensures chronoSetIndex == if old(weekJustTurned) then second else 0
      ensures ratingExpirationDate == if old(dropOldRating) then thisWeek else old(ratingExpirationDate)
    {
      Recalculate(thisWeek);
      AnnounceAll();
      FinishMinute(endWeek, second);
      ghost var turn := if weekJustTurned then Some(endWeek) else None;
      assert events == old(events) + MinuteOf(old(dropOldRating), thisWeek, old(chronoSetIndex), turn);
      NextMinute(old(events), old(weekJustTurned), old(dropOldRating), thisWeek, old(chronoSetIndex), turn);
      NextDates(old(events), old(ratingExpirationDate), old(dropOldRating), thisWeek, old(chronoSetIndex), turn);
    }

    /**
     One turn of the announcer's loop; `now` and `later` are the clock readings after the
     recalculation and at the end of the minute.
     */
    method WorkAMinute(now: Time, later: Time)
      requires Valid() && clock <= now <= later
      modifies this
      ensures Valid() && clock == later
      ensures var turn := if weekJustTurned then Some(CurrentWeekStart(later)) else None;
              events == old(events) + MinuteOf(old(dropOldRating), CurrentWeekStart(now), old(chronoSetIndex), turn)
      ensures weekJustTurned <==> !old(weekJustTurned) && CurrentWeekStart(later) > ratingExpirationDate
      ensures dropOldRating <==> old(weekJustTurned)
      ensures chronoSetIndex == if old(weekJustTurned) then CurrentSecondIndex(later) else 0
      ensures if old(dropOldRating) then old(ratingExpirationDate) < ratingExpirationDate == CurrentWeekStart(now)
              else ratingExpirationDate == old(ratingExpirationDate)
    {
      WeekStartMonotone(clock, now);
      WeekStartMonotone(now, later);
      Work(CurrentWeekStart(clock), CurrentWeekStart(now), CurrentWeekStart(later), CurrentSecondIndex(later));
      clock := later;
    }
  }
}
