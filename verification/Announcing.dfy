/** Who is announced when (service/rating_announcer.cpp): clock, announcer and online sets together. */
module Announcing {
  import opened Users
  import opened Batching
  import opened History
  import opened DateTime
  import opened RatingCalculator
  import RatingAnnouncer

  /** The user is in the set of this second. */
  ghost predicate IsOnline(c: RatingCalculatorImpl, s: nat, id: Id)
    requires s < |c.usersOnline|
    reads c
  {
    exists u :: u in c.usersOnline[s] && u.id == id
  }

  /** A whole minute announces the sets of all seconds, one after the other, and nothing else. */
  lemma SecondsAreSets(c: RatingCalculatorImpl)
    requires c.Valid()
    ensures |RatingAnnouncer.Announcements(0)| == |c.usersOnline| == 60
    ensures forall k :: 0 <= k < |c.usersOnline| ==>
                          RatingAnnouncer.Announcements(0)[k] == RatingAnnouncer.Announcement(k)
  {
  }

  /** A user in the rating who is connected since a time is announced in the second of that time, and in no other. */
  lemma AnnouncedInOwnSecond(c: RatingCalculatorImpl, id: Id, now: Time)
    requires c.Valid() && IsRated(c.known, id) && c.known[id].second == CurrentSecondIndex(now)
    ensures |c.usersOnline| == 60
    ensures forall s :: 0 <= s < 60 ==> (IsOnline(c, s, id) <==> s == now / 1000000000 % 60)
  {
    UsualLengths(now);
    forall s: nat | s < 60
      ensures IsOnline(c, s, id) <==> s == now / 1000000000 % 60
    {
      c.WhoIsAnnounced(s, id);
    }
  }

  /** A user who has disconnected, or never connected, is not announced. */
  lemma DisconnectedIsNotAnnounced(c: RatingCalculatorImpl, id: Id)
    requires c.Valid() && (id in c.known ==> c.known[id].second == 60)
    ensures |c.usersOnline| == 60 && forall s :: 0 <= s < 60 ==> !IsOnline(c, s, id)
  {
    forall s: nat | s < 60
      ensures !IsOnline(c, s, id)
    {
      c.WhoIsAnnounced(s, id);
    }
  }

  /**
   From the messages alone: announced in a second are exactly the users whose last connection is
   from that second, and who have a deal since the last drop.
   */
  lemma WhoIsAnnouncedWhen(c: RatingCalculatorImpl, minutes: seq<Minute>, id: Id, s: nat)
    requires c.Valid() && c.known == AfterMinutes(map[], minutes) && s < 60
    ensures |c.usersOnline| == 60
    ensures IsOnline(c, s, id) <==>
            && LastSecond(minutes[FirstMinute(minutes, id)..], id) == s
            && exists k :: 0 <= k < |minutes| && CountsSince(minutes, k, id)
  {
    c.WhoIsAnnounced(s, id);
    RecordIs(minutes, id);
    RatedExactly(minutes, id);
  }
}
