/**
 What is known of a user, and which errors are reported, read directly off the messages: without
 buffers, stages and recalculations, which Batching defines.
 */
module History {
  import opened Users
  import opened Incoming
  import opened Batching

  function Get<T>(m: map<Id, T>, id: Id): Option<T> {
    if id in m then Some(m[id]) else None
  }

  // ------------------------------------------------------------------------------------------
  // A minute's messages
  // ------------------------------------------------------------------------------------------

  /** The name of the first registration. */
  function FirstRegistration(msgs: seq<Message>, id: Id): Option<Name> {
    if msgs == [] then None
    else if msgs[0].UserRegistered? && msgs[0].id == id then Some(msgs[0].name)
    else FirstRegistration(msgs[1..], id)
  }

  function FirstRename(msgs: seq<Message>, id: Id): Option<Name> {
    if msgs == [] then None
    else if msgs[0].UserRenamed? && msgs[0].id == id then Some(msgs[0].name)
    else FirstRename(msgs[1..], id)
  }

  /** Where the user has connected last; 60 after a disconnection. */
  function LastConnection(msgs: seq<Message>, id: Id): Option<Second> {
    if msgs == [] then None
    else
      var m := msgs[|msgs| - 1];
      if m.id == id && m.UserConnected? then Some(m.second)
      else if m.id == id && m.UserDisconnected? then Some(60)
      else LastConnection(msgs[..|msgs| - 1], id)
  }

  ghost predicate IsDealOf(m: Message, id: Id) {
    m.UserDealWon? && m.id == id
  }

  lemma {:induction false} FirstOneMore(msgs: seq<Message>, m: Message, id: Id)
    ensures FirstRegistration(msgs + [m], id) ==
            if FirstRegistration(msgs, id).Some? then FirstRegistration(msgs, id)
            else if m.UserRegistered? && m.id == id then Some(m.name) else None
    ensures FirstRename(msgs + [m], id) ==
            if FirstRename(msgs, id).Some? then FirstRename(msgs, id)
            else if m.UserRenamed? && m.id == id then Some(m.name) else None
  {
    if msgs != [] {
      assert (msgs + [m])[1..] == msgs[1..] + [m];
      FirstOneMore(msgs[1..], m, id);
    }
  }

  /** The buffer holds a user's first registration, first rename, last connection and the sum of the deals. */
  lemma {:induction false} BufferIs(msgs: seq<Message>, id: Id)
    ensures Get(FoldAll(msgs).registered, id) == FirstRegistration(msgs, id)
    ensures Get(FoldAll(msgs).renamed, id) == FirstRename(msgs, id)
    ensures Get(FoldAll(msgs).connections, id) == LastConnection(msgs, id)
    ensures id in FoldAll(msgs).deals <==> exists i :: 0 <= i < |msgs| && IsDealOf(msgs[i], id)
    ensures id in FoldAll(msgs).deals ==> FoldAll(msgs).deals[id] == DealsOf(msgs, id)
  {
    if msgs != [] {
      var rest, m := msgs[..|msgs| - 1], msgs[|msgs| - 1];
      assert msgs == rest + [m];
      BufferIs(rest, id);
      FirstOneMore(rest, m, id);
      FoldDeals(msgs, id);
      DealOneMore(msgs, id);
    }
  }

  lemma DealOneMore(msgs: seq<Message>, id: Id)
    requires msgs != []
    ensures var rest := msgs[..|msgs| - 1];
            (exists i :: 0 <= i < |msgs| && IsDealOf(msgs[i], id)) <==>
            (exists i :: 0 <= i < |rest| && IsDealOf(rest[i], id)) || IsDealOf(msgs[|msgs| - 1], id)
  {
    var rest := msgs[..|msgs| - 1];
    if i :| 0 <= i < |rest| && IsDealOf(rest[i], id) {
      assert IsDealOf(msgs[i], id);
    }
    if i :| 0 <= i < |msgs| && IsDealOf(msgs[i], id) {
      assert i < |rest| ==> IsDealOf(rest[i], id);
    }
  }

  // ------------------------------------------------------------------------------------------
  // A run of minutes
  // ------------------------------------------------------------------------------------------

  /** The minute that registers the user, or the number of minutes if none does. */
  function FirstMinute(minutes: seq<Minute>, id: Id): (r: nat)
    ensures r <= |minutes|
  {
    if minutes == [] then 0
    else if FirstRegistration(minutes[0].messages, id).Some? then 0
    else 1 + FirstMinute(minutes[1..], id)
  }

  lemma {:induction false} FirstMinuteOneMore(minutes: seq<Minute>, m: Minute, id: Id)
    ensures FirstMinute(minutes + [m], id) ==
            if FirstMinute(minutes, id) < |minutes| then FirstMinute(minutes, id)
            else |minutes| + if FirstRegistration(m.messages, id).Some? then 0 else 1
  {
    if minutes != [] {
      assert (minutes + [m])[1..] == minutes[1..] + [m];
      FirstMinuteOneMore(minutes[1..], m, id);
    } else {
      assert (minutes + [m])[1..] == [];
    }
  }

  /** The second of the last connection in these minutes; 60 if there is none, or it was given up. */
  function LastSecond(minutes: seq<Minute>, id: Id): Second {
    if minutes == [] then 60
    else
      match LastConnection(minutes[|minutes| - 1].messages, id)
      case Some(second) => second
      case None => LastSecond(minutes[..|minutes| - 1], id)
  }

  /** The first rename of the last of these minutes that has one; else the name registered in the first minute. */
  function LastName(minutes: seq<Minute>, id: Id): Name {
    if minutes == [] then []
    else
      var last := minutes[|minutes| - 1].messages;
      if FirstRename(last, id).Some? then FirstRename(last, id).value
      else if |minutes| > 1 then LastName(minutes[..|minutes| - 1], id)
      else if FirstRegistration(last, id).Some? then FirstRegistration(last, id).value
      else []
  }

  /** One minute: an unknown user starts disconnected, with the name of the registration. */
  lemma OneMinute(st: CoreState, minute: Minute, id: Id)
    ensures var msgs, after := minute.messages, AfterMinute(st, minute);
            && (id in after <==> id in st || FirstRegistration(msgs, id).Some?)
            && (id in after ==>
                  && (after[id].second == match LastConnection(msgs, id)
                                          case Some(second) => second
                                          case None => if id in st then st[id].second else 60)
                  && (after[id].name == match FirstRename(msgs, id)
                                        case Some(name) => name
                                        case None => if id in st then st[id].name else FirstRegistration(msgs, id).value))
  {
    BufferIs(minute.messages, id);
    RecalculatedAt(Start(st, minute.dropOldRating), FoldAll(minute.messages), id);
  }

  lemma LastOneMore(minutes: seq<Minute>, m: Minute, id: Id)
    ensures LastSecond(minutes + [m], id) == match LastConnection(m.messages, id)
                                             case Some(second) => second
                                             case None => LastSecond(minutes, id)
    ensures minutes != [] ==> LastName(minutes + [m], id) == match FirstRename(m.messages, id)
                                                             case Some(name) => name
                                                             case None => LastName(minutes, id)
  {
    assert (minutes + [m])[..|minutes|] == minutes;
  }

  /** `u` is what the messages of these minutes, the first of which registers the user, say. */
  ghost predicate IsRecord(u: UserState, minutes: seq<Minute>, id: Id) {
    minutes != [] && u.second == LastSecond(minutes, id) && u.name == LastName(minutes, id)
  }

  lemma FirstRecord(st: CoreState, m: Minute, id: Id)
    requires id !in st && FirstRegistration(m.messages, id).Some?
    ensures id in AfterMinute(st, m) && IsRecord(AfterMinute(st, m)[id], [m], id)
  {
    OneMinute(st, m, id);
    assert [m][..0] == [];
  }

  lemma NextRecord(st: CoreState, minutes: seq<Minute>, m: Minute, id: Id)
    requires id in st && IsRecord(st[id], minutes, id)
    ensures id in AfterMinute(st, m) && IsRecord(AfterMinute(st, m)[id], minutes + [m], id)
  {
    OneMinute(st, m, id);
    LastOneMore(minutes, m, id);
  }

  /**
   After any minutes, with drops or without, a user's name and second are those of the messages from
   the minute of the registration on.
   */
  lemma {:induction false} RecordIs(minutes: seq<Minute>, id: Id)
    ensures var r, st := FirstMinute(minutes, id), AfterMinutes(map[], minutes);
            && (id in st <==> r < |minutes|)
            && (id in st ==> IsRecord(st[id], minutes[r..], id))
  {
    if minutes != [] {
      var before, m := minutes[..|minutes| - 1], minutes[|minutes| - 1];
      RecordIs(before, id);
      FirstMinuteOneMore(before, m, id);
      assert minutes == before + [m];
      RecordOneMore(AfterMinutes(map[], before), before, m, FirstMinute(before, id), id);
    }
  }

  lemma RecordOneMore(st: CoreState, before: seq<Minute>, m: Minute, r: nat, id: Id)
    requires r <= |before| && (id in st <==> r < |before|) && (id in st ==> IsRecord(st[id], before[r..], id))
    ensures var after := AfterMinute(st, m);
            && (id in after <==> id in st || FirstRegistration(m.messages, id).Some?)
            && (id in after ==> IsRecord(after[id], (before + [m])[r..], id))
  {
    OneMinute(st, m, id);
    if id in st {
      assert (before + [m])[r..] == before[r..] + [m];
      NextRecord(st, before[r..], m, id);
    } else if FirstRegistration(m.messages, id).Some? {
      assert (before + [m])[r..] == [m];
      FirstRecord(st, m, id);
    }
  }

  function WithoutDrops(minutes: seq<Minute>): (r: seq<Minute>)
    ensures |r| == |minutes|
    ensures forall k :: 0 <= k < |minutes| ==> r[k] == Minute(false, minutes[k].messages)
  {
    seq(|minutes|, k requires 0 <= k < |minutes| => Minute(false, minutes[k].messages))
  }

  /** Drops take amounts, and nothing else. */
  lemma {:induction false} DropsTakeAmountsOnly(minutes: seq<Minute>, id: Id)
    ensures var dropped, kept := AfterMinutes(map[], minutes), AfterMinutes(map[], WithoutDrops(minutes));
            && (id in dropped <==> id in kept)
            && (id in dropped ==> dropped[id].name == kept[id].name && dropped[id].second == kept[id].second)
  {
    if minutes != [] {
      var before, m := minutes[..|minutes| - 1], minutes[|minutes| - 1];
      assert WithoutDrops(minutes)[..|minutes| - 1] == WithoutDrops(before);
      DropsTakeAmountsOnly(before, id);
      RecalculatedAt(Start(AfterMinutes(map[], before), m.dropOldRating), FoldAll(m.messages), id);
      RecalculatedAt(AfterMinutes(map[], WithoutDrops(before)), FoldAll(m.messages), id);
    }
  }

  // ------------------------------------------------------------------------------------------
  // Errors
  // ------------------------------------------------------------------------------------------

  ghost predicate InOrder(errors: seq<ProtocolError>) {
    forall i, j :: 0 <= i < j < |errors| ==> errors[i].userId < errors[j].userId
  }

  /** One error of the kind for each of the ids, in their order. */
  lemma {:induction false} RegistrationErrorsAre(ids: seq<Id>, known: set<Id>)
    requires Ascending(ids)
    ensures var es := RegistrationErrors(ids, known);
            && InOrder(es)
            && forall e :: e in es <==> e.MultipleRegistrationError? && e.userId in ids && e.userId in known
  {
    if ids != [] {
      var init, last := ids[..|ids| - 1], ids[|ids| - 1];
      assert ids == init + [last];
      AscendingInit(ids);
      RegistrationErrorsAre(init, known);
      forall e | e in RegistrationErrors(init, known)
        ensures e.userId < last
      {
        var i :| 0 <= i < |init| && init[i] == e.userId;
        assert Below(ids[i], last);
      }
    }
  }

  lemma {:induction false} UnrecognizedErrorsAre(ids: seq<Id>, known: set<Id>)
    requires Ascending(ids)
    ensures var es := UnrecognizedErrors(ids, known);
            && InOrder(es)
            && forall e :: e in es <==> e.UserUnrecognizedError? && e.userId in ids && e.userId !in known
  {
    if ids != [] {
      var init, last := ids[..|ids| - 1], ids[|ids| - 1];
      assert ids == init + [last];
      AscendingInit(ids);
      UnrecognizedErrorsAre(init, known);
      forall e | e in UnrecognizedErrors(init, known)
        ensures e.userId < last
      {
        var i :| 0 <= i < |init| && init[i] == e.userId;
        assert Below(ids[i], last);
      }
    }
  }

  /** These are the errors for those of the ids that are not known, by id, each once. */
  ghost predicate Unrecognized(es: seq<ProtocolError>, ids: set<Id>, known: set<Id>) {
    InOrder(es) && forall e :: e in es <==> e.UserUnrecognizedError? && e.userId in ids && e.userId !in known
  }

  lemma UnrecognizedOf(ids: set<Id>, known: set<Id>)
    ensures Unrecognized(UnrecognizedErrors(SortedIds(ids), known), ids, known)
  {
    UnrecognizedErrorsAre(SortedIds(ids), known);
    forall e: ProtocolError
      ensures e.userId in SortedIds(ids) <==> e.userId in ids
    {
      assert InBoth(e.userId, SortedIds(ids), ids);
    }
  }

  /**
   The errors of a recalculation: first one for every registration of a user known before; then one
   for every rename, every connection change and every deal of a user neither known nor registered.
   */
  lemma ErrorsAre(st: CoreState, b: Buffer)
    returns (multiple: seq<ProtocolError>, renames: seq<ProtocolError>, connections: seq<ProtocolError>, deals: seq<ProtocolError>)
    ensures Errors(st, b) == multiple + renames + connections + deals
    ensures InOrder(multiple)
    ensures forall e :: e in multiple <==> e.MultipleRegistrationError? && e.userId in b.registered && e.userId in st
    ensures var known := st.Keys + b.registered.Keys;
            && Unrecognized(renames, b.renamed.Keys, known) && Unrecognized(connections, b.connections.Keys, known)
            && Unrecognized(deals, b.deals.Keys, known)
  {
    var known := st.Keys + b.registered.Keys;
    multiple := RegistrationErrors(SortedIds(b.registered.Keys), st.Keys);
    RegistrationErrorsAre(SortedIds(b.registered.Keys), st.Keys);
    forall e: ProtocolError
      ensures e.userId in SortedIds(b.registered.Keys) <==> e.userId in b.registered
    {
      assert InBoth(e.userId, SortedIds(b.registered.Keys), b.registered.Keys);
    }
    renames := UnrecognizedErrors(SortedIds(b.renamed.Keys), known);
    connections := UnrecognizedErrors(SortedIds(b.connections.Keys), known);
    deals := UnrecognizedErrors(SortedIds(b.deals.Keys), known);
    UnrecognizedOf(b.renamed.Keys, known);
    UnrecognizedOf(b.connections.Keys, known);
    UnrecognizedOf(b.deals.Keys, known);
  }
}
