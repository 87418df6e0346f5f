/**
 A recalculation works on a whole minute of messages at once. This module compares that with a
 service that would handle the messages one at a time, in the order they came in.
 */
module Batching {
  import opened Users
  import opened Incoming

  /** A known user; `total` is what the user has won this week, None for a user without deals. */
  datatype UserState = UserState(name: Name, second: Second, total: Option<Money>)

  type CoreState = map<Id, UserState>

  datatype ProtocolError =
    | MultipleRegistrationError(userId: Id)
    | UserUnrecognizedError(userId: Id)

  function Won(u: UserState): Money {
    match u.total
    case None => 0
    case Some(amount) => amount
  }

  // ------------------------------------------------------------------------------------------
  // One message at a time
  // ------------------------------------------------------------------------------------------

  function ApplyTo(u: UserState, msg: Message): UserState {
    match msg
    case UserRegistered(_, _) => u
    case UserRenamed(_, name) => u.(name := name)
    case UserConnected(_, second) => u.(second := second)
    case UserDisconnected(_) => u.(second := INVALID_SECOND)
    case UserDealWon(_, amount) => u.(total := Some(Won(u) + amount))
  }

  /** A registration adds an unknown user; anything else is for a known user or ignored. */
  function Apply(st: CoreState, msg: Message): CoreState {
    if msg.id in st then st[msg.id := ApplyTo(st[msg.id], msg)]
    else if msg.UserRegistered? then st[msg.id := UserState(msg.name, INVALID_SECOND, None)]
    else st
  }

  function ApplyAll(st: CoreState, msgs: seq<Message>): CoreState {
    if msgs == [] then st else Apply(ApplyAll(st, msgs[..|msgs| - 1]), msgs[|msgs| - 1])
  }

  // ------------------------------------------------------------------------------------------
  // One batch at a time
  // ------------------------------------------------------------------------------------------

  /** The weekly drop: nobody has won anything. */
  function Drop(st: CoreState): CoreState {
    map id | id in st :: st[id].(total := None)
  }

  function Register(st: CoreState, names: map<Id, Name>): CoreState {
    map id | id in st.Keys + names.Keys :: if id in st then st[id] else UserState(names[id], INVALID_SECOND, None)
  }

  function Rename(st: CoreState, names: map<Id, Name>): CoreState {
    map id | id in st :: if id in names then st[id].(name := names[id]) else st[id]
  }

  function Connect(st: CoreState, seconds: map<Id, Second>): CoreState {
    map id | id in st :: if id in seconds then st[id].(second := seconds[id]) else st[id]
  }

  function Credit(st: CoreState, deals: map<Id, Money>): CoreState {
    map id | id in st :: if id in deals then st[id].(total := Some(Won(st[id]) + deals[id])) else st[id]
  }

  /** Everything but the deals. */
  function Updated(st: CoreState, buffer: Buffer): CoreState {
    Connect(Rename(Register(st, buffer.registered), buffer.renamed), buffer.connections)
  }

  /** What one recalculation makes of a buffer. */
  function Recalculated(st: CoreState, buffer: Buffer): CoreState {
    Credit(Updated(st, buffer), buffer.deals)
  }

  /** The errors for registering ids that are known already. */
  function RegistrationErrors(ids: seq<Id>, known: set<Id>): seq<ProtocolError> {
    if ids == [] then []
    else
      var id := ids[|ids| - 1];
      RegistrationErrors(ids[..|ids| - 1], known) + if id in known then [MultipleRegistrationError(id)] else []
  }

  /** The errors for addressing ids that are not known. */
  function UnrecognizedErrors(ids: seq<Id>, known: set<Id>): seq<ProtocolError> {
    if ids == [] then []
    else
      var id := ids[|ids| - 1];
      UnrecognizedErrors(ids[..|ids| - 1], known) + if id in known then [] else [UserUnrecognizedError(id)]
  }

  lemma ErrorsStep(before: seq<ProtocolError>, ids: seq<Id>, k: nat, known: set<Id>)
    requires k < |ids|
    ensures before + UnrecognizedErrors(ids[..k + 1], known) ==
            before + UnrecognizedErrors(ids[..k], known) + if ids[k] in known then [] else [UserUnrecognizedError(ids[k])]
  {
    assert ids[..k + 1][..k] == ids[..k];
  }

  /** The error jobs of one recalculation. */
  ghost function Errors(st: CoreState, b: Buffer): seq<ProtocolError> {
    var known := st.Keys + b.registered.Keys;
    RegistrationErrors(SortedIds(b.registered.Keys), st.Keys)
    + UnrecognizedErrors(SortedIds(b.renamed.Keys), known)
    + UnrecognizedErrors(SortedIds(b.connections.Keys), known)
    + UnrecognizedErrors(SortedIds(b.deals.Keys), known)
  }

  /** The users and the errors reported so far. */
  datatype Books = Books(known: CoreState, errors: seq<ProtocolError>)

  ghost function RegisterStage(v: Books, names: map<Id, Name>): Books {
    Books(Register(v.known, names), v.errors + RegistrationErrors(SortedIds(names.Keys), v.known.Keys))
  }

  ghost function RenameStage(v: Books, names: map<Id, Name>): Books {
    Books(Rename(v.known, names), v.errors + UnrecognizedErrors(SortedIds(names.Keys), v.known.Keys))
  }

  ghost function ConnectStage(v: Books, seconds: map<Id, Second>): Books {
    Books(Connect(v.known, seconds), v.errors + UnrecognizedErrors(SortedIds(seconds.Keys), v.known.Keys))
  }

  ghost function CreditStage(v: Books, deals: map<Id, Money>): Books {
    Books(Credit(v.known, deals), v.errors + UnrecognizedErrors(SortedIds(deals.Keys), v.known.Keys))
  }

  /** Everything but the deals. */
  ghost function UpdateStages(v: Books, b: Buffer): Books {
    ConnectStage(RenameStage(RegisterStage(v, b.registered), b.renamed), b.connections)
  }

  /** A whole recalculation, stage by stage. */
  ghost function AllStages(v: Books, b: Buffer): Books {
    CreditStage(UpdateStages(v, b), b.deals)
  }

  lemma Regroup<T>(a: seq<T>, b: seq<T>, c: seq<T>, d: seq<T>, e: seq<T>)
    ensures (((a + b) + c) + d) + e == a + (((b + c) + d) + e)
  {
  }

  lemma StageKeys(st: CoreState, b: Buffer)
    ensures var registered := Register(st, b.registered);
            var renamed := Rename(registered, b.renamed);
            registered.Keys == renamed.Keys == Connect(renamed, b.connections).Keys == st.Keys + b.registered.Keys
  {
  }

  /** What the stages make of the users, and the errors they report. */
  lemma StagesAreRecalculation(v: Books, b: Buffer)
    ensures AllStages(v, b) == Books(Recalculated(v.known, b), v.errors + Errors(v.known, b))
    ensures UpdateStages(v, b).known == Updated(v.known, b)
  {
    StageKeys(v.known, b);
    var known := v.known.Keys + b.registered.Keys;
    Regroup(v.errors, RegistrationErrors(SortedIds(b.registered.Keys), v.known.Keys),
            UnrecognizedErrors(SortedIds(b.renamed.Keys), known),
            UnrecognizedErrors(SortedIds(b.connections.Keys), known),
            UnrecognizedErrors(SortedIds(b.deals.Keys), known));
  }

  // ------------------------------------------------------------------------------------------
  // The two agree, but for renames
  // ------------------------------------------------------------------------------------------

  function Only(msgs: seq<Message>, registrations: bool): seq<Message> {
    if msgs == [] then []
    else
      var last := msgs[|msgs| - 1];
      Only(msgs[..|msgs| - 1], registrations) + if last.UserRegistered? == registrations then [last] else []
  }

  /** The messages of a batch with the registrations brought to the front. */
  function RegistrationsFirst(msgs: seq<Message>): seq<Message> {
    Only(msgs, true) + Only(msgs, false)
  }

  /** The names a user is given by renames, in order. */
  function RenamesOf(msgs: seq<Message>, id: Id): seq<Name> {
    if msgs == [] then []
    else
      var last := msgs[|msgs| - 1];
      RenamesOf(msgs[..|msgs| - 1], id) + if last.UserRenamed? && last.id == id then [last.name] else []
  }

  /** A user's last rename does not differ from the first. */
  ghost predicate RenamesAgreeOn(msgs: seq<Message>, id: Id) {
    var names := RenamesOf(msgs, id);
    names != [] ==> names[0] == names[|names| - 1]
  }

  /** ... for all users known to the service when it handles the batch. */
  ghost predicate RenamesAgree(st: CoreState, msgs: seq<Message>) {
    forall id :: id in st.Keys + FoldAll(msgs).registered.Keys ==> RenamesAgreeOn(msgs, id)
  }

  ghost predicate Registers(m: Message, id: Id) {
    m.UserRegistered? && m.id == id
  }

  /** The i-th message is for a user the j-th one registers. */
  ghost predicate IsForUserOf(msgs: seq<Message>, i: nat, j: nat)
    requires i < |msgs| && j < |msgs|
  {
    Registers(msgs[j], msgs[i].id)
  }

  ghost predicate RegisteredBy(msgs: seq<Message>, i: nat, id: Id)
    requires i < |msgs|
  {
    exists k :: 0 <= k <= i && Registers(msgs[k], id)
  }

  /** Nobody is addressed before being registered by a later message of the batch. */
  ghost predicate RegisteredInTime(st: CoreState, msgs: seq<Message>) {
    forall i, j {:trigger IsForUserOf(msgs, i, j)} :: 0 <= i < j < |msgs| && IsForUserOf(msgs, i, j) ==>
      msgs[i].id in st || RegisteredBy(msgs, i, msgs[i].id)
  }

  lemma {:induction false} ApplyAllConcat(st: CoreState, s: seq<Message>, t: seq<Message>)
    ensures ApplyAll(st, s + t) == ApplyAll(ApplyAll(st, s), t)
  {
    if t == [] {
      assert s + t == s;
    } else {
      var last := |t| - 1;
      assert (s + t)[..|s + t| - 1] == s + t[..last];
      ApplyAllConcat(st, s, t[..last]);
    }
  }

  lemma FoldAppend(msgs: seq<Message>, m: Message)
    ensures FoldAll(msgs + [m]) == Fold(FoldAll(msgs), m)
  {
    assert (msgs + [m])[..|msgs|] == msgs;
  }

  lemma FoldCommutes(b: Buffer, m: Message)
    ensures m.UserRegistered? ==> Fold(b, m) == b.(registered := Fold(EMPTY.(registered := b.registered), m).registered)
    ensures m.UserRegistered? ==> Fold(EMPTY.(registered := b.registered), m) == EMPTY.(registered := Fold(b, m).registered)
    ensures !m.UserRegistered? ==> Fold(b.(registered := map[]), m) == Fold(b, m).(registered := map[])
    ensures !m.UserRegistered? ==> Fold(b, m).registered == b.registered
  {
  }

  /** A buffer keeps registrations apart from everything else. */
  lemma {:induction false} FoldSplits(msgs: seq<Message>)
    ensures FoldAll(Only(msgs, true)) == EMPTY.(registered := FoldAll(msgs).registered)
    ensures FoldAll(Only(msgs, false)) == FoldAll(msgs).(registered := map[])
  {
    if msgs != [] {
      var rest, last := msgs[..|msgs| - 1], msgs[|msgs| - 1];
      FoldSplits(rest);
      FoldCommutes(FoldAll(rest), last);
      FoldAppend(Only(rest, last.UserRegistered?), last);
      assert Only(rest, !last.UserRegistered?) + [] == Only(rest, !last.UserRegistered?);
    }
  }

  lemma RegisterOneMore(st: CoreState, names: map<Id, Name>, id: Id, name: Name)
    ensures Apply(Register(st, names), UserRegistered(id, name)) ==
            Register(st, if id in names then names else names[id := name])
  {
  }

  lemma {:induction false} ApplyRegistrations(st: CoreState, msgs: seq<Message>)
    requires forall i :: 0 <= i < |msgs| ==> msgs[i].UserRegistered?
    ensures ApplyAll(st, msgs) == Register(st, FoldAll(msgs).registered)
  {
    if msgs != [] {
      var init, last := msgs[..|msgs| - 1], msgs[|msgs| - 1];
      ApplyRegistrations(st, init);
      RegisterOneMore(st, FoldAll(init).registered, last.id, last.name);
    }
  }

  /** What a run of messages without registrations does to a user. */
  function AfterOthers(u: UserState, msgs: seq<Message>, id: Id): UserState {
    var b, names := FoldAll(msgs), RenamesOf(msgs, id);
    UserState(if names == [] then u.name else names[|names| - 1],
              if id in b.connections then b.connections[id] else u.second,
              if id in b.deals then Some(Won(u) + b.deals[id]) else u.total)
  }

  lemma OthersStep(u: UserState, msgs: seq<Message>, m: Message, id: Id)
    requires !m.UserRegistered?
    ensures AfterOthers(u, msgs + [m], id) ==
            if m.id == id then ApplyTo(AfterOthers(u, msgs, id), m) else AfterOthers(u, msgs, id)
  {
    FoldAppend(msgs, m);
    assert (msgs + [m])[..|msgs|] == msgs;
  }

  lemma {:induction false} ApplyOthers(st: CoreState, msgs: seq<Message>, id: Id)
    requires forall i :: 0 <= i < |msgs| ==> !msgs[i].UserRegistered?
    ensures id in ApplyAll(st, msgs) <==> id in st
    ensures id in st ==> ApplyAll(st, msgs)[id] == AfterOthers(st[id], msgs, id)
  {
    if msgs != [] {
      var rest, m := msgs[..|msgs| - 1], msgs[|msgs| - 1];
      assert msgs == rest + [m];
      ApplyOthers(st, rest, id);
      if id in st { OthersStep(st[id], rest, m, id); }
    }
  }

  lemma {:induction false} FirstRenameStays(msgs: seq<Message>, id: Id)
    ensures id in FoldAll(msgs).renamed <==> RenamesOf(msgs, id) != []
    ensures RenamesOf(msgs, id) != [] ==> FoldAll(msgs).renamed[id] == RenamesOf(msgs, id)[0]
  {
    if msgs != [] {
      FirstRenameStays(msgs[..|msgs| - 1], id);
    }
  }

  lemma {:induction false} OnlyIsPure(msgs: seq<Message>, registrations: bool)
    ensures forall i :: 0 <= i < |Only(msgs, registrations)| ==> Only(msgs, registrations)[i].UserRegistered? == registrations
    ensures forall i :: 0 <= i < |Only(msgs, registrations)| ==> Only(msgs, registrations)[i] in msgs
  {
    if msgs != [] {
      OnlyIsPure(msgs[..|msgs| - 1], registrations);
    }
  }

  lemma {:induction false} RenamesOfOnly(msgs: seq<Message>, id: Id)
    ensures RenamesOf(Only(msgs, false), id) == RenamesOf(msgs, id)
  {
    if msgs != [] {
      var rest, last := msgs[..|msgs| - 1], msgs[|msgs| - 1];
      RenamesOfOnly(rest, id);
      if !last.UserRegistered? {
        assert (Only(rest, false) + [last])[..|Only(rest, false)|] == Only(rest, false);
      } else {
        assert Only(rest, false) + [] == Only(rest, false);
      }
    }
  }

  lemma OthersOfOnly(u: UserState, msgs: seq<Message>, id: Id)
    ensures AfterOthers(u, Only(msgs, false), id) == AfterOthers(u, msgs, id)
  {
    FoldSplits(msgs);
    RenamesOfOnly(msgs, id);
  }

  lemma RegistrationsFirstSplits(st: CoreState, msgs: seq<Message>)
    ensures ApplyAll(st, RegistrationsFirst(msgs)) == ApplyAll(Register(st, FoldAll(msgs).registered), Only(msgs, false))
  {
    OnlyIsPure(msgs, true);
    FoldSplits(msgs);
    ApplyAllConcat(st, Only(msgs, true), Only(msgs, false));
    ApplyRegistrations(st, Only(msgs, true));
  }

  /** One at a time, registrations first, in closed form. */
  lemma ApplyRegistrationsFirst(st: CoreState, msgs: seq<Message>, id: Id)
    ensures var known, r := Register(st, FoldAll(msgs).registered), ApplyAll(st, RegistrationsFirst(msgs));
            && (id in r <==> id in known)
            && (id in r ==> r[id] == AfterOthers(known[id], msgs, id))
  {
    var known := Register(st, FoldAll(msgs).registered);
    RegistrationsFirstSplits(st, msgs);
    OnlyIsPure(msgs, false);
    ApplyOthers(known, Only(msgs, false), id);
    if id in known { OthersOfOnly(known[id], msgs, id); }
  }

  /** What a recalculation makes of a known user. */
  function AfterBatch(u: UserState, b: Buffer, id: Id): UserState {
    UserState(if id in b.renamed then b.renamed[id] else u.name,
              if id in b.connections then b.connections[id] else u.second,
              if id in b.deals then Some(Won(u) + b.deals[id]) else u.total)
  }

  lemma RecalculatedAt(st: CoreState, b: Buffer, id: Id)
    ensures var known, r := Register(st, b.registered), Recalculated(st, b);
            && (id in r <==> id in known)
            && (id in r ==> r[id] == AfterBatch(known[id], b, id))
  {
  }

  lemma UserIsSequential(u: UserState, msgs: seq<Message>, id: Id)
    ensures AfterBatch(u, FoldAll(msgs), id) == AfterOthers(u, msgs, id) <==> RenamesAgreeOn(msgs, id)
  {
    FirstRenameStays(msgs, id);
  }

  lemma BatchIsSequentialAt(st: CoreState, msgs: seq<Message>, id: Id)
    ensures var batch, sequential := Recalculated(st, FoldAll(msgs)), ApplyAll(st, RegistrationsFirst(msgs));
            && (id in batch <==> id in st.Keys + FoldAll(msgs).registered.Keys)
            && (id in sequential <==> id in batch)
            && (id in batch ==> (batch[id] == sequential[id] <==> RenamesAgreeOn(msgs, id)))
  {
    var known := Register(st, FoldAll(msgs).registered);
    RecalculatedAt(st, FoldAll(msgs), id);
    ApplyRegistrationsFirst(st, msgs, id);
    if id in known { UserIsSequential(known[id], msgs, id); }
  }

  /**
   Recalculating a batch is the same as taking its registrations first and then all other
   messages one at a time, exactly if no known user is renamed twice to different ends.
   */
  lemma BatchIsSequential(st: CoreState, msgs: seq<Message>)
    ensures Recalculated(st, FoldAll(msgs)) == ApplyAll(st, RegistrationsFirst(msgs)) <==> RenamesAgree(st, msgs)
  {
    var batch, sequential := Recalculated(st, FoldAll(msgs)), ApplyAll(st, RegistrationsFirst(msgs));
    forall id
      ensures (id in batch.Keys <==> id in st.Keys + FoldAll(msgs).registered.Keys) && (id in sequential.Keys <==> id in batch.Keys)
    {
      BatchIsSequentialAt(st, msgs, id);
    }
    forall id | id in batch
      ensures batch[id] == sequential[id] <==> RenamesAgreeOn(msgs, id)
    {
      BatchIsSequentialAt(st, msgs, id);
    }
    assert batch.Keys == sequential.Keys == st.Keys + FoldAll(msgs).registered.Keys;
    if RenamesAgree(st, msgs) {
      forall id | id in batch
        ensures batch[id] == sequential[id]
      {
        assert RenamesAgreeOn(msgs, id);
      }
    }
  }

  // ------------------------------------------------------------------------------------------
  // The stages of a recalculation, one user after the other
  // ------------------------------------------------------------------------------------------

  /** One entry of a buffer: apply it or report an error. */
  function Handle(v: Books, msg: Message): Books {
    var error :=
      if msg.UserRegistered? then if msg.id in v.known then [MultipleRegistrationError(msg.id)] else []
      else if msg.id in v.known then [] else [UserUnrecognizedError(msg.id)];
    Books(Apply(v.known, msg), v.errors + error)
  }

  /** One message for each of the ids. */
  function Sweep(v: Books, ids: seq<Id>, f: Id -> Message): Books {
    if ids == [] then v else Handle(Sweep(v, ids[..|ids| - 1], f), f(ids[|ids| - 1]))
  }

  function Registering(names: map<Id, Name>): Id -> Message {
    id => UserRegistered(id, if id in names then names[id] else [])
  }

  function Renaming(names: map<Id, Name>): Id -> Message {
    id => UserRenamed(id, if id in names then names[id] else [])
  }

  function Connecting(seconds: map<Id, Second>): Id -> Message {
    id => UserConnected(id, if id in seconds then seconds[id] else INVALID_SECOND)
  }

  lemma SweepStep(v: Books, ids: seq<Id>, k: nat, f: Id -> Message)
    requires k < |ids|
    ensures Sweep(v, ids[..k + 1], f) == Handle(Sweep(v, ids[..k], f), f(ids[k]))
  {
    assert ids[..k + 1][..k] == ids[..k];
  }

  /** Every id meets its own message only. */
  lemma {:induction false} SweepAt(v: Books, ids: seq<Id>, f: Id -> Message, id: Id)
    requires Ascending(ids) && forall i :: 0 <= i < |ids| ==> f(ids[i]).id == ids[i]
    ensures var r := Sweep(v, ids, f).known;
            && (id in r <==> id in v.known || (id in ids && f(id).UserRegistered?))
            && (id in r ==> r[id] == if id in ids then Apply(v.known, f(id))[id] else v.known[id])
  {
    if ids != [] {
      var last := |ids| - 1;
      AscendingInit(ids);
      SweepAt(v, ids[..last], f, id);
      assert ids == ids[..last] + [ids[last]];
    }
  }

  lemma {:induction false} SweepReportsKnown(v: Books, ids: seq<Id>, names: map<Id, Name>)
    requires Ascending(ids)
    ensures Sweep(v, ids, Registering(names)).errors == v.errors + RegistrationErrors(ids, v.known.Keys)
  {
    if ids != [] {
      var last := |ids| - 1;
      AscendingInit(ids);
      SweepReportsKnown(v, ids[..last], names);
      SweepAt(v, ids[..last], Registering(names), ids[last]);
    }
  }

  lemma {:induction false} SweepReportsUnknown(v: Books, ids: seq<Id>, f: Id -> Message)
    requires Ascending(ids) && forall id :: f(id).id == id && !f(id).UserRegistered?
    ensures Sweep(v, ids, f).errors == v.errors + UnrecognizedErrors(ids, v.known.Keys)
  {
    if ids != [] {
      var last := |ids| - 1;
      AscendingInit(ids);
      SweepReportsUnknown(v, ids[..last], f);
      SweepAt(v, ids[..last], f, ids[last]);
    }
  }

  lemma SweepRegistersAt(v: Books, names: map<Id, Name>, id: Id)
    ensures var r, s := Sweep(v, SortedIds(names.Keys), Registering(names)).known, Register(v.known, names);
            (id in r.Keys <==> id in s.Keys) && (id in r ==> r[id] == s[id])
  {
    assert InBoth(id, SortedIds(names.Keys), names.Keys);
    SweepAt(v, SortedIds(names.Keys), Registering(names), id);
  }

  lemma SweepRegistersAll(v: Books, names: map<Id, Name>)
    ensures Sweep(v, SortedIds(names.Keys), Registering(names)).known == Register(v.known, names)
  {
    var r, s := Sweep(v, SortedIds(names.Keys), Registering(names)).known, Register(v.known, names);
    forall id
      ensures (id in r.Keys <==> id in s.Keys) && (id in r ==> r[id] == s[id])
    {
      SweepRegistersAt(v, names, id);
    }
    assert r.Keys == s.Keys;
  }

  lemma SweepRegisters(v: Books, names: map<Id, Name>)
    ensures Sweep(v, SortedIds(names.Keys), Registering(names)) == RegisterStage(v, names)
  {
    SweepRegistersAll(v, names);
    SweepReportsKnown(v, SortedIds(names.Keys), names);
  }

  lemma SweepRenames(v: Books, names: map<Id, Name>)
    ensures Sweep(v, SortedIds(names.Keys), Renaming(names)) == RenameStage(v, names)
  {
    var r, s := Sweep(v, SortedIds(names.Keys), Renaming(names)).known, Rename(v.known, names);
    SweepReportsUnknown(v, SortedIds(names.Keys), Renaming(names));
    forall id
      ensures (id in r.Keys <==> id in s.Keys) && (id in r ==> r[id] == s[id])
    {
      assert InBoth(id, SortedIds(names.Keys), names.Keys);
      SweepAt(v, SortedIds(names.Keys), Renaming(names), id);
    }
    assert r.Keys == s.Keys;
  }

  lemma SweepConnects(v: Books, seconds: map<Id, Second>)
    ensures Sweep(v, SortedIds(seconds.Keys), Connecting(seconds)) == ConnectStage(v, seconds)
  {
    var r, s := Sweep(v, SortedIds(seconds.Keys), Connecting(seconds)).known, Connect(v.known, seconds);
    SweepReportsUnknown(v, SortedIds(seconds.Keys), Connecting(seconds));
    forall id
      ensures (id in r.Keys <==> id in s.Keys) && (id in r ==> r[id] == s[id])
    {
      assert InBoth(id, SortedIds(seconds.Keys), seconds.Keys);
      SweepAt(v, SortedIds(seconds.Keys), Connecting(seconds), id);
    }
    assert r.Keys == s.Keys;
  }

  // ------------------------------------------------------------------------------------------
  // Bringing registrations forward
  // ------------------------------------------------------------------------------------------

  lemma {:induction false} KnownStayKnown(st: CoreState, msgs: seq<Message>)
    ensures st.Keys <= ApplyAll(st, msgs).Keys
    ensures forall id :: id in ApplyAll(st, msgs) ==>
                           id in st || exists i :: 0 <= i < |msgs| && msgs[i].UserRegistered? && msgs[i].id == id
    ensures forall i :: 0 <= i < |msgs| && msgs[i].UserRegistered? ==> msgs[i].id in ApplyAll(st, msgs)
  {
    if msgs != [] {
      var rest := msgs[..|msgs| - 1];
      KnownStayKnown(st, rest);
      forall id | id in ApplyAll(st, msgs) && id !in st
        ensures exists i :: 0 <= i < |msgs| && msgs[i].UserRegistered? && msgs[i].id == id
      {
        if id in ApplyAll(st, rest) {
          var i :| 0 <= i < |rest| && rest[i].UserRegistered? && rest[i].id == id;
          assert msgs[i] == rest[i];
        } else {
          assert msgs[|msgs| - 1].id == id;
        }
      }
      forall i | 0 <= i < |msgs| && msgs[i].UserRegistered?
        ensures msgs[i].id in ApplyAll(st, msgs)
      {
        if i < |rest| { assert msgs[i] == rest[i]; }
      }
    }
  }

  lemma {:induction false} RegistrationCommutes(st: CoreState, m: Message, msgs: seq<Message>)
    requires m.UserRegistered?
    requires m.id in st || forall i :: 0 <= i < |msgs| ==> msgs[i].id != m.id
    ensures ApplyAll(Apply(st, m), msgs) == Apply(ApplyAll(st, msgs), m)
  {
    if m.id in st {
      KnownStayKnown(st, msgs);
      assert Apply(st, m) == st;
    } else if msgs != [] {
      RegistrationCommutes(st, m, msgs[..|msgs| - 1]);
    }
  }

  lemma {:induction false} ForwardRegistrations(st: CoreState, msgs: seq<Message>)
    requires RegisteredInTime(st, msgs)
    ensures ApplyAll(st, RegistrationsFirst(msgs)) == ApplyAll(st, msgs)
  {
    if msgs != [] {
      var rest, m := msgs[..|msgs| - 1], msgs[|msgs| - 1];
      var regs, others := Only(rest, true), Only(rest, false);
      assert RegisteredInTime(st, rest) by { InTimePrefix(st, msgs); }
      ForwardRegistrations(st, rest);
      ApplyAllConcat(st, regs, others);
      if m.UserRegistered? {
        assert RegistrationsFirst(msgs) == (regs + [m]) + others;
        ApplyAllConcat(st, regs + [m], others);
        assert (regs + [m])[..|regs|] == regs;
        OnlyIsPure(rest, false);
        if m.id !in ApplyAll(st, regs) {
          forall i | 0 <= i < |others|
            ensures others[i].id != m.id
          {
            NotAddressedBefore(st, msgs, others[i]);
          }
        }
        RegistrationCommutes(ApplyAll(st, regs), m, others);
      } else {
        assert RegistrationsFirst(msgs) == RegistrationsFirst(rest) + [m];
        assert (RegistrationsFirst(rest) + [m])[..|RegistrationsFirst(rest)|] == RegistrationsFirst(rest);
      }
    }
  }

  lemma InTimePrefix(st: CoreState, msgs: seq<Message>)
    requires msgs != [] && RegisteredInTime(st, msgs)
    ensures RegisteredInTime(st, msgs[..|msgs| - 1])
  {
    var rest := msgs[..|msgs| - 1];
    forall i, j | 0 <= i < j < |rest| && IsForUserOf(rest, i, j) && rest[i].id !in st
      ensures RegisteredBy(rest, i, rest[i].id)
    {
      assert IsForUserOf(msgs, i, j);
      var k :| 0 <= k <= i && Registers(msgs[k], rest[i].id);
      assert Registers(rest[k], rest[i].id);
    }
  }

  lemma {:induction false} OnlyHas(msgs: seq<Message>, m: Message)
    requires m in msgs
    ensures m in Only(msgs, m.UserRegistered?)
  {
    if m != msgs[|msgs| - 1] {
      assert msgs == msgs[..|msgs| - 1] + [msgs[|msgs| - 1]];
      OnlyHas(msgs[..|msgs| - 1], m);
    }
  }

  lemma NotAddressedBefore(st: CoreState, msgs: seq<Message>, m: Message)
    requires msgs != [] && RegisteredInTime(st, msgs) && msgs[|msgs| - 1].UserRegistered?
    requires m in msgs[..|msgs| - 1]
    requires msgs[|msgs| - 1].id !in ApplyAll(st, Only(msgs[..|msgs| - 1], true))
    ensures m.id != msgs[|msgs| - 1].id
  {
    var rest := msgs[..|msgs| - 1];
    KnownStayKnown(st, Only(rest, true));
    if m.id == msgs[|msgs| - 1].id {
      var i :| 0 <= i < |rest| && rest[i] == m;
      assert IsForUserOf(msgs, i, |rest|);
      var k :| 0 <= k <= i && Registers(msgs[k], m.id);
      assert rest[k] == msgs[k] && rest[k] in rest;
      OnlyHas(rest, rest[k]);
      assert false;
    }
  }

  // ------------------------------------------------------------------------------------------
  // ... and where they are, messages before a registration included
  // ------------------------------------------------------------------------------------------

  lemma {:induction false} RenamesOfConcat(s: seq<Message>, t: seq<Message>, id: Id)
    ensures RenamesOf(s + t, id) == RenamesOf(s, id) + RenamesOf(t, id)
  {
    if t == [] {
      assert s + t == s;
    } else {
      assert (s + t)[..|s + t| - 1] == s + t[..|t| - 1];
      RenamesOfConcat(s, t[..|t| - 1], id);
    }
  }

  /** A buffer filled by one batch after another. */
  ghost predicate Joins(a: Buffer, b: Buffer, c: Buffer, id: Id) {
    && (id in c.connections <==> id in a.connections || id in b.connections)
    && (id in c.connections ==>
          c.connections[id] == if id in b.connections then b.connections[id] else a.connections[id])
    && (id in c.deals <==> id in a.deals || id in b.deals)
    && (id in c.deals ==> c.deals[id] == (if id in a.deals then a.deals[id] else 0)
                                         + (if id in b.deals then b.deals[id] else 0))
  }

  lemma JoinsStep(a: Buffer, b: Buffer, c: Buffer, m: Message, id: Id)
    requires Joins(a, b, c, id)
    ensures Joins(a, Fold(b, m), Fold(c, m), id)
  {
  }

  lemma {:induction false} FoldConcat(s: seq<Message>, t: seq<Message>, id: Id)
    ensures Joins(FoldAll(s), FoldAll(t), FoldAll(s + t), id)
  {
    if t == [] {
      assert s + t == s;
    } else {
      var rest, m := t[..|t| - 1], t[|t| - 1];
      assert (s + t)[..|s + t| - 1] == s + rest;
      FoldConcat(s, rest, id);
      JoinsStep(FoldAll(s), FoldAll(rest), FoldAll(s + rest), m, id);
    }
  }

  /** A known user, one message at a time; registrations do nothing any more. */
  lemma {:induction false} ApplyToKnown(st: CoreState, msgs: seq<Message>, id: Id)
    requires id in st
    ensures id in ApplyAll(st, msgs) && ApplyAll(st, msgs)[id] == AfterOthers(st[id], msgs, id)
  {
    if msgs != [] {
      var rest, m := msgs[..|msgs| - 1], msgs[|msgs| - 1];
      assert msgs == rest + [m];
      ApplyToKnown(st, rest, id);
      if !m.UserRegistered? { OthersStep(st[id], rest, m, id); }
    }
  }

  lemma {:induction false} StaysUnknown(st: CoreState, msgs: seq<Message>, id: Id)
    requires id !in st && id !in FoldAll(msgs).registered
    ensures id !in ApplyAll(st, msgs)
  {
    if msgs != [] {
      StaysUnknown(st, msgs[..|msgs| - 1], id);
    }
  }

  /** The message that registers an unknown user; the batch and one at a time take the name from it. */
  function Registration(msgs: seq<Message>, id: Id): (r: nat)
    requires id in FoldAll(msgs).registered
    ensures r < |msgs| && msgs[r].UserRegistered? && msgs[r].id == id && msgs[r].name == FoldAll(msgs).registered[id]
    ensures id !in FoldAll(msgs[..r]).registered
  {
    var rest := msgs[..|msgs| - 1];
    if id in FoldAll(rest).registered then
      var r := Registration(rest, id);
      assert rest[..r] == msgs[..r];
      r
    else |rest|
  }

  /**
   For a user whom the batch registers: what comes before the registration, which one at a time is
   rejected, makes no difference. The first rename of all is to the name the user has after the later
   ones; an early connection is a disconnection, or changed later; early deals add up to nothing, and
   there are later ones.
   */
  ghost predicate EarlyMakesNoDifference(early: seq<Message>, name: Name, late: seq<Message>, id: Id) {
    var a, b, names, more := FoldAll(early), FoldAll(late), RenamesOf(early, id), RenamesOf(late, id);
    && (names + more != [] ==> (names + more)[0] == if more == [] then name else more[|more| - 1])
    && (id in a.connections ==> id in b.connections || a.connections[id] == INVALID_SECOND)
    && (id in a.deals ==> id in b.deals && a.deals[id] == 0)
  }

  ghost predicate Fits(st: CoreState, msgs: seq<Message>, id: Id) {
    if id in st then RenamesAgreeOn(msgs, id)
    else
      id in FoldAll(msgs).registered ==>
        var r := Registration(msgs, id);
        EarlyMakesNoDifference(msgs[..r], msgs[r].name, msgs[r + 1..], id)
  }

  /** One at a time, a user whom the batch registers starts with what comes after the registration. */
  lemma ApplyFromRegistration(st: CoreState, early: seq<Message>, m: Message, late: seq<Message>, id: Id)
    requires id !in st && id !in FoldAll(early).registered && Registers(m, id)
    ensures var r := ApplyAll(st, early + [m] + late);
            id in r && r[id] == AfterOthers(UserState(m.name, INVALID_SECOND, None), late, id)
  {
    StaysUnknown(st, early, id);
    assert (early + [m])[..|early|] == early;
    ApplyToKnown(ApplyAll(st, early + [m]), late, id);
    ApplyAllConcat(st, early + [m], late);
  }

  lemma BatchFromRegistration(u: UserState, early: seq<Message>, m: Message, late: seq<Message>, id: Id)
    requires m.UserRegistered? && u == UserState(m.name, INVALID_SECOND, None)
    ensures AfterBatch(u, FoldAll(early + [m] + late), id) == AfterOthers(u, late, id) <==>
            EarlyMakesNoDifference(early, m.name, late, id)
  {
    var msgs := early + [m] + late;
    FoldAppend(early, m);
    FoldConcat(early + [m], late, id);
    assert (early + [m])[..|early|] == early;
    RenamesOfConcat(early + [m], late, id);
    assert RenamesOf(early, id) + [] == RenamesOf(early, id);
    FirstRenameStays(msgs, id);
  }

  lemma NewUserFitsExactly(st: CoreState, msgs: seq<Message>, id: Id)
    requires id !in st && id in FoldAll(msgs).registered
    ensures id in ApplyAll(st, msgs)
    ensures var batch := AfterBatch(UserState(FoldAll(msgs).registered[id], INVALID_SECOND, None), FoldAll(msgs), id);
            batch == ApplyAll(st, msgs)[id] <==> Fits(st, msgs, id)
  {
    var r := Registration(msgs, id);
    var early, m, late := msgs[..r], msgs[r], msgs[r + 1..];
    assert msgs == early + [m] + late;
    ApplyFromRegistration(st, early, m, late, id);
    BatchFromRegistration(UserState(m.name, INVALID_SECOND, None), early, m, late, id);
  }

  lemma FitsExactly(st: CoreState, msgs: seq<Message>, id: Id)
    ensures var batch, sequential := Recalculated(st, FoldAll(msgs)), ApplyAll(st, msgs);
            && (id in batch <==> id in st || id in FoldAll(msgs).registered)
            && (id in sequential <==> id in batch)
            && (id in batch ==> (batch[id] == sequential[id] <==> Fits(st, msgs, id)))
  {
    RecalculatedAt(st, FoldAll(msgs), id);
    if id in st {
      ApplyToKnown(st, msgs, id);
      UserIsSequential(st[id], msgs, id);
    } else if id in FoldAll(msgs).registered {
      NewUserFitsExactly(st, msgs, id);
    } else {
      StaysUnknown(st, msgs, id);
    }
  }

  lemma SameUsers(batch: CoreState, sequential: CoreState)
    requires forall id :: id in batch <==> id in sequential
    ensures batch == sequential <==> forall id :: id in batch ==> batch[id] == sequential[id]
  {
    forall id
      ensures id in batch.Keys <==> id in sequential.Keys
    {
      assert id in batch <==> id in sequential;
    }
    assert batch.Keys == sequential.Keys;
    if forall id :: id in batch ==> batch[id] == sequential[id] {
      assert batch == sequential;
    }
  }

  /**
   A batch comes to the same as its messages one at a time, exactly if it does for each user: for a
   known one renames agree, for a new one what comes before the registration makes no difference.
   If nobody is addressed before being registered, that is so exactly if renames agree.
   */
  lemma BatchRefinesSequence(st: CoreState, msgs: seq<Message>)
    ensures Recalculated(st, FoldAll(msgs)) == ApplyAll(st, msgs) <==> forall id :: Fits(st, msgs, id)
    ensures RegisteredInTime(st, msgs) ==>
              (Recalculated(st, FoldAll(msgs)) == ApplyAll(st, msgs) <==> RenamesAgree(st, msgs))
  {
    var batch, sequential := Recalculated(st, FoldAll(msgs)), ApplyAll(st, msgs);
    forall id
      ensures id in batch <==> id in sequential
      ensures id in batch ==> (batch[id] == sequential[id] <==> Fits(st, msgs, id))
      ensures id !in batch ==> Fits(st, msgs, id)
    {
      FitsExactly(st, msgs, id);
    }
    SameUsers(batch, sequential);
    if RegisteredInTime(st, msgs) {
      BatchIsSequential(st, msgs);
      ForwardRegistrations(st, msgs);
    }
  }

  /** A deal before the registration in the same minute: the service keeps it, one at a time it is rejected. */
  lemma EarlyDealIsKept(name: Name, amount: Money)
    ensures var msgs := [UserDealWon(1, amount), UserRegistered(1, name)];
            && RenamesAgree(map[], msgs)
            && Recalculated(map[], FoldAll(msgs)) == map[1 := UserState(name, INVALID_SECOND, Some(amount))]
            && ApplyAll(map[], msgs) == map[1 := UserState(name, INVALID_SECOND, None)]
  {
    var d, m := UserDealWon(1, amount), UserRegistered(1, name);
    assert [d, m][..1] == [d] && [d][..0] == [];
    assert FoldAll([d]) == EMPTY.(deals := map[1 := amount]);
    assert FoldAll([d, m]) == EMPTY.(registered := map[1 := name], deals := map[1 := amount]);
    FirstRenameStays([d, m], 1);
    assert ApplyAll(map[], [d]) == map[];
  }

  /** Two renames within a minute: the service keeps the first name, not the last. */
  lemma SecondRenameIsLost(first: Name, second: Name, initial: Name)
    requires first != second
    ensures var msgs := [UserRegistered(1, initial), UserRenamed(1, first), UserRenamed(1, second)];
            && RegisteredInTime(map[], msgs)
            && Recalculated(map[], FoldAll(msgs)) == map[1 := UserState(first, INVALID_SECOND, None)]
            && ApplyAll(map[], msgs) == map[1 := UserState(second, INVALID_SECOND, None)]
  {
    var msgs := [UserRegistered(1, initial), UserRenamed(1, first), UserRenamed(1, second)];
    assert msgs[..2] == [UserRegistered(1, initial), UserRenamed(1, first)];
    assert msgs[..2][..1] == [UserRegistered(1, initial)];
    assert msgs[..2][..1][..0] == [];
    assert FoldAll(msgs[..2][..1]) == EMPTY.(registered := map[1 := initial]);
    assert FoldAll(msgs) == EMPTY.(registered := map[1 := initial], renamed := map[1 := first]);
    assert ApplyAll(map[], msgs[..2][..1]) == map[1 := UserState(initial, INVALID_SECOND, None)];
    assert ApplyAll(map[], msgs[..2]) == map[1 := UserState(first, INVALID_SECOND, None)];
  }

  // ------------------------------------------------------------------------------------------
  // Runs
  // ------------------------------------------------------------------------------------------

  /** One recalculation: with or without a weekly drop, and the messages since the last one. */
  datatype Minute = Minute(dropOldRating: bool, messages: seq<Message>)

  function Start(st: CoreState, dropOldRating: bool): CoreState {
    if dropOldRating then Drop(st) else st
  }

  function AfterMinute(st: CoreState, minute: Minute): CoreState {
    Recalculated(Start(st, minute.dropOldRating), FoldAll(minute.messages))
  }

  function AfterMinutes(st: CoreState, minutes: seq<Minute>): CoreState {
    if minutes == [] then st else AfterMinute(AfterMinutes(st, minutes[..|minutes| - 1]), minutes[|minutes| - 1])
  }

  lemma {:induction false} FoldRegisters(msgs: seq<Message>, id: Id)
    ensures id in FoldAll(msgs).registered <==> exists i :: 0 <= i < |msgs| && Registers(msgs[i], id)
  {
    if msgs != [] {
      var last := |msgs| - 1;
      FoldRegisters(msgs[..last], id);
      assert Registers(msgs[last], id) ==> exists i :: 0 <= i < |msgs| && Registers(msgs[i], id);
      forall i | 0 <= i < last
        ensures msgs[..last][i] == msgs[i]
      {
      }
    }
  }

  /** The k-th minute has a registration of the user. */
  ghost predicate RegisteredIn(minutes: seq<Minute>, k: nat, id: Id)
    requires k < |minutes|
  {
    id in FoldAll(minutes[k].messages).registered
  }

  /** Exactly the users ever registered are known; no drop forgets anybody. */
  lemma {:induction false} KnownIsRegistered(st: CoreState, minutes: seq<Minute>, id: Id)
    ensures id in AfterMinutes(st, minutes) <==>
            id in st || exists k :: 0 <= k < |minutes| && RegisteredIn(minutes, k, id)
  {
    if minutes != [] {
      var before, last := minutes[..|minutes| - 1], minutes[|minutes| - 1];
      KnownIsRegistered(st, before, id);
      RecalculatedAt(Start(AfterMinutes(st, before), last.dropOldRating), FoldAll(last.messages), id);
      assert RegisteredIn(minutes, |before|, id) <==> id in FoldAll(last.messages).registered;
      assert forall k :: 0 <= k < |before| ==> (RegisteredIn(minutes, k, id) <==> RegisteredIn(before, k, id));
    }
  }

  predicate IsRated(st: CoreState, id: Id) {
    id in st && st[id].total.Some?
  }

  /** A deal of the k-th minute that counts: the user is known by then, and no drop has followed. */
  ghost predicate CountsSince(minutes: seq<Minute>, k: nat, id: Id)
    requires k < |minutes|
  {
    && id in FoldAll(minutes[k].messages).deals && id in AfterMinutes(map[], minutes[..k + 1])
    && forall j :: k < j < |minutes| ==> !minutes[j].dropOldRating
  }

  lemma RatedOneMore(st: CoreState, minute: Minute, id: Id)
    ensures IsRated(AfterMinute(st, minute), id) <==>
            || (id in AfterMinute(st, minute) && id in FoldAll(minute.messages).deals)
            || (IsRated(st, id) && !minute.dropOldRating)
  {
    RecalculatedAt(Start(st, minute.dropOldRating), FoldAll(minute.messages), id);
  }

  ghost predicate Counts(minutes: seq<Minute>, id: Id) {
    exists k :: 0 <= k < |minutes| && CountsSince(minutes, k, id)
  }

  lemma CountsLast(minutes: seq<Minute>, id: Id)
    requires minutes != []
    ensures var last := |minutes| - 1;
            CountsSince(minutes, last, id) <==>
            id in FoldAll(minutes[last].messages).deals && id in AfterMinutes(map[], minutes)
  {
    assert minutes == minutes[..|minutes| - 1 + 1];
  }

  lemma CountsNow(minutes: seq<Minute>, id: Id)
    requires minutes != []
    ensures var last := |minutes| - 1;
            Counts(minutes, id) <==> CountsSince(minutes, last, id) || (Counts(minutes[..last], id) && !minutes[last].dropOldRating)
  {
    var last := |minutes| - 1;
    if Counts(minutes, id) {
      var k :| 0 <= k < |minutes| && CountsSince(minutes, k, id);
      if k < last { CountsOneMore(minutes, k, id); }
    }
    if Counts(minutes[..last], id) && !minutes[last].dropOldRating {
      var k :| 0 <= k < last && CountsSince(minutes[..last], k, id);
      CountsOneMore(minutes, k, id);
    }
  }

  /** Exactly the users with a deal since the last drop, or in its minute, take part in the rating. */
  lemma {:induction false} RatedExactly(minutes: seq<Minute>, id: Id)
    ensures IsRated(AfterMinutes(map[], minutes), id) <==>
            exists k :: 0 <= k < |minutes| && CountsSince(minutes, k, id)
  {
    assert Counts(minutes, id) <==> exists k :: 0 <= k < |minutes| && CountsSince(minutes, k, id);
    if minutes != [] {
      RatedExactly(minutes[..|minutes| - 1], id);
      RatedOneMore(AfterMinutes(map[], minutes[..|minutes| - 1]), minutes[|minutes| - 1], id);
      CountsLast(minutes, id);
      CountsNow(minutes, id);
    }
  }

  lemma CountsOneMore(minutes: seq<Minute>, k: nat, id: Id)
    requires k < |minutes| - 1
    ensures CountsSince(minutes, k, id) <==>
            CountsSince(minutes[..|minutes| - 1], k, id) && !minutes[|minutes| - 1].dropOldRating
  {
    assert minutes[..|minutes| - 1][..k + 1] == minutes[..k + 1];
  }

  // ------------------------------------------------------------------------------------------
  // Money
  // ------------------------------------------------------------------------------------------

  /** All messages of a run, in order. */
  function Flatten(minutes: seq<Minute>): seq<Message> {
    if minutes == [] then [] else Flatten(minutes[..|minutes| - 1]) + minutes[|minutes| - 1].messages
  }

  lemma OneMoreMinute(st: CoreState, minutes: seq<Minute>, minute: Minute)
    ensures AfterMinutes(st, minutes + [minute]) == AfterMinute(AfterMinutes(st, minutes), minute)
  {
    assert (minutes + [minute])[..|minutes|] == minutes;
  }

  lemma FlattenMore(minutes: seq<Minute>, minute: Minute, rest: seq<Message>)
    ensures Flatten(minutes + [minute]) + [] + rest == Flatten(minutes) + minute.messages + rest
  {
    assert (minutes + [minute])[..|minutes|] == minutes;
    assert Flatten(minutes + [minute]) + [] == Flatten(minutes + [minute]);
  }

  /** What a user has won according to the messages. */
  function DealsOf(msgs: seq<Message>, id: Id): Money {
    if msgs == [] then 0
    else
      var last := msgs[|msgs| - 1];
      DealsOf(msgs[..|msgs| - 1], id) + if last.UserDealWon? && last.id == id then last.amount else 0
  }

  function Amount(st: CoreState, id: Id): Money {
    if id in st then Won(st[id]) else 0
  }

  /** What weekly drops have taken from a user. */
  function Dropped(minutes: seq<Minute>, id: Id): Money {
    if minutes == [] then 0
    else
      var before, last := minutes[..|minutes| - 1], minutes[|minutes| - 1];
      Dropped(before, id) + if last.dropOldRating then Amount(AfterMinutes(map[], before), id) else 0
  }

  /** What a user has won while unknown. */
  function Rejected(minutes: seq<Minute>, id: Id): Money {
    if minutes == [] then 0
    else
      Rejected(minutes[..|minutes| - 1], id)
      + if id in AfterMinutes(map[], minutes) then 0 else DealsOf(minutes[|minutes| - 1].messages, id)
  }

  lemma {:induction false} FoldDeals(msgs: seq<Message>, id: Id)
    ensures DealsOf(msgs, id) == if id in FoldAll(msgs).deals then FoldAll(msgs).deals[id] else 0
  {
    if msgs != [] {
      FoldDeals(msgs[..|msgs| - 1], id);
    }
  }

  lemma {:induction false} DealsOfConcat(s: seq<Message>, t: seq<Message>, id: Id)
    ensures DealsOf(s + t, id) == DealsOf(s, id) + DealsOf(t, id)
  {
    if t == [] {
      assert s + t == s;
    } else {
      assert (s + t)[..|s + t| - 1] == s + t[..|t| - 1];
      DealsOfConcat(s, t[..|t| - 1], id);
    }
  }

  lemma MinuteConserves(st: CoreState, minute: Minute, id: Id)
    ensures var after := AfterMinute(st, minute);
            Amount(after, id) == Amount(st, id) - (if minute.dropOldRating then Amount(st, id) else 0)
                                 + (if id in after then DealsOf(minute.messages, id) else 0)
  {
    FoldDeals(minute.messages, id);
    RecalculatedAt(Start(st, minute.dropOldRating), FoldAll(minute.messages), id);
  }

  /** Every deal ends up in the rating, is taken by a weekly drop, or is rejected. */
  lemma {:induction false} MoneyIsConserved(minutes: seq<Minute>, id: Id)
    ensures DealsOf(Flatten(minutes), id) ==
            Amount(AfterMinutes(map[], minutes), id) + Dropped(minutes, id) + Rejected(minutes, id)
  {
    if minutes != [] {
      var before, last := minutes[..|minutes| - 1], minutes[|minutes| - 1];
      MoneyIsConserved(before, id);
      MinuteConserves(AfterMinutes(map[], before), last, id);
      DealsOfConcat(Flatten(before), last.messages, id);
    }
  }
}
