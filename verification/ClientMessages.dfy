/**
 Client messages on their way to the service: the client's message objects and code prefixes
 (ipc/protocol.h), framing (ipc/transport.h), and the service's parser (service/message_builder.h).
 */
module ClientMessages {
  import opened Users
  import opened BinaryStorage
  import opened Transport

  datatype ClientMessage =
    | UserRegistered(id: Id, name: Name)
    | UserRenamed(id: Id, name: Name)
    | UserDealWon(id: Id, amount: Money)
    | UserConnected(id: Id)
    | UserDisconnected(id: Id)

  const USER_REGISTERED: Byte := 1
  const USER_RENAMED: Byte := 2
  const USER_DEAL_WON: Byte := 3
  const USER_CONNECTED: Byte := 4
  const USER_DISCONNECTED: Byte := 5

  /** The widths of the protocol's types. */
  predicate WellFormed(m: ClientMessage) {
    && FitsSigned(m.id, 4)
    && (m.UserRegistered? || m.UserRenamed? ==> |m.name| < 256)
    && (m.UserDealWon? ==> FitsSigned(m.amount, MONETARY_SIZE))
  }

  function Code(m: ClientMessage): Byte {
    match m
    case UserRegistered(_, _) => USER_REGISTERED
    case UserRenamed(_, _) => USER_RENAMED
    case UserDealWon(_, _) => USER_DEAL_WON
    case UserConnected(_) => USER_CONNECTED
    case UserDisconnected(_) => USER_DISCONNECTED
  }

  function Body(m: ClientMessage): seq<Byte>
    requires WellFormed(m)
  {
    match m
    case UserRegistered(id, name) => Int(id, 4) + Buffer(name)
    case UserRenamed(id, name) => Int(id, 4) + Buffer(name)
    case UserDealWon(id, amount) => Int(id, 4) + Int(amount, MONETARY_SIZE)
    case UserConnected(id) => Int(id, 4)
    case UserDisconnected(id) => Int(id, 4)
  }

  /** The bytes of a message on the wire. */
  function Encoded(m: ClientMessage): seq<Byte>
    requires WellFormed(m)
  {
    Frame([Code(m)] + Body(m))
  }

  function EncodedAll(msgs: seq<ClientMessage>): seq<Byte>
    requires forall i :: 0 <= i < |msgs| ==> WellFormed(msgs[i])
  {
    if msgs == [] then [] else Encoded(msgs[0]) + EncodedAll(msgs[1..])
  }

  /** Byte by byte: the size of the whole frame, the code, the id, and what else the message has. */
  lemma OnTheWire(m: ClientMessage)
    requires WellFormed(m)
    ensures var e := Encoded(m);
            && |e| >= 7 && IsShort(e[..2], |e|) && IsWord(e[3..7], m.id)
            && match m
               case UserRegistered(_, name) => e[2] == 1 && e[7..] == [|name| as Byte] + name
               case UserRenamed(_, name) => e[2] == 2 && e[7..] == [|name| as Byte] + name
               case UserDealWon(_, amount) => e[2] == 3 && IsAmount(e[7..], amount)
               case UserConnected(_) => e[2] == 4 && e[7..] == []
               case UserDisconnected(_) => e[2] == 5 && e[7..] == []
  {
    var e, rest := Encoded(m), Body(m)[4..];
    assert Body(m) == Int(m.id, 4) + rest;
    assert |e| == 3 + |Body(m)|;
    Slices(Digits(|e|, 2), Code(m), Int(m.id, 4), rest);
    ShortLayout(|e|);
    WordLayout(m.id);
    RestOfBody(m);
  }

  lemma Slices(size: seq<Byte>, code: Byte, id: seq<Byte>, rest: seq<Byte>)
    requires |size| == 2 && |id| == 4
    ensures var e := size + ([code] + (id + rest));
            |e| == 7 + |rest| && e[..2] == size && e[2] == code && e[3..7] == id && e[7..] == rest
  {
  }

  lemma RestOfBody(m: ClientMessage)
    requires WellFormed(m)
    ensures |Body(m)| >= 4
    ensures var rest := Body(m)[4..];
            match m
            case UserRegistered(_, name) => rest == [|name| as Byte] + name
            case UserRenamed(_, name) => rest == [|name| as Byte] + name
            case UserDealWon(_, amount) => IsAmount(rest, amount)
            case UserConnected(_) => rest == []
            case UserDisconnected(_) => rest == []
  {
    if m.UserDealWon? { AmountLayout(m.amount); }
  }

  // ------------------------------------------------------------------------------------------
  // The client
  // ------------------------------------------------------------------------------------------

  /** One buffer is used for all messages; it always starts with space for the size. */
  class Client {
    const messageBuffer: BinaryOStream
    const pos: nat

    ghost predicate Valid()
      reads messageBuffer
    {
      messageBuffer.Valid() && pos == 2 == messageBuffer.curPos == |messageBuffer.storage|
    }

    constructor ()
      ensures Valid() && fresh(messageBuffer)
    {
      var b := new BinaryOStream();
      b.WritePod(Digits(0, 2));
      messageBuffer, pos := b, b.curPos;
    }

    method Store(m: ClientMessage)
      requires messageBuffer.Valid() && messageBuffer.curPos == |messageBuffer.storage| && WellFormed(m)
      modifies messageBuffer
      ensures messageBuffer.Valid() && messageBuffer.storage == old(messageBuffer.storage) + Body(m)
    {
      ghost var was := messageBuffer.storage;
      OverlayAppends(was, Int(m.id, 4));
      messageBuffer.WritePod(Int(m.id, 4));
      match m {
        case UserRegistered(_, name) =>
          OverlayAppends(was + Int(m.id, 4), Buffer(name));
          Associative(was, Int(m.id, 4), Buffer(name));
          messageBuffer.WriteBuffer(name);
        case UserRenamed(_, name) =>
          OverlayAppends(was + Int(m.id, 4), Buffer(name));
          Associative(was, Int(m.id, 4), Buffer(name));
          messageBuffer.WriteBuffer(name);
        case UserDealWon(_, amount) =>
          OverlayAppends(was + Int(m.id, 4), Int(amount, MONETARY_SIZE));
          Associative(was, Int(m.id, 4), Int(amount, MONETARY_SIZE));
          messageBuffer.WritePod(Int(amount, MONETARY_SIZE));
        case UserConnected(_) =>
        case UserDisconnected(_) =>
      }
    }

    method Send(m: ClientMessage) returns (sent: seq<Byte>)
      requires Valid() && WellFormed(m)
      modifies messageBuffer
      ensures Valid() && sent == Encoded(m)
    {
      OverlayAppends(messageBuffer.storage, [Code(m)]);
      messageBuffer.WritePod([Code(m)]);
      Store(m);
      assert messageBuffer.storage[2..] == [Code(m)] + Body(m);
      sent := WriteMessage(messageBuffer);
      var ok := messageBuffer.Rewind(pos);
    }
  }

  // ------------------------------------------------------------------------------------------
  // The service
  // ------------------------------------------------------------------------------------------

  /** The body of a message with the given code; None stands for an exception. */
  function TakeBody(code: Byte, input: seq<Byte>): (r: Option<ClientMessage>) {
    if code !in {USER_REGISTERED, USER_RENAMED, USER_DEAL_WON, USER_CONNECTED, USER_DISCONNECTED} then None
    else
      match TakeInt(input, 4)
      case None => None
      case Some(id) =>
        if code == USER_CONNECTED then Some(UserConnected(id.value))
        else if code == USER_DISCONNECTED then Some(UserDisconnected(id.value))
        else if code == USER_DEAL_WON then
          match TakeInt(id.rest, MONETARY_SIZE)
          case None => None
          case Some(amount) => Some(UserDealWon(id.value, amount.value))
        else
          match TakeBuffer(id.rest)
          case None => None
          case Some(name) =>
            Some(if code == USER_REGISTERED then UserRegistered(id.value, name.value) else UserRenamed(id.value, name.value))
  }

  function TakeMessage(payload: seq<Byte>): (r: Option<ClientMessage>) {
    if payload == [] then None else TakeBody(payload[0], payload[1..])
  }

  function TakeNext(input: seq<Byte>): (r: Option<Parsed<ClientMessage>>) {
    match TakeFrame(input)
    case None => None
    case Some(frame) =>
      match TakeMessage(frame.value)
      case None => None
      case Some(m) => Some(Parsed(m, frame.rest))
  }

  /** A body is refused exactly if its code is not one of the five, or bytes are missing. */
  lemma BodyRefused(code: Byte, input: seq<Byte>)
    ensures TakeBody(code, input) == None <==>
            || !(1 <= code <= 5) || |input| < 4
            || (code <= 2 && (|input| < 5 || |input| < 5 + input[4] as int))
            || (code == 3 && |input| < 4 + MONETARY_SIZE)
  {
    TakesExactly(input, 4);
    if |input| >= 4 {
      TakesExactly(input[4..], MONETARY_SIZE);
    }
  }

  lemma TakesMessage(m: ClientMessage)
    requires WellFormed(m)
    ensures TakeMessage([Code(m)] + Body(m)) == Some(m)
  {
    assert ([Code(m)] + Body(m))[1..] == Body(m);
    var rest := Body(m)[4..];
    assert Body(m) == Int(m.id, 4) + rest;
    TakesInt(m.id, 4, rest);
    match m {
      case UserRegistered(_, name) => assert rest == Buffer(name) + []; TakesBuffer(name, []);
      case UserRenamed(_, name) => assert rest == Buffer(name) + []; TakesBuffer(name, []);
      case UserDealWon(_, amount) => assert rest == Int(amount, MONETARY_SIZE) + []; TakesInt(amount, MONETARY_SIZE, []);
      case UserConnected(_) =>
      case UserDisconnected(_) =>
    }
  }

  lemma TakesNext(m: ClientMessage, rest: seq<Byte>)
    requires WellFormed(m)
    ensures TakeNext(Encoded(m) + rest) == Some(Parsed(m, rest))
  {
    TakesMessage(m);
    TakesFrame([Code(m)] + Body(m), rest);
  }

  lemma TakesFirst(msgs: seq<ClientMessage>, k: nat)
    requires k < |msgs| && forall i :: 0 <= i < |msgs| ==> WellFormed(msgs[i])
    ensures TakeNext(EncodedAll(msgs[k..])) == Some(Parsed(msgs[k], EncodedAll(msgs[k + 1..])))
  {
    assert msgs[k..][0] == msgs[k] && msgs[k..][1..] == msgs[k + 1..];
    TakesNext(msgs[k], EncodedAll(msgs[k + 1..]));
  }

  lemma NothingLeft(msgs: seq<ClientMessage>)
    requires forall i :: 0 <= i < |msgs| ==> WellFormed(msgs[i])
    ensures EncodedAll(msgs) == [] <==> msgs == []
  {
    if msgs != [] {
      assert |Encoded(msgs[0])| > 0;
    }
  }

  /** The message objects a parsed message is put into; they are used again for the next one. */
  class MessageBuilder {
    // what the socket has delivered or will deliver
    var input: seq<Byte>
    // the battery
    var userRegisteredMsg: (Id, Name)
    var userRenamedMsg: (Id, Name)
    var userDealWonMsg: (Id, Money)
    var userConnectedMsg: Id
    var userDisconnectedMsg: Id

    constructor (data: seq<Byte>)
      ensures input == data
    {
      input := data;
      userRegisteredMsg, userRenamedMsg, userDealWonMsg := (-1, []), (-1, []), (-1, 0);
      userConnectedMsg, userDisconnectedMsg := -1, -1;
    }

    /** What the battery holds for a code. */
    function Holds(code: Byte): (m: ClientMessage)
      requires code in {USER_REGISTERED, USER_RENAMED, USER_DEAL_WON, USER_CONNECTED, USER_DISCONNECTED}
      reads this
    {
      if code == USER_REGISTERED then UserRegistered(userRegisteredMsg.0, userRegisteredMsg.1)
      else if code == USER_RENAMED then UserRenamed(userRenamedMsg.0, userRenamedMsg.1)
      else if code == USER_DEAL_WON then UserDealWon(userDealWonMsg.0, userDealWonMsg.1)
      else if code == USER_CONNECTED then UserConnected(userConnectedMsg)
      else UserDisconnected(userDisconnectedMsg)
    }

    method Receive() returns (r: Option<seq<Byte>>)
      modifies this`input
      ensures match TakeFrame(old(input))
              case None => r == None
              case Some(frame) => r == Some(frame.value) && input == frame.rest
    {
      if |input| < 2 { return None; }
      var ms := Number(input[..2]);
      input := input[2..];
      if ms < 2 || |input| < ms - 2 { return None; }
      r := Some(input[..ms - 2]);
      input := input[ms - 2..];
    }

    method InitBody(code: Byte, messageData: BinaryIStream) returns (ok: bool)
      requires messageData.Valid()
      modifies this`userRegisteredMsg, this`userRenamedMsg, this`userDealWonMsg, this`userConnectedMsg
      modifies this`userDisconnectedMsg, messageData
      ensures match TakeBody(code, old(messageData.Rest()))
              case None => !ok
              case Some(m) => ok && code == Code(m) && Holds(code) == m
    {
      if code !in {USER_REGISTERED, USER_RENAMED, USER_DEAL_WON, USER_CONNECTED, USER_DISCONNECTED} { return false; }
      var id := messageData.ReadInt(4);
      if id == None { return false; }
      if code == USER_CONNECTED {
        userConnectedMsg := id.value;
      } else if code == USER_DISCONNECTED {
        userDisconnectedMsg := id.value;
      } else if code == USER_DEAL_WON {
        var amount := messageData.ReadInt(MONETARY_SIZE);
        if amount == None { return false; }
        userDealWonMsg := (id.value, amount.value);
      } else {
        var name := messageData.ReadBuffer();
        if name == None { return false; }
        if code == USER_REGISTERED {
          userRegisteredMsg := (id.value, name.value);
        } else {
          userRenamedMsg := (id.value, name.value);
        }
      }
      ok := true;
    }

    /** Reads one message into the battery and returns its code; None stands for an exception. */
    method Build() returns (code: Option<Byte>)
      modifies this
      ensures match TakeNext(old(input))
              case None => code == None
              case Some(p) => code == Some(Code(p.value)) && Holds(Code(p.value)) == p.value && input == p.rest
    {
      var payload := Receive();
      if payload == None { return None; }
      var messageData := new BinaryIStream(payload.value);
      var messageCode := messageData.ReadBytes(1);
      if messageCode == None { return None; }
      assert payload.value[..1] == [payload.value[0]];
      var ok := InitBody(messageCode.value[0], messageData);
      code := if ok then Some(messageCode.value[0]) else None;
    }

    /** As many messages as there are; a connection over which exactly `sent` was written. */
    method BuildAll(ghost sent: seq<ClientMessage>) returns (msgs: seq<ClientMessage>)
      requires forall i :: 0 <= i < |sent| ==> WellFormed(sent[i])
      requires input == EncodedAll(sent)
      modifies this
      ensures msgs == sent && input == []
    {
      msgs := [];
      ghost var k := 0;
      while input != []
        invariant |msgs| == k <= |sent| && input == EncodedAll(sent[k..])
        invariant forall i :: 0 <= i < k ==> msgs[i] == sent[i]
        decreases |sent| - k
      {
        NothingLeft(sent[k..]);
        TakesFirst(sent, k);
        var code := Build();
        msgs := msgs + [Holds(code.value)];
        k := k + 1;
      }
      NothingLeft(sent[k..]);
    }
  }

  lemma TakesOneMore(input: seq<Byte>, first: Parsed<ClientMessage>, others: Parsed<seq<ClientMessage>>)
    requires TakeNext(input) == Some(first) && TakeAll(first.rest, |others.value|) == Some(others)
    ensures TakeAll(input, |others.value| + 1) == Some(Parsed([first.value] + others.value, others.rest))
  {
  }

  /** Messages that are framed, strung together and read back are the same messages, to the last byte. */
  lemma {:induction false} MessagesRoundTrip(msgs: seq<ClientMessage>, rest: seq<Byte>)
    requires forall i :: 0 <= i < |msgs| ==> WellFormed(msgs[i])
    ensures TakeAll(EncodedAll(msgs) + rest, |msgs|) == Some(Parsed(msgs, rest))
  {
    if msgs == [] {
      assert EncodedAll(msgs) + rest == rest;
    } else {
      Associative(Encoded(msgs[0]), EncodedAll(msgs[1..]), rest);
      var tail := EncodedAll(msgs[1..]) + rest;
      TakesNext(msgs[0], tail);
      MessagesRoundTrip(msgs[1..], rest);
      TakesOneMore(Encoded(msgs[0]) + tail, Parsed(msgs[0], tail), Parsed(msgs[1..], rest));
      assert msgs == [msgs[0]] + msgs[1..];
    }
  }

  function TakeAll(input: seq<Byte>, n: nat): (r: Option<Parsed<seq<ClientMessage>>>)
    decreases n
  {
    if n == 0 then Some(Parsed([], input))
    else
      match TakeNext(input)
      case None => None
      case Some(first) =>
        match TakeAll(first.rest, n - 1)
        case None => None
        case Some(others) => Some(Parsed([first.value] + others.value, others.rest))
  }
}
