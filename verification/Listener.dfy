/** The listener's loop (service/overseer.cpp): from the bytes on the connection to the buffer. */
module Listener {
  import opened Users
  import opened Incoming
  import opened DateTime
  import Batching
  import ClientMessages

  /** What a client message becomes; a connection gets the second in which it is dispatched. */
  predicate IsReceived(sent: ClientMessages.ClientMessage, now: Time, msg: Message) {
    match sent
    case UserRegistered(id, name) => msg == UserRegistered(id, name)
    case UserRenamed(id, name) => msg == UserRenamed(id, name)
    case UserDealWon(id, amount) => msg == UserDealWon(id, amount)
    case UserConnected(id) => msg.UserConnected? && msg.id == id && msg.second == now / 1000000000 % 60
    case UserDisconnected(id) => msg == UserDisconnected(id)
  }

  /** Dispatches the message object for the code. */
  method DispatchOne(builder: ClientMessages.MessageBuilder, dispatcher: MessageDispatcher, code: Byte, now: Time)
    returns (ghost msg: Message)
    requires 1 <= code <= 5
    modifies dispatcher`ratingJobs, dispatcher.buffer
    ensures IsReceived(builder.Holds(code), now, msg)
    ensures dispatcher.buffer.Value() == Fold(old(dispatcher.buffer.Value()), msg)
  {
    UsualLengths(now);
    var m: Message;
    if code == ClientMessages.USER_REGISTERED {
      m := UserRegistered(builder.userRegisteredMsg.0, builder.userRegisteredMsg.1);
    } else if code == ClientMessages.USER_RENAMED {
      m := UserRenamed(builder.userRenamedMsg.0, builder.userRenamedMsg.1);
    } else if code == ClientMessages.USER_DEAL_WON {
      m := UserDealWon(builder.userDealWonMsg.0, builder.userDealWonMsg.1);
    } else if code == ClientMessages.USER_CONNECTED {
      m := UserConnected(builder.userConnectedMsg, CurrentSecondIndex(now));
    } else {
      m := UserDisconnected(builder.userDisconnectedMsg);
    }
    dispatcher.Dispatch(m);
    msg := m;
  }

  /** Everything written to the connection ends up in the buffer, in order; `clock` has a time for each message. */
  method Listen(builder: ClientMessages.MessageBuilder, dispatcher: MessageDispatcher, clock: seq<Time>,
                ghost sent: seq<ClientMessages.ClientMessage>)
    returns (ghost msgs: seq<Message>)
    requires |clock| == |sent| && forall i :: 0 <= i < |sent| ==> ClientMessages.WellFormed(sent[i])
    requires builder.input == ClientMessages.EncodedAll(sent) && dispatcher.buffer.Value() == EMPTY
    modifies builder, dispatcher`ratingJobs, dispatcher.buffer
    ensures builder.input == [] && |msgs| == |sent|
    ensures forall i :: 0 <= i < |sent| ==> IsReceived(sent[i], clock[i], msgs[i])
    ensures dispatcher.buffer.Value() == FoldAll(msgs)
  {
    msgs := [];
    var k := 0;
    while builder.input != []
      invariant k <= |sent| && |msgs| == k && builder.input == ClientMessages.EncodedAll(sent[k..])
      invariant forall i :: 0 <= i < k ==> IsReceived(sent[i], clock[i], msgs[i])
      invariant dispatcher.buffer.Value() == FoldAll(msgs)
      decreases |sent| - k
    {
      ClientMessages.NothingLeft(sent[k..]);
      ClientMessages.TakesFirst(sent, k);
      var code := builder.Build();
      ghost var msg := DispatchOne(builder, dispatcher, code.value, clock[k]);
      Batching.FoldAppend(msgs, msg);
      msgs := msgs + [msg];
      k := k + 1;
    }
    ClientMessages.NothingLeft(sent[k..]);
  }
}
