/**
 Client messages, the buffer they are folded into between two recalculations
 (service/message_dispatcher.cpp, service/core_data.h), and what a recalculation is to make of
 the buffer.
 */
module Incoming {
  import opened Users

  /** A client message. A connection carries the second of the minute it was received in. */
  datatype Message =
    | UserRegistered(id: Id, name: Name)
    | UserRenamed(id: Id, name: Name)
    | UserConnected(id: Id, second: Second)
    | UserDisconnected(id: Id)
    | UserDealWon(id: Id, amount: Money)

  datatype Buffer = Buffer(registered: map<Id, Name>, renamed: map<Id, Name>,
                           connections: map<Id, Second>, deals: map<Id, Money>)

  const EMPTY := Buffer(map[], map[], map[], map[])

  /** Names are emplaced (the first one stays), seconds assigned, deal amounts added up. */
  function Fold(buffer: Buffer, msg: Message): Buffer {
    match msg
    case UserRegistered(id, name) =>
      if id in buffer.registered then buffer else buffer.(registered := buffer.registered[id := name])
    case UserRenamed(id, name) =>
      if id in buffer.renamed then buffer else buffer.(renamed := buffer.renamed[id := name])
    case UserConnected(id, second) => buffer.(connections := buffer.connections[id := second])
    case UserDisconnected(id) => buffer.(connections := buffer.connections[id := INVALID_SECOND])
    case UserDealWon(id, amount) =>
      buffer.(deals := buffer.deals[id := (if id in buffer.deals then buffer.deals[id] else 0) + amount])
  }

  function FoldAll(msgs: seq<Message>): Buffer {
    if msgs == [] then EMPTY else Fold(FoldAll(msgs[..|msgs| - 1]), msgs[|msgs| - 1])
  }

  class IncomingDataBuffer {
    var usersRegistered: map<Id, Name>
    var usersRenamed: map<Id, Name>
    var connectionChanges: map<Id, Second>
    var dealsWon: map<Id, Money>

    ghost function Value(): Buffer
      reads this
    {
      Buffer(usersRegistered, usersRenamed, connectionChanges, dealsWon)
    }

    constructor ()
      ensures Value() == EMPTY
    {
      usersRegistered, usersRenamed, connectionChanges, dealsWon := map[], map[], map[], map[];
    }
  }

  /** The listener's end of the buffer. `ratingJobs` is what it has put on the job queue. */
  class MessageDispatcher {
    var buffer: IncomingDataBuffer
    var ratingJobs: seq<(Id, bool)>

    constructor (b: IncomingDataBuffer)
      ensures buffer == b && ratingJobs == []
    {
      buffer, ratingJobs := b, [];
    }

    method SetBuffer(b: IncomingDataBuffer)
      modifies this
      ensures buffer == b && ratingJobs == old(ratingJobs)
    {
      buffer := b;
    }

    /** The promise of a rating job says whether the user's registration is in the same buffer. */
    method Dispatch(msg: Message)
      modifies this`ratingJobs, buffer
      ensures buffer.Value() == Fold(old(buffer.Value()), msg)
      ensures ratingJobs == old(ratingJobs) +
                            if msg.UserConnected? then [(msg.id, msg.id in old(buffer.usersRegistered))] else []
    {
      match msg {
        case UserRegistered(id, name) =>
          if id !in buffer.usersRegistered {
            buffer.usersRegistered := buffer.usersRegistered[id := name];
          }
        case UserRenamed(id, name) =>
          if id !in buffer.usersRenamed {
            buffer.usersRenamed := buffer.usersRenamed[id := name];
          }
        case UserConnected(id, second) =>
          buffer.connectionChanges := buffer.connectionChanges[id := second];
          ratingJobs := ratingJobs + [(id, id in buffer.usersRegistered)];
        case UserDisconnected(id) =>
          buffer.connectionChanges := buffer.connectionChanges[id := INVALID_SECOND];
        case UserDealWon(id, amount) =>
          if id !in buffer.dealsWon {
            buffer.dealsWon := buffer.dealsWon[id := 0];
          }
          buffer.dealsWon := buffer.dealsWon[id := buffer.dealsWon[id] + amount];
      }
    }
  }
}
