/** Frames on the wire (ipc/transport.h): a size of two bytes that counts itself, and the payload. */
module Transport {
  import opened Users
  import opened BinaryStorage

  function Frame(payload: seq<Byte>): (bytes: seq<Byte>) {
    Digits(2 + |payload|, 2) + payload
  }

  /** One frame off the front of what arrives; None is a transport error. */
  function TakeFrame(input: seq<Byte>): (r: Option<Parsed<seq<Byte>>>) {
    match TakeBytes(input, 2)
    case None => None
    case Some(size) => if Number(size.value) < 2 then None else TakeBytes(size.rest, Number(size.value) - 2)
  }

  lemma SizeFits(n: nat)
    requires n < 65536
    ensures Number(Digits(n, 2)) == n
  {
    assert Values(2) == 65536;
    NumberOfDigits(n, 2);
  }

  /** What is framed arrives, and what follows stays. */
  lemma TakesFrame(payload: seq<Byte>, rest: seq<Byte>)
    requires 2 + |payload| < 65536
    ensures TakeFrame(Frame(payload) + rest) == Some(Parsed(payload, rest))
  {
    var size, input := Digits(2 + |payload|, 2), Frame(payload) + rest;
    SizeFits(2 + |payload|);
    assert input[..2] == size && input[2..] == payload + rest;
    assert (payload + rest)[..|payload|] == payload && (payload + rest)[|payload|..] == rest;
  }

  /** A frame is refused exactly if its size is missing or below two, or bytes are missing. */
  lemma FrameRefused(input: seq<Byte>)
    ensures TakeFrame(input) == None <==>
            |input| < 2 || !(2 <= input[0] as int + 0x100 * input[1] as int <= |input|)
  {
    if |input| >= 2 {
      var size := input[..2];
      assert Number(size[1..]) == size[1] && size[1..][1..] == [];
    }
  }

  /** The size goes over the space kept for it; the whole buffer is sent. */
  method WriteMessage(buffer: BinaryOStream) returns (sent: seq<Byte>)
    requires buffer.Valid() && 2 <= |buffer.storage|
    modifies buffer
    ensures buffer.Valid() && buffer.storage == Frame(old(buffer.storage)[2..])
    ensures sent == buffer.storage
  {
    var ok := buffer.SetPos(0);
    OverlayReplaces([], buffer.storage[..2], buffer.storage[2..], Digits(|buffer.storage|, 2));
    assert [] + buffer.storage[..2] + buffer.storage[2..] == buffer.storage;
    buffer.WritePod(Digits(|buffer.storage|, 2));
    assert buffer.storage == Frame(old(buffer.storage)[2..]);
    sent := buffer.storage;
  }
}
