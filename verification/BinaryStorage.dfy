/**
 The binary streams of utils/binary_storage.h: a growing byte buffer with a cursor that may be moved
 back to overwrite, and a reader that refuses to run over the end.
 */
module BinaryStorage {
  import opened Users

  // ------------------------------------------------------------------------------------------
  // Integers of a fixed width
  // ------------------------------------------------------------------------------------------

  /** The number of values of `width` bytes. */
  function Values(width: nat): (n: nat)
    ensures n > 0
  {
    if width == 0 then 1 else 256 * Values(width - 1)
  }

  /** The bytes of a `long`: four on Windows, for which the service is built, eight elsewhere. */
  type LongSize = n: int | n == 4 || n == 8 witness 4

  /** The bytes of an amount of money, a `long`; what follows holds for both sizes. */
  const MONETARY_SIZE: LongSize

  predicate FitsUnsigned(v: int, width: nat) {
    0 <= v < Values(width)
  }

  predicate FitsSigned(v: int, width: nat) {
    0 <= 2 * v + Values(width) < 2 * Values(width)
  }

  /** The lowest byte first. */
  function Digits(v: nat, width: nat): (bytes: seq<Byte>)
    ensures |bytes| == width
  {
    if width == 0 then [] else [v % 256] + Digits(v / 256, width - 1)
  }

  function Number(bytes: seq<Byte>): nat {
    if bytes == [] then 0 else bytes[0] + 256 * Number(bytes[1..])
  }

  /** Two's complement. */
  function Int(v: int, width: nat): (bytes: seq<Byte>)
    requires FitsSigned(v, width)
    ensures |bytes| == width
  {
    Digits(if v < 0 then v + Values(width) else v, width)
  }

  function SignedNumber(bytes: seq<Byte>): int {
    var n := Number(bytes);
    if 2 * n < Values(|bytes|) then n else n - Values(|bytes|)
  }

  lemma {:induction false} NumberOfDigits(v: nat, width: nat)
    requires FitsUnsigned(v, width)
    ensures Number(Digits(v, width)) == v
  {
    if width > 0 {
      NumberOfDigits(v / 256, width - 1);
      assert Digits(v, width)[1..] == Digits(v / 256, width - 1);
    }
  }

  lemma NumberOfInt(v: int, width: nat)
    requires FitsSigned(v, width)
    ensures SignedNumber(Int(v, width)) == v
  {
    NumberOfDigits(if v < 0 then v + Values(width) else v, width);
  }

  /** Four bytes from the i-th on as a number, the low one first. */
  function Word(bytes: seq<Byte>, i: nat): int
    requires i + 4 <= |bytes|
  {
    var a: int, b: int, c: int, d: int := bytes[i], bytes[i + 1], bytes[i + 2], bytes[i + 3];
    a + 0x100 * b + 0x1_0000 * c + 0x100_0000 * d
  }

  predicate IsShort(bytes: seq<Byte>, v: int) {
    |bytes| == 2 && (bytes[0] as int) + 0x100 * (bytes[1] as int) == v
  }

  /** Negative numbers count from 2 to the 32nd down. */
  predicate IsWord(bytes: seq<Byte>, v: int) {
    |bytes| == 4 && Word(bytes, 0) == if v < 0 then v + 0x1_0000_0000 else v
  }

  predicate IsLong(bytes: seq<Byte>, v: int) {
    |bytes| == 8 && Word(bytes, 0) + 0x1_0000_0000 * Word(bytes, 4) == if v < 0 then v + 0x1_0000_0000_0000_0000 else v
  }

  lemma FourDigits(v: nat)
    ensures Word(Digits(v, 4), 0) == v % 0x1_0000_0000
  {
    var v1, v2, v3 := v / 256, v / 256 / 256, v / 256 / 256 / 256;
    assert Digits(v3, 1) == [v3 % 256] + Digits(v3 / 256, 0);
    assert Digits(v2, 2) == [v2 % 256] + Digits(v3, 1);
    assert Digits(v1, 3) == [v1 % 256] + Digits(v2, 2);
    assert Digits(v, 4) == [v % 256] + Digits(v1, 3);
  }

  lemma EightDigits(v: nat)
    requires v < 0x1_0000_0000_0000_0000
    ensures var d := Digits(v, 8); Word(d, 0) + 0x1_0000_0000 * Word(d, 4) == v
  {
    var v1, v2, v3, v4 := v / 256, v / 256 / 256, v / 256 / 256 / 256, v / 256 / 256 / 256 / 256;
    assert Digits(v3, 5) == [v3 % 256] + Digits(v4, 4);
    assert Digits(v2, 6) == [v2 % 256] + Digits(v3, 5);
    assert Digits(v1, 7) == [v1 % 256] + Digits(v2, 6);
    var d := Digits(v, 8);
    assert d == [v % 256] + Digits(v1, 7);
    FourDigits(v4);
    assert Word(d, 4) == Word(Digits(v4, 4), 0);
    assert v4 == v / 0x1_0000_0000;
    assert Word(d, 0) == v % 0x1_0000_0000;
  }

  lemma ValuesAre()
    ensures Values(4) == 0x1_0000_0000 && Values(8) == 0x1_0000_0000_0000_0000
  {
    assert Values(2) == 0x1_0000 && Values(4) == 0x1_0000_0000 && Values(6) == 0x1_0000_0000_0000;
  }

  /** How integers are laid out, and which ones fit. */
  lemma ShortLayout(v: int)
    requires 0 <= v < 0x1_0000
    ensures IsShort(Digits(v, 2), v)
  {
    assert Digits(v / 256, 1) == [v / 256 % 256] + Digits(v / 256 / 256, 0);
  }

  lemma WordLayout(v: int)
    ensures FitsSigned(v, 4) <==> -0x8000_0000 <= v < 0x8000_0000
    ensures FitsSigned(v, 4) ==> IsWord(Int(v, 4), v)
  {
    ValuesAre();
    if FitsSigned(v, 4) { FourDigits(if v < 0 then v + 0x1_0000_0000 else v); }
  }

  lemma LongLayout(v: int)
    ensures FitsSigned(v, 8) <==> -0x8000_0000_0000_0000 <= v < 0x8000_0000_0000_0000
    ensures FitsSigned(v, 8) ==> IsLong(Int(v, 8), v)
  {
    ValuesAre();
    if FitsSigned(v, 8) { EightDigits(if v < 0 then v + 0x1_0000_0000_0000_0000 else v); }
  }

  /** An amount of money, in either size of a `long`. */
  predicate IsAmount(bytes: seq<Byte>, v: Money) {
    if MONETARY_SIZE == 4 then IsWord(bytes, v) else IsLong(bytes, v)
  }

  lemma AmountLayout(v: Money)
    requires FitsSigned(v, MONETARY_SIZE)
    ensures IsAmount(Int(v, MONETARY_SIZE), v)
  {
    WordLayout(v);
    LongLayout(v);
  }

  // ------------------------------------------------------------------------------------------
  // Writing
  // ------------------------------------------------------------------------------------------

  /** `bytes` written over `storage` from `pos` on; the storage grows if they do not fit. */
  function Overlay(storage: seq<Byte>, pos: nat, bytes: seq<Byte>): (r: seq<Byte>)
    requires pos <= |storage|
    ensures pos + |bytes| <= |r|
  {
    storage[..pos] + bytes + if pos + |bytes| <= |storage| then storage[pos + |bytes|..] else []
  }

  /** A short buffer is stored behind its length. */
  function Buffer(data: seq<Byte>): (bytes: seq<Byte>)
    requires |data| < 256
  {
    [|data|] + data
  }

  lemma Associative<T>(a: seq<T>, b: seq<T>, c: seq<T>)
    ensures (a + b) + c == a + (b + c)
  {
  }

  /** Byte by byte. */
  lemma OverlayAt(storage: seq<Byte>, pos: nat, bytes: seq<Byte>, k: nat)
    requires pos <= |storage|
    ensures var r := Overlay(storage, pos, bytes);
            && |r| == (if pos + |bytes| <= |storage| then |storage| else pos + |bytes|)
            && (k < |r| ==> r[k] == if pos <= k < pos + |bytes| then bytes[k - pos] else storage[k])
  {
  }

  lemma OverlayAppends(storage: seq<Byte>, bytes: seq<Byte>)
    ensures Overlay(storage, |storage|, bytes) == storage + bytes
  {
  }

  lemma OverlayReplaces(head: seq<Byte>, was: seq<Byte>, tail: seq<Byte>, bytes: seq<Byte>)
    requires |was| == |bytes|
    ensures Overlay(head + was + tail, |head|, bytes) == head + bytes + tail
  {
    assert (head + was + tail)[|head| + |bytes|..] == tail;
  }

  /** Writing two things one after the other is writing both at once. */
  lemma OverlayTwice(storage: seq<Byte>, pos: nat, a: seq<Byte>, b: seq<Byte>)
    requires pos <= |storage|
    ensures Overlay(Overlay(storage, pos, a), pos + |a|, b) == Overlay(storage, pos, a + b)
  {
    var first := Overlay(storage, pos, a);
    assert first[..pos + |a|] == storage[..pos] + a;
    if pos + |a| + |b| <= |storage| {
      assert first[pos + |a| + |b|..] == storage[pos + |a| + |b|..];
    }
  }

  class BinaryOStream {
    var curPos: nat
    var storage: seq<Byte>

    ghost predicate Valid()
      reads this
    {
      curPos <= |storage|
    }

    constructor ()
      ensures Valid() && storage == [] && curPos == 0
    {
      curPos, storage := 0, [];
    }

    method SetPos(newPos: nat) returns (ok: bool)
      requires Valid()
      modifies this
      ensures Valid() && storage == old(storage)
      ensures ok <==> newPos <= |storage|
      ensures curPos == if ok then newPos else old(curPos)
    {
      if newPos > |storage| { return false; }
      curPos := newPos;
      ok := true;
    }

    /** Everything behind `pos` is cut off. */
    method Rewind(pos: nat) returns (ok: bool)
      requires Valid()
      modifies this
      ensures Valid()
      ensures ok <==> pos <= old(|storage|)
      ensures ok ==> storage == old(storage)[..pos] && curPos == pos
      ensures !ok ==> storage == old(storage) && curPos == old(curPos)
    {
      if pos > |storage| { return false; }
      storage := storage[..pos];
      curPos := pos;
      ok := true;
    }

    method Resize(size: nat)
      modifies this`storage
      ensures |storage| == size
      ensures storage[..if size <= old(|storage|) then size else old(|storage|)]
              == old(storage)[..if size <= old(|storage|) then size else old(|storage|)]
    {
      if size <= |storage| {
        storage := storage[..size];
      } else {
        storage := storage + seq(size - |storage|, _ => 0);
      }
    }

    /** memcpy to the cursor. */
    method Copy(bytes: seq<Byte>)
      requires Valid() && curPos + |bytes| <= |storage|
      modifies this
      ensures Valid() && storage == Overlay(old(storage), old(curPos), bytes) && curPos == old(curPos) + |bytes|
    {
      storage := storage[..curPos] + bytes + storage[curPos + |bytes|..];
      curPos := curPos + |bytes|;
    }

    /** A plain value, given by its bytes. */
    method WritePod(bytes: seq<Byte>)
      requires Valid()
      modifies this
      ensures Valid() && storage == Overlay(old(storage), old(curPos), bytes) && curPos == old(curPos) + |bytes|
    {
      if |storage| - curPos < |bytes| {
        Resize(curPos + |bytes|);
      }
      Copy(bytes);
    }

    /** A buffer of at most 255 bytes, behind its length. */
    method WriteBuffer(data: seq<Byte>)
      requires Valid() && |data| < 256
      modifies this
      ensures Valid() && storage == Overlay(old(storage), old(curPos), Buffer(data)) && curPos == old(curPos) + 1 + |data|
    {
      var size := |data|;
      if |storage| - curPos < size + 1 {
        Resize(curPos + size + 1);
      }
      assert Overlay(storage, curPos, Buffer(data)) == Overlay(old(storage), old(curPos), Buffer(data));
      OverlayTwice(storage, curPos, [size], data);
      WritePod([size]);
      Copy(data);
    }
  }

  // ------------------------------------------------------------------------------------------
  // Reading
  // ------------------------------------------------------------------------------------------

  /** A value and what is left of the input. */
  datatype Parsed<T> = Parsed(value: T, rest: seq<Byte>)

  function TakeBytes(input: seq<Byte>, n: nat): (r: Option<Parsed<seq<Byte>>>) {
    if |input| < n then None else Some(Parsed(input[..n], input[n..]))
  }

  function TakeInt(input: seq<Byte>, width: nat): (r: Option<Parsed<int>>) {
    match TakeBytes(input, width)
    case None => None
    case Some(p) => Some(Parsed(SignedNumber(p.value), p.rest))
  }

  function TakeBuffer(input: seq<Byte>): (r: Option<Parsed<seq<Byte>>>) {
    if input == [] then None else TakeBytes(input[1..], input[0])
  }

  /** Reading fails exactly if there are too few bytes, and otherwise takes the bytes in front. */
  lemma TakesExactly(input: seq<Byte>, n: nat)
    ensures TakeBytes(input, n) == if |input| < n then None else Some(Parsed(input[..n], input[n..]))
    ensures TakeInt(input, n).Some? <==> n <= |input|
    ensures TakeInt(input, 4).Some? ==> IsWord(input[..4], TakeInt(input, 4).value.value) && TakeInt(input, 4).value.rest == input[4..]
    ensures TakeBuffer(input).Some? <==> |input| > 0 && input[0] as int < |input|
    ensures TakeBuffer(input).Some? ==>
              var size: int := input[0]; TakeBuffer(input) == Some(Parsed(input[1..size + 1], input[size + 1..]))
  {
    if |input| >= 4 { WordOf(input[..4]); }
    if TakeBuffer(input).Some? {
      var size: int := input[0];
      assert input[1..][..size] == input[1..size + 1] && input[1..][size..] == input[size + 1..];
    }
  }

  lemma WordOf(b: seq<Byte>)
    requires |b| == 4
    ensures IsWord(b, SignedNumber(b))
  {
    ValuesAre();
    var b1, b2, b3 := b[1..], b[2..], b[3..];
    assert b1[1..] == b2 && b2[1..] == b3 && b3[1..] == [];
    assert Number(b3) == b[3] && Number(b2) == b[2] + 256 * Number(b3) && Number(b1) == b[1] + 256 * Number(b2);
    assert Number(b) == Word(b, 0);
  }

  lemma TakesInt(v: int, width: nat, rest: seq<Byte>)
    requires FitsSigned(v, width)
    ensures TakeInt(Int(v, width) + rest, width) == Some(Parsed(v, rest))
  {
    NumberOfInt(v, width);
    assert (Int(v, width) + rest)[..width] == Int(v, width);
    assert (Int(v, width) + rest)[width..] == rest;
  }

  lemma TakesBuffer(data: seq<Byte>, rest: seq<Byte>)
    requires |data| < 256
    ensures TakeBuffer(Buffer(data) + rest) == Some(Parsed(data, rest))
  {
    assert (Buffer(data) + rest)[1..] == data + rest;
    assert (data + rest)[..|data|] == data && (data + rest)[|data|..] == rest;
  }

  class BinaryIStream {
    const storage: seq<Byte>
    var curPos: nat

    ghost predicate Valid()
      reads this
    {
      curPos <= |storage|
    }

    /** What has not been read yet. */
    ghost function Rest(): seq<Byte>
      requires Valid()
      reads this
    {
      storage[curPos..]
    }

    constructor (data: seq<Byte>)
      ensures Valid() && Rest() == data
    {
      storage, curPos := data, 0;
    }

    /** None is the underflow exception. */
    method ReadBytes(n: nat) returns (r: Option<seq<Byte>>)
      requires Valid()
      modifies this
      ensures Valid()
      ensures match TakeBytes(old(Rest()), n)
              case None => r == None && Rest() == old(Rest())
              case Some(p) => r == Some(p.value) && Rest() == p.rest
    {
      if |storage| - curPos < n { return None; }
      r := Some(storage[curPos..curPos + n]);
      curPos := curPos + n;
      assert old(Rest())[..n] == storage[old(curPos)..curPos] && old(Rest())[n..] == Rest();
    }

    method ReadInt(width: nat) returns (r: Option<int>)
      requires Valid()
      modifies this
      ensures Valid()
      ensures match TakeInt(old(Rest()), width)
              case None => r == None && Rest() == old(Rest())
              case Some(p) => r == Some(p.value) && Rest() == p.rest
    {
      var bytes := ReadBytes(width);
      r := match bytes case None => None case Some(b) => Some(SignedNumber(b));
    }

    method ReadBuffer() returns (r: Option<seq<Byte>>)
      requires Valid()
      modifies this
      ensures Valid()
      ensures match TakeBuffer(old(Rest()))
              case None => r == None
              case Some(p) => r == Some(p.value) && Rest() == p.rest
    {
      var size := ReadBytes(1);
      if size == None { return None; }
      assert old(Rest())[..1] == [old(Rest())[0]];
      r := ReadBytes(size.value[0]);
    }
  }
}
