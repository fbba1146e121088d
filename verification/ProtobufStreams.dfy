/** The writer that encoders append to and the reader that decoders consume. */
module ProtobufStreams {
  import opened Wrappers
  import opened ProtobufWire

  class BinaryWriter {
    var bytes: Bytes
    var forks: seq<Bytes>

    constructor ()
      ensures bytes == [] && forks == []
    {
      bytes, forks := [], [];
    }

    /** Writes a 32-bit number; anything else is refused, as the library throws. */
    method Uint32(n: int) returns (ok: bool)
      modifies this
      ensures ok <==> 0 <= n < TWO_TO_THE_32
      ensures forks == old(forks)
      ensures ok ==> bytes == old(bytes) + EncodeVarint(n)
    {
      ok := 0 <= n < TWO_TO_THE_32;
      if ok {
        bytes := bytes + EncodeVarint(n);
      }
    }

    method String(text: Bytes) returns (ok: bool)
      modifies this
      ensures ok <==> |text| < TWO_TO_THE_32
      ensures forks == old(forks)
      ensures ok ==> bytes == old(bytes) + (EncodeVarint(|text|) + text)
    {
      ok := Uint32(|text|);
      if ok {
        bytes := bytes + text;
      }
    }

    method Bool(value: bool)
      modifies this
      ensures forks == old(forks) && bytes == old(bytes) + EncodeVarint(if value then 1 else 0)
    {
      bytes := bytes + [if value then 1 else 0];
    }

    /** Starts a length-delimited payload. */
    method Fork()
      modifies this
      ensures bytes == [] && forks == old(forks) + [old(bytes)]
    {
      forks := forks + [bytes];
      bytes := [];
    }

    /** Ends the payload the last fork started: writes its length and its bytes. */
    method Join() returns (ok: bool)
      requires forks != []
      modifies this
      ensures ok <==> |old(bytes)| < TWO_TO_THE_32
      ensures forks == old(forks)[..|old(forks)| - 1]
      ensures ok ==> bytes == old(forks)[|old(forks)| - 1] + (EncodeVarint(|old(bytes)|) + old(bytes))
    {
      var chunk := bytes;
      bytes := forks[|forks| - 1];
      forks := forks[..|forks| - 1];
      ok := Uint32(|chunk|);
      if ok {
        bytes := bytes + chunk;
      }
    }
  }

  /** A reader over a buffer of `len` bytes. The bytes not read yet determine its position. */
  class BinaryReader {
    const len: nat
    var unread: Bytes

    ghost predicate Valid()
      reads this
    {
      |unread| <= len
    }

    function Pos(): int
      reads this
    {
      len - |unread|
    }

    constructor (buffer: Bytes)
      ensures Valid() && unread == buffer && len == |buffer|
    {
      len, unread := |buffer|, buffer;
    }

    method Uint32() returns (r: Option<nat>)
      requires Valid()
      modifies this
      ensures Valid()
      ensures r.Some? <==> ReadUint32(old(unread)).Some?
      ensures r.Some? ==> ReadUint32(old(unread)) == Some((r.value, unread)) && |unread| < |old(unread)|
    {
      Uint32Shrinks(unread);
      match ReadUint32(unread)
      case None => r := None;
      case Some((n, rest)) => r, unread := Some(n), rest;
    }

    method Bool() returns (r: Option<bool>)
      requires Valid()
      modifies this
      ensures Valid()
      ensures r.Some? <==> ReadBool(old(unread)).Some?
      ensures r.Some? ==> ReadBool(old(unread)) == Some((r.value, unread)) && |unread| < |old(unread)|
    {
      Uint32Shrinks(unread);
      match ReadBool(unread)
      case None => r := None;
      case Some((b, rest)) => r, unread := Some(b), rest;
    }

    method String() returns (r: Option<Bytes>)
      requires Valid()
      modifies this
      ensures Valid()
      ensures r.Some? <==> ReadBytes(old(unread)).Some?
      ensures r.Some? ==> ReadBytes(old(unread)) == Some((r.value, unread)) && |unread| < |old(unread)|
    {
      BytesShrink(unread);
      match ReadBytes(unread)
      case None => r := None;
      case Some((text, rest)) => r, unread := Some(text), rest;
    }

    method SkipPayload(wireType: nat) returns (ok: bool)
      requires Valid()
      modifies this
      ensures Valid()
      ensures ok <==> Skip(wireType, old(unread)).Some?
      ensures ok ==> Skip(wireType, old(unread)) == Some(unread) && |unread| <= |old(unread)|
    {
      match Skip(wireType, unread)
      case None => ok := false;
      case Some(rest) => ok, unread := true, rest;
    }
  }
}
