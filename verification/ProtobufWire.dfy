/**
 * The wire format of Protocol Buffers, as the Encoding specification defines it: base 128 varints, records and
 * length-delimited payloads ("Base 128 Varints", "Message Structure", "Submessages", "Groups").
 */
module ProtobufWire {
  import opened Wrappers

  type Byte = b: int | 0 <= b < 256

  type Bytes = seq<Byte>

  const TWO_TO_THE_32: nat := 0x1_0000_0000
  const TWO_TO_THE_64: nat := 0x1_0000_0000_0000_0000

  /** Seven bits at a time, the least significant first; every byte but the last has its top bit set. */
  function EncodeVarint(n: nat): (bytes: Bytes)
    ensures bytes != []
  {
    if n < 128 then [n] else [n % 128 + 128] + EncodeVarint(n / 128)
  }

  /** Reads a varint of at most max bytes. */
  function ReadVarint(bytes: Bytes, max: nat): Option<(nat, Bytes)> {
    if bytes == [] || max == 0 then None
    else if bytes[0] < 128 then Some((bytes[0], bytes[1..]))
    else match ReadVarint(bytes[1..], max - 1)
      case None => None
      case Some((high, rest)) => Some((bytes[0] - 128 + 128 * high, rest))
  }

  /** A 32-bit read takes the low 32 bits of a varint of at most ten bytes. */
  function ReadUint32(bytes: Bytes): Option<(nat, Bytes)> {
    match ReadVarint(bytes, 10)
    case None => None
    case Some((n, rest)) => Some((n % TWO_TO_THE_32, rest))
  }

  function ReadBool(bytes: Bytes): Option<(bool, Bytes)> {
    match ReadVarint(bytes, 10)
    case None => None
    case Some((n, rest)) => Some((n % TWO_TO_THE_64 != 0, rest))
  }

  function Drop(bytes: Bytes, n: nat): Option<Bytes> {
    if n <= |bytes| then Some(bytes[n..]) else None
  }

  /** A length and that many bytes. Texts are their bytes here. */
  function ReadBytes(bytes: Bytes): Option<(Bytes, Bytes)> {
    match ReadUint32(bytes)
    case None => None
    case Some((n, rest)) => if n <= |rest| then Some((rest[..n], rest[n..])) else None
  }

  function SkipVarint(bytes: Bytes): Option<Bytes> {
    if bytes == [] then None
    else if bytes[0] < 128 then Some(bytes[1..])
    else SkipVarint(bytes[1..])
  }

  /** Skips the payload of a record of the given wire type. */
  function Skip(wireType: nat, bytes: Bytes): (r: Option<Bytes>)
    ensures r.Some? ==> |r.value| <= |bytes|
    decreases |bytes|, 1
  {
    if wireType == 0 then SkipVarintWithin(bytes)
    else if wireType == 1 then Drop(bytes, 8)
    else if wireType == 2 then
      (match ReadBytes(bytes)
       case None => None
       case Some((_, rest)) =>
         BytesShrink(bytes);
         Some(rest))
    else if wireType == 3 then SkipGroup(bytes, None)
    else if wireType == 5 then Drop(bytes, 4)
    else None
  }

  function SkipVarintWithin(bytes: Bytes): (r: Option<Bytes>)
    ensures r.Some? ==> |r.value| < |bytes|
  {
    SkipVarintShrinks(bytes);
    SkipVarint(bytes)
  }

  /** Skips records up to the end of a group; an end with another field number than expected is refused. */
  function SkipGroup(bytes: Bytes, number: Option<nat>): (r: Option<Bytes>)
    ensures r.Some? ==> |r.value| <= |bytes|
    decreases |bytes|, 0
  {
    match ReadUint32(bytes)
    case None => None
    case Some((tag, rest)) =>
      Uint32Shrinks(bytes);
      if tag / 8 == 0 || tag % 8 > 5 then None
      else if tag % 8 == 4 then (if number.Some? && number.value != tag / 8 then None else Some(rest))
      else
        var skipped := if tag % 8 == 3 then SkipGroup(rest, Some(tag / 8)) else Skip(tag % 8, rest);
        if skipped.None? then None else SkipGroup(skipped.value, number)
  }

  lemma {:induction false} VarintShrinks(bytes: Bytes, max: nat)
    ensures ReadVarint(bytes, max).Some? ==> |ReadVarint(bytes, max).value.1| < |bytes|
  {
    if bytes != [] && max > 0 && bytes[0] >= 128 {
      VarintShrinks(bytes[1..], max - 1);
    }
  }

  lemma {:induction false} Uint32Shrinks(bytes: Bytes)
    ensures ReadUint32(bytes).Some? ==> |ReadUint32(bytes).value.1| < |bytes|
    ensures ReadBool(bytes).Some? ==> |ReadBool(bytes).value.1| < |bytes|
  {
    VarintShrinks(bytes, 10);
  }

  lemma {:induction false} BytesShrink(bytes: Bytes)
    ensures ReadBytes(bytes).Some? ==> |ReadBytes(bytes).value.1| < |bytes|
  {
    Uint32Shrinks(bytes);
  }

  lemma {:induction false} SkipVarintShrinks(bytes: Bytes)
    ensures SkipVarint(bytes).Some? ==> |SkipVarint(bytes).value| < |bytes|
  {
    if bytes != [] && bytes[0] >= 128 {
      SkipVarintShrinks(bytes[1..]);
    }
  }

  // ----- varints -----

  function Power128(k: nat): nat {
    if k == 0 then 1 else 128 * Power128(k - 1)
  }

  lemma {:induction false} VarintLength(n: nat, k: nat)
    requires k > 0 && n < Power128(k)
    ensures |EncodeVarint(n)| <= k
  {
    if n >= 128 {
      assert k > 1;
      VarintLength(n / 128, k - 1);
    }
  }

  lemma {:induction false} VarintRoundTrip(n: nat, rest: Bytes, max: nat)
    requires |EncodeVarint(n)| <= max
    ensures ReadVarint(EncodeVarint(n) + rest, max) == Some((n, rest))
    ensures SkipVarint(EncodeVarint(n) + rest) == Some(rest)
  {
    var bytes := EncodeVarint(n) + rest;
    if n < 128 {
      assert bytes[1..] == rest;
    } else {
      assert bytes[1..] == EncodeVarint(n / 128) + rest;
      VarintRoundTrip(n / 128, rest, max - 1);
    }
  }

  /** A 64-bit value is read back from its varint, and nothing more than its varint is consumed. */
  lemma {:induction false} Varint64RoundTrip(n: nat, rest: Bytes)
    requires n < TWO_TO_THE_64
    ensures ReadVarint(EncodeVarint(n) + rest, 10) == Some((n, rest))
    ensures SkipVarint(EncodeVarint(n) + rest) == Some(rest)
    ensures n < TWO_TO_THE_32 ==> ReadUint32(EncodeVarint(n) + rest) == Some((n, rest))
    ensures ReadBool(EncodeVarint(n) + rest) == Some((n != 0, rest))
  {
    hide EncodeVarint, ReadVarint;
    TenBytesSuffice(n);
    VarintRoundTrip(n, rest, 10);
  }

  lemma {:induction false} TenBytesSuffice(n: nat)
    requires n < TWO_TO_THE_64
    ensures |EncodeVarint(n)| <= 10
  {
    hide EncodeVarint;
    assert Power128(10) == 1180591620717411303424;
    VarintLength(n, 10);
  }

  lemma {:induction false} BytesRoundTrip(payload: Bytes, rest: Bytes)
    requires |payload| < TWO_TO_THE_32
    ensures ReadBytes(EncodeVarint(|payload|) + payload + rest) == Some((payload, rest))
  {
    Varint64RoundTrip(|payload|, payload + rest);
    assert EncodeVarint(|payload|) + payload + rest == EncodeVarint(|payload|) + (payload + rest);
    assert (payload + rest)[..|payload|] == payload && (payload + rest)[|payload|..] == rest;
  }

  // ----- records -----

  datatype Field = Field(number: nat, payload: Payload)

  datatype Payload =
    | Varint(value: nat)
    | Fixed64(fixed: Bytes)
    | Delimited(bytes: Bytes)
    | Group(fields: seq<Field>)
    | Fixed32(fixed: Bytes)

  function WireType(payload: Payload): nat {
    match payload
    case Varint(_) => 0
    case Fixed64(_) => 1
    case Delimited(_) => 2
    case Group(_) => 3
    case Fixed32(_) => 5
  }

  function TagOf(f: Field): nat {
    8 * f.number + WireType(f.payload)
  }

  predicate WellFormed(f: Field) {
    && 0 < f.number < 0x2000_0000
    && match f.payload
       case Varint(value) => value < TWO_TO_THE_64
       case Fixed64(fixed) => |fixed| == 8
       case Delimited(bytes) => |bytes| < TWO_TO_THE_32
       case Group(fields) => forall g :: g in fields ==> WellFormed(g)
       case Fixed32(fixed) => |fixed| == 4
  }

  function SerializePayload(number: nat, payload: Payload): Bytes
    decreases payload, 0
  {
    match payload
    case Varint(value) => EncodeVarint(value)
    case Fixed64(fixed) => fixed
    case Delimited(bytes) => EncodeVarint(|bytes|) + bytes
    case Group(fields) => SerializeAll(fields) + EncodeVarint(8 * number + 4)
    case Fixed32(fixed) => fixed
  }

  function Serialize(f: Field): Bytes
    decreases f, 1
  {
    EncodeVarint(TagOf(f)) + SerializePayload(f.number, f.payload)
  }

  function SerializeAll(fields: seq<Field>): Bytes
    decreases fields
  {
    if fields == [] then [] else Serialize(fields[0]) + SerializeAll(fields[1..])
  }

  lemma {:induction false} SerializeAppend(a: seq<Field>, b: seq<Field>)
    ensures SerializeAll(a + b) == SerializeAll(a) + SerializeAll(b)
  {
    if a == [] {
      assert a + b == b;
    } else {
      assert (a + b)[1..] == a[1..] + b;
      SerializeAppend(a[1..], b);
    }
  }

  lemma {:induction false} FirstRecord(fields: seq<Field>, rest: Bytes)
    ensures SerializeAll([]) + rest == rest
    ensures fields != [] ==>
              && SerializeAll(fields) + rest == Serialize(fields[0]) + (SerializeAll(fields[1..]) + rest)
              && |rest| <= |SerializeAll(fields[1..]) + rest|
  {
  }

  /** A well-formed record's tag is read back, and it is neither zero nor the end of a group. */
  lemma {:induction false} TagRoundTrip(f: Field, rest: Bytes)
    requires WellFormed(f)
    ensures ReadUint32(EncodeVarint(TagOf(f)) + rest) == Some((TagOf(f), rest))
    ensures TagOf(f) / 8 == f.number && TagOf(f) % 8 == WireType(f.payload) && TagOf(f) != 0 && TagOf(f) % 8 != 4
  {
    Varint64RoundTrip(TagOf(f), rest);
  }

  /** Skipping a well-formed record's payload consumes exactly the payload, groups included. */
  lemma {:induction false} SkipConsumesPayload(f: Field, rest: Bytes)
    requires WellFormed(f)
    ensures Skip(WireType(f.payload), SerializePayload(f.number, f.payload) + rest) == Some(rest)
    ensures f.payload.Group? ==> SkipGroup(SerializePayload(f.number, f.payload) + rest, Some(f.number)) == Some(rest)
    decreases f, 1
  {
    hide EncodeVarint, ReadUint32;
    match f.payload
    case Varint(value) => Varint64RoundTrip(value, rest);
    case Fixed64(fixed) => assert (fixed + rest)[8..] == rest;
    case Delimited(bytes) => BytesRoundTrip(bytes, rest);
    case Group(fields) =>
      var end := EncodeVarint(8 * f.number + 4);
      assert SerializePayload(f.number, f.payload) + rest == SerializeAll(fields) + (end + rest);
      Varint64RoundTrip(8 * f.number + 4, rest);
      SkipGroupConsumes(fields, end + rest, None);
      SkipGroupConsumes(fields, end + rest, Some(f.number));
    case Fixed32(fixed) => assert (fixed + rest)[4..] == rest;
  }

  lemma {:induction false} SkipsOneField(f: Field, later: Bytes, number: Option<nat>)
    requires WellFormed(f) && Skip(WireType(f.payload), SerializePayload(f.number, f.payload) + later) == Some(later)
    requires f.payload.Group? ==>
             SkipGroup(SerializePayload(f.number, f.payload) + later, Some(f.number)) == Some(later)
    ensures SkipGroup(Serialize(f) + later, number) == SkipGroup(later, number)
  {
    var payload := SerializePayload(f.number, f.payload);
    assert Serialize(f) + later == EncodeVarint(TagOf(f)) + (payload + later);
    TagRoundTrip(f, payload + later);
    Uint32Shrinks(Serialize(f) + later);
    hide EncodeVarint, SerializePayload, ReadUint32, Skip, WellFormed, Serialize;
  }

  lemma {:induction false} SkipGroupConsumes(fields: seq<Field>, rest: Bytes, number: Option<nat>)
    requires forall g :: g in fields ==> WellFormed(g)
    ensures SkipGroup(SerializeAll(fields) + rest, number) == SkipGroup(rest, number)
    decreases fields
  {
    hide SkipGroup, Skip, Serialize, SerializePayload, WellFormed;
    FirstRecord(fields, rest);
    if fields != [] {
      var f := fields[0];
      assert f in fields;
      var later := SerializeAll(fields[1..]) + rest;
      SkipConsumesPayload(f, later);
      SkipsOneField(f, later, number);
      SkipGroupConsumes(fields[1..], rest, number);
    }
  }

  // ----- reading the records of a message -----

  /** What a decoder's switch does with a record: skip it, fail, or update the message. */
  datatype Case<M> = Unknown | Failed | Read(message: M, rest: Bytes)

  /** The switch of a decoder: a field number, the bytes after the tag, and the message so far. */
  type Cases<!M> = (nat, Bytes, M) -> Case<M>

  /**
   * The decoding loop. It reads records while more than `stop` bytes are left. An unknown record is skipped, except
   * that an end of group or a zero tag ends the message.
   */
  function ReadFields<M>(cases: Cases<M>, bytes: Bytes, stop: int, message: M): Option<(M, Bytes)>
    decreases |bytes|
  {
    if |bytes| <= stop then Some((message, bytes))
    else match ReadUint32(bytes)
      case None => None
      case Some((tag, rest)) =>
        Uint32Shrinks(bytes);
        match cases(tag / 8, rest, message)
        case Failed => None
        case Read(updated, after) => if |after| <= |rest| then ReadFields(cases, after, stop, updated) else None
        case Unknown =>
          if tag % 8 == 4 || tag == 0 then Some((message, rest))
          else match Skip(tag % 8, rest)
            case None => None
            case Some(after) => ReadFields(cases, after, stop, message)
  }

  /** One round of the decoding loop. */
  lemma {:induction false} ReadStep<M>(cases: Cases<M>, bytes: Bytes, stop: int, message: M)
    requires |bytes| > stop
    ensures ReadUint32(bytes).None? ==> ReadFields(cases, bytes, stop, message) == None
    ensures ReadUint32(bytes).Some? ==>
              var (tag, rest) := ReadUint32(bytes).value;
              match cases(tag / 8, rest, message)
              case Failed => ReadFields(cases, bytes, stop, message) == None
              case Read(updated, after) =>
                |after| <= |rest| ==> ReadFields(cases, bytes, stop, message) == ReadFields(cases, after, stop, updated)
              case Unknown =>
                if tag % 8 == 4 || tag == 0 then ReadFields(cases, bytes, stop, message) == Some((message, rest))
                else match Skip(tag % 8, rest)
                  case None => ReadFields(cases, bytes, stop, message) == None
                  case Some(after) => ReadFields(cases, bytes, stop, message) == ReadFields(cases, after, stop, message)
  {
  }

  /** What a list of records adds up to. */
  function FoldFields<M>(apply: (Field, M) -> M, fields: seq<Field>, message: M): M {
    if fields == [] then message else FoldFields(apply, fields[1..], apply(fields[0], message))
  }

  /** A decoder treats a record as `apply` says, whatever follows it. */
  ghost predicate Handles<M(!new)>(cases: Cases<M>, apply: (Field, M) -> M, f: Field) {
    forall message, rest: Bytes ::
      var c := cases(f.number, SerializePayload(f.number, f.payload) + rest, message);
      c == Read(apply(f, message), rest) || (c == Unknown && apply(f, message) == message)
  }

  lemma {:induction false} FoldAppend<M>(apply: (Field, M) -> M, a: seq<Field>, b: seq<Field>, message: M)
    ensures FoldFields(apply, a + b, message) == FoldFields(apply, b, FoldFields(apply, a, message))
  {
    if a == [] {
      assert a + b == b;
    } else {
      assert (a + b)[1..] == a[1..] + b;
      FoldAppend(apply, a[1..], b, apply(a[0], message));
    }
  }

  lemma {:induction false} FoldOneMore<M>(apply: (Field, M) -> M, fields: seq<Field>, last: Field, message: M)
    ensures FoldFields(apply, [], message) == message
    ensures FoldFields(apply, fields + [last], message) == apply(last, FoldFields(apply, fields, message))
  {
    FoldAppend(apply, fields, [last], message);
    assert [last][1..] == [];
  }

  lemma {:induction false} FoldFirst<M>(apply: (Field, M) -> M, fields: seq<Field>, message: M)
    requires fields != []
    ensures FoldFields(apply, fields, message) == FoldFields(apply, fields[1..], apply(fields[0], message))
  {
  }

  lemma {:induction false} NothingLeft<M(!new)>(cases: Cases<M>, apply: (Field, M) -> M, rest: Bytes, message: M)
    ensures ReadFields(cases, rest, |rest|, message) == Some((FoldFields(apply, [], message), rest))
  {
  }

  /** The loop reads one well-formed record and goes on after it with the record applied. */
  lemma {:induction false} ReadsOneField<M(
    !new)>(cases: Cases<M>, apply: (Field, M) -> M, f: Field, later: Bytes, stop: nat, message: M)
    requires WellFormed(f) && Handles(cases, apply, f) && stop <= |later|
    ensures ReadFields(cases, Serialize(f) + later, stop, message) == ReadFields(cases, later, stop, apply(f, message))
  {
    var payload := SerializePayload(f.number, f.payload);
    assert Serialize(f) + later == EncodeVarint(TagOf(f)) + (payload + later);
    TagRoundTrip(f, payload + later);
    SkipConsumesPayload(f, later);
    Uint32Shrinks(Serialize(f) + later);
    hide EncodeVarint, SerializePayload, ReadUint32, Skip, WellFormed, Serialize;
    assert Handles(cases, apply, f);
  }

  /**
   * The decoding loop is the fold of its records: on the bytes of well-formed records it stops exactly at their end,
   * having applied each in turn.
   */
  lemma {:induction false} ReadsEveryField<M(
    !new)>(cases: Cases<M>, apply: (Field, M) -> M, fields: seq<Field>, rest: Bytes, message: M)
    requires forall f :: f in fields ==> WellFormed(f) && Handles(cases, apply, f)
    ensures ReadFields(cases, SerializeAll(fields) + rest, |rest|, message)
            == Some((FoldFields(apply, fields, message), rest))
  {
    hide ReadFields, EncodeVarint, SerializePayload, FoldFields, Handles, WellFormed;
    FirstRecord(fields, rest);
    if fields == [] {
      NothingLeft(cases, apply, rest, message);
    } else {
      var f := fields[0];
      assert f in fields;
      var later := SerializeAll(fields[1..]) + rest;
      ReadsOneField(cases, apply, f, later, |rest|, message);
      ReadsEveryField(cases, apply, fields[1..], rest, apply(f, message));
      FoldFirst(apply, fields, message);
    }
  }

  /** Records the decoder does not know change nothing, wherever they stand. */
  lemma {:induction false} UnknownFieldsChangeNothing<M(!new)>(
    cases: Cases<M>, apply: (Field, M) -> M, before: seq<Field>, unknown: seq<Field>, after: seq<Field>, rest: Bytes,
    message: M)
    requires forall f :: f in before + unknown + after ==> WellFormed(f) && Handles(cases, apply, f)
    requires forall f, m :: f in unknown ==> apply(f, m) == m
    ensures ReadFields(cases, SerializeAll(before + unknown + after) + rest, |rest|, message)
            == ReadFields(cases, SerializeAll(before + after) + rest, |rest|, message)
  {
    ReadsEveryField(cases, apply, before + unknown + after, rest, message);
    ReadsEveryField(cases, apply, before + after, rest, message);
    FoldAppend(apply, before + unknown, after, message);
    FoldAppend(apply, before, unknown, message);
    FoldAppend(apply, before, after, message);
    IdentityFold(apply, unknown, FoldFields(apply, before, message));
  }

  lemma {:induction false} IdentityFold<M>(apply: (Field, M) -> M, fields: seq<Field>, message: M)
    requires forall f :: f in fields ==> apply(f, message) == message
    ensures FoldFields(apply, fields, message) == message
  {
    if fields != [] {
      assert fields[0] in fields;
      IdentityFold(apply, fields[1..], message);
    }
  }
}
