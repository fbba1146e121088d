/**
 * Writing an explicit false. A generated encoder never writes a false flag, and the kernel reads an absent flag as
 * true; the wrapped encoder appends the false flags, so every flag arrives.
 */
module ExplicitFalse {
  import opened Wrappers
  import opened ProtobufWire
  import opened ProtobufStreams
  import opened SubscriptionContracts

  /** A flag of a message with its field number. */
  datatype Flag = Flag(number: nat, value: bool)

  /** The records the wrapper appends. */
  function ExplicitFalses(flags: seq<Flag>): seq<Field> {
    if flags == [] then []
    else
      var earlier, last := ExplicitFalses(flags[..|flags| - 1]), flags[|flags| - 1];
      if last.value then earlier else earlier + [Field(last.number, Varint(0))]
  }

  /** What a generated encoder writes for the flags: the record 1 for a true flag, and nothing for a false one. */
  ghost predicate OmitsFalse(original: seq<Field>, flags: seq<Flag>) {
    forall k :: 0 <= k < |flags| ==>
                  && (forall f :: f in original && f.number == flags[k].number ==> f.payload == Varint(1))
                  && (flags[k].value <==> exists f :: f in original && f.number == flags[k].number)
  }

  ghost predicate DistinctFlags(flags: seq<Flag>) {
    && (forall k :: 0 <= k < |flags| ==> 0 < flags[k].number < 0x1000_0000)
    && (forall j, k :: 0 <= j < k < |flags| ==> flags[j].number != flags[k].number)
  }

  /** A decoder's view of one flag. */
  function FlagCases(number: nat): Cases<bool> {
    (n: nat, bytes: Bytes, flag: bool) =>
      if n != number then Unknown
      else match ReadBool(bytes) case None => Failed case Some((b, rest)) => Read(b, rest)
  }

  function ApplyFlag(number: nat): (Field, bool) -> bool {
    (f: Field, flag: bool) => if f.number == number && f.payload.Varint? then f.payload.value != 0 else flag
  }

  /** The records of the other fields, in order. */
  function OtherFields(fields: seq<Field>, flags: seq<Flag>): seq<Field> {
    if fields == [] then []
    else
      var earlier, last := OtherFields(fields[..|fields| - 1], flags), fields[|fields| - 1];
      if exists k :: 0 <= k < |flags| && flags[k].number == last.number then earlier else earlier + [last]
  }

  /** The other fields are those under no flag's number, in their order. */
  lemma {:induction false} OtherFieldsByNumber(fields: seq<Field>, f: Field, flags: seq<Flag>)
    ensures OtherFields([], flags) == []
    ensures OtherFields(fields + [f], flags)
         == OtherFields(fields, flags) + if exists flag :: flag in flags && flag.number == f.number then [] else [f]
  {
    assert (fields + [f])[..|fields|] == fields;
    if k :| 0 <= k < |flags| && flags[k].number == f.number {
      assert flags[k] in flags;
    }
  }

  /** What the wrapper does after the original encoder: it appends a zero for every false flag. */
  method AppendExplicitFalses(flags: seq<Flag>, writer: BinaryWriter)
    requires DistinctFlags(flags)
    modifies writer
    ensures writer.bytes == old(writer.bytes) + SerializeAll(ExplicitFalses(flags)) && writer.forks == old(writer.forks)
  {
    NoFields();
    for i := 0 to |flags|
      invariant writer.bytes == old(writer.bytes) + SerializeAll(ExplicitFalses(flags[..i]))
                && writer.forks == old(writer.forks)
    {
      hide SerializeAll;
      assert flags[..i + 1][..i] == flags[..i];
      if !flags[i].value {
        ZeroRecord(flags[i].number);
        var ok := writer.Uint32(8 * flags[i].number);
        writer.Bool(false);
        SerializeAppend(ExplicitFalses(flags[..i]), [Field(flags[i].number, Varint(0))]);
      }
    }
    assert flags[..|flags|] == flags;
  }

  lemma {:induction false} ZeroRecord(number: nat)
    ensures SerializeAll([Field(number, Varint(0))]) == EncodeVarint(8 * number) + EncodeVarint(0)
  {
    OneField(Field(number, Varint(0)));
  }

  lemma {:induction false} FoldOfFlag(number: nat, fields: seq<Field>, base: bool)
    ensures (forall f :: f in fields ==> f.number != number) ==> FoldFields(ApplyFlag(number), fields, base) == base
    ensures (forall f :: f in fields && f.number == number ==> f.payload == Varint(1))
            ==> FoldFields(ApplyFlag(number), fields, base) == (base || exists f :: f in fields && f.number == number)
    ensures (forall f :: f in fields && f.number == number ==> f.payload == Varint(0))
            ==> FoldFields(ApplyFlag(number), fields, base) == (base && forall f :: f in fields ==> f.number != number)
  {
    if fields != [] {
      FoldOfFlag(number, fields[1..], ApplyFlag(number)(fields[0], base));
      assert fields == [fields[0]] + fields[1..];
      assert fields[0] in fields;
    }
  }

  lemma {:induction false} ExplicitFalsesOf(flags: seq<Flag>, f: Field)
    ensures f in ExplicitFalses(flags) <==>
            exists k :: 0 <= k < |flags| && !flags[k].value && f == Field(flags[k].number, Varint(0))
  {
    if flags != [] {
      var rest := flags[..|flags| - 1];
      ExplicitFalsesOf(rest, f);
      assert forall k :: 0 <= k < |rest| ==> rest[k] == flags[k];
    }
  }

  /** Every flag arrives as it is, whether the decoder takes an absent flag for true or for false. */
  lemma {:induction false} FlagsAreRecovered(original: seq<Field>, flags: seq<Flag>, k: nat, absent: bool)
    requires OmitsFalse(original, flags) && DistinctFlags(flags) && k < |flags|
    ensures FoldFields(ApplyFlag(flags[k].number), original + ExplicitFalses(flags), absent) == flags[k].value
  {
    var number := flags[k].number;
    var falses := ExplicitFalses(flags);
    FoldAppend(ApplyFlag(number), original, falses, absent);
    FoldOfFlag(number, original, absent);
    forall f ensures f in falses && f.number == number ==> f.payload == Varint(0) && !flags[k].value {
      ExplicitFalsesOf(flags, f);
    }
    ExplicitFalsesOf(flags, Field(number, Varint(0)));
    FoldOfFlag(number, falses, FoldFields(ApplyFlag(number), original, absent));
  }

  /** Without the wrapper a decoder that takes an absent flag for true reads every flag as true. */
  lemma {:induction false} WithoutItFalseReadsAsTrue(original: seq<Field>, flags: seq<Flag>, k: nat)
    requires OmitsFalse(original, flags) && k < |flags|
    ensures FoldFields(ApplyFlag(flags[k].number), original, true)
  {
    FoldOfFlag(flags[k].number, original, true);
  }

  /** The records of other fields are the same, in the same order. */
  lemma {:induction false} OtherFieldsAreLeftAlone(original: seq<Field>, flags: seq<Flag>, more: seq<Flag>)
    requires forall k :: 0 <= k < |more| ==> more[k] in flags
    ensures OtherFields(original + ExplicitFalses(more), flags) == OtherFields(original, flags)
  {
    if more == [] {
      assert original + [] == original;
    } else {
      var rest, last := more[..|more| - 1], more[|more| - 1];
      OtherFieldsAreLeftAlone(original, flags, rest);
      if !last.value {
        var longer := original + ExplicitFalses(more);
        assert longer[..|longer| - 1] == original + ExplicitFalses(rest);
        assert last in flags;
      }
    }
  }

  /** On the wire: a decoder reads the flag from the bytes, whatever it takes an absent flag for. */
  lemma {:induction false} FlagsAreRecoveredFromBytes(original: seq<Field>, flags: seq<Flag>, k: nat, absent: bool)
    requires OmitsFalse(original, flags) && DistinctFlags(flags) && k < |flags|
    requires forall f :: f in original ==> WellFormed(f)
    ensures ReadFields(FlagCases(flags[k].number), SerializeAll(original) + SerializeAll(ExplicitFalses(flags)), 0,
            absent)
            == Some((flags[k].value, []))
  {
    var number := flags[k].number;
    var fields := original + ExplicitFalses(flags);
    FlagsAreRecovered(original, flags, k, absent);
    SerializeAppend(original, ExplicitFalses(flags));
    assert SerializeAll(fields) + [] == SerializeAll(fields);
    forall f | f in fields ensures WellFormed(f) && (f.number == number ==> f.payload.Varint?) {
      if f !in original {
        ExplicitFalsesOf(flags, f);
      }
    }
    hide ReadFields;
    forall f | f in fields ensures Handles(FlagCases(number), ApplyFlag(number), f) {
      FlagHandled(number, f);
    }
    ReadsEveryField(FlagCases(number), ApplyFlag(number), fields, [], absent);
  }

  lemma {:induction false} FlagHandled(number: nat, f: Field)
    requires WellFormed(f) && (f.number == number ==> f.payload.Varint?)
    ensures Handles(FlagCases(number), ApplyFlag(number), f)
  {
    forall flag, rest: Bytes
      ensures var c := FlagCases(number)(f.number, SerializePayload(f.number, f.payload) + rest, flag);
              c == Read(ApplyFlag(number)(f, flag), rest) || (c == Unknown && ApplyFlag(number)(f, flag) == flag)
    {
      FieldIsRead(f, rest);
    }
  }

  // ----- message definitions -----

  /** A flag property of a message type, with the number it is written under. */
  datatype FlagProperty<!T> = FlagProperty(number: nat, valueOf: T -> bool)

  function FlagsOf<T>(properties: seq<FlagProperty<T>>, message: T): (r: seq<Flag>)
    ensures |r| == |properties|
  {
    seq(|properties|, i requires 0 <= i < |properties| => Flag(properties[i].number, properties[i].valueOf(message)))
  }

  ghost predicate DistinctProperties<T>(properties: seq<FlagProperty<T>>) {
    && (forall k :: 0 <= k < |properties| ==> 0 < properties[k].number < 0x1000_0000)
    && (forall j, k :: 0 <= j < k < |properties| ==> properties[j].number != properties[k].number)
  }

  /** What a generated encoder writes for a message: records of which none is a false flag. */
  ghost predicate Generates(bytes: Bytes, flags: seq<Flag>) {
    exists records :: SerializeAll(records) == bytes && OmitsFalse(records, flags) && forall f :: f in records ==>
      WellFormed(f)
  }

  ghost predicate GeneratedEncoder<T(!new)>(encode: T -> Bytes, properties: seq<FlagProperty<T>>) {
    forall message :: Generates(encode(message), FlagsOf(properties, message))
  }

  /**
   * Every flag of every message is read back from its encoding, by decoders that take an absent flag for either value.
   */
  ghost predicate FlagsArrive<T(!new)>(encode: T -> Bytes, properties: seq<FlagProperty<T>>) {
    forall message, k, absent :: 0 <= k < |properties| ==>
      ReadFields(FlagCases(properties[k].number), encode(message), 0, absent)
        == Some((properties[k].valueOf(message), []))
  }

  /** The encoder that runs another one and then appends the false flags. */
  function Wrapping<T>(original: T -> Bytes, properties: seq<FlagProperty<T>>): T -> Bytes {
    message => original(message) + SerializeAll(ExplicitFalses(FlagsOf(properties, message)))
  }

  /** Wrapping a generated encoder makes every flag arrive. */
  lemma {:induction false} WrappedFlagsArrive<T(!new)>(original: T -> Bytes, properties: seq<FlagProperty<T>>)
    requires DistinctProperties(properties) && GeneratedEncoder(original, properties)
    ensures FlagsArrive(Wrapping(original, properties), properties)
  {
    hide OmitsFalse, SerializeAll, ReadFields, FlagCases, ExplicitFalses;
    forall message, k, absent | 0 <= k < |properties|
      ensures ReadFields(FlagCases(properties[k].number), Wrapping(original, properties)(message), 0, absent)
           == Some((properties[k].valueOf(message), []))
    {
      var flags := FlagsOf(properties, message);
      assert Generates(original(message), flags);
      var records :| SerializeAll(records) == original(message) && OmitsFalse(records, flags)
                     && forall f :: f in records ==> WellFormed(f);
      FlagsAreRecoveredFromBytes(records, flags, k, absent);
    }
  }

  /** A message definition, whose encoder is the generated one until it is replaced. */
  class MessageDefinition<!T(!new)> {
    var encode: T -> Bytes
    var wrapped: bool

    constructor (encode: T -> Bytes)
      ensures this.encode == encode && !wrapped
    {
      this.encode, this.wrapped := encode, false;
    }

    /** The encoder is the generated one, or already delivers the flags. */
    ghost predicate Valid(properties: seq<FlagProperty<T>>)
      reads this
    {
      if wrapped then FlagsArrive(encode, properties) else GeneratedEncoder(encode, properties)
    }

    /**
     * Makes every flag arrive, by appending the false flags to what the encoder writes. A second call changes nothing.
     */
    method WriteExplicitFalse(properties: seq<FlagProperty<T>>)
      requires DistinctProperties(properties) && Valid(properties)
      modifies this
      ensures wrapped && Valid(properties) && FlagsArrive(encode, properties)
      ensures old(wrapped) ==> encode == old(encode)
      ensures !old(wrapped) ==> forall message ::
                encode(message) == old(encode)(message) + SerializeAll(ExplicitFalses(FlagsOf(properties, message)))
    {
      if wrapped {
        return;
      }
      WrappedFlagsArrive(encode, properties);
      encode := Wrapping(encode, properties);
      wrapped := true;
    }
  }

  /** The messages whose flags the kernel takes for true when absent; their other fields are not looked at here. */
  datatype ReactorDefinition = ReactorDefinition(isReplayable: bool, otherFields: seq<Field>)

  datatype WebhookDefinition = WebhookDefinition(isReplayable: bool, isActive: bool, otherFields: seq<Field>)

  function ReactorFlags(): seq<FlagProperty<ReactorDefinition>> {
    [FlagProperty(4, (m: ReactorDefinition) => m.isReplayable)]
  }

  function WebhookFlags(): seq<FlagProperty<WebhookDefinition>> {
    [FlagProperty(5, (m: WebhookDefinition) => m.isReplayable), FlagProperty(6, (m: WebhookDefinition) => m.isActive)]
  }

  /** What a kernel that takes an absent flag for true reads under a number; nothing when the bytes do not decode. */
  function KernelReads(number: nat, bytes: Bytes): Option<bool> {
    match ReadFields(FlagCases(number), bytes, 0, true)
    case None => None
    case Some((flag, rest)) => Some(flag)
  }

  /** A flag whose record is absent reads as true, and one that is there as it is. */
  lemma {:induction false} AbsentReadsAsTrue(number: nat, value: bool)
    requires 0 < number < 16
    ensures KernelReads(number, []) == Some(true)
    ensures KernelReads(number, [8 * number, if value then 1 else 0]) == Some(value)
  {
    var f := Field(number, Varint(if value then 1 else 0));
    OneField(f);
    assert Serialize(f) == [8 * number, if value then 1 else 0];
    assert Handles(FlagCases(number), ApplyFlag(number), f) by { FlagHandled(number, f); }
    ReadsEveryField(FlagCases(number), ApplyFlag(number), [f], [], true);
    assert SerializeAll([f]) + [] == [8 * number, if value then 1 else 0];
    assert [f][1..] == [];
  }

  /** Makes the kernel read the flags of reactors and webhooks as they are, however often it is applied. */
  method ApplyExplicitFalseEncoding(
    reactors: MessageDefinition<ReactorDefinition>, webhooks: MessageDefinition<WebhookDefinition>)
    requires reactors.Valid(ReactorFlags()) && webhooks.Valid(WebhookFlags())
    modifies reactors, webhooks
    ensures reactors.wrapped && reactors.Valid(ReactorFlags()) && webhooks.wrapped && webhooks.Valid(WebhookFlags())
    ensures forall m :: KernelReads(4, reactors.encode(m)) == Some(m.isReplayable)
    ensures forall m :: KernelReads(5, webhooks.encode(m)) == Some(m.isReplayable)
                        && KernelReads(6, webhooks.encode(m)) == Some(m.isActive)
    ensures old(reactors.wrapped) ==> reactors.encode == old(reactors.encode)
    ensures old(webhooks.wrapped) ==> webhooks.encode == old(webhooks.encode)
  {
    hide ReadFields, FlagCases, Generates;
    reactors.WriteExplicitFalse(ReactorFlags());
    webhooks.WriteExplicitFalse(WebhookFlags());
    assert forall m :: ReactorFlags()[0].valueOf(m) == m.isReplayable;
    assert forall m :: WebhookFlags()[0].valueOf(m) == m.isReplayable && WebhookFlags()[1].valueOf(m) == m.isActive;
  }
}
