/** The messages byte by byte: which number each field has on the wire, and how it is written under it. */
module WireBytes {
  import opened Wrappers
  import opened ProtobufWire
  import opened SubscriptionContracts
  import opened SubscriptionRequests
  import opened ComplianceContracts

  /** Seven bits to a byte: one byte below 128, two bytes below 16384. */
  lemma {:induction false} VarintBytes(n: nat)
    ensures n < 128 ==> EncodeVarint(n) == [n]
    ensures 128 <= n < 16384 ==> EncodeVarint(n) == [n % 128 + 128, n / 128]
  {
  }

  /** A text and a number under field numbers below 16, whose tag is one byte. */
  lemma {:induction false} RecordBytes(number: nat, text: Bytes, n: nat)
    requires 0 < number < 16 && |text| < 128 && n < 128
    ensures SerializeAll([Field(number, Delimited(text))]) == [8 * number + 2, |text|] + text
    ensures SerializeAll(TextField(number, text)) == if text == [] then [] else [8 * number + 2, |text|] + text
    ensures SerializeAll(NumberField(number, n)) == if n == 0 then [] else [8 * number, n]
    ensures SerializeAll(FlagField(number, true)) == [8 * number, 1] && SerializeAll(FlagField(number, false)) == []
  {
    OneField(Field(number, Delimited(text)));
    OneField(Field(number, Varint(n)));
    OneField(Field(number, Varint(1)));
    VarintBytes(8 * number + 2);
    VarintBytes(8 * number);
    VarintBytes(|text|);
    VarintBytes(n);
    VarintBytes(1);
  }

  /** An event type: its id under 10, its generation under 16, its tombstone flag under 24. */
  lemma {:induction false} EventTypeBytes(m: EventType)
    requires 0 < |m.id| < 128 && 0 < m.generation < 128
    ensures EncodableEventType(m)
    ensures EncodedEventType(m) == [10, |m.id|] + m.id + [16, m.generation] + if m.tombstone then [24, 1] else []
  {
    hide SerializeAll, TextField, NumberField, FlagField;
    RecordBytes(1, m.id, 0);
    RecordBytes(2, [], m.generation);
    RecordBytes(3, [], 0);
    SerializeAppend(TextField(1, m.id) + NumberField(2, m.generation), FlagField(3, m.tombstone));
    SerializeAppend(TextField(1, m.id), NumberField(2, m.generation));
  }

  /** Nothing is written for an empty id, a generation of zero or a false flag; a larger generation takes more bytes. */
  lemma {:induction false} SparseEventTypeBytes(generation: nat)
    requires 128 <= generation < 16384
    ensures EncodableEventType(EventType([], generation, false)) && EncodableEventType(EventType([], 0, false))
    ensures EncodedEventType(EventType([], generation, false)) == [16, generation % 128 + 128, generation / 128]
    ensures EncodedEventType(EventType([], 0, false)) == []
  {
    VarintBytes(16);
    VarintBytes(generation);
    OneField(Field(2, Varint(generation)));
    assert EventTypeFields(EventType([], generation, false)) == [Field(2, Varint(generation))];
  }

  /** A definition: its identifier under 10, its source store under 18, each event type under 26 with its length. */
  lemma {:induction false} DefinitionBytes(identifier: Bytes, store: Bytes, t: EventType)
    requires 0 < |identifier| < 128 && 0 < |store| < 128
    requires EncodableEventType(t) && |EncodedEventType(t)| < 128
    ensures EncodableDefinition(Definition(identifier, store, [t]))
    ensures EncodedDefinition(Definition(identifier, store, [t]))
            == [10, |identifier|] + identifier + [18, |store|] + store
               + ([26, |EncodedEventType(t)|] + EncodedEventType(t))
  {
    hide SerializeAll, TextField, EncodedEventType, EncodableEventType;
    RecordBytes(1, identifier, 0);
    RecordBytes(2, store, 0);
    RecordBytes(3, EncodedEventType(t), 0);
    assert [t][..0] == [];
    assert EventTypesFields([t]) == [Field(3, Delimited(EncodedEventType(t)))];
    SerializeAppend(TextField(1, identifier) + TextField(2, store), EventTypesFields([t]));
    SerializeAppend(TextField(1, identifier), TextField(2, store));
  }

  /** A request to add subscriptions: the target store under 10, a definition under 18; a listing has it under 10. */
  lemma {:induction false} RequestBytes(store: Bytes, d: Definition)
    requires 0 < |store| < 128 && EncodableDefinition(d) && |EncodedDefinition(d)| < 128
    ensures EncodableAdditions(AddSubscriptions(store, [d])) && NestedDefinition(d)
    ensures EncodedAdditions(AddSubscriptions(store, [d]))
            == [10, |store|] + store + ([18, |EncodedDefinition(d)|] + EncodedDefinition(d))
    ensures SerializeAll(DefinitionsFields(1, [d])) == [10, |EncodedDefinition(d)|] + EncodedDefinition(d)
  {
    hide SerializeAll, TextField, EncodedDefinition, EncodableDefinition;
    RecordBytes(1, store, 0);
    RecordBytes(1, EncodedDefinition(d), 0);
    RecordBytes(2, EncodedDefinition(d), 0);
    assert [d][..0] == [];
    assert DefinitionsFields(1, [d]) == [Field(1, Delimited(EncodedDefinition(d)))];
    assert DefinitionsFields(2, [d]) == [Field(2, Delimited(EncodedDefinition(d)))];
    SerializeAppend(TextField(1, store), DefinitionsFields(2, [d]));
  }

  /** A request to remove subscriptions: the target store under 10, each id under 18, also an empty one. */
  lemma {:induction false} RemovalBytes(store: Bytes, id: Bytes)
    requires 0 < |store| < 128 && |id| < 128
    ensures SerializeAll(RemovalsFields(RemoveSubscriptions(store, [id])))
            == [10, |store|] + store + ([18, |id|] + id)
  {
    hide SerializeAll, TextField;
    RecordBytes(1, store, 0);
    RecordBytes(2, id, 0);
    assert [id][..0] == [];
    assert IdsFields([id]) == [Field(2, Delimited(id))];
    SerializeAppend(TextField(1, store), IdsFields([id]));
  }

  /** The fields of the messages of the compliance service. */
  lemma {:induction false} ComplianceFields()
    ensures |SchemaOf(ReleaseRequest)| == 5 && forall i :: 0 <= i < 5 ==> SchemaOf(ReleaseRequest)[i] == Text
    ensures |SchemaOf(ReleaseResponse)| == 3 && SchemaOf(ReleaseResponse)[0] == Text
            && SchemaOf(ReleaseResponse)[1] == Kind.Flag && SchemaOf(ReleaseResponse)[2] == Text
    ensures forall kind :: kind in {DeleteEncryptionKeyRequest, AllowNewEncryptionKeyRequest} ==>
              |SchemaOf(kind)| == 3 && forall i :: 0 <= i < 3 ==> SchemaOf(kind)[i] == Text
    ensures |SchemaOf(Empty)| == 0
  {
  }

  /** A flat message writes its values under their numbers from one, the defaults left out. */
  lemma {:induction false} FlatBytes(m: seq<Value>, last: Value)
    requires |m| < 15 && (last.TextValue? ==> |last.text| < 128)
    ensures SerializeAll(FlatFields([])) == []
    ensures SerializeAll(FlatFields(m + [last]))
         == SerializeAll(FlatFields(m))
            + match last
              case TextValue(text) => if text == [] then [] else [8 * |m| + 10, |text|] + text
              case FlagValue(flag) => if flag then [8 * |m| + 8, 1] else []
  {
    hide SerializeAll, TextField, FlagField, EncodeVarint, FlatFields;
    NoFields();
    FlatStep(m, last);
    RecordBytes(|m| + 1, if last.TextValue? then last.text else [], 0);
    SerializeAppend(FlatFields(m), ValueField(|m| + 1, last));
  }

  /** Reading a number takes its low 32 bits, a flag its low 64 bits, and at most ten bytes. */
  lemma {:induction false} NumbersAsRead(n: nat, rest: Bytes)
    requires n < 0x1_0000_0000_0000_0000
    ensures ReadUint32(EncodeVarint(n) + rest) == Some((n % 4294967296, rest))
    ensures ReadBool(EncodeVarint(n) + rest) == Some((n != 0, rest))
    ensures Fits(rest) <==> |rest| < 4294967296
  {
    Varint64RoundTrip(n, rest);
  }

  /** Eleven bytes of a number are one too many, and a number without its last byte is none. */
  lemma {:induction false} LongNumbersAreRefused(high: Bytes, rest: Bytes)
    requires forall i :: 0 <= i < |high| ==> high[i] >= 128
    ensures |high| >= 10 ==> ReadUint32(high + rest).None? && ReadBool(high + rest).None?
    ensures ReadUint32(high).None? && ReadBool(high).None?
  {
    HighBytesGoOn(high, rest, 10);
    HighBytesGoOn(high, [], 10);
    assert high + [] == high;
  }

  lemma {:induction false} HighBytesGoOn(high: Bytes, rest: Bytes, max: nat)
    requires forall i :: 0 <= i < |high| ==> high[i] >= 128
    ensures |high| >= max || rest == [] ==> ReadVarint(high + rest, max).None?
  {
    if high != [] && max > 0 {
      assert (high + rest)[1..] == high[1..] + rest;
      HighBytesGoOn(high[1..], rest, max - 1);
    } else if high == [] {
      assert high + rest == rest;
    }
  }

  /** Which payloads are skipped: eight or four bytes, a length and as many; other wire types are refused. */
  lemma {:induction false} PayloadsAsSkipped(wireType: nat, bytes: Bytes)
    ensures wireType == 1 ==> Skip(wireType, bytes) == if |bytes| >= 8 then Some(bytes[8..]) else None
    ensures wireType == 5 ==> Skip(wireType, bytes) == if |bytes| >= 4 then Some(bytes[4..]) else None
    ensures wireType == 4 || wireType > 5 ==> Skip(wireType, bytes) == None
  {
  }

  /** In a group, a record without a number or with another wire type is refused, as is the end of another group. */
  lemma {:induction false} BadRecordsInGroups(tag: nat, number: Option<nat>, rest: Bytes)
    requires tag < 4294967296
    ensures tag < 8 || tag % 8 > 5 ==> SkipGroup(EncodeVarint(tag) + rest, number) == None
    ensures tag >= 8 && tag % 8 == 4 ==>
              SkipGroup(EncodeVarint(tag) + rest, number)
              == if number != None && number != Some(tag / 8) then None else Some(rest)
  {
    hide EncodeVarint, ReadUint32;
    Varint64RoundTrip(tag, rest);
  }

  /** A group that ends under another number than it began with is refused, at any depth. */
  lemma {:induction false} GroupsEndAsTheyBegin(n: nat, k: nat, number: Option<nat>, rest: Bytes)
    requires 0 < n < 0x2000_0000 && 0 < k < 0x2000_0000 && n != k
    ensures SkipGroup(EncodeVarint(8 * n + 3) + (EncodeVarint(8 * k + 4) + rest), number) == None
  {
    hide EncodeVarint, ReadUint32;
    Varint64RoundTrip(8 * n + 3, EncodeVarint(8 * k + 4) + rest);
    Varint64RoundTrip(8 * k + 4, rest);
    BadRecordsInGroups(8 * k + 4, Some(n), rest);
  }

  lemma {:induction false} FlatStep(m: seq<Value>, last: Value)
    ensures FlatFields([]) == [] && FlatFields(m + [last]) == FlatFields(m) + ValueField(|m| + 1, last)
  {
    assert (m + [last])[..|m|] == m;
  }

  /** What ten bytes hold beyond 64 bits plays no part: a flag is read from the low 64. */
  lemma {:induction false} FlagsAsRead(first: nat, rest: Bytes)
    requires first < 128
    ensures ReadBool(High(first, 9) + ([2] + rest)) == Some((first != 0, rest))
  {
    hide High, ReadVarint;
    NineHighBytes(first, 2, rest, 9);
    assert Power128(9) == 9223372036854775808;
  }

  /** Bytes with the top bit set, of which the first holds a number below 128 and the others zero. */
  ghost function High(first: nat, count: nat): Bytes
    requires first < 128
  {
    if count == 0 then [] else [first + 128] + High(0, count - 1)
  }

  lemma {:induction false} NineHighBytes(first: nat, last: nat, rest: Bytes, count: nat)
    requires first < 128 && last < 128
    ensures ReadVarint(High(first, count) + ([last] + rest), count + 1)
         == Some(((if count > 0 then first else 0) + Power128(count) * last, rest))
  {
    if count == 0 {
      assert [] + ([last] + rest) == [last] + rest;
    } else {
      NineHighBytes(0, last, rest, count - 1);
      assert (High(first, count) + ([last] + rest))[1..] == High(0, count - 1) + ([last] + rest);
    }
  }

  /** A well-formed record has a number of 29 bits, and as many bytes as its wire type says. */
  lemma {:induction false} RecordsAsFormed(number: nat, value: nat, bytes: Bytes, fields: seq<Field>)
    ensures WellFormed(Field(number, Varint(value))) <==> 0 < number < 536870912 && value < 0x1_0000_0000_0000_0000
    ensures WellFormed(Field(number, Delimited(bytes))) <==> 0 < number < 536870912 && |bytes| < 4294967296
    ensures WellFormed(Field(number, Fixed64(bytes))) <==> 0 < number < 536870912 && |bytes| == 8
    ensures WellFormed(Field(number, Fixed32(bytes))) <==> 0 < number < 536870912 && |bytes| == 4
    ensures WellFormed(Field(number, Group(fields))) <==>
            0 < number < 536870912 && forall f :: f in fields ==> WellFormed(f)
  {
  }
}
