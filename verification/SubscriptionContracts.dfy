/**
 * The hand-written codecs of event store subscriptions: three nested levels of messages and the flat ones beside them.
 * Each decoder is the loop of the wire format over the switch of its message; each encoder writes the records of its
 * message and omits default values.
 */
module SubscriptionContracts {
  import opened Wrappers
  import opened ProtobufWire
  import opened ProtobufStreams

  datatype EventType = EventType(id: Bytes, generation: int, tombstone: bool)

  datatype Definition = Definition(identifier: Bytes, sourceEventStore: Bytes, eventTypes: seq<EventType>)

  datatype AddSubscriptions = AddSubscriptions(targetEventStore: Bytes, subscriptions: seq<Definition>)

  datatype RemoveSubscriptions = RemoveSubscriptions(targetEventStore: Bytes, subscriptionIds: seq<Bytes>)

  const NO_EVENT_TYPE := EventType([], 0, false)
  const NO_DEFINITION := Definition([], [], [])
  const NO_ADDITIONS := AddSubscriptions([], [])
  const NO_REMOVALS := RemoveSubscriptions([], [])

  function TextField(number: nat, text: Bytes): seq<Field> {
    if text == [] then [] else [Field(number, Delimited(text))]
  }

  function NumberField(number: nat, n: nat): seq<Field> {
    if n == 0 then [] else [Field(number, Varint(n))]
  }

  function FlagField(number: nat, flag: bool): seq<Field> {
    if flag then [Field(number, Varint(1))] else []
  }

  predicate Fits(text: Bytes) {
    |text| < TWO_TO_THE_32
  }

  /** How many bytes may be left when a message of the given length is over; without a length it takes all of them. */
  function StopAt(bytes: Bytes, length: Option<nat>): int {
    if length.None? then 0 else |bytes| - length.value
  }

  // ----- event types -----

  function EventTypeFields(m: EventType): seq<Field>
    requires EncodableEventType(m)
  {
    TextField(1, m.id) + NumberField(2, m.generation) + FlagField(3, m.tombstone)
  }

  predicate EncodableEventType(m: EventType) {
    Fits(m.id) && 0 <= m.generation < TWO_TO_THE_32
  }

  function EncodedEventType(m: EventType): Bytes
    requires EncodableEventType(m)
  {
    SerializeAll(EventTypeFields(m))
  }

  function EventTypeCases(number: nat, bytes: Bytes, m: EventType): Case<EventType> {
    if number == 1 then (match ReadBytes(bytes) case None => Failed case Some((text, rest)) =>
      Read(m.(id := text), rest))
    else if number == 2 then (match ReadUint32(bytes) case None => Failed case Some((n, rest)) =>
      Read(m.(generation := n), rest))
    else if number == 3 then (match ReadBool(bytes) case None => Failed case Some((b, rest)) =>
      Read(m.(tombstone := b), rest))
    else Unknown
  }

  /** A record an event type may hold: its own fields with their own wire types, or any field it does not know. */
  predicate EventTypeField(f: Field) {
    WellFormed(f) && (f.number == 1 ==> f.payload.Delimited?) && (f.number == 2 || f.number == 3 ==> f.payload.Varint?)
  }

  function ApplyEventType(f: Field, m: EventType): EventType {
    match f.payload
    case Delimited(text) => if f.number == 1 then m.(id := text) else m
    case Varint(value) =>
      if f.number == 2 then m.(generation := value % TWO_TO_THE_32)
        else if f.number == 3 then m.(tombstone := value != 0) else m
    case _ => m
  }

  /** The last value that is not the default wins, field by field. */
  function MergeEventType(a: EventType, b: EventType): EventType {
    EventType(if b.id != [] then b.id else a.id, if b.generation != 0 then b.generation else a.generation,
      b.tombstone || a.tombstone)
  }

  lemma {:induction false} EventTypeHandled(f: Field)
    requires EventTypeField(f)
    ensures Handles(EventTypeCases, ApplyEventType, f)
  {
    forall m, rest: Bytes
      ensures var c := EventTypeCases(f.number, SerializePayload(f.number, f.payload) + rest, m);
              c == Read(ApplyEventType(f, m), rest) || (c == Unknown && ApplyEventType(f, m) == m)
    {
      FieldIsRead(f, rest);
    }
  }

  /** A varint or delimited record is read back whatever follows it. */
  lemma {:induction false} FieldIsRead(f: Field, rest: Bytes)
    requires WellFormed(f)
    ensures f.payload.Delimited? ==>
            ReadBytes(SerializePayload(f.number, f.payload) + rest) == Some((f.payload.bytes, rest))
    ensures f.payload.Varint? ==>
              && ReadUint32(SerializePayload(f.number, f.payload) + rest)
                 == Some((f.payload.value % TWO_TO_THE_32, rest))
              && ReadBool(SerializePayload(f.number, f.payload) + rest) == Some((f.payload.value != 0, rest))
  {
    if f.payload.Delimited? {
      BytesRoundTrip(f.payload.bytes, rest);
    } else if f.payload.Varint? {
      Varint64RoundTrip(f.payload.value, rest);
    }
  }

  lemma {:induction false} EventTypeFieldsAreSound(m: EventType, base: EventType)
    requires EncodableEventType(m)
    ensures forall f :: f in EventTypeFields(m) ==> EventTypeField(f)
    ensures FoldFields(ApplyEventType, EventTypeFields(m), base) == MergeEventType(base, m)
  {
    FoldAppend(ApplyEventType, TextField(1, m.id) + NumberField(2, m.generation), FlagField(3, m.tombstone), base);
    FoldAppend(ApplyEventType, TextField(1, m.id), NumberField(2, m.generation), base);
  }

  /** Any records an event type may hold decode to what they add up to, to the byte. */
  lemma {:induction false} EventTypeReads(fields: seq<Field>, rest: Bytes, base: EventType)
    requires forall f :: f in fields ==> EventTypeField(f)
    ensures ReadFields(EventTypeCases, SerializeAll(fields) + rest, |rest|, base)
            == Some((FoldFields(ApplyEventType, fields, base), rest))
  {
    forall f | f in fields ensures Handles(EventTypeCases, ApplyEventType, f) {
      EventTypeHandled(f);
    }
    ReadsEveryField(EventTypeCases, ApplyEventType, fields, rest, base);
  }

  /** Decoding the encoding of an event type onto another gives their merge and consumes exactly its bytes. */
  lemma {:induction false} EventTypeDecodes(m: EventType, rest: Bytes, base: EventType)
    requires EncodableEventType(m)
    ensures ReadFields(EventTypeCases, EncodedEventType(m) + rest, |rest|, base)
            == Some((MergeEventType(base, m), rest))
    ensures MergeEventType(NO_EVENT_TYPE, m) == m
  {
    EventTypeFieldsAreSound(m, base);
    EventTypeReads(EventTypeFields(m), rest, base);
  }

  lemma {:induction false} OneField(f: Field)
    ensures SerializeAll([f]) == Serialize(f)
  {
  }

  /** Writes a text under its tag, unless it is empty. */
  method WriteText(writer: BinaryWriter, tag: nat, text: Bytes, ghost number: nat) returns (ok: bool)
    requires tag == 8 * number + 2 && tag < TWO_TO_THE_32
    modifies writer
    ensures ok <==> Fits(text)
    ensures ok ==>
            writer.bytes == old(writer.bytes) + SerializeAll(TextField(number, text))
            && writer.forks == old(writer.forks)
  {
    ok := true;
    if text != [] {
      ok := writer.Uint32(tag);
      ok := writer.String(text);
      OneField(Field(number, Delimited(text)));
    } else {
      assert writer.bytes == old(writer.bytes) + [];
    }
  }

  /** Writes a 32-bit number under its tag, unless it is zero. */
  method WriteNumber(writer: BinaryWriter, tag: nat, n: int, ghost number: nat) returns (ok: bool)
    requires tag == 8 * number && tag < TWO_TO_THE_32
    modifies writer
    ensures ok <==> 0 <= n < TWO_TO_THE_32
    ensures ok ==>
            writer.bytes == old(writer.bytes) + SerializeAll(NumberField(number, n))
            && writer.forks == old(writer.forks)
  {
    ok := true;
    if n != 0 {
      ok := writer.Uint32(tag);
      ok := writer.Uint32(n);
      if ok {
        OneField(Field(number, Varint(n)));
      }
    } else {
      assert writer.bytes == old(writer.bytes) + [];
    }
  }

  /** Writes a flag under its tag, unless it is false. */
  method WriteFlag(writer: BinaryWriter, tag: nat, flag: bool, ghost number: nat)
    requires tag == 8 * number && tag < TWO_TO_THE_32
    modifies writer
    ensures writer.bytes == old(writer.bytes) + SerializeAll(FlagField(number, flag))
            && writer.forks == old(writer.forks)
  {
    if flag {
      var ok := writer.Uint32(tag);
      writer.Bool(flag);
      OneField(Field(number, Varint(1)));
    } else {
      assert writer.bytes == old(writer.bytes) + [];
    }
  }

  method EncodeEventType(m: EventType, writer: BinaryWriter) returns (ok: bool)
    modifies writer
    ensures ok <==> EncodableEventType(m)
    ensures ok ==> writer.bytes == old(writer.bytes) + EncodedEventType(m) && writer.forks == old(writer.forks)
  {
    hide SerializeAll, TextField, NumberField, FlagField;
    ok := WriteText(writer, 10, m.id, 1);
    if !ok { return; }
    ok := WriteNumber(writer, 16, m.generation, 2);
    if !ok { return; }
    WriteFlag(writer, 24, m.tombstone, 3);
    SerializeAppend(TextField(1, m.id), NumberField(2, m.generation));
    SerializeAppend(TextField(1, m.id) + NumberField(2, m.generation), FlagField(3, m.tombstone));
  }

  method DecodeEventType(reader: BinaryReader, length: Option<nat>) returns (r: Option<EventType>)
    requires reader.Valid()
    modifies reader
    ensures reader.Valid()
    ensures var read := ReadFields(EventTypeCases, old(reader.unread), StopAt(old(reader.unread), length),
            NO_EVENT_TYPE);
            && (r.Some? <==> read.Some?)
            && (r.Some? ==> read == Some((r.value, reader.unread)))
  {
    var end := if length.None? then reader.len else reader.Pos() + length.value;
    var message := NO_EVENT_TYPE;
    ghost var stop := StopAt(reader.unread, length);
    ghost var read := ReadFields(EventTypeCases, reader.unread, stop, message);
    while reader.Pos() < end
      invariant reader.Valid() && (reader.Pos() < end <==> |reader.unread| > stop)
      invariant ReadFields(EventTypeCases, reader.unread, stop, message) == read
      decreases |reader.unread|
    {
      var tag := reader.Uint32();
      if tag.None? { return None; }
      match tag.value / 8 {
        case 1 =>
          var text := reader.String();
          if text.None? { return None; }
          message := message.(id := text.value);
        case 2 =>
          var n := reader.Uint32();
          if n.None? { return None; }
          message := message.(generation := n.value);
        case 3 =>
          var b := reader.Bool();
          if b.None? { return None; }
          message := message.(tombstone := b.value);
        case _ =>
          if tag.value % 8 == 4 || tag.value == 0 {
            return Some(message);
          }
          var skipped := reader.SkipPayload(tag.value % 8);
          if !skipped { return None; }
      }
    }
    return Some(message);
  }

  // ----- subscription definitions -----

  function EventTypesFields(eventTypes: seq<EventType>): seq<Field>
    requires forall t :: t in eventTypes ==> NestedEventType(t)
  {
    if eventTypes == [] then []
    else
      var last := eventTypes[|eventTypes| - 1];
      assert last in eventTypes && NestedEventType(last);
      EventTypesFields(eventTypes[..|eventTypes| - 1]) + [Field(3, Delimited(EncodedEventType(last)))]
  }

  predicate NestedEventType(t: EventType) {
    EncodableEventType(t) && Fits(EncodedEventType(t))
  }

  predicate EncodableDefinition(m: Definition) {
    Fits(m.identifier) && Fits(m.sourceEventStore) && forall t :: t in m.eventTypes ==> NestedEventType(t)
  }

  function DefinitionFields(m: Definition): seq<Field>
    requires EncodableDefinition(m)
  {
    TextField(1, m.identifier) + TextField(2, m.sourceEventStore) + EventTypesFields(m.eventTypes)
  }

  function EncodedDefinition(m: Definition): Bytes
    requires EncodableDefinition(m)
  {
    SerializeAll(DefinitionFields(m))
  }

  function ReadNestedEventType(bytes: Bytes): Option<(EventType, Bytes)> {
    match ReadUint32(bytes)
    case None => None
    case Some((length, rest)) => ReadFields(EventTypeCases, rest, |rest| - length, NO_EVENT_TYPE)
  }

  function DefinitionCases(number: nat, bytes: Bytes, m: Definition): Case<Definition> {
    if number == 1 then (match ReadBytes(bytes) case None => Failed case Some((text, rest)) =>
      Read(m.(identifier := text), rest))
    else if number == 2 then (match ReadBytes(bytes) case None => Failed case Some((text, rest)) =>
      Read(m.(sourceEventStore := text), rest))
    else if number == 3 then
      match ReadNestedEventType(bytes)
      case None => Failed
      case Some((t, rest)) => Read(m.(eventTypes := m.eventTypes + [t]), rest)
    else Unknown
  }

  /** A record a definition may hold; its nested records may hold any event type record. */
  ghost predicate DefinitionField(f: Field) {
    && WellFormed(f)
    && (1 <= f.number <= 3 ==> f.payload.Delimited?)
    && (f.number == 3 ==> exists nested :: IsEventTypeRecord(f.payload.bytes, nested))
  }

  ghost predicate IsEventTypeRecord(bytes: Bytes, nested: seq<Field>) {
    bytes == SerializeAll(nested) && forall g :: g in nested ==> EventTypeField(g)
  }

  function ApplyDefinition(f: Field, m: Definition): Definition {
    if !f.payload.Delimited? then m
    else if f.number == 1 then m.(identifier := f.payload.bytes)
    else if f.number == 2 then m.(sourceEventStore := f.payload.bytes)
    else if f.number == 3 then
      match ReadFields(EventTypeCases, f.payload.bytes, 0, NO_EVENT_TYPE)
      case None => m
      case Some((t, _)) => m.(eventTypes := m.eventTypes + [t])
    else m
  }

  function MergeDefinition(a: Definition, b: Definition): Definition {
    Definition(if b.identifier != [] then b.identifier else a.identifier,
               if b.sourceEventStore != [] then b.sourceEventStore else a.sourceEventStore,
               a.eventTypes + b.eventTypes)
  }

  lemma {:induction false} DefinitionHandled(f: Field)
    requires DefinitionField(f)
    ensures Handles(DefinitionCases, ApplyDefinition, f)
  {
    forall m, rest: Bytes
      ensures var c := DefinitionCases(f.number, SerializePayload(f.number, f.payload) + rest, m);
              c == Read(ApplyDefinition(f, m), rest) || (c == Unknown && ApplyDefinition(f, m) == m)
    {
      FieldIsRead(f, rest);
      if f.number == 3 {
        var nested :| IsEventTypeRecord(f.payload.bytes, nested);
        NestedEventTypeIsRead(f.payload.bytes, nested, rest, m);
      }
    }
  }

  lemma {:induction false} NestedEventTypeIsRead(bytes: Bytes, nested: seq<Field>, rest: Bytes, m: Definition)
    requires Fits(bytes) && IsEventTypeRecord(bytes, nested)
    ensures DefinitionCases(3, EncodeVarint(|bytes|) + bytes + rest, m)
            == Read(ApplyDefinition(Field(3, Delimited(bytes)), m), rest)
  {
    hide EncodeVarint, ReadUint32, ReadFields, EventTypeCases;
    LengthIsRead(bytes, rest);
    EventTypeReads(nested, rest, NO_EVENT_TYPE);
    EventTypeReads(nested, [], NO_EVENT_TYPE);
    assert bytes + [] == bytes;
  }

  /** The length of a nested record is read back, and the record follows it. */
  lemma {:induction false} LengthIsRead(bytes: Bytes, rest: Bytes)
    requires Fits(bytes)
    ensures ReadUint32(EncodeVarint(|bytes|) + bytes + rest) == Some((|bytes|, bytes + rest))
  {
    hide EncodeVarint, ReadUint32;
    Varint64RoundTrip(|bytes|, bytes + rest);
    assert EncodeVarint(|bytes|) + bytes + rest == EncodeVarint(|bytes|) + (bytes + rest);
  }

  lemma {:induction false} DefinitionReads(fields: seq<Field>, rest: Bytes, base: Definition)
    requires forall f :: f in fields ==> DefinitionField(f)
    ensures ReadFields(DefinitionCases, SerializeAll(fields) + rest, |rest|, base)
            == Some((FoldFields(ApplyDefinition, fields, base), rest))
  {
    forall f | f in fields ensures Handles(DefinitionCases, ApplyDefinition, f) {
      DefinitionHandled(f);
    }
    ReadsEveryField(DefinitionCases, ApplyDefinition, fields, rest, base);
  }

  lemma {:induction false} EventTypesStep(eventTypes: seq<EventType>)
    requires forall t :: t in eventTypes ==> NestedEventType(t)
    ensures EventTypesFields([]) == []
    ensures eventTypes != [] ==>
              var rest, last := eventTypes[..|eventTypes| - 1], eventTypes[|eventTypes| - 1];
              && eventTypes == rest + [last] && NestedEventType(last) && EncodableEventType(last)
              && (forall t :: t in rest ==> NestedEventType(t))
              && EventTypesFields(eventTypes) == EventTypesFields(rest) + [Field(3, Delimited(EncodedEventType(last)))]
  {
  }

  /** The record of an event type is one of a definition's and adds that event type. */
  lemma {:induction false} EventTypeRecordActs(t: EventType, m: Definition)
    requires NestedEventType(t) && EncodableEventType(t)
    ensures var f := Field(3, Delimited(EncodedEventType(t)));
            DefinitionField(f) && ApplyDefinition(f, m) == m.(eventTypes := m.eventTypes + [t])
  {
    hide ReadFields, EventTypeCases, EventTypeField;
    EventTypeFieldsAreSound(t, NO_EVENT_TYPE);
    assert IsEventTypeRecord(EncodedEventType(t), EventTypeFields(t));
    EventTypeDecodes(t, [], NO_EVENT_TYPE);
    assert EncodedEventType(t) + [] == EncodedEventType(t);
  }

  lemma {:induction false} EventTypesFold(eventTypes: seq<EventType>, base: Definition)
    requires forall t :: t in eventTypes ==> NestedEventType(t)
    ensures forall f :: f in EventTypesFields(eventTypes) ==> DefinitionField(f)
    ensures FoldFields(ApplyDefinition, EventTypesFields(eventTypes), base)
            == base.(eventTypes := base.eventTypes + eventTypes)
  {
    hide EventTypesFields, FoldFields, NestedEventType, EncodedEventType, DefinitionField, ApplyDefinition;
    EventTypesStep(eventTypes);
    if eventTypes == [] {
      assert base.eventTypes + [] == base.eventTypes;
      FoldOneMore(ApplyDefinition, [], Field(3, Varint(0)), base);
    } else {
      var rest, last := eventTypes[..|eventTypes| - 1], eventTypes[|eventTypes| - 1];
      EventTypesFold(rest, base);
      var f := Field(3, Delimited(EncodedEventType(last)));
      FoldOneMore(ApplyDefinition, EventTypesFields(rest), f, base);
      EventTypeRecordActs(last, FoldFields(ApplyDefinition, EventTypesFields(rest), base));
      assert base.eventTypes + eventTypes == base.eventTypes + rest + [last];
    }
  }

  lemma {:induction false} DefinitionFieldsAreSound(m: Definition, base: Definition)
    requires EncodableDefinition(m)
    ensures forall f :: f in DefinitionFields(m) ==> DefinitionField(f)
    ensures FoldFields(ApplyDefinition, DefinitionFields(m), base) == MergeDefinition(base, m)
  {
    var texts := TextField(1, m.identifier) + TextField(2, m.sourceEventStore);
    FoldAppend(ApplyDefinition, texts, EventTypesFields(m.eventTypes), base);
    FoldAppend(ApplyDefinition, TextField(1, m.identifier), TextField(2, m.sourceEventStore), base);
    var merged := base.(identifier := if m.identifier != [] then m.identifier else base.identifier,
                        sourceEventStore := if m.sourceEventStore != [] then m.sourceEventStore
                          else base.sourceEventStore);
    assert FoldFields(ApplyDefinition, texts, base) == merged;
    EventTypesFold(m.eventTypes, merged);
  }

  /** Decoding the encoding of a definition onto another gives their merge and consumes exactly its bytes. */
  lemma {:induction false} DefinitionDecodes(m: Definition, rest: Bytes, base: Definition)
    requires EncodableDefinition(m)
    ensures ReadFields(DefinitionCases, EncodedDefinition(m) + rest, |rest|, base)
            == Some((MergeDefinition(base, m), rest))
    ensures MergeDefinition(NO_DEFINITION, m) == m
  {
    DefinitionFieldsAreSound(m, base);
    DefinitionReads(DefinitionFields(m), rest, base);
    assert [] + m.eventTypes == m.eventTypes;
  }

  method EncodeDefinition(m: Definition, writer: BinaryWriter) returns (ok: bool)
    modifies writer
    ensures ok <==> EncodableDefinition(m)
    ensures ok ==> writer.bytes == old(writer.bytes) + EncodedDefinition(m) && writer.forks == old(writer.forks)
  {
    hide SerializeAll, TextField, EventTypesFields, EncodedEventType;
    ok := WriteText(writer, 10, m.identifier, 1);
    if !ok { return; }
    ok := WriteText(writer, 18, m.sourceEventStore, 2);
    if !ok { return; }
    ok := EncodeEventTypes(m.eventTypes, writer);
    if !ok { return; }
    SerializeAppend(TextField(1, m.identifier), TextField(2, m.sourceEventStore));
    SerializeAppend(TextField(1, m.identifier) + TextField(2, m.sourceEventStore), EventTypesFields(m.eventTypes));
  }

  /** Writes an event type as a nested record. */
  method EncodeNestedEventType(t: EventType, writer: BinaryWriter) returns (ok: bool)
    modifies writer
    ensures ok <==> NestedEventType(t)
    ensures ok ==>
            writer.bytes == old(writer.bytes) + SerializeAll([Field(3, Delimited(EncodedEventType(t)))])
            && writer.forks == old(writer.forks)
  {
    hide SerializeAll, EventTypeFields;
    ok := writer.Uint32(26);
    writer.Fork();
    ok := EncodeEventType(t, writer);
    if !ok { return; }
    assert writer.bytes == EncodedEventType(t);
    ok := writer.Join();
    NestedRecord(3, EncodedEventType(t));
  }

  method EncodeEventTypes(eventTypes: seq<EventType>, writer: BinaryWriter) returns (ok: bool)
    modifies writer
    ensures ok <==> forall t :: t in eventTypes ==> NestedEventType(t)
    ensures ok ==>
            writer.bytes == old(writer.bytes) + SerializeAll(EventTypesFields(eventTypes))
            && writer.forks == old(writer.forks)
  {
    NoFields();
    hide SerializeAll, EncodedEventType;
    ghost var base := writer.bytes;
    for i := 0 to |eventTypes|
      invariant forall t :: t in eventTypes[..i] ==> NestedEventType(t)
      invariant writer.bytes == base + SerializeAll(EventTypesFields(eventTypes[..i]))
                && writer.forks == old(writer.forks)
    {
      var t := eventTypes[i];
      assert t in eventTypes && eventTypes[..i + 1] == eventTypes[..i] + [t]
        && eventTypes[..i + 1][..i] == eventTypes[..i];
      ok := EncodeNestedEventType(t, writer);
      if !ok { return; }
      SerializeAppend(EventTypesFields(eventTypes[..i]), [Field(3, Delimited(EncodedEventType(t)))]);
    }
    assert eventTypes[..|eventTypes|] == eventTypes;
    ok := true;
  }

  lemma {:induction false} NoFields()
    ensures SerializeAll([]) == []
  {
  }

  lemma {:induction false} NestedRecord(number: nat, bytes: Bytes)
    ensures SerializeAll([Field(number, Delimited(bytes))])
            == EncodeVarint(8 * number + 2) + (EncodeVarint(|bytes|) + bytes)
  {
    OneField(Field(number, Delimited(bytes)));
  }

  method DecodeNestedEventType(reader: BinaryReader) returns (r: Option<EventType>)
    requires reader.Valid()
    modifies reader
    ensures reader.Valid()
    ensures r.Some? <==> ReadNestedEventType(old(reader.unread)).Some?
    ensures r.Some? ==>
            ReadNestedEventType(old(reader.unread)) == Some((r.value, reader.unread))
            && |reader.unread| <= |old(reader.unread)|
  {
    hide ReadFields, ReadUint32, EventTypeCases;
    var size := reader.Uint32();
    if size.None? { return None; }
    ReadingShrinks(EventTypeCases, reader.unread, |reader.unread| - size.value, NO_EVENT_TYPE);
    r := DecodeEventType(reader, size);
  }

  method DecodeDefinition(reader: BinaryReader, length: Option<nat>) returns (r: Option<Definition>)
    requires reader.Valid()
    modifies reader
    ensures reader.Valid()
    ensures var read := ReadFields(DefinitionCases, old(reader.unread), StopAt(old(reader.unread), length),
            NO_DEFINITION);
            && (r.Some? <==> read.Some?)
            && (r.Some? ==> read == Some((r.value, reader.unread)))
  {
    var end := if length.None? then reader.len else reader.Pos() + length.value;
    var message := NO_DEFINITION;
    ghost var stop := StopAt(reader.unread, length);
    ghost var read := ReadFields(DefinitionCases, reader.unread, stop, message);
    while reader.Pos() < end
      invariant reader.Valid() && (reader.Pos() < end <==> |reader.unread| > stop)
      invariant ReadFields(DefinitionCases, reader.unread, stop, message) == read
      decreases |reader.unread|
    {
      hide ReadFields, ReadUint32, ReadBytes, Skip, ReadNestedEventType;
      ReadStep(DefinitionCases, reader.unread, stop, message);
      var tag := reader.Uint32();
      if tag.None? { return None; }
      match tag.value / 8 {
        case 1 =>
          var text := reader.String();
          if text.None? { return None; }
          message := message.(identifier := text.value);
        case 2 =>
          var text := reader.String();
          if text.None? { return None; }
          message := message.(sourceEventStore := text.value);
        case 3 =>
          var t := DecodeNestedEventType(reader);
          if t.None? { return None; }
          message := message.(eventTypes := message.eventTypes + [t.value]);
        case _ =>
          if tag.value % 8 == 4 || tag.value == 0 {
            return Some(message);
          }
          var skipped := reader.SkipPayload(tag.value % 8);
          if !skipped { return None; }
      }
    }
    return Some(message);
  }

  lemma {:induction false} ReadingShrinks<M>(cases: Cases<M>, bytes: Bytes, stop: int, message: M)
    ensures ReadFields(cases, bytes, stop, message).Some? ==>
            |ReadFields(cases, bytes, stop, message).value.1| <= |bytes|
    decreases |bytes|
  {
    if |bytes| > stop && ReadUint32(bytes).Some? {
      Uint32Shrinks(bytes);
      var (tag, rest) := ReadUint32(bytes).value;
      match cases(tag / 8, rest, message)
      case Failed =>
      case Read(updated, after) =>
        if |after| <= |rest| {
          ReadingShrinks(cases, after, stop, updated);
        }
      case Unknown =>
        if !(tag % 8 == 4 || tag == 0) && Skip(tag % 8, rest).Some? {
          ReadingShrinks(cases, Skip(tag % 8, rest).value, stop, message);
        }
    }
  }
}
