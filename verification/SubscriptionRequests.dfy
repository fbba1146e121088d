/** The outer messages of event store subscriptions, over the nested definitions. */
module SubscriptionRequests {
  import opened Wrappers
  import opened ProtobufWire
  import opened ProtobufStreams
  import opened SubscriptionContracts

  // ----- nested definitions, under any field number -----

  predicate NestedDefinition(d: Definition) {
    EncodableDefinition(d) && Fits(EncodedDefinition(d))
  }

  function DefinitionsFields(number: nat, definitions: seq<Definition>): seq<Field>
    requires forall d :: d in definitions ==> NestedDefinition(d)
  {
    if definitions == [] then []
    else
      var last := definitions[|definitions| - 1];
      assert last in definitions && NestedDefinition(last);
      DefinitionsFields(number, definitions[..|definitions| - 1]) + [Field(number, Delimited(EncodedDefinition(last)))]
  }

  /** What a decoder does with a nested definition: reads it within its length. */
  function ReadNestedDefinition(bytes: Bytes): Option<(Definition, Bytes)> {
    match ReadUint32(bytes)
    case None => None
    case Some((length, rest)) => ReadFields(DefinitionCases, rest, |rest| - length, NO_DEFINITION)
  }

  ghost predicate IsDefinitionRecord(bytes: Bytes, nested: seq<Field>) {
    bytes == SerializeAll(nested) && forall g :: g in nested ==> DefinitionField(g)
  }

  /** A nested definition's payload: any records a definition may hold. */
  ghost predicate DefinitionPayload(payload: Payload) {
    payload.Delimited? && exists nested :: IsDefinitionRecord(payload.bytes, nested)
  }

  function DefinitionOf(bytes: Bytes): Definition {
    match ReadFields(DefinitionCases, bytes, 0, NO_DEFINITION)
    case None => NO_DEFINITION
    case Some((d, _)) => d
  }

  lemma {:induction false} NestedDefinitionIsRead(bytes: Bytes, rest: Bytes)
    requires Fits(bytes) && DefinitionPayload(Delimited(bytes))
    ensures ReadNestedDefinition(EncodeVarint(|bytes|) + bytes + rest) == Some((DefinitionOf(bytes), rest))
  {
    hide EncodeVarint, ReadUint32, ReadFields, DefinitionCases, DefinitionField;
    var nested :| IsDefinitionRecord(bytes, nested);
    LengthIsRead(bytes, rest);
    DefinitionReads(nested, rest, NO_DEFINITION);
    DefinitionReads(nested, [], NO_DEFINITION);
    assert bytes + [] == bytes;
  }

  lemma {:induction false} EncodedDefinitionIsPayload(d: Definition)
    requires NestedDefinition(d)
    ensures DefinitionPayload(Delimited(EncodedDefinition(d))) && DefinitionOf(EncodedDefinition(d)) == d
  {
    hide ReadFields, DefinitionCases, DefinitionField;
    DefinitionFieldsAreSound(d, NO_DEFINITION);
    assert IsDefinitionRecord(EncodedDefinition(d), DefinitionFields(d));
    DefinitionDecodes(d, [], NO_DEFINITION);
    assert EncodedDefinition(d) + [] == EncodedDefinition(d);
  }

  lemma {:induction false} DefinitionsStep(number: nat, definitions: seq<Definition>)
    requires forall d :: d in definitions ==> NestedDefinition(d)
    ensures DefinitionsFields(number, []) == []
    ensures definitions != [] ==>
              var rest, last := definitions[..|definitions| - 1], definitions[|definitions| - 1];
              && definitions == rest + [last] && NestedDefinition(last) && EncodableDefinition(last)
                 && Fits(EncodedDefinition(last))
              && (forall d :: d in rest ==> NestedDefinition(d))
              && DefinitionsFields(number, definitions)
                 == DefinitionsFields(number, rest) + [Field(number, Delimited(EncodedDefinition(last)))]
  {
  }

  /** Writes a definition as a nested record under its tag. */
  method EncodeNestedDefinition(d: Definition, writer: BinaryWriter, tag: nat, ghost number: nat) returns (ok: bool)
    requires tag == 8 * number + 2 && tag < TWO_TO_THE_32
    modifies writer
    ensures ok <==> NestedDefinition(d)
    ensures ok ==>
            writer.bytes == old(writer.bytes) + SerializeAll([Field(number, Delimited(EncodedDefinition(d)))])
            && writer.forks == old(writer.forks)
  {
    hide SerializeAll, DefinitionFields;
    ok := writer.Uint32(tag);
    writer.Fork();
    ok := EncodeDefinition(d, writer);
    if !ok { return; }
    assert writer.bytes == EncodedDefinition(d);
    ok := writer.Join();
    NestedRecord(number, EncodedDefinition(d));
  }

  method EncodeDefinitions(definitions: seq<Definition>, writer: BinaryWriter, tag: nat, ghost number: nat)
    returns (ok: bool)
    requires tag == 8 * number + 2 && tag < TWO_TO_THE_32
    modifies writer
    ensures ok <==> forall d :: d in definitions ==> NestedDefinition(d)
    ensures ok ==>
            writer.bytes == old(writer.bytes) + SerializeAll(DefinitionsFields(number, definitions))
            && writer.forks == old(writer.forks)
  {
    NoFields();
    hide SerializeAll, EncodedDefinition, EncodableDefinition;
    ghost var base := writer.bytes;
    for i := 0 to |definitions|
      invariant forall d :: d in definitions[..i] ==> NestedDefinition(d)
      invariant writer.bytes == base + SerializeAll(DefinitionsFields(number, definitions[..i]))
                && writer.forks == old(writer.forks)
    {
      var d := definitions[i];
      assert d in definitions && definitions[..i + 1] == definitions[..i] + [d]
        && definitions[..i + 1][..i] == definitions[..i];
      ok := EncodeNestedDefinition(d, writer, tag, number);
      if !ok { return; }
      SerializeAppend(DefinitionsFields(number, definitions[..i]), [Field(number, Delimited(EncodedDefinition(d)))]);
    }
    assert definitions[..|definitions|] == definitions;
    ok := true;
  }

  /** Reads a nested definition. */
  method DecodeNestedDefinition(reader: BinaryReader) returns (r: Option<Definition>)
    requires reader.Valid()
    modifies reader
    ensures reader.Valid()
    ensures r.Some? <==> ReadNestedDefinition(old(reader.unread)).Some?
    ensures r.Some? ==>
            ReadNestedDefinition(old(reader.unread)) == Some((r.value, reader.unread))
            && |reader.unread| <= |old(reader.unread)|
  {
    hide ReadFields, ReadUint32, DefinitionCases;
    var size := reader.Uint32();
    if size.None? { return None; }
    ReadingShrinks(DefinitionCases, reader.unread, |reader.unread| - size.value, NO_DEFINITION);
    r := DecodeDefinition(reader, size);
  }

  // ----- adding subscriptions -----

  predicate EncodableAdditions(m: AddSubscriptions) {
    Fits(m.targetEventStore) && forall d :: d in m.subscriptions ==> NestedDefinition(d)
  }

  function AdditionsFields(m: AddSubscriptions): seq<Field>
    requires EncodableAdditions(m)
  {
    TextField(1, m.targetEventStore) + DefinitionsFields(2, m.subscriptions)
  }

  function EncodedAdditions(m: AddSubscriptions): Bytes
    requires EncodableAdditions(m)
  {
    SerializeAll(AdditionsFields(m))
  }

  function AdditionsCases(number: nat, bytes: Bytes, m: AddSubscriptions): Case<AddSubscriptions> {
    if number == 1 then (match ReadBytes(bytes) case None => Failed case Some((text, rest)) =>
      Read(m.(targetEventStore := text), rest))
    else if number == 2 then
      match ReadNestedDefinition(bytes)
      case None => Failed
      case Some((d, rest)) => Read(m.(subscriptions := m.subscriptions + [d]), rest)
    else Unknown
  }

  ghost predicate AdditionsField(f: Field) {
    WellFormed(f) && (f.number == 1 ==> f.payload.Delimited?) && (f.number == 2 ==> DefinitionPayload(f.payload))
  }

  function ApplyAdditions(f: Field, m: AddSubscriptions): AddSubscriptions {
    if !f.payload.Delimited? then m
    else if f.number == 1 then m.(targetEventStore := f.payload.bytes)
    else if f.number == 2 then m.(subscriptions := m.subscriptions + [DefinitionOf(f.payload.bytes)])
    else m
  }

  function MergeAdditions(a: AddSubscriptions, b: AddSubscriptions): AddSubscriptions {
    AddSubscriptions(if b.targetEventStore != [] then b.targetEventStore else a.targetEventStore,
      a.subscriptions + b.subscriptions)
  }

  lemma {:induction false} AdditionsHandled(f: Field)
    requires AdditionsField(f)
    ensures Handles(AdditionsCases, ApplyAdditions, f)
  {
    hide ReadNestedDefinition, DefinitionOf, EncodeVarint, ReadBytes, DefinitionPayload;
    forall m, rest: Bytes
      ensures var c := AdditionsCases(f.number, SerializePayload(f.number, f.payload) + rest, m);
              c == Read(ApplyAdditions(f, m), rest) || (c == Unknown && ApplyAdditions(f, m) == m)
    {
      FieldIsRead(f, rest);
      if f.number == 2 {
        PayloadIsDelimited(f.payload);
        NestedDefinitionIsRead(f.payload.bytes, rest);
      }
    }
  }

  lemma {:induction false} PayloadIsDelimited(payload: Payload)
    requires DefinitionPayload(payload)
    ensures payload.Delimited?
  {
  }

  /** Any records the message may hold decode to what they add up to, to the byte. */
  lemma {:induction false} AdditionsRead(fields: seq<Field>, rest: Bytes, base: AddSubscriptions)
    requires forall f :: f in fields ==> AdditionsField(f)
    ensures ReadFields(AdditionsCases, SerializeAll(fields) + rest, |rest|, base)
            == Some((FoldFields(ApplyAdditions, fields, base), rest))
  {
    hide ReadFields, AdditionsField;
    forall f | f in fields ensures Handles(AdditionsCases, ApplyAdditions, f) && WellFormed(f) {
      AdditionsHandled(f);
      AdditionsFieldIsWellFormed(f);
    }
    ReadsEveryField(AdditionsCases, ApplyAdditions, fields, rest, base);
  }

  lemma {:induction false} AdditionsFieldIsWellFormed(f: Field)
    requires AdditionsField(f)
    ensures WellFormed(f)
  {
  }

  lemma {:induction false} AdditionsFold(definitions: seq<Definition>, base: AddSubscriptions)
    requires forall d :: d in definitions ==> NestedDefinition(d)
    ensures forall f :: f in DefinitionsFields(2, definitions) ==> AdditionsField(f)
    ensures FoldFields(ApplyAdditions, DefinitionsFields(2, definitions), base)
            == base.(subscriptions := base.subscriptions + definitions)
  {
    hide DefinitionsFields, FoldFields, NestedDefinition, EncodedDefinition, DefinitionOf, DefinitionPayload;
    DefinitionsStep(2, definitions);
    if definitions == [] {
      assert base.subscriptions + [] == base.subscriptions;
      FoldOneMore(ApplyAdditions, [], Field(2, Varint(0)), base);
    } else {
      var rest, last := definitions[..|definitions| - 1], definitions[|definitions| - 1];
      AdditionsFold(rest, base);
      EncodedDefinitionIsPayload(last);
      FoldOneMore(ApplyAdditions, DefinitionsFields(2, rest), Field(2, Delimited(EncodedDefinition(last))), base);
      assert base.subscriptions + definitions == base.subscriptions + rest + [last];
    }
  }

  lemma {:induction false} AdditionsFieldsAreSound(m: AddSubscriptions, base: AddSubscriptions)
    requires EncodableAdditions(m)
    ensures forall f :: f in AdditionsFields(m) ==> AdditionsField(f)
    ensures FoldFields(ApplyAdditions, AdditionsFields(m), base) == MergeAdditions(base, m)
  {
    hide EncodedDefinition, EncodableDefinition, DefinitionOf, DefinitionPayload, DefinitionsFields;
    FoldAppend(ApplyAdditions, TextField(1, m.targetEventStore), DefinitionsFields(2, m.subscriptions), base);
    var merged := base.(targetEventStore := if m.targetEventStore != [] then m.targetEventStore
      else base.targetEventStore);
    assert FoldFields(ApplyAdditions, TextField(1, m.targetEventStore), base) == merged;
    AdditionsFold(m.subscriptions, merged);
  }

  /** Decoding an encoding onto a message merges it in and consumes exactly its bytes. */
  lemma {:induction false} AdditionsDecode(m: AddSubscriptions, rest: Bytes, base: AddSubscriptions)
    requires EncodableAdditions(m)
    ensures ReadFields(AdditionsCases, EncodedAdditions(m) + rest, |rest|, base)
            == Some((MergeAdditions(base, m), rest))
    ensures MergeAdditions(NO_ADDITIONS, m) == m
  {
    hide ReadFields, AdditionsFields;
    AdditionsFieldsAreSound(m, base);
    AdditionsRead(AdditionsFields(m), rest, base);
    assert [] + m.subscriptions == m.subscriptions;
  }

  /** Round trip: the encoding of a message decodes to that message at every level of nesting. */
  lemma {:induction false} AdditionsRoundTrip(m: AddSubscriptions)
    requires EncodableAdditions(m)
    ensures ReadFields(AdditionsCases, EncodedAdditions(m), 0, NO_ADDITIONS) == Some((m, []))
  {
    hide ReadFields, EncodedAdditions;
    AdditionsDecode(m, [], NO_ADDITIONS);
    assert EncodedAdditions(m) + [] == EncodedAdditions(m);
  }

  /** Two encodings in a row decode to the merge of their messages: the last text that is not empty, and both lists. */
  lemma {:induction false} ConcatenationMerges(a: AddSubscriptions, b: AddSubscriptions)
    requires EncodableAdditions(a) && EncodableAdditions(b)
    ensures ReadFields(AdditionsCases, EncodedAdditions(a) + EncodedAdditions(b), 0, NO_ADDITIONS)
            == Some((MergeAdditions(a, b), []))
  {
    hide ReadFields, AdditionsFields;
    AdditionsFieldsAreSound(a, NO_ADDITIONS);
    AdditionsFieldsAreSound(b, MergeAdditions(NO_ADDITIONS, a));
    AdditionsRead(AdditionsFields(a) + AdditionsFields(b), [], NO_ADDITIONS);
    SerializeAppend(AdditionsFields(a), AdditionsFields(b));
    FoldAppend(ApplyAdditions, AdditionsFields(a), AdditionsFields(b), NO_ADDITIONS);
    var bytes := EncodedAdditions(a) + EncodedAdditions(b);
    assert bytes + [] == bytes;
    assert [] + a.subscriptions == a.subscriptions;
  }

  method EncodeAdditions(m: AddSubscriptions, writer: BinaryWriter) returns (ok: bool)
    modifies writer
    ensures ok <==> EncodableAdditions(m)
    ensures ok ==> writer.bytes == old(writer.bytes) + EncodedAdditions(m) && writer.forks == old(writer.forks)
  {
    hide SerializeAll, TextField, DefinitionsFields, NestedDefinition;
    ok := WriteText(writer, 10, m.targetEventStore, 1);
    if !ok { return; }
    ok := EncodeDefinitions(m.subscriptions, writer, 18, 2);
    if !ok { return; }
    SerializeAppend(TextField(1, m.targetEventStore), DefinitionsFields(2, m.subscriptions));
  }

  method DecodeAdditions(reader: BinaryReader, length: Option<nat>) returns (r: Option<AddSubscriptions>)
    requires reader.Valid()
    modifies reader
    ensures reader.Valid()
    ensures var read := ReadFields(AdditionsCases, old(reader.unread), StopAt(old(reader.unread), length),
            NO_ADDITIONS);
            && (r.Some? <==> read.Some?)
            && (r.Some? ==> read == Some((r.value, reader.unread)))
  {
    var end := if length.None? then reader.len else reader.Pos() + length.value;
    var message := NO_ADDITIONS;
    ghost var stop := StopAt(reader.unread, length);
    ghost var read := ReadFields(AdditionsCases, reader.unread, stop, message);
    while reader.Pos() < end
      invariant reader.Valid() && (reader.Pos() < end <==> |reader.unread| > stop)
      invariant ReadFields(AdditionsCases, reader.unread, stop, message) == read
      decreases |reader.unread|
    {
      hide ReadFields, ReadUint32, ReadBytes, Skip, ReadNestedDefinition;
      ReadStep(AdditionsCases, reader.unread, stop, message);
      var tag := reader.Uint32();
      if tag.None? { return None; }
      match tag.value / 8 {
        case 1 =>
          var text := reader.String();
          if text.None? { return None; }
          message := message.(targetEventStore := text.value);
        case 2 =>
          var d := DecodeNestedDefinition(reader);
          if d.None? { return None; }
          message := message.(subscriptions := message.subscriptions + [d.value]);
        case _ =>
          if tag.value % 8 == 4 || tag.value == 0 {
            return Some(message);
          }
          var skipped := reader.SkipPayload(tag.value % 8);
          if !skipped { return None; }
      }
    }
    return Some(message);
  }

  // ----- listing subscriptions -----

  function ListingCases(number: nat, bytes: Bytes, m: seq<Definition>): Case<seq<Definition>> {
    if number == 1 then
      match ReadNestedDefinition(bytes)
      case None => Failed
      case Some((d, rest)) => Read(m + [d], rest)
    else Unknown
  }

  ghost predicate ListingField(f: Field) {
    WellFormed(f) && (f.number == 1 ==> DefinitionPayload(f.payload))
  }

  function ApplyListing(f: Field, m: seq<Definition>): seq<Definition> {
    if f.number == 1 && f.payload.Delimited? then m + [DefinitionOf(f.payload.bytes)] else m
  }

  lemma {:induction false} ListingHandled(f: Field)
    requires ListingField(f)
    ensures Handles(ListingCases, ApplyListing, f)
  {
    hide ReadNestedDefinition, DefinitionOf, EncodeVarint, DefinitionPayload;
    forall m, rest: Bytes
      ensures var c := ListingCases(f.number, SerializePayload(f.number, f.payload) + rest, m);
              c == Read(ApplyListing(f, m), rest) || (c == Unknown && ApplyListing(f, m) == m)
    {
      if f.number == 1 {
        PayloadIsDelimited(f.payload);
        NestedDefinitionIsRead(f.payload.bytes, rest);
      }
    }
  }

  lemma {:induction false} ListingFold(definitions: seq<Definition>, base: seq<Definition>)
    requires forall d :: d in definitions ==> NestedDefinition(d)
    ensures forall f :: f in DefinitionsFields(1, definitions) ==> ListingField(f)
    ensures FoldFields(ApplyListing, DefinitionsFields(1, definitions), base) == base + definitions
  {
    hide DefinitionsFields, FoldFields, NestedDefinition, EncodedDefinition, DefinitionOf, DefinitionPayload;
    DefinitionsStep(1, definitions);
    if definitions == [] {
      assert base + [] == base;
      FoldOneMore(ApplyListing, [], Field(1, Varint(0)), base);
    } else {
      var rest, last := definitions[..|definitions| - 1], definitions[|definitions| - 1];
      ListingFold(rest, base);
      EncodedDefinitionIsPayload(last);
      FoldOneMore(ApplyListing, DefinitionsFields(1, rest), Field(1, Delimited(EncodedDefinition(last))), base);
      assert base + definitions == base + rest + [last];
    }
  }

  /** A listing of any length decodes to itself, after whatever was read before, and consumes exactly its bytes. */
  lemma {:induction false} ListingDecodes(definitions: seq<Definition>, rest: Bytes, base: seq<Definition>)
    requires forall d :: d in definitions ==> NestedDefinition(d)
    ensures ReadFields(ListingCases, SerializeAll(DefinitionsFields(1, definitions)) + rest, |rest|, base)
            == Some((base + definitions, rest))
  {
    ListingFold(definitions, base);
    var fields := DefinitionsFields(1, definitions);
    hide ReadFields, DefinitionsFields, DefinitionPayload;
    forall f | f in fields ensures Handles(ListingCases, ApplyListing, f) {
      ListingHandled(f);
    }
    ReadsEveryField(ListingCases, ApplyListing, fields, rest, base);
  }

  method DecodeListing(reader: BinaryReader, length: Option<nat>) returns (r: Option<seq<Definition>>)
    requires reader.Valid()
    modifies reader
    ensures reader.Valid()
    ensures var read := ReadFields(ListingCases, old(reader.unread), StopAt(old(reader.unread), length), []);
            && (r.Some? <==> read.Some?)
            && (r.Some? ==> read == Some((r.value, reader.unread)))
  {
    var end := if length.None? then reader.len else reader.Pos() + length.value;
    var items: seq<Definition> := [];
    ghost var stop := StopAt(reader.unread, length);
    ghost var read := ReadFields(ListingCases, reader.unread, stop, items);
    while reader.Pos() < end
      invariant reader.Valid() && (reader.Pos() < end <==> |reader.unread| > stop)
      invariant ReadFields(ListingCases, reader.unread, stop, items) == read
      decreases |reader.unread|
    {
      hide ReadFields, ReadUint32, Skip, ReadNestedDefinition;
      ReadStep(ListingCases, reader.unread, stop, items);
      var tag := reader.Uint32();
      if tag.None? { return None; }
      if tag.value / 8 == 1 {
        var d := DecodeNestedDefinition(reader);
        if d.None? { return None; }
        items := items + [d.value];
        continue;
      }
      if tag.value % 8 == 4 || tag.value == 0 {
        return Some(items);
      }
      var skipped := reader.SkipPayload(tag.value % 8);
      if !skipped { return None; }
    }
    return Some(items);
  }

  // ----- removing subscriptions -----

  function IdsFields(ids: seq<Bytes>): seq<Field> {
    if ids == [] then [] else IdsFields(ids[..|ids| - 1]) + [Field(2, Delimited(ids[|ids| - 1]))]
  }

  predicate EncodableRemovals(m: RemoveSubscriptions) {
    Fits(m.targetEventStore) && forall id :: id in m.subscriptionIds ==> Fits(id)
  }

  function RemovalsFields(m: RemoveSubscriptions): seq<Field> {
    TextField(1, m.targetEventStore) + IdsFields(m.subscriptionIds)
  }

  function RemovalsCases(number: nat, bytes: Bytes, m: RemoveSubscriptions): Case<RemoveSubscriptions> {
    if number == 1 then (match ReadBytes(bytes) case None => Failed case Some((text, rest)) =>
      Read(m.(targetEventStore := text), rest))
    else if number == 2 then
      (match ReadBytes(bytes) case None => Failed case Some((text, rest)) =>
        Read(m.(subscriptionIds := m.subscriptionIds + [text]), rest))
    else Unknown
  }

  predicate RemovalsField(f: Field) {
    WellFormed(f) && (1 <= f.number <= 2 ==> f.payload.Delimited?)
  }

  function ApplyRemovals(f: Field, m: RemoveSubscriptions): RemoveSubscriptions {
    if !f.payload.Delimited? then m
    else if f.number == 1 then m.(targetEventStore := f.payload.bytes)
    else if f.number == 2 then m.(subscriptionIds := m.subscriptionIds + [f.payload.bytes])
    else m
  }

  lemma {:induction false} RemovalsHandled(f: Field)
    requires RemovalsField(f)
    ensures Handles(RemovalsCases, ApplyRemovals, f)
  {
    forall m, rest: Bytes
      ensures var c := RemovalsCases(f.number, SerializePayload(f.number, f.payload) + rest, m);
              c == Read(ApplyRemovals(f, m), rest) || (c == Unknown && ApplyRemovals(f, m) == m)
    {
      FieldIsRead(f, rest);
    }
  }

  lemma {:induction false} IdsFold(ids: seq<Bytes>, base: RemoveSubscriptions)
    requires forall id :: id in ids ==> Fits(id)
    ensures forall f :: f in IdsFields(ids) ==> RemovalsField(f)
    ensures FoldFields(ApplyRemovals, IdsFields(ids), base) == base.(subscriptionIds := base.subscriptionIds + ids)
  {
    if ids == [] {
      assert base.subscriptionIds + [] == base.subscriptionIds;
    } else {
      var rest, last := ids[..|ids| - 1], ids[|ids| - 1];
      assert last in ids && ids == rest + [last];
      IdsFold(rest, base);
      var f := Field(2, Delimited(last));
      FoldAppend(ApplyRemovals, IdsFields(rest), [f], base);
      var middle := FoldFields(ApplyRemovals, IdsFields(rest), base);
      assert [f][1..] == [];
      assert FoldFields(ApplyRemovals, [f], middle) == ApplyRemovals(f, middle);
      assert base.subscriptionIds + ids == base.subscriptionIds + rest + [last];
    }
  }

  /** A removal decodes onto another message as their merge; ids may be empty texts, which are written all the same. */
  lemma {:induction false} RemovalsDecode(m: RemoveSubscriptions, rest: Bytes, base: RemoveSubscriptions)
    requires EncodableRemovals(m)
    ensures ReadFields(RemovalsCases, SerializeAll(RemovalsFields(m)) + rest, |rest|, base)
            == Some((RemoveSubscriptions(if m.targetEventStore != [] then m.targetEventStore else base.targetEventStore,
                                         base.subscriptionIds + m.subscriptionIds), rest))
  {
    FoldAppend(ApplyRemovals, TextField(1, m.targetEventStore), IdsFields(m.subscriptionIds), base);
    var merged := base.(targetEventStore := if m.targetEventStore != [] then m.targetEventStore
      else base.targetEventStore);
    assert FoldFields(ApplyRemovals, TextField(1, m.targetEventStore), base) == merged;
    IdsFold(m.subscriptionIds, merged);
    var fields := RemovalsFields(m);
    hide ReadFields;
    forall f | f in fields ensures Handles(RemovalsCases, ApplyRemovals, f) && WellFormed(f) {
      RemovalsHandled(f);
    }
    ReadsEveryField(RemovalsCases, ApplyRemovals, fields, rest, base);
  }

  /** Writes an id as a record of its own; an empty id is written too. */
  method WriteId(id: Bytes, writer: BinaryWriter) returns (ok: bool)
    modifies writer
    ensures ok <==> Fits(id)
    ensures ok ==>
            writer.bytes == old(writer.bytes) + SerializeAll([Field(2, Delimited(id))])
            && writer.forks == old(writer.forks)
  {
    hide SerializeAll;
    ok := writer.Uint32(18);
    ok := writer.String(id);
    NestedRecord(2, id);
  }

  method EncodeIds(ids: seq<Bytes>, writer: BinaryWriter) returns (ok: bool)
    modifies writer
    ensures ok <==> forall id :: id in ids ==> Fits(id)
    ensures ok ==> writer.bytes == old(writer.bytes) + SerializeAll(IdsFields(ids)) && writer.forks == old(writer.forks)
  {
    NoFields();
    hide SerializeAll;
    ghost var base := writer.bytes;
    for i := 0 to |ids|
      invariant forall id :: id in ids[..i] ==> Fits(id)
      invariant writer.bytes == base + SerializeAll(IdsFields(ids[..i])) && writer.forks == old(writer.forks)
    {
      var id := ids[i];
      assert id in ids && ids[..i + 1] == ids[..i] + [id] && ids[..i + 1][..i] == ids[..i];
      ok := WriteId(id, writer);
      if !ok { return; }
      SerializeAppend(IdsFields(ids[..i]), [Field(2, Delimited(id))]);
    }
    assert ids[..|ids|] == ids;
    ok := true;
  }

  method EncodeRemovals(m: RemoveSubscriptions, writer: BinaryWriter) returns (ok: bool)
    modifies writer
    ensures ok <==> EncodableRemovals(m)
    ensures ok ==>
            writer.bytes == old(writer.bytes) + SerializeAll(RemovalsFields(m)) && writer.forks == old(writer.forks)
  {
    hide SerializeAll, TextField, IdsFields;
    ok := WriteText(writer, 10, m.targetEventStore, 1);
    if !ok { return; }
    ok := EncodeIds(m.subscriptionIds, writer);
    if !ok { return; }
    SerializeAppend(TextField(1, m.targetEventStore), IdsFields(m.subscriptionIds));
  }

  method DecodeRemovals(reader: BinaryReader, length: Option<nat>) returns (r: Option<RemoveSubscriptions>)
    requires reader.Valid()
    modifies reader
    ensures reader.Valid()
    ensures var read := ReadFields(RemovalsCases, old(reader.unread), StopAt(old(reader.unread), length), NO_REMOVALS);
            && (r.Some? <==> read.Some?)
            && (r.Some? ==> read == Some((r.value, reader.unread)))
  {
    var end := if length.None? then reader.len else reader.Pos() + length.value;
    var message := NO_REMOVALS;
    ghost var stop := StopAt(reader.unread, length);
    ghost var read := ReadFields(RemovalsCases, reader.unread, stop, message);
    while reader.Pos() < end
      invariant reader.Valid() && (reader.Pos() < end <==> |reader.unread| > stop)
      invariant ReadFields(RemovalsCases, reader.unread, stop, message) == read
      decreases |reader.unread|
    {
      hide ReadFields, ReadUint32, ReadBytes, Skip;
      ReadStep(RemovalsCases, reader.unread, stop, message);
      var tag := reader.Uint32();
      if tag.None? { return None; }
      match tag.value / 8 {
        case 1 =>
          var text := reader.String();
          if text.None? { return None; }
          message := message.(targetEventStore := text.value);
        case 2 =>
          var text := reader.String();
          if text.None? { return None; }
          message := message.(subscriptionIds := message.subscriptionIds + [text.value]);
        case _ =>
          if tag.value % 8 == 4 || tag.value == 0 {
            return Some(message);
          }
          var skipped := reader.SkipPayload(tag.value % 8);
          if !skipped { return None; }
      }
    }
    return Some(message);
  }
}
