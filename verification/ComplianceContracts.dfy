/**
 * The flat messages of the compliance service: texts and flags numbered from one. One codec covers them all, given
 * which fields a message has.
 */
module ComplianceContracts {
  import opened Wrappers
  import opened ProtobufWire
  import opened ProtobufStreams
  import opened SubscriptionContracts

  datatype Kind = Text | Flag

  datatype Value = TextValue(text: Bytes) | FlagValue(flag: bool)

  type Schema = seq<Kind>

  datatype MessageKind =
    | ReleaseRequest
    | ReleaseResponse
    | DeleteEncryptionKeyRequest
    | AllowNewEncryptionKeyRequest
    | Empty

  function SchemaOf(kind: MessageKind): Schema {
    match kind
    case ReleaseRequest => [Text, Text, Text, Text, Text]
    case ReleaseResponse => [Text, Flag, Text]
    case DeleteEncryptionKeyRequest => [Text, Text, Text]
    case AllowNewEncryptionKeyRequest => [Text, Text, Text]
    case Empty => []
  }

  /** A message of a schema: one value of the right kind per field. */
  predicate Conforms(schema: Schema, m: seq<Value>) {
    |m| == |schema| && forall i :: 0 <= i < |m| ==> (schema[i].Text? <==> m[i].TextValue?)
  }

  /** A message conforms when it has a text for each text field and a flag for each flag, and nothing else. */
  lemma {:induction false} ConformsByField(schema: Schema, m: seq<Value>, kind: Kind, text: Bytes, flag: bool)
    ensures Conforms([], [])
    ensures Conforms(schema, m) ==>
              Conforms(schema + [kind], m + [if kind == Text then TextValue(text) else FlagValue(flag)])
    ensures |m| == |schema| ==>
              !Conforms(schema + [kind], m + [if kind == Text then FlagValue(flag) else TextValue(text)])
  {
    var wrong := m + [if kind == Text then FlagValue(flag) else TextValue(text)];
    assert |m| == |schema| ==> wrong[|m|].TextValue? != (schema + [kind])[|m|].Text?;
  }

  function DefaultOf(kind: Kind): Value {
    if kind.Text? then TextValue([]) else FlagValue(false)
  }

  function Defaults(schema: Schema): seq<Value> {
    seq(|schema|, i requires 0 <= i < |schema| => DefaultOf(schema[i]))
  }

  function ValueField(number: nat, v: Value): seq<Field> {
    match v
    case TextValue(text) => TextField(number, text)
    case FlagValue(flag) => FlagField(number, flag)
  }

  function FlatFields(m: seq<Value>): seq<Field> {
    if m == [] then [] else FlatFields(m[..|m| - 1]) + ValueField(|m|, m[|m| - 1])
  }

  predicate EncodableValue(v: Value) {
    v.TextValue? ==> Fits(v.text)
  }

  function FlatCases(schema: Schema): Cases<seq<Value>> {
    (number: nat, bytes: Bytes, m: seq<Value>) =>
      if number == 0 || number > |schema| || |m| != |schema| then Unknown
      else if schema[number - 1].Text? then
        (match ReadBytes(bytes) case None => Failed case Some((text, rest)) =>
          Read(m[number - 1 := TextValue(text)], rest))
      else
        (match ReadBool(bytes) case None => Failed case Some((flag, rest)) =>
          Read(m[number - 1 := FlagValue(flag)], rest))
  }

  predicate FlatField(schema: Schema, f: Field) {
    && WellFormed(f) && |schema| < 0x2000_0000
    && (f.number <= |schema| ==> if schema[f.number - 1].Text? then f.payload.Delimited? else f.payload.Varint?)
  }

  function ApplyFlat(schema: Schema): (Field, seq<Value>) -> seq<Value> {
    (f: Field, m: seq<Value>) =>
      if f.number == 0 || f.number > |schema| || |m| != |schema| then m
      else if schema[f.number - 1].Text? && f.payload.Delimited? then m[f.number - 1 := TextValue(f.payload.bytes)]
      else if schema[f.number - 1].Flag? && f.payload.Varint? then m[f.number - 1 := FlagValue(f.payload.value != 0)]
      else m
  }

  function MergeValue(a: Value, b: Value): Value {
    if b == TextValue([]) || b == FlagValue(false) then a else b
  }

  function MergeFlat(a: seq<Value>, b: seq<Value>): seq<Value>
    requires |a| == |b|
  {
    seq(|a|, i requires 0 <= i < |a| => MergeValue(a[i], b[i]))
  }

  lemma {:induction false} FlatHandled(schema: Schema, f: Field)
    requires FlatField(schema, f)
    ensures Handles(FlatCases(schema), ApplyFlat(schema), f)
  {
    forall m, rest: Bytes
      ensures var c := FlatCases(schema)(f.number, SerializePayload(f.number, f.payload) + rest, m);
              c == Read(ApplyFlat(schema)(f, m), rest) || (c == Unknown && ApplyFlat(schema)(f, m) == m)
    {
      FieldIsRead(f, rest);
    }
  }

  /** The records of the first n values merge those values in and leave the others alone. */
  lemma {:induction false} FlatFold(schema: Schema, m: seq<Value>, base: seq<Value>, n: nat)
    requires |schema| < 0x2000_0000 && Conforms(schema, m) && Conforms(schema, base) && n <= |m|
    requires forall i :: 0 <= i < |m| ==> EncodableValue(m[i])
    ensures forall f :: f in FlatFields(m[..n]) ==> FlatField(schema, f)
    ensures FoldFields(ApplyFlat(schema), FlatFields(m[..n]), base) == MergeFlat(base, m)[..n] + base[n..]
  {
    if n == 0 {
      assert MergeFlat(base, m)[..0] + base[0..] == base;
    } else {
      assert m[..n][..n - 1] == m[..n - 1] && m[..n][n - 1] == m[n - 1];
      var earlier, own := FlatFields(m[..n - 1]), ValueField(n, m[n - 1]);
      assert FlatFields(m[..n]) == earlier + own;
      hide FlatFields, ValueField, FlatField, ApplyFlat, FoldFields, EncodableValue;
      FlatFold(schema, m, base, n - 1);
      FoldAppend(ApplyFlat(schema), earlier, own, base);
      OneValueFolds(schema, n, m[n - 1], MergeFlat(base, m)[..n - 1] + base[n - 1..]);
      NextIsMerged(MergeFlat(base, m), base, n, MergeValue(base[n - 1], m[n - 1]));
    }
  }

  lemma {:induction false} NextIsMerged(merged: seq<Value>, base: seq<Value>, n: nat, v: Value)
    requires 0 < n <= |merged| == |base| && merged[n - 1] == v
    ensures (merged[..n - 1] + base[n - 1..])[n - 1] == base[n - 1]
    ensures (merged[..n - 1] + base[n - 1..])[n - 1 := v] == merged[..n] + base[n..]
  {
  }

  lemma {:induction false} OneValueFolds(schema: Schema, n: nat, v: Value, before: seq<Value>)
    requires 0 < n <= |schema| < 0x2000_0000 && |before| == |schema| && EncodableValue(v)
             && (schema[n - 1].Text? <==> v.TextValue?)
    ensures forall f :: f in ValueField(n, v) ==> FlatField(schema, f)
    ensures FoldFields(ApplyFlat(schema), ValueField(n, v), before) == before[n - 1 := MergeValue(before[n - 1], v)]
  {
  }

  /**
   * Decoding the encoding of a flat message onto another merges it in, field by field, and consumes exactly its bytes.
   */
  lemma {:induction false} FlatDecodes(schema: Schema, m: seq<Value>, rest: Bytes, base: seq<Value>)
    requires |schema| < 0x2000_0000 && Conforms(schema, m) && Conforms(schema, base)
    requires forall i :: 0 <= i < |m| ==> EncodableValue(m[i])
    ensures ReadFields(FlatCases(schema), SerializeAll(FlatFields(m)) + rest, |rest|, base)
            == Some((MergeFlat(base, m), rest))
    ensures MergeFlat(Defaults(schema), m) == m
  {
    assert m[..|m|] == m && MergeFlat(base, m)[..|m|] + base[|m|..] == MergeFlat(base, m);
    FlatFold(schema, m, base, |m|);
    var fields := FlatFields(m);
    hide ReadFields, FlatFields;
    forall f | f in fields ensures Handles(FlatCases(schema), ApplyFlat(schema), f) {
      FlatHandled(schema, f);
    }
    ReadsEveryField(FlatCases(schema), ApplyFlat(schema), fields, rest, base);
  }

  /** Round trip: every message of the service decodes to itself from its encoding, to the byte. */
  lemma {:induction false} MessageRoundTrip(kind: MessageKind, m: seq<Value>)
    requires Conforms(SchemaOf(kind), m) && forall i :: 0 <= i < |m| ==> EncodableValue(m[i])
    ensures ReadFields(FlatCases(SchemaOf(kind)), SerializeAll(FlatFields(m)), 0, Defaults(SchemaOf(kind)))
            == Some((m, []))
  {
    hide ReadFields, FlatFields, FlatCases, SerializeAll;
    FlatDecodes(SchemaOf(kind), m, [], Defaults(SchemaOf(kind)));
    assert SerializeAll(FlatFields(m)) + [] == SerializeAll(FlatFields(m));
  }

  /** Writes one value under its number. */
  method WriteValue(writer: BinaryWriter, number: nat, v: Value) returns (ok: bool)
    requires number < 0x1000_0000
    modifies writer
    ensures ok <==> EncodableValue(v)
    ensures ok ==>
            writer.bytes == old(writer.bytes) + SerializeAll(ValueField(number, v)) && writer.forks == old(writer.forks)
  {
    match v {
      case TextValue(text) => ok := WriteText(writer, 8 * number + 2, text, number);
      case FlagValue(flag) =>
        WriteFlag(writer, 8 * number, flag, number);
        ok := true;
    }
  }

  method EncodeFlat(m: seq<Value>, writer: BinaryWriter) returns (ok: bool)
    requires |m| < 0x1000_0000
    modifies writer
    ensures ok <==> forall i :: 0 <= i < |m| ==> EncodableValue(m[i])
    ensures ok ==> writer.bytes == old(writer.bytes) + SerializeAll(FlatFields(m)) && writer.forks == old(writer.forks)
  {
    NoFields();
    hide SerializeAll, ValueField;
    for i := 0 to |m|
      invariant forall k :: 0 <= k < i ==> EncodableValue(m[k])
      invariant writer.bytes == old(writer.bytes) + SerializeAll(FlatFields(m[..i]))
                && writer.forks == old(writer.forks)
    {
      assert m[..i + 1][..i] == m[..i];
      ok := WriteValue(writer, i + 1, m[i]);
      if !ok { return; }
      SerializeAppend(FlatFields(m[..i]), ValueField(i + 1, m[i]));
    }
    assert m[..|m|] == m;
    ok := true;
  }

  lemma {:induction false} FlatCase(schema: Schema, number: nat, bytes: Bytes, m: seq<Value>)
    requires |m| == |schema|
    ensures FlatCases(schema)(number, bytes, m)
         == if !(1 <= number <= |schema|) then Unknown
            else if schema[number - 1].Text? then
              match ReadBytes(bytes)
              case None => Failed
              case Some((text, rest)) => Read(m[number - 1 := TextValue(text)], rest)
            else
              match ReadBool(bytes)
              case None => Failed
              case Some((flag, rest)) => Read(m[number - 1 := FlagValue(flag)], rest)
  {
  }

  method DecodeFlat(schema: Schema, reader: BinaryReader, length: Option<nat>) returns (r: Option<seq<Value>>)
    requires reader.Valid()
    modifies reader
    ensures reader.Valid()
    ensures var read := ReadFields(FlatCases(schema), old(reader.unread), StopAt(old(reader.unread), length),
            Defaults(schema));
            && (r.Some? <==> read.Some?)
            && (r.Some? ==> read == Some((r.value, reader.unread)))
  {
    var end := if length.None? then reader.len else reader.Pos() + length.value;
    var message := Defaults(schema);
    ghost var stop := StopAt(reader.unread, length);
    ghost var read := ReadFields(FlatCases(schema), reader.unread, stop, message);
    while reader.Pos() < end
      invariant reader.Valid() && (reader.Pos() < end <==> |reader.unread| > stop) && |message| == |schema|
      invariant ReadFields(FlatCases(schema), reader.unread, stop, message) == read
      decreases |reader.unread|
    {
      hide ReadFields, ReadUint32, ReadBytes, ReadBool, Skip, FlatCases;
      ReadStep(FlatCases(schema), reader.unread, stop, message);
      var tag := reader.Uint32();
      if tag.None? { return None; }
      var number := tag.value / 8;
      FlatCase(schema, number, reader.unread, message);
      if 1 <= number <= |schema| {
        if schema[number - 1].Text? {
          var text := reader.String();
          if text.None? { return None; }
          message := message[number - 1 := TextValue(text.value)];
        } else {
          var flag := reader.Bool();
          if flag.None? { return None; }
          message := message[number - 1 := FlagValue(flag.value)];
        }
        continue;
      }
      if tag.value % 8 == 4 || tag.value == 0 {
        return Some(message);
      }
      var skipped := reader.SkipPayload(tag.value % 8);
      if !skipped { return None; }
    }
    return Some(message);
  }
}
