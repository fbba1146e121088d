/**
 * Lowers the variants of a mutually exclusive group: the From records that do not enter a variant become update-only
 * joins, and every variant is removed by what enters its siblings.
 */
module VariantReclassifier {
  import opened Wrappers
  import opened Texts
  import opened OrderedMaps

  const EVENT_SOURCE_ID_KEY := "$eventSourceId"

  datatype ContractEventType = ContractEventType(id: string, generation: nat, tombstone: bool)

  datatype FromValue = FromValue(key: string, parentKey: string, properties: map<string, string>)

  datatype JoinValue = JoinValue(on: string, key: string, properties: map<string, string>)

  datatype RemovedWithValue = RemovedWithValue(key: string, parentKey: string)

  type FromRecord = Entry<ContractEventType, FromValue>
  type JoinRecord = Entry<ContractEventType, JoinValue>
  type RemovedWithRecord = Entry<ContractEventType, RemovedWithValue>

  datatype VariantDeclaration = VariantDeclaration(
    identity: string, key: string, enteringEventTypes: seq<ContractEventType>)

  datatype ReclassifyError =
    | GlobalHandlerPropertyNotOnVariant(handler: string, property: string)
    | VariantMustDeclareEntersOnEvent(variant: string)

  /** The text the source keys its maps by. */
  function EventTypeKey(eventType: ContractEventType): string {
    eventType.id + ":" + Decimal(eventType.generation) + ":" + (if eventType.tombstone then "true" else "false")
  }

  /** The key texts of two event types are equal only for the same event type, even when identifiers contain colons. */
  lemma {:induction false} EventTypeKeyIsOneToOne(a: ContractEventType, b: ContractEventType)
    requires EventTypeKey(a) == EventTypeKey(b)
    ensures a == b
  {
    var tombstoneA := if a.tombstone then "true" else "false";
    var tombstoneB := if b.tombstone then "true" else "false";
    LastSeparatorSplits(a.id + ":" + Decimal(a.generation), tombstoneA, b.id + ":" + Decimal(b.generation), tombstoneB);
    assert tombstoneA[0] == tombstoneB[0];
    LastSeparatorSplits(a.id, Decimal(a.generation), b.id, Decimal(b.generation));
    NumeralOfDecimal(a.generation);
    NumeralOfDecimal(b.generation);
  }

  lemma {:induction false} LastSeparatorSplits(a: string, b: string, c: string, d: string)
    requires Lacks(b, ':') && Lacks(d, ':') && a + ":" + b == c + ":" + d
    ensures a == c && b == d
  {
    LastIndexOfLast(a, ':', b);
    LastIndexOfLast(c, ':', d);
    var s := a + ":" + b;
    assert a == s[..|a|] && c == s[..|c|] && b == s[|a| + 1..] && d == s[|c| + 1..];
  }

  // ----- merging shared handlers -----

  datatype GlobalHandler = GlobalHandler(typeName: string, from: seq<FromRecord>)

  /** A map keyed by event type, filled in order. */
  function ByEventType(from: seq<FromRecord>): OrderedMap<ContractEventType, FromValue> {
    if from == [] then []
    else Put(ByEventType(from[..|from| - 1]), from[|from| - 1].key, from[|from| - 1].value)
  }

  /** A shared mapping adds its properties to the record of its event type, or becomes that record. */
  function MergeShared(existing: Option<FromValue>, shared: FromValue): FromValue {
    match existing
    case None => shared
    case Some(own) => own.(properties := own.properties + shared.properties)
  }

  function MergeRecords(merged: OrderedMap<ContractEventType, FromValue>, shared: seq<FromRecord>)
    : OrderedMap<ContractEventType, FromValue>
  {
    if shared == [] then merged
    else
      var earlier := MergeRecords(merged, shared[..|shared| - 1]);
      var last := shared[|shared| - 1];
      Put(earlier, last.key, MergeShared(Get(earlier, last.key), last.value))
  }

  function SharedRecords(globals: seq<GlobalHandler>): seq<FromRecord> {
    if globals == [] then [] else SharedRecords(globals[..|globals| - 1]) + globals[|globals| - 1].from
  }

  ghost predicate PropertiesOnVariant(members: set<string>, shared: seq<FromRecord>) {
    forall i :: 0 <= i < |shared| ==> shared[i].value.properties.Keys <= members
  }

  function Merged(from: seq<FromRecord>, globals: seq<GlobalHandler>): seq<FromRecord> {
    if globals == [] then from else MergeRecords(ByEventType(from), SharedRecords(globals))
  }

  lemma {:induction false} KeyedOneMore(from: seq<FromRecord>, i: nat)
    requires i < |from|
    ensures ByEventType(from[..i + 1]) == Put(ByEventType(from[..i]), from[i].key, from[i].value)
  {
    assert from[..i + 1][..i] == from[..i];
  }

  lemma {:induction false} SharedOneMore(globals: seq<GlobalHandler>, g: nat)
    requires g < |globals|
    ensures SharedRecords(globals[..g + 1]) == SharedRecords(globals[..g]) + globals[g].from
  {
    assert globals[..g + 1][..g] == globals[..g];
  }

  lemma {:induction false} MergedOneMore(
    members: set<string>, merged: OrderedMap<ContractEventType, FromValue>, shared: seq<FromRecord>, last: FromRecord)
    ensures MergeRecords(merged, shared + [last])
         == var earlier := MergeRecords(merged, shared);
           Put(earlier, last.key, MergeShared(Get(earlier, last.key), last.value))
    ensures PropertiesOnVariant(members, shared) && last.value.properties.Keys <= members ==>
            PropertiesOnVariant(members, shared + [last])
  {
  }

  method KeyByEventType(from: seq<FromRecord>) returns (byEventType: OrderedMap<ContractEventType, FromValue>)
    ensures byEventType == ByEventType(from)
  {
    byEventType := [];
    for i := 0 to |from|
      invariant byEventType == ByEventType(from[..i])
    {
      KeyedOneMore(from, i);
      byEventType := Put(byEventType, from[i].key, from[i].value);
    }
    assert from[..|from|] == from;
  }

  /** Merges one handler's records, or finds a property the variant does not have. */
  method MergeHandler(
    members: set<string>, merged: OrderedMap<ContractEventType, FromValue>, handler: GlobalHandler,
    ghost own: OrderedMap<ContractEventType, FromValue>, ghost before: seq<FromRecord>)
    returns (r: Result<OrderedMap<ContractEventType, FromValue>, ReclassifyError>)
    requires PropertiesOnVariant(members, before) && merged == MergeRecords(own, before)
    ensures r.Ok? ==>
            PropertiesOnVariant(members, before + handler.from) && r.value == MergeRecords(own, before + handler.from)
    ensures r.Err? ==>
            && r.error.GlobalHandlerPropertyNotOnVariant? && r.error.handler == handler.typeName
            && r.error.property !in members
                       && exists k :: 0 <= k < |handler.from| && r.error.property in handler.from[k].value.properties
  {
    hide MergeShared, Put, Get, MergeRecords, PropertiesOnVariant;
    var shared, byEventType := handler.from, merged;
    assert before + shared[..0] == before;
    for k := 0 to |shared|
      invariant PropertiesOnVariant(members, before + shared[..k])
      invariant byEventType == MergeRecords(own, before + shared[..k])
    {
      if !(shared[k].value.properties.Keys <= members) {
        var property :| property in shared[k].value.properties.Keys && property !in members;
        return Err(GlobalHandlerPropertyNotOnVariant(handler.typeName, property));
      }
      MergedOneMore(members, own, before + shared[..k], shared[k]);
      assert before + shared[..k + 1] == before + shared[..k] + [shared[k]];
      byEventType := Put(byEventType, shared[k].key, MergeShared(Get(byEventType, shared[k].key), shared[k].value));
    }
    assert shared[..|shared|] == shared;
    r := Ok(byEventType);
  }

  /** Merges the shared handlers into a variant's own From records, keyed by event type. */
  method MergeGlobalHandlers(members: set<string>, from: seq<FromRecord>, globals: seq<GlobalHandler>)
    returns (r: Result<seq<FromRecord>, ReclassifyError>)
    ensures r.Ok? <==> PropertiesOnVariant(members, SharedRecords(globals))
    ensures r.Ok? ==> r.value == Merged(from, globals)
    ensures r.Err? ==> && r.error.GlobalHandlerPropertyNotOnVariant? && r.error.property !in members
                       && exists g, k :: && 0 <= g < |globals| && 0 <= k < |globals[g].from|
                                         && globals[g].typeName == r.error.handler
                                         && r.error.property in globals[g].from[k].value.properties
  {
    if |globals| == 0 {
      return Ok(from);
    }
    hide MergeRecords, ByEventType, PropertiesOnVariant, SharedRecords;
    var byEventType := KeyByEventType(from);
    for g := 0 to |globals|
      invariant PropertiesOnVariant(members, SharedRecords(globals[..g]))
      invariant byEventType == MergeRecords(ByEventType(from), SharedRecords(globals[..g]))
    {
      SharedOneMore(globals, g);
      var merged := MergeHandler(members, byEventType, globals[g], ByEventType(from), SharedRecords(globals[..g]));
      if merged.Err? {
        ghost var k :| 0 <= k < |globals[g].from| && merged.error.property in globals[g].from[k].value.properties;
        SharedRecordsContain(globals, g, k);
        return Err(merged.error);
      }
      byEventType := merged.value;
    }
    assert globals[..|globals|] == globals;
    return Ok(byEventType);
  }

  lemma {:induction false} SharedRecordsContain(globals: seq<GlobalHandler>, g: nat, k: nat)
    requires g < |globals| && k < |globals[g].from|
    ensures globals[g].from[k] in SharedRecords(globals)
  {
    if g < |globals| - 1 {
      assert globals[..|globals| - 1][g] == globals[g];
      SharedRecordsContain(globals[..|globals| - 1], g, k);
    } else {
      assert globals[g].from[k] in globals[g].from;
    }
  }

  /** What the records of an event type add up to: the last own record, then every shared one laid over it in order. */
  function Contribution(own: Option<FromValue>, shared: seq<FromRecord>, eventType: ContractEventType)
    : Option<FromValue>
  {
    if shared == [] then own
    else
      var earlier := Contribution(own, shared[..|shared| - 1], eventType);
      var last := shared[|shared| - 1];
      if last.key == eventType then Some(MergeShared(earlier, last.value)) else earlier
  }

  /** Merging keeps one record per event type, and it is what the event type's own and shared records add up to. */
  lemma {:induction false} MergedRecordIsContribution(
    merged: OrderedMap<ContractEventType, FromValue>, shared: seq<FromRecord>, eventType: ContractEventType)
    requires UniqueKeys(merged)
    ensures UniqueKeys(MergeRecords(merged, shared))
    ensures Get(MergeRecords(merged, shared), eventType) == Contribution(Get(merged, eventType), shared, eventType)
  {
    if shared != [] {
      var rest, last := shared[..|shared| - 1], shared[|shared| - 1];
      MergedRecordIsContribution(merged, rest, eventType);
      MergedRecordIsContribution(merged, rest, last.key);
      var earlier := MergeRecords(merged, rest);
      var value := MergeShared(Get(earlier, last.key), last.value);
      PutKeepsUnique(earlier, last.key, value);
      GetAfterPut(earlier, last.key, value, eventType);
    }
  }

  lemma {:induction false} ByEventTypeIsUnique(from: seq<FromRecord>)
    ensures UniqueKeys(ByEventType(from))
    ensures UniqueKeys(from) ==> ByEventType(from) == from
  {
    if from != [] {
      var rest, last := from[..|from| - 1], from[|from| - 1];
      ByEventTypeIsUnique(rest);
      PutKeepsUnique(ByEventType(rest), last.key, last.value);
      if UniqueKeys(from) {
        GetFinds(rest, last.key);
        assert forall i :: 0 <= i < |rest| ==> rest[i].key == from[i].key;
        PutAbsentAppends(rest, last.key, last.value);
      }
    }
  }

  /** The place of the last record of an event type. */
  ghost predicate IsLastOf(records: seq<FromRecord>, eventType: ContractEventType, i: int) {
    && 0 <= i < |records| && records[i].key == eventType
    && forall j :: i < j < |records| ==> records[j].key != eventType
  }

  /** The place of the first record of an event type. */
  ghost predicate IsFirstOf(records: seq<FromRecord>, eventType: ContractEventType, i: int) {
    && 0 <= i < |records| && records[i].key == eventType
    && forall j :: 0 <= j < i ==> records[j].key != eventType
  }

  /** The place of the last record of an event type that sets a property. */
  ghost predicate IsLastSetting(records: seq<FromRecord>, eventType: ContractEventType, property: string, i: int) {
    && 0 <= i < |records| && records[i].key == eventType && property in records[i].value.properties
    && forall j :: i < j < |records| && records[j].key == eventType ==> property !in records[j].value.properties
  }

  ghost predicate NoneSets(records: seq<FromRecord>, eventType: ContractEventType, property: string) {
    forall i :: 0 <= i < |records| && records[i].key == eventType ==> property !in records[i].value.properties
  }

  lemma {:induction false} KeyedIsLast(from: seq<FromRecord>, eventType: ContractEventType)
    ensures Get(ByEventType(from), eventType).Some? <==> exists r :: r in from && r.key == eventType
    ensures forall i :: IsLastOf(from, eventType, i) ==> Get(ByEventType(from), eventType) == Some(from[i].value)
  {
    if from != [] {
      var rest, last := from[..|from| - 1], from[|from| - 1];
      KeyedIsLast(rest, eventType);
      GetAfterPut(ByEventType(rest), last.key, last.value, eventType);
      assert from == rest + [last];
      forall i | IsLastOf(from, eventType, i) ensures Get(ByEventType(from), eventType) == Some(from[i].value) {
        assert last.key != eventType ==> IsLastOf(rest, eventType, i);
      }
    }
  }

  lemma {:induction false} ContributionStep(
    own: Option<FromValue>, shared: seq<FromRecord>, eventType: ContractEventType)
    ensures Contribution(own, [], eventType) == own
    ensures shared != [] ==>
              var rest, last := shared[..|shared| - 1], shared[|shared| - 1];
              var earlier := Contribution(own, rest, eventType);
              && (last.key != eventType ==> Contribution(own, shared, eventType) == earlier)
              && (last.key == eventType && earlier.None? ==>
                    Contribution(own, shared, eventType) == Some(last.value))
              && (last.key == eventType && earlier.Some? ==>
                    Contribution(own, shared, eventType)
                    == Some(FromValue(earlier.value.key, earlier.value.parentKey,
                         earlier.value.properties + last.value.properties)))
  {
  }

  /** A property is set by the last shared record that sets it. */
  lemma {:induction false} LastSharedWins(
    own: Option<FromValue>, shared: seq<FromRecord>, eventType: ContractEventType, property: string, i: int)
    requires IsLastSetting(shared, eventType, property, i)
    ensures var merged := Contribution(own, shared, eventType);
            && merged.Some? && property in merged.value.properties
            && merged.value.properties[property] == shared[i].value.properties[property]
  {
    hide Contribution;
    ContributionStep(own, shared, eventType);
    if i < |shared| - 1 {
      LastSharedWins(own, shared[..|shared| - 1], eventType, property, i);
    }
  }

  /** Without a shared record that sets it, a property is set as the own record sets it. */
  lemma {:induction false} OwnRemains(
    own: Option<FromValue>, shared: seq<FromRecord>, eventType: ContractEventType, property: string)
    requires NoneSets(shared, eventType, property)
    ensures var merged := Contribution(own, shared, eventType);
            && (own.Some? ==> merged.Some?)
            && (merged.Some? ==>
                  if own.Some? && property in own.value.properties then
                    property in merged.value.properties
                    && merged.value.properties[property] == own.value.properties[property]
                  else property !in merged.value.properties)
  {
    hide Contribution;
    ContributionStep(own, shared, eventType);
    if shared != [] {
      OwnRemains(own, shared[..|shared| - 1], eventType, property);
    }
  }

  /** The keys are the own record's, or else the first shared record's. */
  lemma {:induction false} KeysByPlace(own: Option<FromValue>, shared: seq<FromRecord>, eventType: ContractEventType)
    ensures var merged := Contribution(own, shared, eventType);
            && (merged.None? <==> own.None? && forall r :: r in shared ==> r.key != eventType)
            && (own.Some? ==> merged.value.key == own.value.key && merged.value.parentKey == own.value.parentKey)
            && (own.None? ==> forall i :: IsFirstOf(shared, eventType, i) ==>
                  && merged.Some? && merged.value.key == shared[i].value.key
                  && merged.value.parentKey == shared[i].value.parentKey)
  {
    hide Contribution;
    ContributionStep(own, shared, eventType);
    if shared != [] {
      var rest, last := shared[..|shared| - 1], shared[|shared| - 1];
      KeysByPlace(own, rest, eventType);
      assert shared == rest + [last];
      forall i | IsFirstOf(shared, eventType, i) && i < |rest| ensures IsFirstOf(rest, eventType, i) {}
    }
  }

  /** The place, handler by handler, of the last shared record of an event type that sets a property. */
  ghost predicate IsLastShared(
    globals: seq<GlobalHandler>, eventType: ContractEventType, property: string, g: int, k: int)
  {
    && 0 <= g < |globals| && IsLastSetting(globals[g].from, eventType, property, k)
    && forall h :: g < h < |globals| ==> NoneSets(globals[h].from, eventType, property)
  }

  /** The place, handler by handler, of the first shared record of an event type. */
  ghost predicate IsFirstShared(globals: seq<GlobalHandler>, eventType: ContractEventType, g: int, k: int) {
    && 0 <= g < |globals| && IsFirstOf(globals[g].from, eventType, k)
    && forall h :: 0 <= h < g ==> forall r :: r in globals[h].from ==> r.key != eventType
  }

  lemma {:induction false} NoneShared(globals: seq<GlobalHandler>, eventType: ContractEventType, property: string)
    ensures NoneSets(SharedRecords(globals), eventType, property) <==>
            forall g :: 0 <= g < |globals| ==> NoneSets(globals[g].from, eventType, property)
  {
    hide NoneSets;
    if globals == [] {
      assert NoneSets([], eventType, property) by { NoneSetsEmpty(eventType, property); }
    } else {
      var n := |globals| - 1;
      NoneShared(globals[..n], eventType, property);
      NoneSetsAppend(SharedRecords(globals[..n]), globals[n].from, eventType, property);
      assert forall g :: 0 <= g < n ==> globals[..n][g] == globals[g];
    }
  }

  lemma {:induction false} NoneSetsEmpty(eventType: ContractEventType, property: string)
    ensures NoneSets([], eventType, property)
  {
  }

  lemma {:induction false} SharedRecordsMembers(globals: seq<GlobalHandler>, r: FromRecord)
    ensures r in SharedRecords(globals) <==> exists g :: 0 <= g < |globals| && r in globals[g].from
  {
    if globals != [] {
      var n := |globals| - 1;
      SharedRecordsMembers(globals[..n], r);
      assert forall g :: 0 <= g < n ==> globals[..n][g] == globals[g];
    }
  }

  lemma {:induction false} LastShared(
    globals: seq<GlobalHandler>, eventType: ContractEventType, property: string, g: int, k: int) returns (i: int)
    requires IsLastShared(globals, eventType, property, g, k)
    ensures IsLastSetting(SharedRecords(globals), eventType, property, i)
    ensures SharedRecords(globals)[i] == globals[g].from[k]
  {
    hide NoneSets;
    var n := |globals| - 1;
    var before, last := SharedRecords(globals[..n]), globals[n].from;
    if g < n {
      i := LastShared(globals[..n], eventType, property, g, k);
    } else {
      i := |before| + k;
    }
    LastSettingAppend(before, last, eventType, property, i);
  }

  lemma {:induction false} FirstShared(globals: seq<GlobalHandler>, eventType: ContractEventType, g: int, k: int)
    returns (i: int)
    requires IsFirstShared(globals, eventType, g, k)
    ensures IsFirstOf(SharedRecords(globals), eventType, i)
    ensures SharedRecords(globals)[i] == globals[g].from[k]
  {
    var n := |globals| - 1;
    var before, last := SharedRecords(globals[..n]), globals[n].from;
    if g < n {
      assert IsFirstShared(globals[..n], eventType, g, k);
      i := FirstShared(globals[..n], eventType, g, k);
    } else {
      i := |before| + k;
      var all := SharedRecords(globals);
      forall j | 0 <= j < i ensures all[j].key != eventType {
        if j < |before| {
          SharedRecordsMembers(globals[..n], before[j]);
        }
      }
    }
  }

  lemma {:induction false} NoneSetsAppend(
    a: seq<FromRecord>, b: seq<FromRecord>, eventType: ContractEventType, property: string)
    ensures NoneSets(a + b, eventType, property) <==>
            NoneSets(a, eventType, property) && NoneSets(b, eventType, property)
  {
    assert forall i :: 0 <= i < |a| ==> (a + b)[i] == a[i];
    assert forall i :: 0 <= i < |b| ==> (a + b)[|a| + i] == b[i];
  }

  lemma {:induction false} LastSettingAppend(
    a: seq<FromRecord>, b: seq<FromRecord>, eventType: ContractEventType, property: string, i: int)
    requires (IsLastSetting(a, eventType, property, i) && NoneSets(b, eventType, property))
             || IsLastSetting(b, eventType, property, i - |a|)
    ensures IsLastSetting(a + b, eventType, property, i)
  {
  }

  /**
   * What merging leaves of an event type, read off the declarations: each property is set by the expression of the last
   * shared record of the event type that sets it, and where none does by that of the last own record of the event type,
   * if it sets the property. Nothing else is set.
   */
  lemma {:induction false} MergedPropertiesByPlace(
    from: seq<FromRecord>, globals: seq<GlobalHandler>, eventType: ContractEventType, property: string)
    requires globals != []
    ensures var merged := Get(Merged(from, globals), eventType);
            && (forall g, k :: IsLastShared(globals, eventType, property, g, k) ==>
                  && merged.Some? && property in merged.value.properties
                  && merged.value.properties[property] == globals[g].from[k].value.properties[property])
            && ((forall g :: 0 <= g < |globals| ==> NoneSets(globals[g].from, eventType, property)) ==>
                  && (forall i :: IsLastOf(from, eventType, i) ==>
                        && merged.Some?
                        && (property in merged.value.properties <==> property in from[i].value.properties)
                        && (property in from[i].value.properties ==>
                              merged.value.properties[property] == from[i].value.properties[property]))
                  && ((forall r :: r in from ==> r.key != eventType) && merged.Some? ==>
                        property !in merged.value.properties))
  {
    hide SharedRecords, MergeRecords, ByEventType, Contribution, NoneSets, Get, UniqueKeys;
    var shared := SharedRecords(globals);
    ByEventTypeIsUnique(from);
    MergedRecordIsContribution(ByEventType(from), shared, eventType);
    KeyedIsLast(from, eventType);
    NoneShared(globals, eventType, property);
    var own := Get(ByEventType(from), eventType);
    if NoneSets(shared, eventType, property) {
      OwnRemains(own, shared, eventType, property);
    }
    forall g, k | IsLastShared(globals, eventType, property, g, k)
      ensures var merged := Contribution(own, shared, eventType);
              && merged.Some? && property in merged.value.properties
              && merged.value.properties[property] == globals[g].from[k].value.properties[property]
    {
      var i := LastShared(globals, eventType, property, g, k);
      LastSharedWins(own, shared, eventType, property, i);
    }
  }

  /**
   * An event type keeps one record, there exactly when some record declares the event type; its keys are those of the
   * last own record, or of the first shared one when there is no own record.
   */
  lemma {:induction false} MergedKeysByPlace(
    from: seq<FromRecord>, globals: seq<GlobalHandler>, eventType: ContractEventType)
    requires globals != []
    ensures UniqueKeys(Merged(from, globals))
    ensures var merged := Get(Merged(from, globals), eventType);
            && (merged.Some? <==>
                  || (exists r :: r in from && r.key == eventType)
                  || (exists g, r :: 0 <= g < |globals| && r in globals[g].from && r.key == eventType))
            && (forall i :: IsLastOf(from, eventType, i) ==>
                  && merged.Some? && merged.value.key == from[i].value.key
                  && merged.value.parentKey == from[i].value.parentKey)
            && ((forall r :: r in from ==> r.key != eventType) ==>
                  forall g, k :: IsFirstShared(globals, eventType, g, k) ==>
                    && merged.Some? && merged.value.key == globals[g].from[k].value.key
                    && merged.value.parentKey == globals[g].from[k].value.parentKey)
  {
    hide SharedRecords, MergeRecords, ByEventType, Contribution, Get, UniqueKeys;
    var shared := SharedRecords(globals);
    ByEventTypeIsUnique(from);
    MergedRecordIsContribution(ByEventType(from), shared, eventType);
    KeyedIsLast(from, eventType);
    KeysByPlace(Get(ByEventType(from), eventType), shared, eventType);
    forall r ensures r in shared <==> exists g :: 0 <= g < |globals| && r in globals[g].from {
      SharedRecordsMembers(globals, r);
    }
    forall g, k | IsFirstShared(globals, eventType, g, k)
      ensures exists i :: IsFirstOf(shared, eventType, i) && shared[i] == globals[g].from[k]
    {
      var i := FirstShared(globals, eventType, g, k);
    }
  }

  // ----- reclassifying -----

  function EnteringRecords(from: seq<FromRecord>, entering: set<ContractEventType>): seq<FromRecord> {
    if from == [] then []
    else
      var earlier, last := EnteringRecords(from[..|from| - 1], entering), from[|from| - 1];
      if last.key in entering then earlier + [last] else earlier
  }

  function ToJoin(record: FromRecord, variantKey: string): JoinRecord {
    Entry(record.key, JoinValue(variantKey, if record.value.key == "" then EVENT_SOURCE_ID_KEY else record.value.key,
      record.value.properties))
  }

  function UpdatingJoins(from: seq<FromRecord>, entering: set<ContractEventType>, variantKey: string): seq<JoinRecord> {
    if from == [] then []
    else
      var earlier, last := UpdatingJoins(from[..|from| - 1], entering, variantKey), from[|from| - 1];
      if last.key in entering then earlier else earlier + [ToJoin(last, variantKey)]
  }

  /**
   * One record more: an entering one stays as it is behind those before it, and any other becomes a join on the
   * variant's key behind the joins before it, keyed as it was, or on the event source when it names no key, and setting
   * the same properties.
   */
  lemma {:induction false} OneRecordMore(
    from: seq<FromRecord>, record: FromRecord, entering: set<ContractEventType>, variantKey: string)
    ensures EnteringRecords([], entering) == [] && UpdatingJoins([], entering, variantKey) == []
    ensures EnteringRecords(from + [record], entering)
         == EnteringRecords(from, entering) + if record.key in entering then [record] else []
    ensures UpdatingJoins(from + [record], entering, variantKey)
         == UpdatingJoins(from, entering, variantKey)
            + if record.key in entering then []
              else [Entry(record.key, JoinValue(variantKey,
                      if |record.value.key| == 0 then "$eventSourceId" else record.value.key,
                      record.value.properties))]
  {
  }

  /** Turns every From record that does not enter the variant into an update-only join on the variant's own key. */
  method Reclassify(
    variantTypeName: string, from: seq<FromRecord>, join: seq<JoinRecord>, enteringEventTypes: seq<ContractEventType>,
    variantKey: string)
    returns (r: Result<(seq<FromRecord>, seq<JoinRecord>), ReclassifyError>)
    ensures r.Err? <==> enteringEventTypes == []
    ensures r.Err? ==> r.error == VariantMustDeclareEntersOnEvent(variantTypeName)
    ensures r.Ok? ==>
              var entering := set t | t in enteringEventTypes;
              r.value == (EnteringRecords(from, entering), join + UpdatingJoins(from, entering, variantKey))
  {
    if |enteringEventTypes| == 0 {
      return Err(VariantMustDeclareEntersOnEvent(variantTypeName));
    }
    var entering := set t | t in enteringEventTypes;
    var remainingFrom: seq<FromRecord> := [];
    var reclassifiedJoins: seq<JoinRecord> := [];
    for i := 0 to |from|
      invariant remainingFrom == EnteringRecords(from[..i], entering)
      invariant reclassifiedJoins == UpdatingJoins(from[..i], entering, variantKey)
    {
      assert from[..i + 1][..i] == from[..i];
      if from[i].key in entering {
        remainingFrom := remainingFrom + [from[i]];
      } else {
        reclassifiedJoins := reclassifiedJoins + [ToJoin(from[i], variantKey)];
      }
    }
    assert from[..|from|] == from;
    return Ok((remainingFrom, join + reclassifiedJoins));
  }

  // ----- cross-wiring -----

  /** A built projection; only its removals change after it is built. */
  class BuiltProjection {
    const typeName: string
    const variant: Option<VariantDeclaration>
    var removedWith: seq<RemovedWithRecord>

    constructor (typeName: string, variant: Option<VariantDeclaration>, removedWith: seq<RemovedWithRecord>)
      ensures this.typeName == typeName && this.variant == variant && this.removedWith == removedWith
    {
      this.typeName, this.variant, this.removedWith := typeName, variant, removedWith;
    }
  }

  const REMOVED_ON_SOURCE := RemovedWithValue(EVENT_SOURCE_ID_KEY, EVENT_SOURCE_ID_KEY)

  function PutIfAbsent(removedWith: OrderedMap<ContractEventType, RemovedWithValue>, eventType: ContractEventType)
    : OrderedMap<ContractEventType, RemovedWithValue>
  {
    if Has(removedWith, eventType) then removedWith else Put(removedWith, eventType, REMOVED_ON_SOURCE)
  }

  function RemovedByEventType(removedWith: seq<RemovedWithRecord>): OrderedMap<ContractEventType, RemovedWithValue> {
    if removedWith == [] then []
    else Put(RemovedByEventType(removedWith[..|removedWith| - 1]), removedWith[|removedWith| - 1].key,
      removedWith[|removedWith| - 1].value)
  }

  function AddRemovals(removedWith: OrderedMap<ContractEventType, RemovedWithValue>, entering: seq<ContractEventType>)
    : OrderedMap<ContractEventType, RemovedWithValue>
  {
    if entering == [] then removedWith
    else PutIfAbsent(AddRemovals(removedWith, entering[..|entering| - 1]), entering[|entering| - 1])
  }

  /** The removals of a variant once what enters its siblings is known. */
  function CrossWired(existing: seq<RemovedWithRecord>, siblingsEntering: seq<ContractEventType>)
    : seq<RemovedWithRecord>
  {
    AddRemovals(RemovedByEventType(existing), siblingsEntering)
  }

  predicate AreSiblings(variants: seq<Option<VariantDeclaration>>, i: nat, j: nat)
    requires i < |variants| && j < |variants|
  {
    i != j && variants[i].Some? && variants[j].Some? && variants[i].value.identity == variants[j].value.identity
  }

  predicate HasSiblings(variants: seq<Option<VariantDeclaration>>, i: nat)
    requires i < |variants|
  {
    exists j :: 0 <= j < |variants| && AreSiblings(variants, i, j)
  }

  /** What enters the siblings of the i-th projection, among the first n, in discovery order. */
  function SiblingsEntering(variants: seq<Option<VariantDeclaration>>, i: nat, n: nat): seq<ContractEventType>
    requires i < |variants| && n <= |variants|
  {
    if n == 0 then []
    else SiblingsEntering(variants, i, n - 1)
         + (if AreSiblings(variants, i, n - 1) then variants[n - 1].value.enteringEventTypes else [])
  }

  /** The removals of the i-th projection after cross-wiring. */
  function WiredRemovals(variants: seq<Option<VariantDeclaration>>, i: nat, existing: seq<RemovedWithRecord>)
    : seq<RemovedWithRecord>
    requires i < |variants|
  {
    if HasSiblings(variants, i) then CrossWired(existing, SiblingsEntering(variants, i, |variants|)) else existing
  }

  function VariantsOf(projections: seq<BuiltProjection>): seq<Option<VariantDeclaration>> {
    seq(|projections|, i requires 0 <= i < |projections| => projections[i].variant)
  }

  lemma {:induction false} AddRemovalsAppend(
    removedWith: OrderedMap<ContractEventType, RemovedWithValue>, first: seq<ContractEventType>,
    second: seq<ContractEventType>)
    ensures AddRemovals(removedWith, first + second) == AddRemovals(AddRemovals(removedWith, first), second)
  {
    if second == [] {
      assert first + second == first;
    } else {
      AddRemovalsAppend(removedWith, first, second[..|second| - 1]);
      assert (first + second)[..|first| + |second| - 1] == first + second[..|second| - 1];
    }
  }

  /** Adds a removal for each event type that has none. */
  method AddEach(existing: OrderedMap<ContractEventType, RemovedWithValue>, entering: seq<ContractEventType>)
    returns (byEventType: OrderedMap<ContractEventType, RemovedWithValue>)
    ensures byEventType == AddRemovals(existing, entering)
  {
    byEventType := existing;
    for k := 0 to |entering|
      invariant byEventType == AddRemovals(existing, entering[..k])
    {
      byEventType := PutIfAbsent(byEventType, entering[k]);
      assert entering[..k + 1][..k] == entering[..k];
    }
    assert entering[..|entering|] == entering;
  }

  lemma {:induction false} NoSiblings(
    variants: seq<Option<VariantDeclaration>>, i: nat, unwired: OrderedMap<ContractEventType, RemovedWithValue>)
    requires i < |variants|
    ensures AddRemovals(unwired, SiblingsEntering(variants, i, 0)) == unwired
  {
  }

  lemma {:induction false} OneSiblingMore(variants: seq<Option<VariantDeclaration>>, i: nat, j: nat)
    requires i < |variants| && j < |variants|
    ensures AreSiblings(variants, i, j) ==>
              && variants[j].Some?
              && SiblingsEntering(variants, i, j + 1)
                 == SiblingsEntering(variants, i, j) + variants[j].value.enteringEventTypes
    ensures !AreSiblings(variants, i, j) ==> SiblingsEntering(variants, i, j + 1) == SiblingsEntering(variants, i, j)
  {
  }

  /** Collects the removals of one variant, sibling by sibling. */
  method CollectRemovals(variants: seq<Option<VariantDeclaration>>, i: nat, existing: seq<RemovedWithRecord>)
    returns (removedWith: seq<RemovedWithRecord>)
    requires i < |variants| && variants[i].Some?
    ensures removedWith == WiredRemovals(variants, i, existing)
  {
    hide RemovedByEventType, AddRemovals, AreSiblings, SiblingsEntering;
    var unwired := RemovedByEventType(existing);
    var byEventType := unwired;
    NoSiblings(variants, i, unwired);
    var siblings := 0;
    for j := 0 to |variants|
      invariant siblings > 0 <==> exists k :: 0 <= k < j && AreSiblings(variants, i, k)
      invariant byEventType == AddRemovals(unwired, SiblingsEntering(variants, i, j))
    {
      OneSiblingMore(variants, i, j);
      if AreSiblings(variants, i, j) {
        siblings := siblings + 1;
        AddRemovalsAppend(unwired, SiblingsEntering(variants, i, j), variants[j].value.enteringEventTypes);
        byEventType := AddEach(byEventType, variants[j].value.enteringEventTypes);
      }
    }
    removedWith := if siblings > 0 then byEventType else existing;
  }

  /** Gives every variant a removal for whatever enters a sibling. */
  method CrossWireGroups(projections: seq<BuiltProjection>)
    requires forall i, j :: 0 <= i < j < |projections| ==> projections[i] != projections[j]
    modifies projections
    ensures forall i :: 0 <= i < |projections| ==>
                          projections[i].removedWith == WiredRemovals(VariantsOf(projections), i,
                            old(projections[i].removedWith))
  {
    var variants := VariantsOf(projections);
    for i := 0 to |projections|
      invariant forall k :: 0 <= k < i ==>
                projections[k].removedWith == WiredRemovals(variants, k, old(projections[k].removedWith))
      invariant forall k :: i <= k < |projections| ==> projections[k].removedWith == old(projections[k].removedWith)
    {
      if projections[i].variant.Some? {
        var removedWith := CollectRemovals(variants, i, projections[i].removedWith);
        projections[i].removedWith := removedWith;
      }
    }
  }

  lemma {:induction false} AddedRemovals(
    removedWith: OrderedMap<ContractEventType, RemovedWithValue>, entering: seq<ContractEventType>,
    eventType: ContractEventType)
    ensures Get(AddRemovals(removedWith, entering), eventType)
            == if Has(removedWith, eventType) then Get(removedWith, eventType)
               else if eventType in entering then Some(REMOVED_ON_SOURCE) else None
    ensures UniqueKeys(removedWith) ==> UniqueKeys(AddRemovals(removedWith, entering))
  {
    if entering != [] {
      var rest, last := entering[..|entering| - 1], entering[|entering| - 1];
      AddedRemovals(removedWith, rest, eventType);
      AddedRemovals(removedWith, rest, last);
      GetAfterPut(AddRemovals(removedWith, rest), last, REMOVED_ON_SOURCE, eventType);
      if UniqueKeys(removedWith) {
        PutKeepsUnique(AddRemovals(removedWith, rest), last, REMOVED_ON_SOURCE);
      }
      assert entering == rest + [last];
    }
  }

  lemma {:induction false} RemovedByEventTypeIsUnique(removedWith: seq<RemovedWithRecord>)
    ensures UniqueKeys(RemovedByEventType(removedWith))
    ensures UniqueKeys(removedWith) ==> RemovedByEventType(removedWith) == removedWith
  {
    if removedWith != [] {
      var rest, last := removedWith[..|removedWith| - 1], removedWith[|removedWith| - 1];
      RemovedByEventTypeIsUnique(rest);
      PutKeepsUnique(RemovedByEventType(rest), last.key, last.value);
      if UniqueKeys(removedWith) {
        GetFinds(rest, last.key);
        assert forall i :: 0 <= i < |rest| ==> rest[i].key == removedWith[i].key;
        PutAbsentAppends(rest, last.key, last.value);
      }
    }
  }

  /** What enters the siblings, as a set: it does not depend on the order the variants were discovered in. */
  lemma {:induction false} SiblingsEnteringMembers(
    variants: seq<Option<VariantDeclaration>>, i: nat, n: nat, eventType: ContractEventType)
    requires i < |variants| && n <= |variants|
    ensures eventType in SiblingsEntering(variants, i, n) <==>
            exists j :: 0 <= j < n && AreSiblings(variants, i, j) && eventType in variants[j].value.enteringEventTypes
  {
    if n > 0 {
      SiblingsEnteringMembers(variants, i, n - 1, eventType);
    }
  }

  /**
   * The removal an event type has after cross-wiring: an existing one is kept, one is added on the event source for
   * exactly what enters a sibling, and nothing else is added. Discovery order plays no part.
   */
  lemma {:induction false} WiredRemovalOf(
    variants: seq<Option<VariantDeclaration>>, i: nat, existing: seq<RemovedWithRecord>, eventType: ContractEventType)
    requires i < |variants|
    ensures Get(WiredRemovals(variants, i, existing), eventType)
            == var own := Get(if HasSiblings(variants, i) then RemovedByEventType(existing) else existing, eventType);
               if own.Some? then own
               else if exists j :: 0 <= j < |variants| && AreSiblings(variants, i, j)
                                   && eventType in variants[j].value.enteringEventTypes
               then Some(REMOVED_ON_SOURCE)
               else None
  {
    SiblingsEnteringMembers(variants, i, |variants|, eventType);
    AddedRemovals(RemovedByEventType(existing), SiblingsEntering(variants, i, |variants|), eventType);
  }

  /**
   * Which removals each projection gets, by the declarations: two variants are siblings when they name the same
   * identity; a variant with a sibling removes on the event source whatever enters one, where it declares no removal
   * for it itself; a projection without siblings keeps what it declares.
   */
  lemma {:induction false} WiredByDeclaration(
    variants: seq<Option<VariantDeclaration>>, i: nat, existing: seq<RemovedWithRecord>, eventType: ContractEventType)
    requires i < |variants| && UniqueKeys(existing)
    ensures var siblings := set j | 0 <= j < |variants| && j != i && variants[i].Some? && variants[j].Some?
                                    && variants[j].value.identity == variants[i].value.identity;
            var wired := WiredRemovals(variants, i, existing);
            && UniqueKeys(wired)
            && (siblings == {} ==> wired == existing)
            && (forall k :: 0 <= k < |existing| && existing[k].key == eventType ==>
                  Get(wired, eventType) == Some(existing[k].value))
            && ((forall k :: 0 <= k < |existing| ==> existing[k].key != eventType) ==>
                  Get(wired, eventType)
                  == if exists j :: j in siblings && eventType in variants[j].value.enteringEventTypes
                     then Some(RemovedWithValue("$eventSourceId", "$eventSourceId")) else None)
  {
    hide RemovedByEventType, CrossWired;
    var siblings := set j | 0 <= j < |variants| && j != i && variants[i].Some? && variants[j].Some?
                            && variants[j].value.identity == variants[i].value.identity;
    forall j: nat | j < |variants| ensures AreSiblings(variants, i, j) <==> j in siblings {}
    WiredRemovalOf(variants, i, existing, eventType);
    RemovedByEventTypeIsUnique(existing);
    GetFinds(existing, eventType);
    WiredIsUnique(variants, i, existing);
  }

  lemma {:induction false} WiredIsUnique(
    variants: seq<Option<VariantDeclaration>>, i: nat, existing: seq<RemovedWithRecord>)
    requires i < |variants| && UniqueKeys(existing)
    ensures UniqueKeys(WiredRemovals(variants, i, existing))
  {
    RemovedByEventTypeIsUnique(existing);
    AddedRemovals(RemovedByEventType(existing), SiblingsEntering(variants, i, |variants|),
      ContractEventType("", 0, false));
  }

  lemma {:induction false} AddingPresentChangesNothing(
    removedWith: OrderedMap<ContractEventType, RemovedWithValue>, entering: seq<ContractEventType>)
    requires forall t :: t in entering ==> Has(removedWith, t)
    ensures AddRemovals(removedWith, entering) == removedWith
  {
    if entering != [] {
      AddingPresentChangesNothing(removedWith, entering[..|entering| - 1]);
      assert entering[|entering| - 1] in entering;
    }
  }

  /** Cross-wiring twice is cross-wiring once. */
  lemma {:induction false} CrossWiringIsIdempotent(
    variants: seq<Option<VariantDeclaration>>, i: nat, existing: seq<RemovedWithRecord>)
    requires i < |variants|
    ensures WiredRemovals(variants, i, WiredRemovals(variants, i, existing)) == WiredRemovals(variants, i, existing)
  {
    if HasSiblings(variants, i) {
      var entering := SiblingsEntering(variants, i, |variants|);
      var once := WiredRemovals(variants, i, existing);
      RemovedByEventTypeIsUnique(existing);
      forall t | t in entering ensures Has(once, t) {
        AddedRemovals(RemovedByEventType(existing), entering, t);
      }
      AddedRemovals(RemovedByEventType(existing), entering, ContractEventType("", 0, false));
      RemovedByEventTypeIsUnique(once);
      AddingPresentChangesNothing(once, entering);
    }
  }
}
