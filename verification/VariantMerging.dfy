/**
 * What merging shared handlers into a variant's own records means: exactly when the merged records do what the own and
 * the shared ones do one after the other, and what the merged and lowered variant then is over every run.
 */
module VariantMerging {
  import opened Wrappers
  import opened OrderedMaps
  import opened VariantReclassifier
  import opened VariantSemantics
  import opened VariantExactness

  /** All records a variant is to act on: its own and those of the shared handlers. */
  function Declared(from: seq<FromRecord>, globals: seq<GlobalHandler>): seq<FromRecord> {
    from + SharedRecords(globals)
  }

  /** Two key expressions that name the same instance on every event. */
  predicate KeyedAlike(a: string, b: string) {
    a == b || (KeyedOnSource(a) && KeyedOnSource(b))
  }

  ghost predicate AllKeyedAlike(records: seq<FromRecord>) {
    forall r, q :: r in records && q in records && r.key == q.key ==> KeyedAlike(r.value.key, q.value.key)
  }

  /** Different records of one event type set different properties. */
  ghost predicate SetDisjoint(records: seq<FromRecord>) {
    forall i, j :: 0 <= i < j < |records| && records[i].key == records[j].key ==>
      records[i].value.properties.Keys !! records[j].value.properties.Keys
  }

  /** Of a variant's own records of one event type, which merging keys by, only the last sets anything. */
  ghost predicate OnlyTheLastSets(from: seq<FromRecord>) {
    forall i, j :: 0 <= i < j < |from| && from[i].key == from[j].key ==> from[i].value.properties == map[]
  }

  ghost predicate MergesCleanly(from: seq<FromRecord>, globals: seq<GlobalHandler>) {
    globals != [] ==>
      AllKeyedAlike(Declared(from, globals)) && SetDisjoint(Declared(from, globals)) && OnlyTheLastSets(from)
  }

  /** On every event, key and instance, and under every evaluation, merging changes nothing. */
  ghost predicate MergingPreserved(from: seq<FromRecord>, globals: seq<GlobalHandler>) {
    forall evaluate: Evaluate, k, e: Event, current: Option<Instance> ::
      FromStep(evaluate, Merged(from, globals), k, e, current)
      == FromStep(evaluate, Declared(from, globals), k, e, current)
  }

  // ----- the merged record of an event type -----

  /** The one record the merge keeps for an event type. */
  function MergedValue(from: seq<FromRecord>, shared: seq<FromRecord>, t: ContractEventType): Option<FromValue> {
    Contribution(Get(ByEventType(from), t), shared, t)
  }

  function ValueStep(evaluate: Evaluate, value: Option<FromValue>, k: string, e: Event, current: Option<Instance>)
    : Option<Instance>
  {
    match value
    case None => current
    case Some(v) => RecordStep(evaluate, Entry(e.eventType, v), k, e, current)
  }

  lemma {:induction false} KeyedStep(
    evaluate: Evaluate, m: OrderedMap<ContractEventType, FromValue>, k: string, e: Event, current: Option<Instance>)
    requires UniqueKeys(m)
    ensures FromStep(evaluate, m, k, e, current) == ValueStep(evaluate, Get(m, e.eventType), k, e, current)
  {
    if m != [] {
      var rest, last := m[..|m| - 1], m[|m| - 1];
      KeyedStep(evaluate, rest, k, e, current);
      LastOfKeyed(m, e.eventType);
    }
  }

  /** A key is that of the last entry or one of the entries before it. */
  lemma {:induction false} LastOfKeyed(m: OrderedMap<ContractEventType, FromValue>, t: ContractEventType)
    requires UniqueKeys(m) && m != []
    ensures Get(m, t) == if m[|m| - 1].key == t then Some(m[|m| - 1].value) else Get(m[..|m| - 1], t)
    ensures m[|m| - 1].key == t ==> Get(m[..|m| - 1], t).None?
  {
    var rest, last := m[..|m| - 1], m[|m| - 1];
    assert m == rest + [last];
    GetOfAppend(rest, [last], t);
    GetFinds(rest, t);
    assert forall i :: 0 <= i < |rest| ==> rest[i] == m[i];
  }

  /** The merged records do what the one record kept for the event's type does. */
  lemma {:induction false} MergedStep(
    evaluate: Evaluate, from: seq<FromRecord>, globals: seq<GlobalHandler>, k: string, e: Event,
    current: Option<Instance>)
    requires globals != []
    ensures FromStep(evaluate, Merged(from, globals), k, e, current)
            == ValueStep(evaluate, MergedValue(from, SharedRecords(globals), e.eventType), k, e, current)
  {
    hide FromStep, ValueStep, UniqueKeys;
    ByEventTypeIsUnique(from);
    MergedRecordIsContribution(ByEventType(from), SharedRecords(globals), e.eventType);
    KeyedStep(evaluate, Merged(from, globals), k, e, current);
  }

  /** The last own record of an event type is the one merging starts from. */
  lemma {:induction false} OwnValue(from: seq<FromRecord>, t: ContractEventType)
    ensures Get(ByEventType(from), t)
            == if from == [] then None
               else if from[|from| - 1].key == t then Some(from[|from| - 1].value)
               else Get(ByEventType(from[..|from| - 1]), t)
  {
    if from != [] {
      GetAfterPut(ByEventType(from[..|from| - 1]), from[|from| - 1].key, from[|from| - 1].value, t);
    }
  }

  /** The merged record has the key of a record of its type, and each of its properties is set by one of them. */
  lemma {:induction false} MergedValueIsDeclared(from: seq<FromRecord>, shared: seq<FromRecord>, t: ContractEventType)
    ensures MergedValue(from, shared, t).None? <==> forall r :: r in from + shared ==> r.key != t
    ensures MergedValue(from, shared, t).Some? ==>
              var v := MergedValue(from, shared, t).value;
              && (exists r :: r in from + shared && r.key == t && r.value.key == v.key)
              && (forall p :: p in v.properties ==>
                    exists r :: r in from + shared && r.key == t && p in r.value.properties
                                && r.value.properties[p] == v.properties[p])
  {
    if shared != [] {
      var rest, last := shared[..|shared| - 1], shared[|shared| - 1];
      MergedValueIsDeclared(from, rest, t);
      assert from + shared == from + rest + [last];
      assert last in from + shared && forall r :: r in from + rest ==> r in from + shared;
    } else if from != [] {
      var rest, last := from[..|from| - 1], from[|from| - 1];
      MergedValueIsDeclared(rest, [], t);
      OwnValue(from, t);
      assert rest + [] == rest && from + [] == from && from == rest + [last];
      assert last in from && forall r :: r in rest ==> r in from;
    } else {
      assert from + shared == [];
    }
  }

  // ----- clean merges -----

  /** Two records keyed alike that set different properties act as the one that sets both. */
  lemma {:induction false} TwoAsOne(
    evaluate: Evaluate, v: FromValue, w: FromValue, both: FromValue, k: string, e: Event, current: Option<Instance>)
    requires KeyedAlike(v.key, w.key) && KeyedAlike(v.key, both.key)
    requires v.properties.Keys !! w.properties.Keys && both.properties == v.properties + w.properties
    ensures RecordStep(evaluate, Entry(e.eventType, w), k, e,
                       RecordStep(evaluate, Entry(e.eventType, v), k, e, current))
         == RecordStep(evaluate, Entry(e.eventType, both), k, e, current)
  {
    var instance := current.GetOr(map[]);
    var first := ApplyProperties(evaluate, v.properties, e, instance);
    var second, once := ApplyProperties(evaluate, w.properties, e, first),
      ApplyProperties(evaluate, both.properties, e, instance);
    hide ApplyProperties;
    forall x ensures x in second <==> x in once
      ensures x in second ==> second[x] == once[x]
    {
      AppliedAt(evaluate, v.properties, e, instance, x);
      AppliedAt(evaluate, w.properties, e, first, x);
      AppliedAt(evaluate, both.properties, e, instance, x);
    }
    assert second == once;
  }

  /** Conditions on records hold of the ones before the last, and say how the last one stands to those. */
  lemma {:induction false} BeforeTheLast(records: seq<FromRecord>, last: FromRecord)
    requires AllKeyedAlike(records + [last]) && SetDisjoint(records + [last])
    ensures AllKeyedAlike(records) && SetDisjoint(records)
    ensures forall r :: r in records && r.key == last.key ==>
              KeyedAlike(r.value.key, last.value.key) && r.value.properties.Keys !! last.value.properties.Keys
  {
    var longer := records + [last];
    assert forall r :: r in records ==> r in longer;
    assert forall i :: 0 <= i < |records| ==> records[i] == longer[i];
    assert last in longer && longer[|records|] == last;
  }

  /** Own records of which only the last of a type sets anything do what that one does. */
  lemma {:induction false} OwnRecordsStep(
    evaluate: Evaluate, from: seq<FromRecord>, k: string, e: Event, current: Option<Instance>)
    requires AllKeyedAlike(from) && SetDisjoint(from) && OnlyTheLastSets(from)
    ensures FromStep(evaluate, from, k, e, current)
            == ValueStep(evaluate, MergedValue(from, [], e.eventType), k, e, current)
  {
    hide AllKeyedAlike, SetDisjoint, OnlyTheLastSets, KeyedAlike, RecordStep, Get, ByEventType;
    OwnValue(from, e.eventType);
    if from != [] {
      var rest, last := from[..|from| - 1], from[|from| - 1];
      assert from == rest + [last] && rest + [] == rest;
      BeforeTheLast(rest, last);
      OwnBeforeTheLast(rest, last);
      OwnRecordsStep(evaluate, rest, k, e, current);
      MergedValueIsDeclared(rest, [], e.eventType);
      var earlier := MergedValue(rest, [], e.eventType);
      NotOfTheType(evaluate, last, k, e);
      if last.key == e.eventType && earlier.Some? {
        EarlierSetsNothing(rest, last, earlier.value);
        TwoAsOne(evaluate, earlier.value, last.value, last.value, k, e, current);
      }
    }
  }

  lemma {:induction false} OwnBeforeTheLast(rest: seq<FromRecord>, last: FromRecord)
    requires OnlyTheLastSets(rest + [last])
    ensures OnlyTheLastSets(rest)
  {
    assert forall i :: 0 <= i < |rest| ==> rest[i] == (rest + [last])[i];
  }

  lemma {:induction false} NotOfTheType(evaluate: Evaluate, record: FromRecord, k: string, e: Event)
    ensures record.key != e.eventType ==>
              forall current :: RecordStep(evaluate, record, k, e, current) == current
  {
  }

  lemma {:induction false} EarlierSetsNothing(rest: seq<FromRecord>, last: FromRecord, v: FromValue)
    requires OnlyTheLastSets(rest + [last])
    requires exists r :: r in rest && r.key == last.key && r.value.key == v.key
    requires forall p :: p in v.properties ==>
               exists r :: r in rest && r.key == last.key && p in r.value.properties
                           && r.value.properties[p] == v.properties[p]
    requires forall r :: r in rest && r.key == last.key ==> KeyedAlike(r.value.key, last.value.key)
    ensures v.properties == map[] && KeyedAlike(v.key, last.value.key)
  {
    forall r | r in rest && r.key == last.key ensures r.value.properties == map[] {
      var i :| 0 <= i < |rest| && rest[i] == r;
      assert (rest + [last])[i] == r && (rest + [last])[|rest|] == last;
    }
  }

  /** Clean merges: the merged record of an event type does what the declared ones do, one after the other. */
  lemma {:induction false} CleanMergeStep(
    evaluate: Evaluate, from: seq<FromRecord>, shared: seq<FromRecord>, k: string, e: Event, current: Option<Instance>)
    requires AllKeyedAlike(from + shared) && SetDisjoint(from + shared) && OnlyTheLastSets(from)
    ensures FromStep(evaluate, from + shared, k, e, current)
            == ValueStep(evaluate, MergedValue(from, shared, e.eventType), k, e, current)
  {
    hide AllKeyedAlike, SetDisjoint, OnlyTheLastSets, KeyedAlike, RecordStep;
    if shared == [] {
      assert from + shared == from;
      OwnRecordsStep(evaluate, from, k, e, current);
    } else {
      var rest, last := shared[..|shared| - 1], shared[|shared| - 1];
      assert from + shared == from + rest + [last];
      assert (from + shared)[..|from + shared| - 1] == from + rest;
      BeforeTheLast(from + rest, last);
      CleanMergeStep(evaluate, from, rest, k, e, current);
      MergedValueIsDeclared(from, rest, e.eventType);
      NotOfTheType(evaluate, last, k, e);
      var earlier := MergedValue(from, rest, e.eventType);
      if last.key == e.eventType && earlier.Some? {
        AlikeItself(earlier.value.key);
        TwoAsOne(evaluate, earlier.value, last.value, MergeShared(earlier, last.value), k, e, current);
      }
    }
  }

  lemma {:induction false} AlikeItself(key: string)
    ensures KeyedAlike(key, key)
  {
  }

  // ----- merges that are not clean -----

  lemma {:induction false} ActsElsewhere(evaluate: Evaluate, v: FromValue, k: string, e: Event)
    requires KeyOf(evaluate, v.key, e) != k
    ensures ValueStep(evaluate, Some(v), k, e, None) == None
  {
  }

  /** An evaluator and an event that tell two keys apart. */
  lemma {:induction false} KeysToldApart(a: string, b: string, t: ContractEventType)
    returns (evaluate: Evaluate, e: Event)
    requires !KeyedAlike(a, b)
    ensures e.eventType == t && KeyOf(evaluate, a, e) == "own" && KeyOf(evaluate, b, e) == "other"
  {
    evaluate := (x, e, previous) => if x == a then "own" else "other";
    e := Event(t, if KeyedOnSource(a) then "own" else "other", map[]);
  }

  /** A shared key that differs from the one the merge keeps is dropped: the record acts on another instance. */
  lemma {:induction false} DroppedKeyDiffers(from: seq<FromRecord>, globals: seq<GlobalHandler>, r: FromRecord)
    requires globals != [] && r in Declared(from, globals)
    requires var v := MergedValue(from, SharedRecords(globals), r.key);
             v.Some? ==> !KeyedAlike(r.value.key, v.value.key)
    ensures !MergingPreserved(from, globals)
  {
    hide FromStep, MergedValue, Merged, ValueStep, KeyedAlike, KeyOf;
    MergedValueIsDeclared(from, SharedRecords(globals), r.key);
    var v := MergedValue(from, SharedRecords(globals), r.key).value;
    var evaluate, e := KeysToldApart(r.value.key, v.key, r.key);
    MergedStep(evaluate, from, globals, "own", e, None);
    ActsElsewhere(evaluate, v, "own", e);
    FromActs(evaluate, Declared(from, globals), "own", e, None);
    assert FromStep(evaluate, Merged(from, globals), "own", e, None)
        != FromStep(evaluate, Declared(from, globals), "own", e, None);
  }

  lemma {:induction false} KeyedWrites(m: OrderedMap<ContractEventType, FromValue>, t: ContractEventType, p: string)
    requires UniqueKeys(m)
    ensures RecordWrites(m, t, p) == match Get(m, t) { case None => 0 case Some(v) => WritesTo(v.properties, p) }
  {
    if m != [] {
      KeyedWrites(m[..|m| - 1], t, p);
      LastOfKeyed(m, t);
    }
  }

  function ValueWrites(value: Option<FromValue>, p: string): nat {
    match value case None => 0 case Some(v) => WritesTo(v.properties, p)
  }

  /** A property written more often by the declared records than by the merged one shows how often. */
  lemma {:induction false} FewerWritesDiffer(
    from: seq<FromRecord>, globals: seq<GlobalHandler>, t: ContractEventType, p: string)
    requires globals != []
    requires RecordWrites(Declared(from, globals), t, p) != ValueWrites(MergedValue(from, SharedRecords(globals), t), p)
    ensures !MergingPreserved(from, globals)
  {
    hide FromStep, RecordWrites, Counting, UniqueKeys;
    var m, records := Merged(from, globals), Declared(from, globals);
    ByEventTypeIsUnique(from);
    MergedRecordIsContribution(ByEventType(from), SharedRecords(globals), t);
    KeyedWrites(m, t, p);
    var instance: Instance := map[p := "q"];
    var e := Event(t, "q", map[]);
    assert Ones(0) == "" && "q" + "" == "q";
    RecordsCount(m, t, "q", p, p, {}, Some(instance), Counts(0, 0));
    RecordsCount(records, t, "q", p, p, {}, Some(instance), Counts(0, 0));
    assert FromStep(Counting("q"), m, "q", e, Some(instance))
      != FromStep(Counting("q"), records, "q", e, Some(instance));
  }

  lemma {:induction false} WritesAppend(a: seq<FromRecord>, b: seq<FromRecord>, t: ContractEventType, p: string)
    ensures RecordWrites(a + b, t, p) == RecordWrites(a, t, p) + RecordWrites(b, t, p)
  {
    if b == [] {
      assert a + b == a;
    } else {
      WritesAppend(a, b[..|b| - 1], t, p);
      assert (a + b)[..|a| + |b| - 1] == a + b[..|b| - 1];
    }
  }

  lemma {:induction false} TwoWrites(records: seq<FromRecord>, i: nat, j: nat, p: string)
    requires i < j < |records| && records[i].key == records[j].key
    requires p in records[i].value.properties && p in records[j].value.properties
    ensures RecordWrites(records, records[i].key, p) >= 2
  {
    var t := records[i].key;
    assert records == records[..j] + records[j..] && records[i] in records[..j] && records[j] in records[j..];
    WritesAppend(records[..j], records[j..], t, p);
    RecordWritesSome(records[..j], records[i], p);
    RecordWritesSome(records[j..], records[j], p);
  }

  /** Merging the shared records in adds at most their own writes. */
  lemma {:induction false} MergedWritesAtMost(
    own: Option<FromValue>, shared: seq<FromRecord>, t: ContractEventType, p: string)
    ensures ValueWrites(Contribution(own, shared, t), p) <= ValueWrites(own, p) + RecordWrites(shared, t, p)
  {
    if shared != [] {
      MergedWritesAtMost(own, shared[..|shared| - 1], t, p);
    }
  }

  /** An own record that is not the last of its type is lost: what it writes is written once less. */
  lemma {:induction false} LostRecordWrites(from: seq<FromRecord>, i: nat, j: nat, p: string)
    requires i < j < |from| && from[i].key == from[j].key && p in from[i].value.properties
    ensures RecordWrites(from, from[i].key, p) > ValueWrites(Get(ByEventType(from), from[i].key), p)
  {
    var t, rest, last := from[i].key, from[..|from| - 1], from[|from| - 1];
    OwnValue(from, t);
    if last.key == t {
      assert rest[i] == from[i] && from[i] in rest;
      RecordWritesSome(rest, from[i], p);
    } else {
      assert rest[i] == from[i] && rest[j] == from[j];
      LostRecordWrites(rest, i, j, p);
    }
  }

  // ----- the exact condition -----

  /**
   * Merging shared handlers in changes nothing, on any event, key and instance and under any evaluation, exactly when
   * the records of each event type are keyed alike and set different properties, and no own record is lost that sets
   * one.
   */
  lemma {:induction false} MergingPreservedExactly(from: seq<FromRecord>, globals: seq<GlobalHandler>)
    ensures MergingPreserved(from, globals) <==> MergesCleanly(from, globals)
  {
    hide MergingPreserved, MergesCleanly;
    if globals == [] {
      assert Declared(from, globals) == from;
      NothingToMerge(from);
    } else if MergesCleanly(from, globals) {
      CleanMerge(from, globals);
    } else {
      UncleanMerge(from, globals);
    }
  }

  lemma {:induction false} NothingToMerge(from: seq<FromRecord>)
    ensures MergingPreserved(from, []) && MergesCleanly(from, [])
  {
    assert Declared(from, []) == from;
  }

  lemma {:induction false} CleanMerge(from: seq<FromRecord>, globals: seq<GlobalHandler>)
    requires globals != [] && MergesCleanly(from, globals)
    ensures MergingPreserved(from, globals)
  {
    hide FromStep, AllKeyedAlike, SetDisjoint, OnlyTheLastSets;
    forall evaluate: Evaluate, k, e: Event, current: Option<Instance>
      ensures FromStep(evaluate, Merged(from, globals), k, e, current)
           == FromStep(evaluate, Declared(from, globals), k, e, current)
    {
      CleanMergeStep(evaluate, from, SharedRecords(globals), k, e, current);
      MergedStep(evaluate, from, globals, k, e, current);
    }
  }

  lemma {:induction false} UnlikeKeysDiffer(
    from: seq<FromRecord>, globals: seq<GlobalHandler>, r: FromRecord, q: FromRecord)
    requires globals != [] && r in Declared(from, globals) && q in Declared(from, globals) && r.key == q.key
    requires !KeyedAlike(r.value.key, q.value.key)
    ensures !MergingPreserved(from, globals)
  {
    hide MergingPreserved, MergedValue;
    var v := MergedValue(from, SharedRecords(globals), r.key);
    if v.Some? && KeyedAlike(r.value.key, v.value.key) {
      DroppedKeyDiffers(from, globals, q);
    } else {
      DroppedKeyDiffers(from, globals, r);
    }
  }

  lemma {:induction false} OverlapDiffers(
    from: seq<FromRecord>, globals: seq<GlobalHandler>, i: nat, j: nat, p: string)
    requires globals != [] && i < j < |Declared(from, globals)|
    requires var records := Declared(from, globals);
             && records[i].key == records[j].key
             && p in records[i].value.properties && p in records[j].value.properties
    ensures !MergingPreserved(from, globals)
  {
    hide MergingPreserved, MergedValue, Declared;
    var records := Declared(from, globals);
    TwoWrites(records, i, j, p);
    FewerWritesDiffer(from, globals, records[i].key, p);
  }

  lemma {:induction false} UncleanMerge(from: seq<FromRecord>, globals: seq<GlobalHandler>)
    requires globals != [] && !MergesCleanly(from, globals)
    ensures !MergingPreserved(from, globals)
  {
    hide MergingPreserved, Declared, KeyedAlike;
    var records := Declared(from, globals);
    if !AllKeyedAlike(records) {
      var r, q :| r in records && q in records && r.key == q.key && !KeyedAlike(r.value.key, q.value.key);
      UnlikeKeysDiffer(from, globals, r, q);
    } else if !SetDisjoint(records) {
      var i, j, p :| 0 <= i < j < |records| && records[i].key == records[j].key
                     && p in records[i].value.properties && p in records[j].value.properties;
      OverlapDiffers(from, globals, i, j, p);
    } else {
      var i, j :| 0 <= i < j < |from| && from[i].key == from[j].key && from[i].value.properties != map[];
      var p :| p in from[i].value.properties;
      LostWritesDiffer(from, globals, i, j, p);
    }
  }

  lemma {:induction false} LostWritesDiffer(
    from: seq<FromRecord>, globals: seq<GlobalHandler>, i: nat, j: nat, p: string)
    requires globals != [] && i < j < |from| && from[i].key == from[j].key && p in from[i].value.properties
    ensures !MergingPreserved(from, globals)
  {
    hide MergingPreserved;
    var t := from[i].key;
    LostRecordWrites(from, i, j, p);
    MergedWritesAtMost(Get(ByEventType(from), t), SharedRecords(globals), t, p);
    WritesAppend(from, SharedRecords(globals), t, p);
    FewerWritesDiffer(from, globals, t, p);
  }

  // ----- merged and lowered -----

  /** A variant as its handlers declare it: its own records and then the shared ones. */
  function AsDeclared(d: Definition, globals: seq<GlobalHandler>): Definition {
    d.(from := Declared(d.from, globals))
  }

  function AsMerged(d: Definition, globals: seq<GlobalHandler>): Definition {
    d.(from := Merged(d.from, globals))
  }

  /** A merged record sets nothing by another expression than some declared record of its type. */
  lemma {:induction false} MergedRecordsAreDeclared(from: seq<FromRecord>, globals: seq<GlobalHandler>, r: FromRecord)
    requires r in Merged(from, globals)
    ensures exists q :: q in Declared(from, globals) && q.key == r.key
    ensures forall p :: p in r.value.properties ==>
              exists q :: q in Declared(from, globals) && q.key == r.key && p in q.value.properties
                          && q.value.properties[p] == r.value.properties[p]
  {
    if globals == [] {
      assert r in Declared(from, globals);
    } else {
      var m := Merged(from, globals);
      ByEventTypeIsUnique(from);
      MergedRecordIsContribution(ByEventType(from), SharedRecords(globals), r.key);
      var i :| 0 <= i < |m| && m[i] == r;
      GetFinds(m, r.key);
      MergedValueIsDeclared(from, SharedRecords(globals), r.key);
    }
  }

  /** What is safe to lower as declared is safe to lower as merged. */
  lemma {:induction false} MergedIsSafeToLower(
    d: Definition, globals: seq<GlobalHandler>, entering: set<ContractEventType>, removalFirst: bool)
    requires SafeToLower(AsDeclared(d, globals), entering, removalFirst)
    ensures SafeToLower(AsMerged(d, globals), entering, removalFirst)
  {
    hide Merged, Declared;
    forall r, j | r in Merged(d.from, globals) && j in d.join && r.key == j.key && r.key !in entering
      ensures Commutes(d.variantKey, r.value, j.value)
    {
      MergedRecordsAreDeclared(d.from, globals, r);
    }
    forall r, q | r in Merged(d.from, globals) && q in d.removedWith && r.key == q.key && removalFirst
      ensures r.key in entering
    {
      MergedRecordsAreDeclared(d.from, globals, r);
    }
  }

  lemma {:induction false} MergedFold(
    evaluate: Evaluate, removalFirst: bool, d: Definition, globals: seq<GlobalHandler>, k: string, events: seq<Event>)
    requires MergingPreserved(d.from, globals)
    ensures Fold(evaluate, removalFirst, AsMerged(d, globals), k, events)
         == Fold(evaluate, removalFirst, AsDeclared(d, globals), k, events)
  {
    hide Merged, Declared, FromStep, JoinsStep, Removes;
    if events != [] {
      MergedFold(evaluate, removalFirst, d, globals, k, events[..|events| - 1]);
    }
  }

  /**
   * Merging and then lowering preserve meaning over every run: an active instance was last entered by an entering
   * event, has been active since, and is what the own and the shared records, one after the other, give from that event
   * on.
   */
  lemma {:induction false} MergingAndLoweringPreserveMeaning(
    evaluate: Evaluate, removalFirst: bool, d: Definition, globals: seq<GlobalHandler>,
    entering: set<ContractEventType>, k: string, events: seq<Event>)
    returns (start: nat)
    requires MergesCleanly(d.from, globals) && SafeToLower(AsDeclared(d, globals), entering, removalFirst)
    ensures start <= |events|
    ensures var compiled := Lower(AsMerged(d, globals), entering);
            && (Fold(evaluate, removalFirst, compiled, k, events).None? ==> start == |events|)
            && (Fold(evaluate, removalFirst, compiled, k, events).Some? ==>
                  && start < |events| && events[start].eventType in entering
                  && Fold(evaluate, removalFirst, compiled, k, events[..start]).None?
                  && (forall n :: start < n <= |events| ==>
                        Fold(evaluate, removalFirst, compiled, k, events[..n]).Some?)
                  && FoldSince(evaluate, removalFirst, AsDeclared(d, globals), k, events, start)
                     == Fold(evaluate, removalFirst, compiled, k, events))
  {
    hide Fold, Lower, AsMerged, AsDeclared, SafeToLower, MergesCleanly, MergingPreserved;
    MergingPreservedExactly(d.from, globals);
    MergedIsSafeToLower(d, globals, entering, removalFirst);
    start := LoweringPreservesMeaning(evaluate, removalFirst, AsMerged(d, globals), entering, k, events);
    MergedFold(evaluate, removalFirst, d, globals, k, events[start..]);
  }
}
