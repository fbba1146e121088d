/**
 * When lowering is unsafe. For a definition that breaks a condition of the lowering theorem there are an evaluator, a
 * key, an event and an instance at which the lowered records and the original ones differ.
 */
module VariantExactness {
  import opened Wrappers
  import opened OrderedMaps
  import opened VariantReclassifier
  import opened VariantSemantics

  /** Lowering changes no update of an active instance by an event that does not enter the variant. */
  ghost predicate UpdatesPreserved(d: Definition, entering: set<ContractEventType>) {
    forall evaluate: Evaluate, k, e: Event, instance: Instance :: e.eventType !in entering ==>
      UpdateStep(evaluate, Lower(d, entering), k, e, Some(instance)) == UpdateStep(evaluate, d, k, e, Some(instance))
  }

  /** The same for the instances that have the given properties. */
  ghost predicate UpdatesPreservedOn(d: Definition, entering: set<ContractEventType>, properties: set<string>) {
    forall evaluate: Evaluate, k, e: Event, instance: Instance ::
      e.eventType !in entering && instance.Keys == properties ==>
        UpdateStep(evaluate, Lower(d, entering), k, e, Some(instance)) == UpdateStep(evaluate, d, k, e, Some(instance))
  }

  /**
   * Records of one event type that does not enter the variant set the properties they share by the same expression, as
   * far as a declared join of that type sets them too.
   */
  ghost predicate RecordsAgree(d: Definition, entering: set<ContractEventType>) {
    forall r, q :: r in d.from && q in d.from && r.key == q.key && r.key !in entering ==>
      SetAlike(r.value.properties, q.value.properties, JoinedProperties(d.join, r.key))
  }

  /** The properties that joins of an event type set. */
  function JoinedProperties(joins: seq<JoinRecord>, t: ContractEventType): set<string> {
    set j, p | j in joins && j.key == t && p in j.value.properties :: p
  }

  predicate SetAlike(a: map<string, string>, b: map<string, string>, properties: set<string>) {
    forall p :: p in properties && p in a && p in b ==> a[p] == b[p]
  }

  /** The properties a definition speaks of: those its joins correlate on, and those its records and joins set. */
  function Mentioned(d: Definition): set<string> {
    Correlated(d.join)
    + (set j, p | j in d.join && p in j.value.properties :: p)
    + (set r, p | r in d.from && p in r.value.properties :: p)
  }

  /** The properties the joins correlate on. */
  function Correlated(joins: seq<JoinRecord>): set<string> {
    set j | j in joins :: j.value.on
  }

  // ----- a property that record and join set differently -----

  /**
   * Keys are all the same text; every other value grows by a mark that says whether the expression is the given one.
   */
  function Marking(expression: string): Evaluate {
    (x: string, e: Event, previous: Option<string>) =>
      match previous
      case None => "K"
      case Some(value) => if value == "K" then "K" else value + Mark(x, expression)
  }

  function Mark(x: string, expression: string): string {
    if x == expression then "1" else "0"
  }

  /** The marks a list of records leaves on a property. */
  function RecordMarks(from: seq<FromRecord>, t: ContractEventType, p: string, expression: string): string {
    if from == [] then ""
    else
      var earlier, last := RecordMarks(from[..|from| - 1], t, p, expression), from[|from| - 1];
      if last.key == t && p in last.value.properties then earlier + Mark(last.value.properties[p], expression)
        else earlier
  }

  function JoinMarks(joins: seq<JoinRecord>, t: ContractEventType, variantKey: string, p: string, expression: string)
    : string
  {
    if joins == [] then ""
    else
      var earlier, last := JoinMarks(joins[..|joins| - 1], t, variantKey, p, expression), joins[|joins| - 1];
      if last.key == t && (last.value.on == variantKey || last.value.on != p) && p in last.value.properties
      then earlier + Mark(last.value.properties[p], expression) else earlier
  }

  /** The property holds its marks and every other correlated one the common key. */
  ghost predicate Marked(current: Option<Instance>, p: string, correlated: set<string>, value: string) {
    && current.Some? && p in current.value && current.value[p] == value && value != "" && value[0] == 't'
    && forall q :: q in correlated && q != p ==> q in current.value && current.value[q] == "K"
  }

  lemma {:induction false} RecordMarksOne(
    record: FromRecord, t: ContractEventType, p: string, expression: string, correlated: set<string>,
    current: Option<Instance>, value: string)
    requires Marked(current, p, correlated, value)
    ensures Marked(RecordStep(Marking(expression), record, "K", Event(t, "K", map[]), current), p, correlated,
                   if record.key == t && p in record.value.properties then
                     value + Mark(record.value.properties[p], expression) else value)
  {
  }

  lemma {:induction false} RecordsMark(
    from: seq<FromRecord>, t: ContractEventType, p: string, expression: string, correlated: set<string>,
    current: Option<Instance>, value: string)
    requires Marked(current, p, correlated, value)
    ensures Marked(FromStep(Marking(expression), from, "K", Event(t, "K", map[]), current), p, correlated,
                   value + RecordMarks(from, t, p, expression))
  {
    hide Marked, RecordStep;
    if from == [] {
      assert value + "" == value;
    } else {
      var rest, last := from[..|from| - 1], from[|from| - 1];
      RecordsMark(rest, t, p, expression, correlated, current, value);
      var e := Event(t, "K", map[]);
      var marks := RecordMarks(rest, t, p, expression);
      RecordMarksOne(last, t, p, expression, correlated, FromStep(Marking(expression), rest, "K", e, current),
        value + marks);
      if last.key == t && p in last.value.properties {
        assert value + marks + Mark(last.value.properties[p], expression)
          == value + (marks + Mark(last.value.properties[p], expression));
      }
    }
  }

  lemma {:induction false} JoinMarksOne(
    join: JoinRecord, t: ContractEventType, variantKey: string, p: string, expression: string, correlated: set<string>,
    current: Option<Instance>, value: string)
    requires Marked(current, p, correlated, value) && join.value.on in correlated
    ensures Marked(JoinStep(Marking(expression), variantKey, join, "K", Event(t, "K", map[]), current), p, correlated,
                   if join.key == t && (join.value.on == variantKey || join.value.on != p) && p in join.value.properties
                   then value + Mark(join.value.properties[p], expression) else value)
  {
    assert "K"[0] != 't';
  }

  lemma {:induction false} JoinsMark(
    joins: seq<JoinRecord>, t: ContractEventType, variantKey: string, p: string, expression: string,
    correlated: set<string>, current: Option<Instance>, value: string)
    requires Marked(current, p, correlated, value) && Correlated(joins) <= correlated
    ensures Marked(JoinsStep(Marking(expression), variantKey, joins, "K", Event(t, "K", map[]), current), p, correlated,
                   value + JoinMarks(joins, t, variantKey, p, expression))
  {
    hide Marked, JoinStep;
    if joins == [] {
      assert value + "" == value;
    } else {
      var rest, last := joins[..|joins| - 1], joins[|joins| - 1];
      assert last in joins && last.value.on in Correlated(joins);
      assert Correlated(rest) <= correlated by {
        assert forall j :: j in rest ==> j in joins && j.value.on in Correlated(joins);
      }
      JoinsMark(rest, t, variantKey, p, expression, correlated, current, value);
      var e := Event(t, "K", map[]);
      var marks := JoinMarks(rest, t, variantKey, p, expression);
      JoinMarksOne(last, t, variantKey, p, expression, correlated,
        JoinsStep(Marking(expression), variantKey, rest, "K", e, current), value + marks);
      if last.key == t && p in last.value.properties {
        assert value + marks + Mark(last.value.properties[p], expression)
          == value + (marks + Mark(last.value.properties[p], expression));
      }
    }
  }

  /** Records of the type that set a property by one expression leave marks of that expression only. */
  lemma {:induction false} AgreeingRecordsMark(
    from: seq<FromRecord>, t: ContractEventType, p: string, expression: string)
    requires forall r :: r in from && r.key == t && p in r.value.properties ==> r.value.properties[p] == expression
    ensures forall n :: 0 <= n < |RecordMarks(from, t, p, expression)| ==> RecordMarks(from, t, p, expression)[n] == '1'
    ensures (exists r :: r in from && r.key == t && p in r.value.properties) ==>
            RecordMarks(from, t, p, expression) != ""
  {
    if from != [] {
      var rest, last := from[..|from| - 1], from[|from| - 1];
      assert from == rest + [last] && last in from;
      assert forall r :: r in rest ==> r in from;
      AgreeingRecordsMark(rest, t, p, expression);
    }
  }

  lemma {:induction false} OtherExpressionMarks(
    joins: seq<JoinRecord>, j: JoinRecord, variantKey: string, p: string, expression: string)
    requires j in joins && p in j.value.properties && j.value.properties[p] != expression
    requires j.value.on == variantKey || j.value.on != p
    ensures '0' in JoinMarks(joins, j.key, variantKey, p, expression)
  {
    var rest, last := joins[..|joins| - 1], joins[|joins| - 1];
    assert joins == rest + [last];
    if j == last {
      var marks := JoinMarks(rest, j.key, variantKey, p, expression) + "0";
      assert marks[|marks| - 1] == '0';
    } else {
      OtherExpressionMarks(rest, j, variantKey, p, expression);
    }
  }

  lemma {:induction false} OnlyOnesCommute(ones: string, w: string, n: nat)
    requires ones != "" && (forall i :: 0 <= i < |ones| ==> ones[i] == '1') && ones + w == w + ones && n < |w|
    ensures w[n] == '1'
  {
    assert (ones + w)[n] == (w + ones)[n];
    if n >= |ones| {
      OnlyOnesCommute(ones, w, n - |ones|);
    }
  }

  lemma {:induction false} MentionedProperties(d: Definition, properties: set<string>)
    requires Mentioned(d) <= properties
    ensures Correlated(d.join) <= properties
    ensures forall j :: j in d.join ==> j.value.properties.Keys <= properties
    ensures forall r :: r in d.from ==> r.value.properties.Keys <= properties
  {
  }

  /** Records and a join of their type that set a shared property by different expressions: the order shows. */
  lemma {:induction false} DifferentExpressionsDiffer(
    d: Definition, entering: set<ContractEventType>, r: FromRecord, j: JoinRecord, p: string, properties: set<string>)
    requires Mentioned(d) <= properties
    requires RecordsAgree(d, entering) && r in d.from && j in d.join && r.key == j.key && j.key !in entering
    requires p in r.value.properties && p in j.value.properties && r.value.properties[p] != j.value.properties[p]
    requires j.value.on == d.variantKey || j.value.on != p
    ensures !UpdatesPreservedOn(d, entering, properties)
  {
    hide FromStep, JoinsStep, UpdateStep, Marking, RecordMarks, JoinMarks, Mentioned;
    MentionedProperties(d, properties);
    var t, a := j.key, r.value.properties[p];
    var evaluate, e, correlated := Marking(a), Event(t, "K", map[]), Correlated(d.join);
    var instance: Instance := (map q | q in properties :: "K")[p := "t"];
    assert instance.Keys == properties;
    var records, marks := RecordMarks(d.from, t, p, a), JoinMarks(d.join, t, d.variantKey, p, a);
    assert Marked(Some(instance), p, correlated, "t");
    assert p in JoinedProperties(d.join, t);
    AgreeingRecordsMark(d.from, t, p, a);
    OtherExpressionMarks(d.join, j, d.variantKey, p, a);
    RecordsMark(d.from, t, p, a, correlated, Some(instance), "t");
    JoinsMark(d.join, t, d.variantKey, p, a, correlated, FromStep(evaluate, d.from, "K", e, Some(instance)),
      "t" + records);
    JoinsMark(d.join, t, d.variantKey, p, a, correlated, Some(instance), "t");
    RecordsMark(d.from, t, p, a, correlated, JoinsStep(evaluate, d.variantKey, d.join, "K", e, Some(instance)),
      "t" + marks);
    OrdersOf(evaluate, d, entering, "K", e, instance);
    MarksDiffer(records, marks);
    assert UpdateStep(evaluate, Lower(d, entering), "K", e, Some(instance))
      != UpdateStep(evaluate, d, "K", e, Some(instance));
  }

  /** The two orders that lowering exchanges on an event that does not enter. */
  lemma {:induction false} OrdersOf(
    evaluate: Evaluate, d: Definition, entering: set<ContractEventType>, k: string, e: Event, instance: Instance)
    requires e.eventType !in entering
    ensures UpdateStep(evaluate, d, k, e, Some(instance))
         == JoinsStep(evaluate, d.variantKey, d.join, k, e, FromStep(evaluate, d.from, k, e, Some(instance)))
    ensures UpdateStep(evaluate, Lower(d, entering), k, e, Some(instance))
         == FromStep(evaluate, d.from, k, e, JoinsStep(evaluate, d.variantKey, d.join, k, e, Some(instance)))
  {
    hide FromStep, JoinsStep;
    LoweredUpdateOf(evaluate, d, entering, k, e, Some(instance));
  }

  lemma {:induction false} MarksDiffer(ones: string, marks: string)
    requires ones != "" && (forall i :: 0 <= i < |ones| ==> ones[i] == '1') && '0' in marks
    ensures "t" + ones + marks != "t" + marks + ones
  {
    if "t" + ones + marks == "t" + marks + ones {
      assert ("t" + ones + marks)[1..] == ones + marks && ("t" + marks + ones)[1..] == marks + ones;
      var n :| 0 <= n < |marks| && marks[n] == '0';
      OnlyOnesCommute(ones, marks, n);
    }
  }

  // ----- a property that a record writes and a join correlates on -----

  function Ones(n: nat): (s: string)
    ensures |s| == n && forall i :: 0 <= i < n ==> s[i] == '1'
  {
    seq(n, i => '1')
  }

  /** Keys are all the given text; every other value grows by one mark. */
  function Counting(key: string): Evaluate {
    (x: string, e: Event, previous: Option<string>) =>
      match previous
      case None => key
      case Some(value) => value + "1"
  }

  function WritesTo(properties: map<string, string>, p: string): nat {
    if p in properties then 1 else 0
  }

  /** How often the records of a type write a property. */
  function RecordWrites(from: seq<FromRecord>, t: ContractEventType, p: string): nat {
    if from == [] then 0
    else
      var last := from[|from| - 1];
      RecordWrites(from[..|from| - 1], t, p) + if last.key == t then WritesTo(last.value.properties, p) else 0
  }

  /** How often the joins of a type on the variant's own key write a property. */
  function OwnWrites(joins: seq<JoinRecord>, t: ContractEventType, variantKey: string, p: string): nat {
    if joins == [] then 0
    else
      var last := joins[|joins| - 1];
      OwnWrites(joins[..|joins| - 1], t, variantKey, p)
      + if last.key == t && last.value.on == variantKey then WritesTo(last.value.properties, p) else 0
  }

  /**
   * Two counters: how often `q` and how often `p` were written. A join on `q` acts when `q` was written exactly `n`
   * times.
   */
  datatype Counts = Counts(q: nat, p: nat)

  function JoinCounts(
    join: JoinRecord, t: ContractEventType, variantKey: string, q: string, n: nat, p: string, c: Counts): Counts
  {
    if join.key == t && (join.value.on == variantKey || (join.value.on == q && c.q == n))
    then Counts(c.q + WritesTo(join.value.properties, q), c.p + WritesTo(join.value.properties, p))
    else c
  }

  function JoinsCounts(
    joins: seq<JoinRecord>, t: ContractEventType, variantKey: string, q: string, n: nat, p: string, c: Counts): Counts
  {
    if joins == [] then c
    else JoinCounts(joins[|joins| - 1], t, variantKey, q, n, p,
      JoinsCounts(joins[..|joins| - 1], t, variantKey, q, n, p, c))
  }

  /**
   * The instance shows the counters: `q` by its marks, `p` by its length; no other correlated property is ever a key.
   */
  ghost predicate Counted(current: Option<Instance>, q: string, p: string, correlated: set<string>, c: Counts) {
    && current.Some? && q in current.value && current.value[q] == "q" + Ones(c.q)
    && p in current.value && |current.value[p]| == 1 + c.p
    && forall x :: x in correlated && x != q ==>
       x in current.value && current.value[x] != "" && current.value[x][0] == 'z'
  }

  lemma {:induction false} OneMore(n: nat)
    ensures "q" + Ones(n) + "1" == "q" + Ones(n + 1)
  {
  }

  lemma {:induction false} ApplyCounts(
    properties: map<string, string>, key: string, e: Event, instance: Instance, q: string, p: string,
    correlated: set<string>, c: Counts)
    requires Counted(Some(instance), q, p, correlated, c)
    ensures Counted(Some(ApplyProperties(Counting(key), properties, e, instance)), q, p, correlated,
                    Counts(c.q + WritesTo(properties, q), c.p + WritesTo(properties, p)))
  {
    hide Ones;
    OneMore(c.q);
  }

  lemma {:induction false} RecordCounts(
    record: FromRecord, t: ContractEventType, key: string, q: string, p: string, correlated: set<string>,
    current: Option<Instance>, c: Counts)
    requires Counted(current, q, p, correlated, c)
    ensures Counted(RecordStep(Counting(key), record, key, Event(t, key, map[]), current), q, p, correlated,
                    if record.key == t
                    then Counts(c.q + WritesTo(record.value.properties, q), c.p + WritesTo(record.value.properties, p))
                    else c)
  {
    hide ApplyProperties, Counted;
    IsCounted(current, q, p, correlated, c);
    ApplyCounts(record.value.properties, key, Event(t, key, map[]), current.value, q, p, correlated, c);
  }

  lemma {:induction false} RecordsCount(
    from: seq<FromRecord>, t: ContractEventType, key: string, q: string, p: string, correlated: set<string>,
    current: Option<Instance>, c: Counts)
    requires Counted(current, q, p, correlated, c)
    ensures Counted(FromStep(Counting(key), from, key, Event(t, key, map[]), current), q, p, correlated,
                    Counts(c.q + RecordWrites(from, t, q), c.p + RecordWrites(from, t, p)))
  {
    hide Counted, RecordStep, WritesTo, Counting;
    if from != [] {
      var rest, last := from[..|from| - 1], from[|from| - 1];
      RecordsCount(rest, t, key, q, p, correlated, current, c);
      RecordCounts(last, t, key, q, p, correlated, FromStep(Counting(key), rest, key, Event(t, key, map[]), current),
                   Counts(c.q + RecordWrites(rest, t, q), c.p + RecordWrites(rest, t, p)));
    }
  }

  lemma {:induction false} IsCounted(
    current: Option<Instance>, q: string, p: string, correlated: set<string>, c: Counts)
    requires Counted(current, q, p, correlated, c)
    ensures current.Some? && q in current.value && current.value[q] == "q" + Ones(c.q)
    ensures current == Some(current.value)
    ensures forall x :: x in correlated && x != q ==>
            x in current.value && current.value[x] != "" && current.value[x][0] == 'z'
  {
  }

  lemma {:induction false} JoinsCount(
    joins: seq<JoinRecord>, t: ContractEventType, variantKey: string, n: nat, q: string, p: string,
    correlated: set<string>, current: Option<Instance>, c: Counts)
    requires Counted(current, q, p, correlated, c) && Correlated(joins) <= correlated
    ensures var key := "q" + Ones(n);
            Counted(JoinsStep(Counting(key), variantKey, joins, key, Event(t, key, map[]), current), q, p, correlated,
                    JoinsCounts(joins, t, variantKey, q, n, p, c))
  {
    hide Counted, ApplyProperties, Ones;
    if joins != [] {
      var key := "q" + Ones(n);
      var rest, last := joins[..|joins| - 1], joins[|joins| - 1];
      assert last in joins && last.value.on in Correlated(joins);
      assert Correlated(rest) <= correlated by {
        assert forall j :: j in rest ==> j in joins && j.value.on in Correlated(joins);
      }
      JoinsCount(rest, t, variantKey, n, q, p, correlated, current, c);
      var e := Event(t, key, map[]);
      var before, counts := JoinsStep(Counting(key), variantKey, rest, key, e, current),
        JoinsCounts(rest, t, variantKey, q, n, p, c);
      IsCounted(before, q, p, correlated, counts);
      assert key[0] == 'q';
      ApplyCounts(last.value.properties, key, e, before.value, q, p, correlated, counts);
    }
  }

  // ----- the counters of the two orders -----

  /** Once `q` was written more than `n` times, only the joins on the variant's own key act. */
  lemma {:induction false} OnlyOwnJoinsAct(
    joins: seq<JoinRecord>, i: nat, j: nat, t: ContractEventType, variantKey: string, q: string, p: string, c: Counts)
    requires i <= |joins| && j <= |joins| && c.q > 0
    requires forall m :: 0 <= m < j && joins[m].key == t && joins[m].value.on == q && q != variantKey ==>
             joins[m].value.properties == map[]
    ensures var n := OwnWrites(joins[..j], t, variantKey, q);
            var after := JoinsCounts(joins[..i], t, variantKey, q, n, p, c);
            && after.p == c.p + OwnWrites(joins[..i], t, variantKey, p)
            && (i <= j ==> after.q == c.q + OwnWrites(joins[..i], t, variantKey, q))
            && (i >= j ==> after.q > n)
  {
    if i > 0 {
      OnlyOwnJoinsAct(joins, i - 1, j, t, variantKey, q, p, c);
      assert joins[..i][..i - 1] == joins[..i - 1];
    }
  }

  /**
   * Before the first effective join on `q`, and from nothing, it is written exactly as often as that join waits for.
   */
  lemma {:induction false} FirstJoinActs(
    joins: seq<JoinRecord>, i: nat, j: nat, t: ContractEventType, variantKey: string, q: string, p: string)
    requires i <= |joins| && j < |joins| && joins[j].key == t && joins[j].value.on == q != variantKey
             && p in joins[j].value.properties
    requires forall m :: 0 <= m < j && joins[m].key == t && joins[m].value.on == q ==>
             joins[m].value.properties == map[]
    ensures var n := OwnWrites(joins[..j], t, variantKey, q);
            var after := JoinsCounts(joins[..i], t, variantKey, q, n, p, Counts(0, 0));
            && (i <= j ==>
               after == Counts(OwnWrites(joins[..i], t, variantKey, q), OwnWrites(joins[..i], t, variantKey, p)))
            && (i > j ==> after.p > OwnWrites(joins[..i], t, variantKey, p))
  {
    if i > 0 {
      FirstJoinActs(joins, i - 1, j, t, variantKey, q, p);
      assert joins[..i][..i - 1] == joins[..i - 1];
    }
  }

  /** The first join on `q` of the event type that sets anything. */
  lemma {:induction false} FirstEffectiveJoin(joins: seq<JoinRecord>, j: JoinRecord) returns (i: nat)
    requires j in joins && j.value.properties != map[]
    ensures i < |joins| && joins[i].key == j.key && joins[i].value.on == j.value.on
            && joins[i].value.properties != map[]
    ensures forall m :: 0 <= m < i && joins[m].key == j.key && joins[m].value.on == j.value.on ==>
            joins[m].value.properties == map[]
  {
    if earlier :| earlier in joins[..|joins| - 1] && earlier.key == j.key && earlier.value.on == j.value.on
                  && earlier.value.properties != map[] {
      i := FirstEffectiveJoin(joins[..|joins| - 1], earlier);
      assert forall m :: 0 <= m <= i ==> joins[m] == joins[..|joins| - 1][m];
    } else {
      i := |joins| - 1;
      assert joins == joins[..i] + [joins[i]];
      assert forall m :: 0 <= m < i ==> joins[m] == joins[..i][m] && joins[m] in joins[..i];
    }
  }

  lemma {:induction false} RecordWritesSome(from: seq<FromRecord>, r: FromRecord, p: string)
    requires r in from && p in r.value.properties
    ensures RecordWrites(from, r.key, p) > 0
  {
    var rest, last := from[..|from| - 1], from[|from| - 1];
    assert from == rest + [last];
    if r != last {
      RecordWritesSome(rest, r, p);
    }
  }

  /**
   * A record that writes the property a join of its type correlates on, where the join sets something: the order shows.
   */
  lemma {:induction false} WrittenCorrelationDiffers(
    d: Definition, entering: set<ContractEventType>, r: FromRecord, j: JoinRecord, properties: set<string>)
    requires Mentioned(d) <= properties && r in d.from && j in d.join && r.key == j.key && j.key !in entering
    requires j.value.properties != map[] && j.value.on != d.variantKey && j.value.on in r.value.properties
    ensures !UpdatesPreservedOn(d, entering, properties)
  {
    hide FromStep, JoinsStep, UpdateStep, Counting, JoinsCounts, OwnWrites, RecordWrites, Mentioned;
    MentionedProperties(d, properties);
    var t, q, vk, joins := j.key, j.value.on, d.variantKey, d.join;
    var i := FirstEffectiveJoin(joins, j);
    var p :| p in joins[i].value.properties;
    var n := OwnWrites(joins[..i], t, vk, q);
    var key, correlated := "q" + Ones(n), Correlated(joins);
    var e := Event(t, key, map[]);
    assert joins[i] in joins && p in properties && q in properties && correlated <= properties;
    var instance: Instance := (map x | x in properties :: "z")[q := "q"];
    assert instance.Keys == properties;
    assert Ones(0) == "" && "q" + "" == "q";
    assert Counted(Some(instance), q, p, correlated, Counts(0, 0));
    var first := Counts(RecordWrites(d.from, t, q), RecordWrites(d.from, t, p));
    RecordWritesSome(d.from, r, q);
    assert joins[..|joins|] == joins;
    OnlyOwnJoinsAct(joins, |joins|, i, t, vk, q, p, first);
    FirstJoinActs(joins, |joins|, i, t, vk, q, p);
    RecordsCount(d.from, t, key, q, p, correlated, Some(instance), Counts(0, 0));
    JoinsCount(joins, t, vk, n, q, p, correlated, FromStep(Counting(key), d.from, key, e, Some(instance)), first);
    JoinsCount(joins, t, vk, n, q, p, correlated, Some(instance), Counts(0, 0));
    RecordsCount(d.from, t, key, q, p, correlated, JoinsStep(Counting(key), vk, joins, key, e, Some(instance)),
                 JoinsCounts(joins, t, vk, q, n, p, Counts(0, 0)));
    OrdersOf(Counting(key), d, entering, key, e, instance);
    assert UpdateStep(Counting(key), Lower(d, entering), key, e, Some(instance))
      != UpdateStep(Counting(key), d, key, e, Some(instance));
  }

  // ----- the exact conditions -----

  /**
   * Lowering changes no update of an active instance exactly when every record of a non-entering event type commutes
   * with every declared join of that type.
   */
  lemma {:induction false} UpdatesPreservedExactly(d: Definition, entering: set<ContractEventType>)
    requires RecordsAgree(d, entering)
    ensures UpdatesPreserved(d, entering) <==> JoinsCommute(d, entering)
  {
    if JoinsCommute(d, entering) {
      forall evaluate: Evaluate, k, e: Event, instance: Instance | e.eventType !in entering
        ensures UpdateStep(evaluate, Lower(d, entering), k, e, Some(instance))
                == UpdateStep(evaluate, d, k, e, Some(instance))
      {
        LoweredUpdate(evaluate, d, entering, k, e, Some(instance));
      }
    } else {
      var r, j :| r in d.from && j in d.join && r.key == j.key && r.key !in entering
                  && !Commutes(d.variantKey, r.value, j.value);
      BrokenPairDiffers(d, entering, r, j, Mentioned(d));
    }
  }

  lemma {:induction false} BrokenPairDiffers(
    d: Definition, entering: set<ContractEventType>, r: FromRecord, j: JoinRecord, properties: set<string>)
    requires Mentioned(d) <= properties
    requires RecordsAgree(d, entering) && r in d.from && j in d.join && r.key == j.key && r.key !in entering
    requires !Commutes(d.variantKey, r.value, j.value)
    ensures !UpdatesPreservedOn(d, entering, properties)
  {
    hide UpdatesPreservedOn, RecordsAgree, Mentioned;
    if j.value.properties != map[] && j.value.on != d.variantKey && j.value.on in r.value.properties {
      WrittenCorrelationDiffers(d, entering, r, j, properties);
    } else {
      var p :| p in r.value.properties && p in j.value.properties && r.value.properties[p] != j.value.properties[p];
      DifferentExpressionsDiffer(d, entering, r, j, p, properties);
    }
  }

  /**
   * Why the records have to agree: two records and two joins that set a property by the same two expressions in turn
   * break the pairwise condition, and lowering still changes nothing.
   */
  lemma {:induction false} DisagreeingRecordsMayBeHarmless(t: ContractEventType)
    ensures
      var a, b := map["p" := "a"], map["p" := "b"];
      var d := Definition("id", [Entry(t, FromValue("", "", a)), Entry(t, FromValue("", "", b))],
                          [Entry(t, JoinValue("id", "", a)), Entry(t, JoinValue("id", "", b))], []);
      UpdatesPreserved(d, {}) && !JoinsCommute(d, {})
  {
    var a, b := map["p" := "a"], map["p" := "b"];
    var r: FromRecord, q: FromRecord := Entry(t, FromValue("", "", a)), Entry(t, FromValue("", "", b));
    var i: JoinRecord, j: JoinRecord := Entry(t, JoinValue("id", "", a)), Entry(t, JoinValue("id", "", b));
    var d := Definition("id", [r, q], [i, j], []);
    assert r in d.from && j in d.join && "p" in a && "p" in b && a["p"] == "a" != b["p"];
    assert !Commutes("id", r.value, j.value);
    assert [r, q][..1] == [r] && [r][..0] == [] && [i, j][..1] == [i] && [i][..0] == [];
    forall evaluate: Evaluate, k, e: Event, instance: Instance
      ensures UpdateStep(evaluate, Lower(d, {}), k, e, Some(instance)) == UpdateStep(evaluate, d, k, e, Some(instance))
    {
      LoweredUpdateOf(evaluate, d, {}, k, e, Some(instance));
      forall current: Option<Instance> | current.Some?
        ensures FromStep(evaluate, [r, q], k, e, current) == JoinsStep(evaluate, "id", [i, j], k, e, current)
      {
        assert RecordStep(evaluate, r, k, e, current) == JoinStep(evaluate, "id", i, k, e, current);
        assert FromStep(evaluate, [r], k, e, current) == JoinsStep(evaluate, "id", [i], k, e, current);
      }
      FromActs(evaluate, [r, q], k, e, Some(instance));
      JoinsKeepActivity(evaluate, "id", [i, j], k, e, Some(instance));
    }
  }

  /** With removals first, lowering keeps every active instance active that the original keeps active, and no other. */
  ghost predicate ActivityPreserved(d: Definition, entering: set<ContractEventType>) {
    forall evaluate: Evaluate, k, e: Event, instance: Instance :: e.eventType !in entering ==>
      (Step(evaluate, true, Lower(d, entering), k, e, Some(instance)).Some? <==>
        Step(evaluate, true, d, k, e, Some(instance)).Some?)
  }

  /**
   * What an event that removes leaves of an active instance when removals act first: nothing of a lowered variant, and
   * of the original one whatever a record of that type creates anew.
   */
  lemma {:induction false} RemovalFirstLosesTheUpdate(
    evaluate: Evaluate, d: Definition, entering: set<ContractEventType>, k: string, e: Event, instance: Instance)
    requires e.eventType !in entering
    ensures Removes(evaluate, d.removedWith, k, e) ==>
            Step(evaluate, true, Lower(d, entering), k, e, Some(instance)).None?
    ensures Removes(evaluate, d.removedWith, k, e) ==>
              (Step(evaluate, true, d, k, e, Some(instance)).Some?
               <==> exists r :: r in d.from && r.key == e.eventType && KeyOf(evaluate, r.value.key, e) == k)
    ensures !Removes(evaluate, d.removedWith, k, e) ==>
              Step(evaluate, true, Lower(d, entering), k, e, Some(instance)).Some?
                && Step(evaluate, true, d, k, e, Some(instance)).Some?
  {
    hide FromStep, JoinsStep;
    LoweredUpdateOf(evaluate, d, entering, k, e, None);
    LoweredUpdateOf(evaluate, d, entering, k, e, Some(instance));
    FromActs(evaluate, d.from, k, e, None);
    FromActs(evaluate, d.from, k, e, Some(instance));
    JoinsKeepActivity(evaluate, d.variantKey, d.join, k, e, Some(instance));
    JoinsKeepActivity(evaluate, d.variantKey, d.join, k, e, FromStep(evaluate, d.from, k, e, None));
    JoinsKeepActivity(evaluate, d.variantKey, d.join, k, e, FromStep(evaluate, d.from, k, e, Some(instance)));
    FromActs(evaluate, d.from, k, e, JoinsStep(evaluate, d.variantKey, d.join, k, e, Some(instance)));
  }

  /**
   * With removals first, lowering preserves activity exactly when no non-entering event type both updates and removes.
   */
  lemma {:induction false} ActivityPreservedExactly(d: Definition, entering: set<ContractEventType>)
    ensures ActivityPreserved(d, entering) <==> NoUpdateRemoves(d, entering)
  {
    hide Step, Lower;
    forall evaluate: Evaluate, k, e: Event, instance: Instance | NoUpdateRemoves(d, entering)
      && e.eventType !in entering
      ensures Step(evaluate, true, Lower(d, entering), k, e, Some(instance)).Some? <==>
              Step(evaluate, true, d, k, e, Some(instance)).Some?
    {
      RemovalFirstLosesTheUpdate(evaluate, d, entering, k, e, instance);
    }
    if !NoUpdateRemoves(d, entering) {
      var r, q :| r in d.from && q in d.removedWith && r.key == q.key && r.key !in entering;
      var evaluate: Evaluate := (x, e, previous) => "K";
      var e := Event(r.key, "K", map[]);
      assert KeyOf(evaluate, r.value.key, e) == "K" && KeyOf(evaluate, q.value.key, e) == "K";
      assert Removes(evaluate, d.removedWith, "K", e);
      RemovalFirstLosesTheUpdate(evaluate, d, entering, "K", e, map[]);
      assert Step(evaluate, true, Lower(d, entering), "K", e, Some(map[])).None?
        && Step(evaluate, true, d, "K", e, Some(map[])).Some?;
    }
  }
}
