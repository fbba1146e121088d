/**
 * What a newer writer may add: records under numbers this reader does not know, in a request, in its definitions and in
 * their event types. The decoded request is the one the known records make up.
 */
module UnknownRecords {
  import opened Wrappers
  import opened ProtobufWire
  import opened SubscriptionContracts
  import opened SubscriptionRequests

  /** The records numbered up to a bound, in order. */
  function Known(fields: seq<Field>, bound: nat): seq<Field> {
    if fields == [] then []
    else if fields[0].number <= bound then [fields[0]] + Known(fields[1..], bound)
    else Known(fields[1..], bound)
  }

  /** Two event types that differ in unknown records only. */
  ghost predicate EventTypesAgree(a: Bytes, b: Bytes) {
    exists fs, gs :: IsEventTypeRecord(a, fs) && IsEventTypeRecord(b, gs) && Known(fs, 3) == Known(gs, 3)
  }

  /** Two records of a definition: the same one, or nested event types that agree. */
  ghost predicate DefinitionRecordsAgree(f: Field, g: Field) {
    || f == g
    || (f.number == g.number == 3 && f.payload.Delimited? && g.payload.Delimited?
       && EventTypesAgree(f.payload.bytes, g.payload.bytes))
  }

  /** Two definitions that differ in unknown records only, their own or those of their event types. */
  ghost predicate DefinitionsAgree(a: Bytes, b: Bytes) {
    exists fs, gs :: IsDefinitionRecord(a, fs) && IsDefinitionRecord(b, gs)
                     && Pairwise(DefinitionRecordsAgree, Known(fs, 3), Known(gs, 3))
  }

  ghost predicate AdditionsRecordsAgree(f: Field, g: Field) {
    || f == g
    || (f.number == g.number == 2 && f.payload.Delimited? && g.payload.Delimited?
       && DefinitionsAgree(f.payload.bytes, g.payload.bytes))
  }

  ghost predicate Pairwise(agree: (Field, Field) -> bool, fs: seq<Field>, gs: seq<Field>) {
    |fs| == |gs| && forall k :: 0 <= k < |fs| ==> agree(fs[k], gs[k])
  }

  /** Records the message passes over play no part in what it adds up to. */
  lemma {:induction false} UnknownAddNothing<M(
    !new)>(apply: (Field, M) -> M, fields: seq<Field>, bound: nat, message: M)
    requires forall f, m :: f in fields && f.number > bound ==> apply(f, m) == m
    ensures FoldFields(apply, fields, message) == FoldFields(apply, Known(fields, bound), message)
  {
    if fields != [] {
      assert fields[0] in fields && forall f :: f in fields[1..] ==> f in fields;
      UnknownAddNothing(apply, fields[1..], bound, apply(fields[0], message));
      if fields[0].number <= bound {
        assert Known(fields, bound)[1..] == Known(fields[1..], bound);
      }
    }
  }

  /** Records that a message takes alike, one by one, add up to the same. */
  lemma {:induction false} AlikeAddUpAlike<M(!new)>(apply: (Field, M) -> M, fs: seq<Field>, gs: seq<Field>, message: M)
    requires |fs| == |gs| && forall k, m :: 0 <= k < |fs| ==> apply(fs[k], m) == apply(gs[k], m)
    ensures FoldFields(apply, fs, message) == FoldFields(apply, gs, message)
  {
    if fs != [] {
      AlikeAddUpAlike(apply, fs[1..], gs[1..], apply(fs[0], message));
    }
  }

  lemma {:induction false} EventTypesDecodeAlike(a: Bytes, b: Bytes)
    requires EventTypesAgree(a, b)
    ensures ReadFields(EventTypeCases, a, 0, NO_EVENT_TYPE) == ReadFields(EventTypeCases, b, 0, NO_EVENT_TYPE)
  {
    hide ReadFields, EventTypeCases, SerializeAll, FoldFields;
    var fs, gs :| IsEventTypeRecord(a, fs) && IsEventTypeRecord(b, gs) && Known(fs, 3) == Known(gs, 3);
    EventTypeReads(fs, [], NO_EVENT_TYPE);
    EventTypeReads(gs, [], NO_EVENT_TYPE);
    assert a + [] == a && b + [] == b;
    UnknownAddNothing(ApplyEventType, fs, 3, NO_EVENT_TYPE);
    UnknownAddNothing(ApplyEventType, gs, 3, NO_EVENT_TYPE);
  }

  lemma {:induction false} DefinitionsDecodeAlike(a: Bytes, b: Bytes)
    requires DefinitionsAgree(a, b)
    ensures DefinitionOf(a) == DefinitionOf(b)
  {
    hide ReadFields, DefinitionCases, SerializeAll, FoldFields, DefinitionField, EventTypesAgree, Known;
    var fs, gs :| IsDefinitionRecord(a, fs) && IsDefinitionRecord(b, gs)
                  && Pairwise(DefinitionRecordsAgree, Known(fs, 3), Known(gs, 3));
    DefinitionReads(fs, [], NO_DEFINITION);
    DefinitionReads(gs, [], NO_DEFINITION);
    assert a + [] == a && b + [] == b;
    UnknownAddNothing(ApplyDefinition, fs, 3, NO_DEFINITION);
    UnknownAddNothing(ApplyDefinition, gs, 3, NO_DEFINITION);
    var known, others := Known(fs, 3), Known(gs, 3);
    forall k, m | 0 <= k < |known| ensures ApplyDefinition(known[k], m) == ApplyDefinition(others[k], m) {
      if known[k] != others[k] {
        EventTypesDecodeAlike(known[k].payload.bytes, others[k].payload.bytes);
      }
    }
    AlikeAddUpAlike(ApplyDefinition, known, others, NO_DEFINITION);
  }

  /**
   * Unknown records change nothing at any level: two requests whose known records agree, down to the definitions and
   * event types nested in them, decode to the same message, wherever unknown records stand in either.
   */
  lemma {:induction false} UnknownRecordsAreIgnored(fs: seq<Field>, gs: seq<Field>)
    requires forall f :: f in fs + gs ==> AdditionsField(f)
    requires Pairwise(AdditionsRecordsAgree, Known(fs, 2), Known(gs, 2))
    ensures ReadFields(AdditionsCases, SerializeAll(fs), 0, NO_ADDITIONS).Some?
    ensures ReadFields(AdditionsCases, SerializeAll(fs), 0, NO_ADDITIONS)
            == ReadFields(AdditionsCases, SerializeAll(gs), 0, NO_ADDITIONS)
  {
    hide ReadFields, AdditionsCases, SerializeAll, FoldFields, AdditionsField, DefinitionsAgree, DefinitionOf, Known;
    AdditionsRead(fs, [], NO_ADDITIONS);
    AdditionsRead(gs, [], NO_ADDITIONS);
    assert SerializeAll(fs) + [] == SerializeAll(fs) && SerializeAll(gs) + [] == SerializeAll(gs);
    UnknownAddNothing(ApplyAdditions, fs, 2, NO_ADDITIONS);
    UnknownAddNothing(ApplyAdditions, gs, 2, NO_ADDITIONS);
    var known, others := Known(fs, 2), Known(gs, 2);
    forall k, m | 0 <= k < |known| ensures ApplyAdditions(known[k], m) == ApplyAdditions(others[k], m) {
      if known[k] != others[k] {
        DefinitionsDecodeAlike(known[k].payload.bytes, others[k].payload.bytes);
      }
    }
    AlikeAddUpAlike(ApplyAdditions, known, others, NO_ADDITIONS);
  }

  /** Unknown records put anywhere leave the known ones. */
  lemma {:induction false} InsertedRecordsAreUnknown(
    before: seq<Field>, unknown: seq<Field>, after: seq<Field>, bound: nat)
    requires forall f :: f in unknown ==> f.number > bound
    ensures Known(before + unknown + after, bound) == Known(before + after, bound)
  {
    if before != [] {
      InsertedRecordsAreUnknown(before[1..], unknown, after, bound);
      assert (before + unknown + after)[1..] == before[1..] + unknown + after;
      assert (before + after)[1..] == before[1..] + after;
    } else if unknown != [] {
      InsertedRecordsAreUnknown(before, unknown[1..], after, bound);
      assert (before + unknown + after)[1..] == before + unknown[1..] + after;
    } else {
      assert before + unknown + after == before + after;
    }
  }

  /**
   * A definition with unknown records added, and with unknown records added to one of its event types, still agrees
   * with the one without them, so a request that carries it decodes as before.
   */
  lemma {:induction false} AddedToNestedAgrees(
    before: seq<Field>, after: seq<Field>, addedToDefinition: seq<Field>, typeBefore: seq<Field>, typeAfter: seq<Field>,
    addedToEventType: seq<Field>)
    requires forall f :: f in before + addedToDefinition + after ==> DefinitionField(f)
    requires forall f :: f in typeBefore + addedToEventType + typeAfter ==> EventTypeField(f)
    requires forall f :: f in addedToDefinition + addedToEventType ==> f.number > 3
    requires Fits(SerializeAll(typeBefore + addedToEventType + typeAfter)) && Fits(SerializeAll(typeBefore + typeAfter))
    ensures var grown := Field(3, Delimited(SerializeAll(typeBefore + addedToEventType + typeAfter)));
            var plain := Field(3, Delimited(SerializeAll(typeBefore + typeAfter)));
            DefinitionsAgree(SerializeAll(before + [grown] + addedToDefinition + after),
              SerializeAll(before + [plain] + after))
  {
    hide SerializeAll, EventTypeField;
    var grown := Field(3, Delimited(SerializeAll(typeBefore + addedToEventType + typeAfter)));
    var plain := Field(3, Delimited(SerializeAll(typeBefore + typeAfter)));
    InsertedRecordsAreUnknown(typeBefore, addedToEventType, typeAfter, 3);
    assert IsEventTypeRecord(grown.payload.bytes, typeBefore + addedToEventType + typeAfter);
    assert IsEventTypeRecord(plain.payload.bytes, typeBefore + typeAfter);
    assert DefinitionRecordsAgree(grown, plain);
    InsertedRecordsAreUnknown(before + [grown], addedToDefinition, after, 3);
    OneReplaced(before, grown, plain, after);
    var fs, gs := before + [grown] + addedToDefinition + after, before + [plain] + after;
    assert IsDefinitionRecord(SerializeAll(fs), fs) && IsDefinitionRecord(SerializeAll(gs), gs);
  }

  lemma {:induction false} OneReplaced(before: seq<Field>, f: Field, g: Field, after: seq<Field>)
    requires DefinitionRecordsAgree(f, g) && f.number == g.number <= 3
    ensures Pairwise(DefinitionRecordsAgree, Known(before + [f] + after, 3), Known(before + [g] + after, 3))
  {
    if before == [] {
      assert ([f] + after)[1..] == after && ([g] + after)[1..] == after;
      assert before + [f] + after == [f] + after && before + [g] + after == [g] + after;
    } else {
      OneReplaced(before[1..], f, g, after);
      assert (before + [f] + after)[1..] == before[1..] + [f] + after;
      assert (before + [g] + after)[1..] == before[1..] + [g] + after;
    }
  }
}
