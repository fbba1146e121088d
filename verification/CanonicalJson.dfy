/**
 * Canonical JSON: object keys sorted at every level, array order kept.
 *
 * Texts are sequences of UTF-16 code units, as the language compares them. Objects enumerate array indices first, by
 * number, and then the other keys in the order they were set; that is the order of a canonical object's keys. Two
 * values have the same canonical form exactly when they differ in the order of object members only.
 */
module CanonicalJson {
  type CodeUnit = u: int | 0 <= u < 0x1_0000

  type Text = seq<CodeUnit>

  const QUOTE: CodeUnit := 34
  const COMMA: CodeUnit := 44
  const MINUS: CodeUnit := 45
  const COLON: CodeUnit := 58
  const OPEN_LIST: CodeUnit := 91
  const BACKSLASH: CodeUnit := 92
  const CLOSE_LIST: CodeUnit := 93
  const OPEN_OBJECT: CodeUnit := 123
  const CLOSE_OBJECT: CodeUnit := 125

  const NULL_TEXT: Text := [110, 117, 108, 108]
  const TRUE_TEXT: Text := [116, 114, 117, 101]
  const FALSE_TEXT: Text := [102, 97, 108, 115, 101]

  predicate IsDigit(u: CodeUnit) {
    48 <= u <= 57
  }

  /** A digit, a sign, the decimal point or the mark of an exponent. */
  predicate IsNumberUnit(u: CodeUnit) {
    IsDigit(u) || u in {43, MINUS, 46, 69, 101}
  }

  /** The units of numbers, by their characters. */
  lemma {:induction false} NumberUnits(u: CodeUnit)
    ensures IsNumberUnit(u) <==>
            || '0' as int <= u <= '9' as int || u == '+' as int || u == '-' as int || u == '.' as int
            || u == 'E' as int || u == 'e' as int
  {
  }

  /** A finite number, named by its decimal text: fractions and exponents included. */
  type Numeral = s: Text |
    s != [] && (s[0] == MINUS || IsDigit(s[0])) && forall i :: 0 <= i < |s| ==> IsNumberUnit(s[i])
    witness [48]

  datatype Member = Member(key: Text, value: Json)

  datatype Json =
    | Null
    | Bool(on: bool)
    | Num(numeral: Numeral)
    | Str(text: Text)
    | Arr(items: seq<Json>)
    | Obj(members: seq<Member>)

  ghost predicate UniqueNames(members: seq<Member>) {
    forall i, j :: 0 <= i < j < |members| ==> members[i].key != members[j].key
  }

  /** A value whose objects name each member once. */
  ghost predicate WellFormed(j: Json) {
    match j
    case Arr(items) => forall i :: 0 <= i < |items| ==> WellFormed(items[i])
    case Obj(members) => UniqueNames(members) && forall i :: 0 <= i < |members| ==> WellFormed(members[i].value)
    case _ => true
  }

  // ----- the order of keys -----

  /** The digits of a natural number. */
  function Digits(n: nat): (s: Text)
    ensures s != [] && forall i :: 0 <= i < |s| ==> IsDigit(s[i])
  {
    if n < 10 then [48 + n] else Digits(n / 10) + [48 + n % 10]
  }

  function NumberOf(s: Text): nat
    requires forall i :: 0 <= i < |s| ==> IsDigit(s[i])
  {
    if s == [] then 0
    else
      assert IsDigit(s[|s| - 1]);
      10 * NumberOf(s[..|s| - 1]) + (s[|s| - 1] as int - 48)
  }

  /** An array index: objects enumerate these keys first, by number. */
  predicate IsIndex(key: Text) {
    && key != [] && (forall i :: 0 <= i < |key| ==> IsDigit(key[i]))
    && NumberOf(key) < 0xFFFF_FFFF && Digits(NumberOf(key)) == key
  }

  /** An index is zero, or digits without a leading zero below 4294967295; its number is read in base ten. */
  lemma {:induction false} IndexByDigits(key: Text)
    ensures IsIndex(key) <==>
            && key != [] && (forall i :: 0 <= i < |key| ==> 48 <= key[i] < 58)
            && (key[0] == 48 ==> |key| == 1) && NumberOf(key) < 4294967295
    ensures (forall i :: 0 <= i < |key| ==> IsDigit(key[i])) && key != [] ==>
              NumberOf(key) == 10 * NumberOf(key[..|key| - 1]) + key[|key| - 1] - 48
    ensures NumberOf([]) == 0
  {
    if key != [] && forall i :: 0 <= i < |key| ==> IsDigit(key[i]) {
      DigitsOfNumber(key);
    }
  }

  /** The digits of a number have no leading zero, and give its numeral back when that has none. */
  lemma {:induction false} DigitsOfNumber(key: Text)
    requires key != [] && forall i :: 0 <= i < |key| ==> IsDigit(key[i])
    ensures Digits(NumberOf(key)) == key <==> (key[0] == 48 ==> |key| == 1)
    ensures key[0] != 48 ==> NumberOf(key) > 0
  {
    hide Digits, NumberOf;
    var rest, last := key[..|key| - 1], key[|key| - 1];
    assert key == rest + [last];
    assert IsDigit(last);
    NumberStep(key);
    DigitsStep(NumberOf(key));
    if rest != [] {
      DigitsOfNumber(rest);
      if key[0] != 48 {
        assert NumberOf(key) / 10 == NumberOf(rest) && NumberOf(key) % 10 == last - 48;
      } else {
        NoLeadingZero(NumberOf(key));
      }
    } else {
      assert NumberOf(key) == last - 48;
    }
  }

  lemma {:induction false} NumberStep(key: Text)
    requires key != [] && forall i :: 0 <= i < |key| ==> IsDigit(key[i])
    ensures NumberOf(key) == 10 * NumberOf(key[..|key| - 1]) + key[|key| - 1] - 48
    ensures NumberOf([]) == 0
  {
  }

  lemma {:induction false} DigitsStep(n: nat)
    ensures Digits(n) == if n < 10 then [48 + n] else Digits(n / 10) + [48 + n % 10]
  {
  }

  lemma {:induction false} NoLeadingZero(n: nat)
    ensures n > 0 ==> Digits(n)[0] != 48
    ensures n == 0 ==> Digits(n) == [48]
  {
    if n >= 10 {
      NoLeadingZero(n / 10);
    }
  }

  /**
   * Indices come first, by number; the other keys follow unit by unit, a key before those it is the beginning of.
   */
  lemma {:induction false} KeysByUnits(a: Text, b: Text, rest: Text)
    ensures IsIndex(a) && IsIndex(b) ==> (Before(a, b) <==> NumberOf(a) < NumberOf(b))
    ensures IsIndex(a) && !IsIndex(b) ==> Before(a, b) && !Before(b, a)
    ensures !IsIndex(a) && !IsIndex(a + rest) && rest != [] ==> Before(a, a + rest)
    ensures a != [] && b != [] && a[0] < b[0] && !IsIndex(rest + a) && !IsIndex(rest + b) ==>
              Before(rest + a, rest + b) && !Before(rest + b, rest + a)
  {
    hide IsIndex;
    if rest != [] {
      UnitsBeforeLonger(a, rest);
    }
    if a != [] && b != [] && a[0] < b[0] {
      UnitsBeforeAfterCommon(rest, a, b);
    }
  }

  lemma {:induction false} UnitsBeforeLonger(a: Text, rest: Text)
    requires rest != []
    ensures UnitsBefore(a, a + rest)
  {
    if a != [] {
      assert (a + rest)[1..] == a[1..] + rest;
      UnitsBeforeLonger(a[1..], rest);
    } else {
      assert a + rest == rest;
    }
  }

  lemma {:induction false} UnitsBeforeAfterCommon(common: Text, a: Text, b: Text)
    requires a != [] && b != [] && a[0] < b[0]
    ensures UnitsBefore(common + a, common + b) && !UnitsBefore(common + b, common + a)
  {
    if common == [] {
      assert common + a == a && common + b == b;
    } else {
      assert (common + a)[1..] == common[1..] + a && (common + b)[1..] == common[1..] + b;
      UnitsBeforeAfterCommon(common[1..], a, b);
    }
  }

  predicate UnitsBefore(a: Text, b: Text) {
    if b == [] then false
    else if a == [] then true
    else if a[0] != b[0] then a[0] < b[0]
    else UnitsBefore(a[1..], b[1..])
  }

  /** The order in which an object built from sorted keys enumerates them. */
  predicate Before(a: Text, b: Text) {
    if IsIndex(a) then !IsIndex(b) || NumberOf(a) < NumberOf(b)
    else !IsIndex(b) && UnitsBefore(a, b)
  }

  lemma {:induction false} UnitsOrder(a: Text, b: Text, c: Text)
    ensures UnitsBefore(a, b) || UnitsBefore(b, a) || a == b
    ensures !(UnitsBefore(a, b) && UnitsBefore(b, a))
    ensures UnitsBefore(a, b) && UnitsBefore(b, c) ==> UnitsBefore(a, c)
  {
    if a != [] && b != [] {
      UnitsOrder(a[1..], b[1..], if c == [] then [] else c[1..]);
      assert a == [a[0]] + a[1..] && b == [b[0]] + b[1..];
    }
  }

  lemma {:induction false} KeyOrder(a: Text, b: Text, c: Text)
    ensures Before(a, b) || Before(b, a) || a == b
    ensures !(Before(a, b) && Before(b, a)) && !Before(a, a)
    ensures Before(a, b) && Before(b, c) ==> Before(a, c)
  {
    UnitsOrder(a, b, c);
    UnitsOrder(a, a, a);
  }

  // ----- canonical form -----

  function Insert(sorted: seq<Member>, m: Member): seq<Member> {
    if sorted == [] || Before(m.key, sorted[0].key) then [m] + sorted
    else [sorted[0]] + Insert(sorted[1..], m)
  }

  function Sort(members: seq<Member>): seq<Member> {
    if members == [] then [] else Insert(Sort(members[1..]), members[0])
  }

  function Canonical(j: Json): Json {
    match j
    case Arr(items) => Arr(seq(|items|, i requires 0 <= i < |items| => Canonical(items[i])))
    case Obj(members) =>
      Obj(Sort(seq(|members|, i requires 0 <= i < |members| => Member(members[i].key, Canonical(members[i].value)))))
    case _ => j
  }

  function CanonicalMembers(members: seq<Member>): seq<Member> {
    seq(|members|, i requires 0 <= i < |members| => Member(members[i].key, Canonical(members[i].value)))
  }

  ghost predicate HasKey(members: seq<Member>, key: Text) {
    exists i :: 0 <= i < |members| && members[i].key == key
  }

  ghost predicate SameKeys(a: seq<Member>, b: seq<Member>) {
    && (forall i :: 0 <= i < |a| ==> HasKey(b, a[i].key))
    && (forall k :: 0 <= k < |b| ==> HasKey(a, b[k].key))
  }

  /** Equal but for the order of object members, at every level. */
  ghost predicate SameButForOrder(a: Json, b: Json) {
    match a
    case Arr(items) =>
      b.Arr? && |items| == |b.items| && forall i :: 0 <= i < |items| ==> SameButForOrder(items[i], b.items[i])
    case Obj(members) =>
      && b.Obj? && SameKeys(members, b.members)
      && forall i, k :: 0 <= i < |members| && 0 <= k < |b.members| && members[i].key == b.members[k].key ==>
           SameButForOrder(members[i].value, b.members[k].value)
    case _ => a == b
  }

  ghost predicate Sorted(members: seq<Member>) {
    forall i, j :: 0 <= i < j < |members| ==> Before(members[i].key, members[j].key)
  }

  lemma {:induction false} InsertSorts(sorted: seq<Member>, m: Member)
    requires Sorted(sorted) && forall i :: 0 <= i < |sorted| ==> sorted[i].key != m.key
    ensures Sorted(Insert(sorted, m))
    ensures forall x :: x in Insert(sorted, m) <==> x == m || x in sorted
  {
    hide Before;
    if sorted != [] {
      KeyOrder(m.key, sorted[0].key, m.key);
      if Before(m.key, sorted[0].key) {
        forall j | 0 <= j < |sorted| ensures Before(m.key, sorted[j].key) {
          KeyOrder(m.key, sorted[0].key, sorted[j].key);
        }
      } else {
        var rest := sorted[1..];
        assert forall i :: 0 <= i < |rest| ==> rest[i] == sorted[i + 1];
        InsertSorts(rest, m);
        assert sorted == [sorted[0]] + rest;
        var inserted := Insert(rest, m);
        forall j | 0 <= j < |inserted| ensures Before(sorted[0].key, inserted[j].key) {
          assert inserted[j] in inserted;
        }
      }
    }
  }

  lemma {:induction false} SortSorts(members: seq<Member>)
    requires UniqueNames(members)
    ensures Sorted(Sort(members)) && forall x :: x in Sort(members) <==> x in members
  {
    if members != [] {
      var rest := members[1..];
      assert forall i :: 0 <= i < |rest| ==> rest[i] == members[i + 1];
      SortSorts(rest);
      forall i | 0 <= i < |Sort(rest)| ensures Sort(rest)[i].key != members[0].key {
        assert Sort(rest)[i] in Sort(rest);
      }
      InsertSorts(Sort(rest), members[0]);
      assert members == [members[0]] + rest;
    }
  }

  /** Sorted lists with the same members are equal. */
  lemma {:induction false} SortedOnce(a: seq<Member>, b: seq<Member>)
    requires Sorted(a) && Sorted(b) && forall x :: x in a <==> x in b
    ensures a == b
  {
    hide Before;
    assert b != [] ==> b[0] in b;
    if a != [] {
      assert a[0] in a && a[0] in b;
      assert b[0] in b && b[0] in a;
      FirstIsLeast(a, b);
      var p, q := a[1..], b[1..];
      assert a == [a[0]] + p && b == [b[0]] + q;
      NotAgain(a);
      NotAgain(b);
      assert forall i :: 0 <= i < |p| ==> p[i] == a[i + 1];
      assert forall i :: 0 <= i < |q| ==> q[i] == b[i + 1];
      assert forall x :: x in p <==> x in a && x != a[0];
      assert forall x :: x in q <==> x in b && x != b[0];
      SortedOnce(p, q);
    }
  }

  lemma {:induction false} FirstIsLeast(a: seq<Member>, b: seq<Member>)
    requires Sorted(a) && Sorted(b) && a != [] && b != [] && a[0] in b && b[0] in a
    ensures a[0] == b[0]
  {
    hide Before;
    var i :| 0 <= i < |b| && b[i] == a[0];
    var k :| 0 <= k < |a| && a[k] == b[0];
    KeyOrder(a[0].key, b[0].key, a[0].key);
  }

  lemma {:induction false} NotAgain(a: seq<Member>)
    requires Sorted(a) && a != []
    ensures a[0] !in a[1..]
  {
    hide Before;
    forall i | 1 <= i < |a| ensures a[i] != a[0] {
      KeyOrder(a[0].key, a[i].key, a[0].key);
    }
  }

  lemma {:induction false} CanonicalObject(members: seq<Member>)
    requires UniqueNames(members)
    ensures Canonical(Obj(members)) == Obj(Sort(CanonicalMembers(members)))
    ensures Sorted(Sort(CanonicalMembers(members)))
    ensures forall x :: x in Sort(CanonicalMembers(members)) <==> x in CanonicalMembers(members)
  {
    assert Canonical(Obj(members)).members == Sort(CanonicalMembers(members));
    SortSorts(CanonicalMembers(members));
  }

  /** Two values have the same canonical form exactly when they differ in the order of object members only. */
  lemma {:induction false} CanonicalForm(a: Json, b: Json)
    requires WellFormed(a) && WellFormed(b)
    ensures Canonical(a) == Canonical(b) <==> SameButForOrder(a, b)
    decreases a
  {
    if a.Arr? && b.Arr? {
      forall i | 0 <= i < |a.items| && i < |b.items|
        ensures Canonical(a.items[i]) == Canonical(b.items[i]) <==> SameButForOrder(a.items[i], b.items[i]) {
        CanonicalForm(a.items[i], b.items[i]);
      }
      CanonicalLists(a.items, b.items);
    } else if a.Obj? && b.Obj? {
      forall i, k | 0 <= i < |a.members| && 0 <= k < |b.members|
        ensures Canonical(a.members[i].value) == Canonical(b.members[k].value) <==>
                SameButForOrder(a.members[i].value, b.members[k].value)
      {
        CanonicalForm(a.members[i].value, b.members[k].value);
      }
      CanonicalObjects(a.members, b.members);
    }
  }

  lemma {:induction false} CanonicalLists(a: seq<Json>, b: seq<Json>)
    ensures Canonical(Arr(a)) == Canonical(Arr(b)) <==> |a| == |b| && forall i :: 0 <= i < |a| ==>
            Canonical(a[i]) == Canonical(b[i])
  {
    var p, q := Canonical(Arr(a)).items, Canonical(Arr(b)).items;
    assert forall i :: 0 <= i < |p| ==> p[i] == Canonical(a[i]);
    assert forall i :: 0 <= i < |q| ==> q[i] == Canonical(b[i]);
  }

  /** Equal keys have equal canonical values. */
  ghost predicate Agree(a: seq<Member>, b: seq<Member>) {
    forall i, k :: 0 <= i < |a| && 0 <= k < |b| && a[i].key == b[k].key ==>
      Canonical(a[i].value) == Canonical(b[k].value)
  }

  lemma {:induction false} MembersOfSame(a: seq<Member>, b: seq<Member>)
    requires UniqueNames(a) && UniqueNames(b)
             && (forall i :: 0 <= i < |a| ==> CanonicalMembers(a)[i] in CanonicalMembers(b))
    ensures (forall i :: 0 <= i < |a| ==> HasKey(b, a[i].key)) && Agree(a, b)
  {
    hide Canonical;
    var p, q := CanonicalMembers(a), CanonicalMembers(b);
    forall i | 0 <= i < |a| ensures HasKey(b, a[i].key) {
      var k :| 0 <= k < |b| && q[k] == p[i];
      assert b[k].key == a[i].key;
    }
    forall i, k | 0 <= i < |a| && 0 <= k < |b| && a[i].key == b[k].key
      ensures Canonical(a[i].value) == Canonical(b[k].value) {
      var j :| 0 <= j < |b| && q[j] == p[i];
      assert b[j].key == b[k].key && j == k;
    }
  }

  lemma {:induction false} SameMembersOf(a: seq<Member>, b: seq<Member>)
    requires (forall i :: 0 <= i < |a| ==> HasKey(b, a[i].key)) && Agree(a, b)
    ensures forall i :: 0 <= i < |a| ==> CanonicalMembers(a)[i] in CanonicalMembers(b)
  {
    hide Canonical;
    forall i | 0 <= i < |a| ensures CanonicalMembers(a)[i] in CanonicalMembers(b) {
      assert HasKey(b, a[i].key);
      var k :| 0 <= k < |b| && b[k].key == a[i].key;
      assert CanonicalMembers(a)[i] == CanonicalMembers(b)[k];
    }
  }

  lemma {:induction false} CanonicalObjects(a: seq<Member>, b: seq<Member>)
    requires UniqueNames(a) && UniqueNames(b)
    ensures Canonical(Obj(a)) == Canonical(Obj(b)) <==> SameKeys(a, b) && Agree(a, b)
  {
    hide Canonical, CanonicalMembers, Sort, Sorted, UniqueNames, HasKey;
    var p, q := CanonicalMembers(a), CanonicalMembers(b);
    assert |p| == |a| && |q| == |b| by { CanonicalLength(a); CanonicalLength(b); }
    CanonicalObject(a);
    CanonicalObject(b);
    if Canonical(Obj(a)) == Canonical(Obj(b)) {
      forall i | 0 <= i < |a| ensures p[i] in q {
        assert p[i] in p;
      }
      forall k | 0 <= k < |b| ensures q[k] in p {
        assert q[k] in q;
      }
      MembersOfSame(a, b);
      MembersOfSame(b, a);
    }
    if SameKeys(a, b) && Agree(a, b) {
      SameMembersOf(a, b);
      SameMembersOf(b, a);
      SortedOnce(Sort(p), Sort(q));
    }
  }

  lemma {:induction false} CanonicalLength(members: seq<Member>)
    ensures |CanonicalMembers(members)| == |members|
  {
  }
}
