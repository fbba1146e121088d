/**
 * The stable `LastUpdated` stamp of a projection definition.
 *
 * The stamp is a rolling hash of the definition's canonical text without the stamp itself, read as a time in seconds.
 * The hash is a polynomial in base 33 modulo the word size, although the loop computes it with signed shifts.
 */
module DefinitionStamp {
  import opened CanonicalJson
  import opened JsonText

  const SEED: nat := 5381
  const WORD: nat := 0x1_0000_0000

  /** The latest time, in milliseconds, that a date can hold. */
  const LATEST_TIME: nat := 8_640_000_000_000_000

  /** `ToInt32`: the signed reading of the low 32 bits. */
  function ToInt32(x: int): (r: int)
    ensures -0x8000_0000 <= r < 0x8000_0000 && (r - x) % WORD == 0
  {
    var low := x % WORD;
    assert (low - x) % WORD == 0 && (low - WORD - x) % WORD == 0;
    if low >= 0x8000_0000 then low - WORD else low
  }

  /** `x << 5` on signed 32-bit numbers. */
  function ShiftLeft5(x: int): int {
    ToInt32(ToInt32(x) * 32)
  }

  /** `x >>> 0`. */
  function ToUint32(x: int): nat {
    x % WORD
  }

  /** The polynomial in base 33 with the seed as its leading coefficient, by its powers. */
  function Pow33(n: nat): nat {
    if n == 0 then 1 else 33 * Pow33(n - 1)
  }

  function Weighted(content: Text): nat {
    if content == [] then 0 else content[0] * Pow33(|content| - 1) + Weighted(content[1..])
  }

  function Polynomial(content: Text): nat {
    SEED * Pow33(|content|) + Weighted(content)
  }

  lemma {:induction false} WeightedStep(content: Text, u: CodeUnit)
    ensures Weighted(content + [u]) == 33 * Weighted(content) + u
  {
    if content == [] {
      assert ([] + [u])[1..] == [];
      assert Pow33(0) == 1;
    } else {
      assert (content + [u])[1..] == content[1..] + [u];
      WeightedStep(content[1..], u);
      assert Pow33(|content|) == 33 * Pow33(|content| - 1);
    }
  }

  lemma {:induction false} PolynomialStep(content: Text, u: CodeUnit)
    ensures Polynomial(content + [u]) == 33 * Polynomial(content) + u
  {
    WeightedStep(content, u);
  }

  /** The seed is the polynomial of the empty text, and each unit is added to 33 times what comes before it. */
  lemma {:induction false} PolynomialByUnits(content: Text, u: CodeUnit)
    ensures Polynomial([]) == 5381
    ensures Polynomial(content + [u]) == 33 * Polynomial(content) + u
  {
    assert Pow33(0) == 1;
    PolynomialStep(content, u);
  }

  /** Adding words changes no low bits. */
  lemma {:induction false} LowBits(x: int, k: int)
    ensures (x + k * WORD) % WORD == x % WORD
  {
  }

  /** One turn of the loop: signed shifts and all, it multiplies by 33 and adds, modulo the word. */
  lemma {:induction false} TurnIsHorner(hash: nat, p: nat, u: CodeUnit)
    requires hash == p % WORD
    ensures ToUint32(ShiftLeft5(hash) + hash + u) == (33 * p + u) % WORD
  {
    var q, r := (ToInt32(hash) - hash) / WORD, (ShiftLeft5(hash) - ToInt32(hash) * 32) / WORD;
    assert ShiftLeft5(hash) == 32 * hash + (32 * q + r) * WORD;
    assert hash == p - p / WORD * WORD;
    LowBits(33 * p + u, 32 * q + r - 33 * (p / WORD));
  }

  /** The rolling hash of a text is the polynomial modulo the word. */
  method HashOf(content: Text) returns (hash: nat)
    ensures hash == Polynomial(content) % WORD
  {
    hash := SEED;
    assert Polynomial([]) == SEED by {
      assert Pow33(0) == 1;
    }
    for i := 0 to |content|
      invariant hash == Polynomial(content[..i]) % WORD
    {
      TurnIsHorner(hash, Polynomial(content[..i]), content[i]);
      PolynomialStep(content[..i], content[i]);
      assert content[..i] + [content[i]] == content[..i + 1];
      hash := ToUint32(ShiftLeft5(hash) + hash + content[i]);
    }
    assert content[..|content|] == content;
  }

  // ----- the stamp -----

  /** `LastUpdated` as code units. */
  const LAST_UPDATED: Text := [76, 97, 115, 116, 85, 112, 100, 97, 116, 101, 100]

  /** A definition without its `LastUpdated`. */
  function Rest(definition: seq<Member>): seq<Member> {
    if definition == [] then []
    else if definition[0].key == LAST_UPDATED then Rest(definition[1..])
    else [definition[0]] + Rest(definition[1..])
  }

  /** The stamp, in milliseconds since the epoch. */
  function Stamp(definition: seq<Member>): nat {
    Polynomial(CanonicalStringify(Obj(Rest(definition)))) % WORD * 1000
  }

  method ComputeStableLastUpdated(definition: seq<Member>) returns (time: nat)
    ensures time == Stamp(definition) && time <= LATEST_TIME == 8640000000000000
    ensures time == Polynomial(CanonicalStringify(Obj(Rest(definition)))) % 4294967296 * 1000
  {
    var hash := HashOf(CanonicalStringify(Obj(Rest(definition))));
    time := hash * 1000;
  }

  /** The assignment of `LastUpdated` on a finished definition. */
  function WithLastUpdated(definition: seq<Member>, value: Json): seq<Member> {
    if definition == [] then [Member(LAST_UPDATED, value)]
    else if definition[0].key == LAST_UPDATED then [Member(LAST_UPDATED, value)] + definition[1..]
    else [definition[0]] + WithLastUpdated(definition[1..], value)
  }

  /** A definition without a stamp gets it at its end. */
  lemma {:induction false} StampedAtTheEnd(definition: seq<Member>, value: Json)
    requires forall i :: 0 <= i < |definition| ==> definition[i].key != LAST_UPDATED
    ensures WithLastUpdated(definition, value) == definition + [Member(LAST_UPDATED, value)]
  {
    if definition != [] {
      StampedAtTheEnd(definition[1..], value);
      assert definition == [definition[0]] + definition[1..];
    }
  }

  /** A definition with a stamp gets the new one in its place. */
  lemma {:induction false} StampedInPlace(definition: seq<Member>, value: Json, k: nat)
    requires k < |definition| && definition[k].key == LAST_UPDATED
    requires forall i :: 0 <= i < k ==> definition[i].key != LAST_UPDATED
    ensures WithLastUpdated(definition, value) == definition[k := Member(LAST_UPDATED, value)]
  {
    if k > 0 {
      StampedInPlace(definition[1..], value, k - 1);
    }
  }

  lemma {:induction false} RestOfStamped(definition: seq<Member>, value: Json)
    ensures Rest(WithLastUpdated(definition, value)) == Rest(definition)
  {
    if definition != [] && definition[0].key != LAST_UPDATED {
      RestOfStamped(definition[1..], value);
    }
  }

  /** What is left out is the member whose name reads `LastUpdated`. */
  lemma {:induction false} LastUpdatedByName()
    ensures |LAST_UPDATED| == |"LastUpdated"|
    ensures forall i :: 0 <= i < |LAST_UPDATED| ==> LAST_UPDATED[i] == "LastUpdated"[i] as int
  {
  }

  lemma {:induction false} RestKeeps(definition: seq<Member>)
    ensures forall m :: m in Rest(definition) <==> m in definition && m.key != LAST_UPDATED
    ensures UniqueNames(definition) ==> UniqueNames(Rest(definition))
  {
    if definition != [] {
      var rest := definition[1..];
      RestKeeps(rest);
      assert definition == [definition[0]] + rest;
      assert forall i :: 0 <= i < |rest| ==> rest[i] == definition[i + 1];
      if UniqueNames(definition) {
        assert UniqueNames(rest);
        forall i | 0 <= i < |Rest(rest)| ensures Rest(rest)[i].key != definition[0].key {
          assert Rest(rest)[i] in Rest(rest);
        }
      }
    }
  }

  /** The stamp does not depend on the old `LastUpdated`: stamping a stamped definition gives the same stamp. */
  lemma {:induction false} StampIgnoresLastUpdated(definition: seq<Member>, value: Json)
    ensures Stamp(WithLastUpdated(definition, value)) == Stamp(definition)
  {
    RestOfStamped(definition, value);
  }

  /** Definitions that differ in the order of members only, at any level, have the same stamp. */
  lemma {:induction false} StampIgnoresOrder(a: seq<Member>, b: seq<Member>)
    requires WellFormed(Obj(a)) && WellFormed(Obj(b)) && SameButForOrder(Obj(a), Obj(b))
    ensures Stamp(a) == Stamp(b)
  {
    RestSame(a, b);
    CanonicalText(Obj(Rest(a)), Obj(Rest(b)));
  }

  lemma {:induction false} RestWellFormed(a: seq<Member>)
    requires WellFormed(Obj(a))
    ensures WellFormed(Obj(Rest(a)))
  {
    RestKeeps(a);
    forall i | 0 <= i < |Rest(a)| ensures WellFormed(Rest(a)[i].value) {
      assert Rest(a)[i] in Rest(a);
      var k :| 0 <= k < |a| && a[k] == Rest(a)[i];
    }
  }

  lemma {:induction false} RestHasKeys(a: seq<Member>, b: seq<Member>)
    requires forall i :: 0 <= i < |a| ==> HasKey(b, a[i].key)
    ensures forall i :: 0 <= i < |Rest(a)| ==> HasKey(Rest(b), Rest(a)[i].key)
  {
    RestKeeps(a);
    RestKeeps(b);
    forall i | 0 <= i < |Rest(a)| ensures HasKey(Rest(b), Rest(a)[i].key) {
      assert Rest(a)[i] in Rest(a);
      var j :| 0 <= j < |a| && a[j] == Rest(a)[i];
      var k :| 0 <= k < |b| && b[k].key == a[j].key;
      assert b[k] in Rest(b);
    }
  }

  lemma {:induction false} RestValuesSame(a: seq<Member>, b: seq<Member>)
    requires SameButForOrder(Obj(a), Obj(b))
    ensures forall i, k :: 0 <= i < |Rest(a)| && 0 <= k < |Rest(b)| && Rest(a)[i].key == Rest(b)[k].key ==>
              SameButForOrder(Rest(a)[i].value, Rest(b)[k].value)
  {
    RestKeeps(a);
    RestKeeps(b);
    hide Rest, UniqueNames, SameKeys;
    forall i, k | 0 <= i < |Rest(a)| && 0 <= k < |Rest(b)| && Rest(a)[i].key == Rest(b)[k].key
      ensures SameButForOrder(Rest(a)[i].value, Rest(b)[k].value)
    {
      assert Rest(a)[i] in Rest(a) && Rest(b)[k] in Rest(b);
      var p :| 0 <= p < |a| && a[p] == Rest(a)[i];
      var q :| 0 <= q < |b| && b[q] == Rest(b)[k];
    }
  }

  lemma {:induction false} RestSame(a: seq<Member>, b: seq<Member>)
    requires WellFormed(Obj(a)) && WellFormed(Obj(b)) && SameButForOrder(Obj(a), Obj(b))
    ensures WellFormed(Obj(Rest(a))) && WellFormed(Obj(Rest(b))) && SameButForOrder(Obj(Rest(a)), Obj(Rest(b)))
  {
    hide Rest, HasKey, WellFormed;
    RestWellFormed(a);
    RestWellFormed(b);
    RestHasKeys(a, b);
    RestHasKeys(b, a);
    RestValuesSame(a, b);
  }
}
