/** Packing a Guid's sixteen bytes into two 64-bit halves, and back. */
module Guids {
  import opened Wrappers

  type Byte = b: nat | b < 256

  const LENGTH: nat := 16

  datatype ContractsGuid = ContractsGuid(lo: nat, hi: nat)

  function BitOr(a: nat, b: nat): nat {
    if a == 0 then b
    else if b == 0 then a
    else 2 * BitOr(a / 2, b / 2) + if a % 2 == 1 || b % 2 == 1 then 1 else 0
  }

  function BitAnd(a: nat, b: nat): nat {
    if a == 0 || b == 0 then 0
    else 2 * BitAnd(a / 2, b / 2) + if a % 2 == 1 && b % 2 == 1 then 1 else 0
  }

  function ShiftLeft(a: nat, n: nat): nat {
    if n == 0 then a else 2 * ShiftLeft(a, n - 1)
  }

  function ShiftRight(a: nat, n: nat): nat {
    if n == 0 then a else ShiftRight(a / 2, n - 1)
  }

  /** The number whose base-256 digits, least significant first, are given. */
  function LittleEndian(s: seq<Byte>): nat {
    if s == [] then 0 else s[0] + 256 * LittleEndian(s[1..])
  }

  /** The first `k` base-256 digits of a number, least significant first. */
  function DigitsOf(n: nat, k: nat): (s: seq<Byte>)
    ensures |s| == k
  {
    if k == 0 then [] else [n % 256] + DigitsOf(n / 256, k - 1)
  }

  /** The bit of a number at a place. */
  ghost predicate HasBit(n: nat, place: nat) {
    ShiftRight(n, place) % 2 == 1
  }

  /** An or has a bit where either number has it, an and where both have it. */
  lemma {:induction false} BitsTogether(a: nat, b: nat, place: nat)
    ensures HasBit(BitOr(a, b), place) <==> HasBit(a, place) || HasBit(b, place)
    ensures HasBit(BitAnd(a, b), place) <==> HasBit(a, place) && HasBit(b, place)
  {
    NoBits(place);
    if place > 0 && a != 0 && b != 0 {
      BitsTogether(a / 2, b / 2, place - 1);
    }
  }

  lemma {:induction false} NoBits(place: nat)
    ensures !HasBit(0, place)
  {
    if place > 0 {
      NoBits(place - 1);
    }
  }

  /** Or of two numbers without a bit in common is their sum. */
  lemma {:induction false} OrIsSum(low: nat, high: nat, n: nat)
    requires low < ShiftLeft(1, n)
    ensures BitOr(low, ShiftLeft(high, n)) == low + ShiftLeft(high, n)
  {
    if n > 0 {
      OrIsSum(low / 2, high, n - 1);
      assert ShiftLeft(high, n) / 2 == ShiftLeft(high, n - 1);
    }
  }

  function Ones(n: nat): nat {
    if n == 0 then 0 else 2 * Ones(n - 1) + 1
  }

  function LowBits(a: nat, n: nat): nat {
    if n == 0 then 0 else 2 * LowBits(a / 2, n - 1) + a % 2
  }

  lemma {:induction false} AndWithOnes(a: nat, n: nat)
    ensures BitAnd(a, Ones(n)) == LowBits(a, n)
  {
    if n > 0 {
      AndWithOnes(a / 2, n - 1);
      assert Ones(n) / 2 == Ones(n - 1) && Ones(n) % 2 == 1;
      if a == 0 {
        assert BitAnd(0, Ones(n - 1)) == 0;
      }
    }
  }

  lemma {:induction false} LowBitsAreTheRest(a: nat, n: nat)
    ensures a == LowBits(a, n) + ShiftLeft(ShiftRight(a, n), n) && LowBits(a, n) < ShiftLeft(1, n)
  {
    if n > 0 {
      LowBitsAreTheRest(a / 2, n - 1);
    }
  }

  lemma {:induction false} EightOnes()
    ensures Ones(8) == 0xff
  {
  }

  lemma {:induction false} ShiftByByte(a: nat)
    ensures ShiftLeft(a, 8) == 256 * a
  {
    ShiftEightMore(a, 0);
  }

  lemma {:induction false} AndWithByte(a: nat)
    ensures BitAnd(a, 0xff) == a % 256
  {
    hide BitAnd, LowBits, ShiftLeft, ShiftRight, Ones;
    EightOnes();
    AndWithOnes(a, 8);
    LowBitsAreTheRest(a, 8);
    ShiftByByte(ShiftRight(a, 8));
    ShiftByByte(1);
  }

  lemma {:induction false} ShiftEightMore(a: nat, n: nat)
    ensures ShiftLeft(a, n + 8) == 256 * ShiftLeft(a, n)
    ensures ShiftRight(a, n + 8) == ShiftRight(a / 256, n)
  {
    assert ShiftLeft(a, n + 4) == 2 * ShiftLeft(a, n + 3) == 4 * ShiftLeft(a, n + 2) == 8 * ShiftLeft(a, n + 1)
      == 16 * ShiftLeft(a, n);
    assert ShiftLeft(a, n + 8) == 2 * ShiftLeft(a, n + 7) == 4 * ShiftLeft(a, n + 6) == 8 * ShiftLeft(a, n + 5)
      == 16 * ShiftLeft(a, n + 4);
    assert ShiftRight(a, n + 8) == ShiftRight(a / 2, n + 7) == ShiftRight(a / 4, n + 6) == ShiftRight(a / 8, n + 5)
      == ShiftRight(a / 16, n + 4);
    assert ShiftRight(a / 16, n + 4) == ShiftRight(a / 32, n + 3) == ShiftRight(a / 64, n + 2)
      == ShiftRight(a / 128, n + 1);
  }

  lemma {:induction false} LittleEndianAppend(s: seq<Byte>, b: Byte)
    ensures LittleEndian(s + [b]) == LittleEndian(s) + ShiftLeft(b, 8 * |s|)
    ensures LittleEndian(s) < ShiftLeft(1, 8 * |s|)
  {
    if s == [] {
      assert ([] + [b])[1..] == [];
    } else {
      assert (s + [b])[1..] == s[1..] + [b];
      LittleEndianAppend(s[1..], b);
      ShiftEightMore(b, 8 * (|s| - 1));
      ShiftEightMore(1, 8 * (|s| - 1));
      assert 8 * (|s| - 1) + 8 == 8 * |s|;
    }
  }

  lemma {:induction false} DigitAt(n: nat, k: nat, i: nat)
    requires i < k
    ensures DigitsOf(n, k)[i] == ShiftRight(n, 8 * i) % 256
  {
    if i > 0 {
      DigitAt(n / 256, k - 1, i - 1);
      ShiftEightMore(n, 8 * (i - 1));
      assert 8 * (i - 1) + 8 == 8 * i;
    }
  }

  /** One half of a Guid: the shift-and-or loop computes the little-endian value. */
  method PackHalf(bytes: seq<Byte>) returns (half: nat)
    ensures half == LittleEndian(bytes)
  {
    half := 0;
    for index := 0 to |bytes|
      invariant half == LittleEndian(bytes[..index])
    {
      LittleEndianAppend(bytes[..index], bytes[index]);
      OrIsSum(half, bytes[index], 8 * index);
      assert bytes[..index + 1] == bytes[..index] + [bytes[index]];
      half := BitOr(half, ShiftLeft(bytes[index], index * 8));
    }
    assert bytes[..|bytes|] == bytes;
  }

  const EMPTY: seq<Byte> := [0, 0, 0, 0, 0, 0, 0, 0, 0, 0, 0, 0, 0, 0, 0, 0]

  /** The packed halves: what sixteen bytes mean, and an error for any other number of bytes. */
  function Packed(bytes: seq<Byte>): Result<ContractsGuid, nat> {
    if |bytes| != LENGTH then Err(|bytes|) else Ok(ContractsGuid(LittleEndian(bytes[..8]), LittleEndian(bytes[8..])))
  }

  method ToContractsGuid(guidBytes: Option<seq<Byte>>) returns (result: Result<ContractsGuid, nat>)
    ensures result == Packed(guidBytes.GetOr(EMPTY))
  {
    var bytes := guidBytes.GetOr(EMPTY);
    if |bytes| != LENGTH {
      return Err(|bytes|);
    }
    var lo := PackHalf(bytes[..8]);
    var hi := PackHalf(bytes[8..]);
    result := Ok(ContractsGuid(lo, hi));
  }

  function Unpacked(guid: ContractsGuid): seq<Byte> {
    DigitsOf(guid.lo, 8) + DigitsOf(guid.hi, 8)
  }

  method FromContractsGuid(guid: Option<ContractsGuid>) returns (result: seq<Byte>)
    ensures result == match guid { case None => EMPTY case Some(g) => Unpacked(g) }
    ensures guid.None? ==> |result| == 16 && forall i :: 0 <= i < 16 ==> result[i] == 0
  {
    if guid.None? {
      return EMPTY;
    }
    hide Unpacked, ShiftRight, BitAnd;
    ghost var unpacked := Unpacked(guid.value);
    var bytes := new Byte[LENGTH](_ => 0);
    UnpackedAt(guid.value, 0);
    for index := 0 to 8
      invariant forall i :: 0 <= i < index ==> bytes[i] == unpacked[i]
      invariant forall i :: 8 <= i < 8 + index ==> bytes[i] == unpacked[i]
    {
      UnpackedAt(guid.value, index);
      AndWithByte(ShiftRight(guid.value.lo, index * 8));
      AndWithByte(ShiftRight(guid.value.hi, index * 8));
      bytes[index] := BitAnd(ShiftRight(guid.value.lo, index * 8), 0xff);
      bytes[index + 8] := BitAnd(ShiftRight(guid.value.hi, index * 8), 0xff);
    }
    result := bytes[..];
  }

  lemma {:induction false} UnpackedAt(guid: ContractsGuid, index: nat)
    requires index < 8
    ensures |Unpacked(guid)| == LENGTH
    ensures Unpacked(guid)[index] == ShiftRight(guid.lo, index * 8) % 256
    ensures Unpacked(guid)[index + 8] == ShiftRight(guid.hi, index * 8) % 256
  {
    DigitAt(guid.lo, 8, index);
    DigitAt(guid.hi, 8, index);
  }

  lemma {:induction false} DigitsOfValue(s: seq<Byte>)
    ensures DigitsOf(LittleEndian(s), |s|) == s
  {
    if s != [] {
      DigitsOfValue(s[1..]);
      assert LittleEndian(s) % 256 == s[0] && LittleEndian(s) / 256 == LittleEndian(s[1..]);
    }
  }

  lemma {:induction false} ValueOfDigits(n: nat, k: nat)
    requires n < ShiftLeft(1, 8 * k)
    ensures LittleEndian(DigitsOf(n, k)) == n
  {
    if k > 0 {
      ShiftEightMore(1, 8 * (k - 1));
      assert 8 * (k - 1) + 8 == 8 * k;
      ValueOfDigits(n / 256, k - 1);
      assert DigitsOf(n, k)[1..] == DigitsOf(n / 256, k - 1);
    }
  }

  /** Unpacking undoes packing. */
  lemma {:induction false} UnpackOfPack(bytes: seq<Byte>)
    requires |bytes| == LENGTH
    ensures Packed(bytes).Ok? && Unpacked(Packed(bytes).value) == bytes
  {
    DigitsOfValue(bytes[..8]);
    DigitsOfValue(bytes[8..]);
    assert bytes == bytes[..8] + bytes[8..];
  }

  lemma {:induction false} SixtyFourBits()
    ensures ShiftLeft(1, 64) == 0x1_0000_0000_0000_0000
  {
    hide ShiftRight;
    ShiftEightMore(1, 0);
    ShiftEightMore(1, 8);
    ShiftEightMore(1, 16);
    ShiftEightMore(1, 24);
    ShiftEightMore(1, 32);
    ShiftEightMore(1, 40);
    ShiftEightMore(1, 48);
    ShiftEightMore(1, 56);
  }

  /** Packing undoes unpacking, for any two 64-bit halves. */
  lemma {:induction false} PackOfUnpack(guid: ContractsGuid)
    requires guid.lo < 0x1_0000_0000_0000_0000 && guid.hi < 0x1_0000_0000_0000_0000
    ensures Packed(Unpacked(guid)) == Ok(guid)
  {
    SixtyFourBits();
    ValueOfDigits(guid.lo, 8);
    ValueOfDigits(guid.hi, 8);
    assert Unpacked(guid)[..8] == DigitsOf(guid.lo, 8) && Unpacked(guid)[8..] == DigitsOf(guid.hi, 8);
  }
}
