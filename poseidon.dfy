/**
 * frontend/src/utils/poseidon.js: the Poseidon hasher, built once and cached, and
 * the sampling of a random field element from 31 random bytes.
 *
 * The hash itself (circomlibjs) is not modelled: a built hasher is a value of type
 * `Hasher`, an arbitrary function from inputs to a canonical field element.
 * The random bytes that `crypto.getRandomValues` fills in are a parameter.
 */
module Poseidon {
  import opened Js

  /** The order of the scalar field of BN254, over which the vote circuit works. */
  const FieldOrder: nat := 21888242871839275222246405745257275088548364400416034343698204186575808495617

  /** `randomFieldElement` draws this many bytes, i.e. 248 bits. */
  const ByteCount: nat := 31

  /** 2^248, written out. */
  const TwoTo248: nat := 0x100_0000_0000_0000_0000_0000_0000_0000_0000_0000_0000_0000_0000_0000_0000_0000

  newtype Byte = x: int | 0 <= x < 256

  /** A built Poseidon instance, composed with `F.toObject`: field-element inputs to a field element. */
  type Hasher = seq<int> -> nat

  /** What `await getPoseidon()` yields: the instance, or the error `buildPoseidon` threw. */
  datatype HasherOutcome = Ready(hasher: Hasher) | Unavailable(message: string)

  // ---------------------------------------------------------------------------
  // randomFieldElement: bytes -> hex string -> BigInt
  // ---------------------------------------------------------------------------

  /** `b.toString(16)`: one or two lower-case hex digits, no leading zero. */
  function ByteToHex(b: Byte): (s: string)
    ensures 1 <= |s| <= 2
  {
    if b < 16 then [DigitChar(b as nat)] else [DigitChar((b / 16) as nat), DigitChar((b % 16) as nat)]
  }

  /** `s.padStart(2, "0")`. */
  function PadStart2(s: string): (r: string)
    ensures |s| <= 2 ==> |r| == 2
  {
    if |s| >= 2 then s else seq(2 - |s|, _ => '0') + s
  }

  /** One byte as exactly two hex digits whose value is the byte. */
  function HexByte(b: Byte): (s: string)
    ensures |s| == 2 && AllDigits(s, 16)
    ensures RadixValue(s, 16) == b as nat
  {
    var n := b as nat;
    HexByteDigits(b);
    TwoDigitValue(DigitChar(n / 16), DigitChar(n % 16));
    PadStart2(ByteToHex(b))
  }

  /** Padding `toString(16)` of a byte gives its high and its low hex digit. */
  lemma HexByteDigits(b: Byte)
    ensures PadStart2(ByteToHex(b)) == [DigitChar(b as nat / 16), DigitChar(b as nat % 16)]
  {
    if b < 16 {
      assert DigitChar(0) == '0';
    }
  }

  /** The value of two hex digits. */
  lemma TwoDigitValue(hi: char, lo: char)
    requires DigitValue(hi) < 16 && DigitValue(lo) < 16
    ensures AllDigits([hi, lo], 16)
    ensures RadixValue([hi, lo], 16) == DigitValue(hi) * 16 + DigitValue(lo)
  {
    RadixValueAppend([], hi, 16);
    assert [] + [hi] == [hi];
    RadixValueAppend([hi], lo, 16);
    assert [hi] + [lo] == [hi, lo];
  }

  /** `[...bytes].map(hex-and-pad).join("")`. */
  function HexString(bytes: seq<Byte>): (s: string)
    ensures |s| == 2 * |bytes| && AllDigits(s, 16)
  {
    if bytes == [] then "" else HexString(bytes[..|bytes| - 1]) + HexByte(bytes[|bytes| - 1])
  }

  /** The big-endian unsigned value of a byte string. */
  function BigEndian(bytes: seq<Byte>): nat
  {
    if bytes == [] then 0 else BigEndian(bytes[..|bytes| - 1]) * 256 + bytes[|bytes| - 1] as nat
  }

  function Pow256(k: nat): (p: nat)
    ensures p >= 1
  {
    if k == 0 then 1 else 256 * Pow256(k - 1)
  }

  lemma {:induction false} RadixValueAppendPair(s: string, t: string)
    requires AllDigits(s, 16) && |t| == 2 && AllDigits(t, 16)
    ensures AllDigits(s + t, 16)
    ensures RadixValue(s + t, 16) == RadixValue(s, 16) * 256 + RadixValue(t, 16)
  {
    RadixValueAppend(s, t[0], 16);
    RadixValueAppend(s + [t[0]], t[1], 16);
    assert s + t == s + [t[0]] + [t[1]];
    assert t[..1] == [t[0]];
    RadixValueAppend([], t[0], 16);
    assert [] + [t[0]] == [t[0]];
  }

  /** The hex string reads back as the big-endian value of the bytes. */
  lemma {:induction false} HexStringValue(bytes: seq<Byte>)
    ensures RadixValue(HexString(bytes), 16) == BigEndian(bytes)
  {
    if bytes != [] {
      var init := bytes[..|bytes| - 1];
      HexStringValue(init);
      RadixValueAppendPair(HexString(init), HexByte(bytes[|bytes| - 1]));
    }
  }

  /** k bytes hold a value below 256^k. */
  lemma {:induction false} BigEndianBound(bytes: seq<Byte>)
    ensures BigEndian(bytes) < Pow256(|bytes|)
  {
    if bytes != [] {
      var init := bytes[..|bytes| - 1];
      BigEndianBound(init);
      assert BigEndian(init) <= Pow256(|init|) - 1;
    }
  }

  /** Byte strings of one length with the same value are the same. */
  lemma {:induction false} BigEndianInjective(a: seq<Byte>, b: seq<Byte>)
    requires |a| == |b| && BigEndian(a) == BigEndian(b)
    ensures a == b
  {
    if a != [] {
      var n := |a| - 1;
      var x, y := a[n] as int, b[n] as int;
      var p, q := BigEndian(a[..n]) as int, BigEndian(b[..n]) as int;
      assert p * 256 + x == q * 256 + y;
      assert x == y && p == q;
      BigEndianInjective(a[..n], b[..n]);
      assert a == a[..n] + [a[n]] && b == b[..n] + [b[n]];
    }
  }

  lemma {:induction false} Pow256Add(a: nat, b: nat)
    ensures Pow256(a + b) == Pow256(a) * Pow256(b)
  {
    if a > 0 {
      Pow256Add(a - 1, b);
      assert Pow256(a + b) == 256 * Pow256(a - 1 + b);
    }
  }

  lemma Pow256Of31()
    ensures Pow256(ByteCount) == TwoTo248
  {
    assert Pow256(1) == 0x100;
    Pow256Add(1, 1);
    assert Pow256(2) == 0x10000;
    Pow256Add(2, 2);
    assert Pow256(4) == 0x100000000;
    Pow256Add(4, 4);
    assert Pow256(8) == 0x10000000000000000;
    Pow256Add(8, 8);
    assert Pow256(16) == 0x100000000000000000000000000000000;
    Pow256Add(16, 8);
    assert Pow256(24) == 0x1000000000000000000000000000000000000000000000000;
    Pow256Add(24, 4);
    assert Pow256(28) == 0x100000000000000000000000000000000000000000000000000000000;
    Pow256Add(28, 2);
    assert Pow256(30) == 0x1000000000000000000000000000000000000000000000000000000000000;
    Pow256Add(30, 1);
  }

  /** The "0x" + hex string that `randomFieldElement` hands to `BigInt` parses. */
  lemma HexLiteralParses(bytes: seq<Byte>)
    requires |bytes| > 0
    ensures BigIntOf("0x" + HexString(bytes)) == Some(BigEndian(bytes) as int)
  {
    HexStringValue(bytes);
    HexLiteralParse(HexString(bytes));
  }

  /** `randomFieldElement()` given the 31 bytes the entropy source produced. */
  function RandomFieldElement(bytes: seq<Byte>): nat
    requires |bytes| == ByteCount
  {
    HexLiteralParses(bytes);
    BigIntOf("0x" + HexString(bytes)).value
  }

  /** The sampled value is the big-endian value of the bytes. */
  lemma RandomFieldElementValue(bytes: seq<Byte>)
    requires |bytes| == ByteCount
    ensures RandomFieldElement(bytes) == BigEndian(bytes)
  {
    HexLiteralParses(bytes);
  }

  /** The sampled value is below 2^248, and so a canonical element of the BN254 scalar field. */
  lemma RandomFieldElementBound(bytes: seq<Byte>)
    requires |bytes| == ByteCount
    ensures RandomFieldElement(bytes) < TwoTo248 && RandomFieldElement(bytes) < FieldOrder
  {
    RandomFieldElementValue(bytes);
    BigEndianBound(bytes);
    Pow256Of31();
  }

  /** The hex string has two digits per byte: 62 for the 31 sampled bytes. */
  lemma HexStringLength(bytes: seq<Byte>)
    requires |bytes| == ByteCount
    ensures |HexString(bytes)| == 62
  {
  }

  /** Different byte samples give different field elements. */
  lemma RandomFieldElementInjective(a: seq<Byte>, b: seq<Byte>)
    requires |a| == ByteCount && |b| == ByteCount && a != b
    ensures RandomFieldElement(a) != RandomFieldElement(b)
  {
    RandomFieldElementValue(a);
    RandomFieldElementValue(b);
    if BigEndian(a) == BigEndian(b) {
      BigEndianInjective(a, b);
    }
  }

  // ---------------------------------------------------------------------------
  // getPoseidon: the module-level cache `_poseidon`
  // ---------------------------------------------------------------------------

  /**
   * What `await getPoseidon()` settles to: the cached instance when there is
   * one, otherwise the outcome of the `buildPoseidon()` call it makes.
   */
  function Resolve(instance: Option<Hasher>, built: HasherOutcome): HasherOutcome
  {
    if instance.Some? then Ready(instance.value) else built
  }

  /** `_poseidon` after that call: a successful build is kept, a rejected one leaves it null. */
  function Cached(instance: Option<Hasher>, built: HasherOutcome): Option<Hasher>
  {
    if instance.Some? then instance else if built.Ready? then Some(built.hasher) else None
  }

  /** `fn.F.toObject(fn(inputs))` once the instance is available, or the rejection passed on. */
  function Apply(hasher: HasherOutcome, inputs: seq<int>): Result<nat>
  {
    match hasher
    case Ready(h) => Ok(h(inputs))
    case Unavailable(m) => Err(m)
  }

  /**
   * Once an instance is available it is the one every later call gets, whatever
   * a later `buildPoseidon()` would have produced: no later call rebuilds.
   */
  lemma ResolveSticks(instance: Option<Hasher>, built: HasherOutcome, later: HasherOutcome)
    requires Resolve(instance, built).Ready?
    ensures Cached(instance, built) == Some(Resolve(instance, built).hasher)
    ensures Resolve(Cached(instance, built), later) == Resolve(instance, built)
    ensures Cached(Cached(instance, built), later) == Cached(instance, built)
  {
  }

  /** After a rejected build the cache is still empty, so the next call builds afresh. */
  lemma RejectedBuildRetries(instance: Option<Hasher>, built: HasherOutcome, later: HasherOutcome)
    requires Resolve(instance, built).Unavailable?
    ensures Cached(instance, built) == None
    ensures Resolve(Cached(instance, built), later) == later
  {
  }

  /**
   * The module-level `_poseidon` variable. `attempts` counts the calls of
   * `buildPoseidon` and `builds` the ones that succeeded.
   */
  class PoseidonCache {
    var instance: Option<Hasher>
    ghost var builds: nat
    ghost var attempts: nat

    /** At most one build ever succeeds, and it is the cached instance. */
    ghost predicate Valid()
      reads this
    {
      builds <= 1 && builds <= attempts && (instance.None? <==> builds == 0)
    }

    constructor ()
      ensures Valid() && instance == None && builds == 0 && attempts == 0
    {
      instance := None;
      builds := 0;
      attempts := 0;
    }

    /**
     * `getPoseidon()`: `built` is what `buildPoseidon()` would settle to; it is
     * used (and counted) only when nothing is cached yet, and only a successful
     * build is kept.
     */
    method GetPoseidon(built: HasherOutcome) returns (r: HasherOutcome)
      requires Valid()
      modifies this
      ensures Valid()
      ensures r == Resolve(old(instance), built)
      ensures instance == Cached(old(instance), built)
      ensures old(instance).Some? ==> builds == old(builds) && attempts == old(attempts)
      ensures old(instance).None? ==> attempts == old(attempts) + 1 && builds == (if built.Ready? then 1 else 0)
    {
      if instance.None? {
        attempts := attempts + 1;
        if built.Unavailable? {
          return built;
        }
        instance := Some(built.hasher);
        builds := builds + 1;
      }
      r := Ready(instance.value);
    }

    /** `poseidon(inputs)`: the instance `getPoseidon` yields, applied to the inputs. */
    method Hash(built: HasherOutcome, inputs: seq<int>) returns (r: Result<nat>)
      requires Valid()
      modifies this
      ensures Valid()
      ensures r == Apply(Resolve(old(instance), built), inputs)
      ensures instance == Cached(old(instance), built)
      ensures old(instance).Some? ==> builds == old(builds) && attempts == old(attempts)
      ensures old(instance).None? ==> attempts == old(attempts) + 1 && builds == (if built.Ready? then 1 else 0)
    {
      var fn := GetPoseidon(built);
      match fn {
        case Unavailable(m) =>
          r := Err(m);
        case Ready(h) =>
          r := Ok(h(inputs));
      }
    }
  }
}
