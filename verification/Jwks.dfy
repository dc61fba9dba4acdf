/**
 Reading a JWK set (parseJWKS of internal/externaltoken/keyset.go): RFC 7517 sections 4.5 and 5,
 RFC 7518 sections 3.3, 6.2.1.2 and 6.3.1. JSON and base64url decoding are done: a member is missing,
 not base64url, or a byte string. Whether a point lies on P-256 is a parameter.
 */
module Jwks {
  import opened Common

  type Byte = x: int | 0 <= x < 256
  type Bytes = seq<Byte>

  datatype Member = Missing | NotBase64 | Decoded(bytes: Bytes)

  datatype Jwk = Jwk(keyType: string, keyID: string, use: string, curve: string,
                     modulus: Member, exponent: Member, x: Member, y: Member)

  datatype PublicKey = Rsa(n: nat, e: nat) | P256(x: Bytes, y: Bytes)

  type Keys = map<string, PublicKey>

  /** What one key of the set is worth: skipped, a reason to refuse the whole set, or a verification key. */
  datatype Reading = Unusable | Malformed | Usable(key: PublicKey)

  datatype Invalid = MalformedKey | MissingKeyID | DuplicateKeyID

  const MINIMUM_RSA_KEY_SIZE: nat := 2048
  const COORDINATE_SIZE: nat := 32
  const MAX_INT32 := 0x7FFF_FFFF

  function Pow2(n: nat): (p: nat)
    ensures 0 < p
  {
    if n == 0 then 1 else 2 * Pow2(n - 1)
  }

  /** The unsigned big-endian value of a byte string. */
  function BigEndian(bytes: Bytes): nat {
    if bytes == [] then 0 else 256 * BigEndian(bytes[..|bytes| - 1]) + bytes[|bytes| - 1]
  }

  /** A number has fewer than `bits` bits exactly when it is below 2^(bits-1). */
  predicate ShorterThan(n: nat, bits: nat)
    requires 0 < bits
  {
    n < Pow2(bits - 1)
  }

  function RsaKey(value: Jwk): Reading {
    if !value.modulus.Decoded? || !value.exponent.Decoded? then Malformed else
    var n, e := BigEndian(value.modulus.bytes), BigEndian(value.exponent.bytes);
    if ShorterThan(n, MINIMUM_RSA_KEY_SIZE) then Unusable
    else if e < 3 || e > MAX_INT32 then Malformed
    else Usable(Rsa(n, e))
  }

  function EcdsaKey(value: Jwk, onCurve: (Bytes, Bytes) -> bool): Reading {
    if value.curve != "P-256" then Unusable
    else if !value.x.Decoded? || |value.x.bytes| != COORDINATE_SIZE then Malformed
    else if !value.y.Decoded? || |value.y.bytes| != COORDINATE_SIZE then Malformed
    else if !onCurve(value.x.bytes, value.y.bytes) then Malformed
    else Usable(P256(value.x.bytes, value.y.bytes))
  }

  function Read(value: Jwk, onCurve: (Bytes, Bytes) -> bool): Reading {
    if value.use != "" && value.use != "sig" then Unusable
    else if value.keyType == "RSA" then RsaKey(value)
    else if value.keyType == "EC" then EcdsaKey(value, onCurve)
    else Unusable
  }

  /** The set as it is written: the order of the keys and the unusable keys do not matter. */
  ghost predicate WellFormed(keys: seq<Jwk>, onCurve: (Bytes, Bytes) -> bool) {
    && (forall i :: 0 <= i < |keys| ==> !Read(keys[i], onCurve).Malformed?)
    && (forall i :: 0 <= i < |keys| && Read(keys[i], onCurve).Usable? ==> keys[i].keyID != "")
    && (forall i, j :: 0 <= i < j < |keys| && Read(keys[i], onCurve).Usable? && Read(keys[j], onCurve).Usable?
          ==> keys[i].keyID != keys[j].keyID)
  }

  /** The map holds every usable key under its kid and nothing else. */
  ghost predicate HoldsUsable(keys: seq<Jwk>, onCurve: (Bytes, Bytes) -> bool, held: Keys) {
    && (forall i :: 0 <= i < |keys| && Read(keys[i], onCurve).Usable?
          ==> keys[i].keyID in held && held[keys[i].keyID] == Read(keys[i], onCurve).key)
    && (forall kid :: kid in held
          ==> exists i :: 0 <= i < |keys| && keys[i].keyID == kid && Read(keys[i], onCurve).Usable?)
  }

  method ParseJWKS(keys: seq<Jwk>, onCurve: (Bytes, Bytes) -> bool) returns (parsed: Result<Keys, Invalid>)
    ensures parsed.Ok? <==> WellFormed(keys, onCurve)
    ensures parsed.Ok? ==> HoldsUsable(keys, onCurve, parsed.value)
  {
    var held: Keys := map[];
    for i := 0 to |keys|
      invariant WellFormed(keys[..i], onCurve)
      invariant HoldsUsable(keys[..i], onCurve, held)
    {
      var reading := Read(keys[i], onCurve);
      ghost var before, was := keys[..i], held;
      assert keys[..i + 1] == before + [keys[i]];
      match reading {
        case Unusable =>
        case Malformed => return Err(MalformedKey);
        case Usable(key) =>
          if keys[i].keyID == "" {
            return Err(MissingKeyID);
          }
          if keys[i].keyID in held {
            ghost var j :| 0 <= j < |before| && before[j].keyID == keys[i].keyID && Read(before[j], onCurve).Usable?;
            assert keys[j] == before[j];
            return Err(DuplicateKeyID);
          }
          held := held[keys[i].keyID := key];
      }
      StepWellFormed(before, keys[i], onCurve, was, held);
      StepHolds(before, keys[i], onCurve, was, held);
    }
    assert keys[..|keys|] == keys;
    return Ok(held);
  }

  /** Reading one more key of the set adds at most one new kid. */
  ghost predicate Adds(value: Jwk, onCurve: (Bytes, Bytes) -> bool, was: Keys, held: Keys) {
    match Read(value, onCurve)
    case Unusable => held == was
    case Malformed => false
    case Usable(key) => value.keyID != "" && value.keyID !in was && held == was[value.keyID := key]
  }

  lemma StepWellFormed(before: seq<Jwk>, value: Jwk, onCurve: (Bytes, Bytes) -> bool, was: Keys, held: Keys)
    requires WellFormed(before, onCurve) && HoldsUsable(before, onCurve, was) && Adds(value, onCurve, was, held)
    ensures WellFormed(before + [value], onCurve)
  {
    var after := before + [value];
    assert forall i :: 0 <= i < |before| ==> after[i] == before[i];
  }

  lemma StepHolds(before: seq<Jwk>, value: Jwk, onCurve: (Bytes, Bytes) -> bool, was: Keys, held: Keys)
    requires HoldsUsable(before, onCurve, was) && Adds(value, onCurve, was, held)
    ensures HoldsUsable(before + [value], onCurve, held)
  {
    var after := before + [value];
    assert forall i :: 0 <= i < |before| ==> after[i] == before[i];
    forall kid | kid in held
      ensures exists i :: 0 <= i < |after| && after[i].keyID == kid && Read(after[i], onCurve).Usable?
    {
      if kid in was {
        var i :| 0 <= i < |before| && before[i].keyID == kid && Read(before[i], onCurve).Usable?;
        assert after[i] == before[i];
      } else {
        assert after[|before|].keyID == kid;
      }
    }
  }

  // ----- Order and unusable keys do not matter -----

  /** The usable keys of a set, in order. */
  function UsableOf(keys: seq<Jwk>, onCurve: (Bytes, Bytes) -> bool): seq<Jwk> {
    if keys == [] then []
    else (if Read(keys[0], onCurve).Usable? then [keys[0]] else []) + UsableOf(keys[1..], onCurve)
  }

  ghost predicate NoneMalformed(keys: seq<Jwk>, onCurve: (Bytes, Bytes) -> bool) {
    forall i :: 0 <= i < |keys| ==> !Read(keys[i], onCurve).Malformed?
  }

  ghost predicate DistinctKids(keys: seq<Jwk>) {
    && (forall i :: 0 <= i < |keys| ==> keys[i].keyID != "")
    && (forall i, j :: 0 <= i < j < |keys| ==> keys[i].keyID != keys[j].keyID)
  }

  lemma {:induction false} UsableOfContains(keys: seq<Jwk>, onCurve: (Bytes, Bytes) -> bool, value: Jwk)
    ensures value in UsableOf(keys, onCurve) <==> value in keys && Read(value, onCurve).Usable?
  {
    if keys != [] {
      UsableOfContains(keys[1..], onCurve, value);
      assert keys == [keys[0]] + keys[1..];
    }
  }

  /** The condition of the parser speaks of the usable keys alone, once none is malformed. */
  lemma {:induction false} WellFormedByUsable(keys: seq<Jwk>, onCurve: (Bytes, Bytes) -> bool)
    ensures WellFormed(keys, onCurve) <==> NoneMalformed(keys, onCurve) && DistinctKids(UsableOf(keys, onCurve))
  {
    if keys != [] {
      var first, rest := keys[0], keys[1..];
      var usable := UsableOf(rest, onCurve);
      WellFormedByUsable(rest, onCurve);
      assert keys == [first] + rest;
      assert forall i :: 0 <= i < |rest| ==> rest[i] == keys[i + 1];
      assert WellFormed(keys, onCurve) ==> WellFormed(rest, onCurve);
      forall value ensures value in usable <==> value in rest && Read(value, onCurve).Usable? {
        UsableOfContains(rest, onCurve, value);
      }
      if Read(first, onCurve).Usable? {
        assert UsableOf(keys, onCurve) == [first] + usable;
        FirstKidIsNew(first, rest, usable, onCurve);
      } else {
        assert UsableOf(keys, onCurve) == usable;
      }
    }
  }

  /** The usable keys of the rest, and what is known of the rest. */
  ghost predicate RestKnown(rest: seq<Jwk>, usable: seq<Jwk>, onCurve: (Bytes, Bytes) -> bool) {
    && (forall value :: value in usable <==> value in rest && Read(value, onCurve).Usable?)
    && (WellFormed(rest, onCurve) <==> NoneMalformed(rest, onCurve) && DistinctKids(usable))
  }

  lemma FirstKidIsNew(first: Jwk, rest: seq<Jwk>, usable: seq<Jwk>, onCurve: (Bytes, Bytes) -> bool)
    requires RestKnown(rest, usable, onCurve) && Read(first, onCurve).Usable?
    ensures WellFormed([first] + rest, onCurve)
            <==> NoneMalformed([first] + rest, onCurve) && DistinctKids([first] + usable)
  {
    if WellFormed([first] + rest, onCurve) {
      KidsAreDistinct(first, rest, usable, onCurve);
    }
    if NoneMalformed([first] + rest, onCurve) && DistinctKids([first] + usable) {
      SetIsWellFormed(first, rest, usable, onCurve);
    }
  }

  lemma KidsAreDistinct(first: Jwk, rest: seq<Jwk>, usable: seq<Jwk>, onCurve: (Bytes, Bytes) -> bool)
    requires RestKnown(rest, usable, onCurve) && Read(first, onCurve).Usable?
    requires WellFormed([first] + rest, onCurve)
    ensures DistinctKids([first] + usable)
  {
    var keys := [first] + rest;
    assert forall i :: 0 <= i < |rest| ==> keys[i + 1] == rest[i];
    assert WellFormed(rest, onCurve);
    forall i | 0 <= i < |usable| ensures usable[i].keyID != first.keyID {
      assert usable[i] in usable;
      var n :| 0 <= n < |rest| && rest[n] == usable[i];
      assert keys[n + 1] == usable[i] && keys[0] == first;
    }
    assert keys[0].keyID != "";
  }

  lemma SetIsWellFormed(first: Jwk, rest: seq<Jwk>, usable: seq<Jwk>, onCurve: (Bytes, Bytes) -> bool)
    requires RestKnown(rest, usable, onCurve) && Read(first, onCurve).Usable?
    requires NoneMalformed([first] + rest, onCurve) && DistinctKids([first] + usable)
    ensures WellFormed([first] + rest, onCurve)
  {
    var keys, chosen := [first] + rest, [first] + usable;
    assert forall i :: 0 <= i < |usable| ==> chosen[i + 1] == usable[i];
    assert DistinctKids(usable);
    assert NoneMalformed(rest, onCurve) by {
      assert forall i :: 0 <= i < |rest| ==> keys[i + 1] == rest[i];
    }
    assert chosen[0] == first;
    forall value | value in rest && Read(value, onCurve).Usable? ensures value.keyID != first.keyID {
      var n :| 0 <= n < |usable| && usable[n] == value;
      assert chosen[n + 1] == value;
    }
    FirstIsApart(first, rest, onCurve);
  }

  lemma FirstIsApart(first: Jwk, rest: seq<Jwk>, onCurve: (Bytes, Bytes) -> bool)
    requires WellFormed(rest, onCurve) && Read(first, onCurve).Usable? && first.keyID != ""
    requires forall value :: value in rest && Read(value, onCurve).Usable? ==> value.keyID != first.keyID
    ensures WellFormed([first] + rest, onCurve)
  {
    var keys := [first] + rest;
    assert keys[0] == first;
    assert forall i :: 0 < i < |keys| ==> keys[i] == rest[i - 1];
    forall i, j | 0 <= i < j < |keys| && Read(keys[i], onCurve).Usable? && Read(keys[j], onCurve).Usable?
      ensures keys[i].keyID != keys[j].keyID
    {
      assert keys[j] == rest[j - 1] && rest[j - 1] in rest;
    }
  }

  /** A value that occurs twice in a sequence occurs at two places. */
  lemma {:induction false} TwoPlaces(keys: seq<Jwk>, value: Jwk) returns (i: nat, j: nat)
    requires multiset(keys)[value] >= 2
    ensures i < j < |keys| && keys[i] == value && keys[j] == value
  {
    assert keys == [keys[0]] + keys[1..];
    if keys[0] == value {
      assert multiset(keys[1..])[value] >= 1;
      assert value in keys[1..];
      var n :| 0 <= n < |keys[1..]| && keys[1..][n] == value;
      return 0, n + 1;
    }
    i, j := TwoPlaces(keys[1..], value);
    return i + 1, j + 1;
  }

  lemma KidsInAnyOrder(keys: seq<Jwk>, keys': seq<Jwk>)
    requires DistinctKids(keys) && multiset(keys) == multiset(keys')
    ensures DistinctKids(keys')
  {
    forall i | 0 <= i < |keys'| ensures keys'[i] in keys {
      assert keys'[i] in multiset(keys');
    }
    forall i, j | 0 <= i < j < |keys'| ensures keys'[i].keyID != keys'[j].keyID {
      if keys'[i] == keys'[j] {
        assert keys' == keys'[..i] + [keys'[i]] + keys'[i + 1..j] + [keys'[j]] + keys'[j + 1..];
        var a, b := TwoPlaces(keys, keys'[i]);
      }
    }
  }

  /**
   Two sets that agree on their usable keys up to order, and hold no malformed key, are both accepted or both
   refused, and give the same map.
   */
  lemma OnlyUsableKeysMatter(keys: seq<Jwk>, keys': seq<Jwk>, onCurve: (Bytes, Bytes) -> bool, held: Keys, held': Keys)
    requires NoneMalformed(keys, onCurve) && NoneMalformed(keys', onCurve)
    requires multiset(UsableOf(keys, onCurve)) == multiset(UsableOf(keys', onCurve))
    ensures WellFormed(keys, onCurve) <==> WellFormed(keys', onCurve)
    ensures HoldsUsable(keys, onCurve, held) && HoldsUsable(keys', onCurve, held') ==> held == held'
  {
    SameVerdict(keys, keys', onCurve);
    if HoldsUsable(keys, onCurve, held) && HoldsUsable(keys', onCurve, held') {
      SameUsable(keys, keys', onCurve);
      SameHolding(keys, keys', onCurve, held, held');
      SameHolding(keys', keys, onCurve, held', held);
    }
  }

  lemma SameVerdict(keys: seq<Jwk>, keys': seq<Jwk>, onCurve: (Bytes, Bytes) -> bool)
    requires NoneMalformed(keys, onCurve) && NoneMalformed(keys', onCurve)
    requires multiset(UsableOf(keys, onCurve)) == multiset(UsableOf(keys', onCurve))
    ensures WellFormed(keys, onCurve) <==> WellFormed(keys', onCurve)
  {
    var usable, usable' := UsableOf(keys, onCurve), UsableOf(keys', onCurve);
    WellFormedByUsable(keys, onCurve);
    WellFormedByUsable(keys', onCurve);
    if DistinctKids(usable) { KidsInAnyOrder(usable, usable'); }
    if DistinctKids(usable') { KidsInAnyOrder(usable', usable); }
  }

  lemma SameUsable(keys: seq<Jwk>, keys': seq<Jwk>, onCurve: (Bytes, Bytes) -> bool)
    requires multiset(UsableOf(keys, onCurve)) == multiset(UsableOf(keys', onCurve))
    ensures forall value :: value in keys && Read(value, onCurve).Usable? <==> value in keys' && Read(value, onCurve).Usable?
  {
    var usable, usable' := UsableOf(keys, onCurve), UsableOf(keys', onCurve);
    forall value ensures value in keys && Read(value, onCurve).Usable? <==> value in keys' && Read(value, onCurve).Usable? {
      UsableOfContains(keys, onCurve, value);
      UsableOfContains(keys', onCurve, value);
      assert value in usable <==> value in multiset(usable);
      assert value in usable' <==> value in multiset(usable');
    }
  }

  lemma SameHolding(keys: seq<Jwk>, keys': seq<Jwk>, onCurve: (Bytes, Bytes) -> bool, held: Keys, held': Keys)
    requires HoldsUsable(keys, onCurve, held) && HoldsUsable(keys', onCurve, held')
    requires forall value :: value in keys && Read(value, onCurve).Usable? ==> value in keys'
    ensures forall kid :: kid in held ==> kid in held' && held'[kid] == held[kid]
  {
    forall kid | kid in held ensures kid in held' && held'[kid] == held[kid] {
      var i :| 0 <= i < |keys| && keys[i].keyID == kid && Read(keys[i], onCurve).Usable?;
      var j :| 0 <= j < |keys'| && keys'[j] == keys[i];
    }
  }

  // ----- What a key of the set is worth, over its members -----

  /** The shortest big-endian byte string of a number. */
  function BytesOf(n: nat): Bytes {
    if n == 0 then [] else BytesOf(n / 256) + [n % 256]
  }

  /** Without its leading zeros. */
  function Stripped(bytes: Bytes): (s: Bytes)
    ensures s == [] || s[0] != 0
  {
    if bytes != [] && bytes[0] == 0 then Stripped(bytes[1..]) else bytes
  }

  lemma {:induction false} ValueOfBytes(n: nat)
    ensures BigEndian(BytesOf(n)) == n
    ensures n > 0 ==> BytesOf(n) != [] && BytesOf(n)[0] != 0
  {
    if n > 0 {
      ValueOfBytes(n / 256);
      assert BytesOf(n)[..|BytesOf(n)| - 1] == BytesOf(n / 256);
    }
  }

  lemma {:induction false} BytesOfValue(bytes: Bytes)
    requires bytes == [] || bytes[0] != 0
    ensures BytesOf(BigEndian(bytes)) == bytes
  {
    if bytes != [] {
      var front, last := bytes[..|bytes| - 1], bytes[|bytes| - 1];
      BytesOfValue(front);
      assert BigEndian(bytes) == 256 * BigEndian(front) + last;
      assert BigEndian(bytes) / 256 == BigEndian(front) && BigEndian(bytes) % 256 == last;
      assert bytes == front + [last];
    }
  }

  lemma {:induction false} LeadingZero(bytes: Bytes)
    requires bytes != [] && bytes[0] == 0
    ensures BigEndian(bytes) == BigEndian(bytes[1..])
  {
    if |bytes| > 1 {
      var front := bytes[..|bytes| - 1];
      LeadingZero(front);
      assert bytes[1..][..|bytes| - 2] == front[1..];
    }
  }

  lemma {:induction false} StrippedValue(bytes: Bytes)
    ensures BigEndian(Stripped(bytes)) == BigEndian(bytes)
  {
    if bytes != [] && bytes[0] == 0 {
      StrippedValue(bytes[1..]);
      LeadingZero(bytes);
    }
  }

  /** Reading a number is the inverse of writing it, up to leading zeros. */
  lemma ValueExactly(bytes: Bytes, n: nat)
    ensures BigEndian(bytes) == n <==> Stripped(bytes) == BytesOf(n)
  {
    StrippedValue(bytes);
    BytesOfValue(Stripped(bytes));
    ValueOfBytes(n);
  }

  /** A number of at least 2048 bits: more than 256 bytes, or 256 of which the first has its highest bit set. */
  predicate AtLeast2048Bits(bytes: Bytes) {
    var s := Stripped(bytes);
    |s| > 256 || (|s| == 256 && s[0] >= 128)
  }

  lemma {:induction false} Pow2Sum(a: nat, b: nat)
    ensures Pow2(a + b) == Pow2(a) * Pow2(b)
  {
    if a > 0 {
      Pow2Sum(a - 1, b);
      assert Pow2(a + b) == 2 * Pow2(a - 1 + b);
    }
  }

  lemma {:induction false} Pow2Grows(a: nat, b: nat)
    requires a <= b
    ensures Pow2(a) <= Pow2(b)
  {
    if a < b {
      Pow2Grows(a, b - 1);
    }
  }

  lemma EightBits(k: nat)
    ensures Pow2(8 * (k + 1)) == 256 * Pow2(8 * k)
    ensures Pow2(8 * k + 7) == 128 * Pow2(8 * k)
  {
    Pow2Sum(8, 8 * k);
    Pow2Sum(7, 8 * k);
    assert Pow2(7) == 128 && Pow2(8) == 256;
  }

  /** A number lies between what its first byte is worth and what the next one would be. */
  lemma {:induction false} FirstByteBounds(bytes: Bytes)
    requires bytes != []
    ensures var unit, first: int := Pow2(8 * (|bytes| - 1)), bytes[0]; first * unit <= BigEndian(bytes) < (first + 1) * unit
  {
    var first: int := bytes[0];
    if |bytes| > 1 {
      var front, k := bytes[..|bytes| - 1], |bytes| - 2;
      FirstByteBounds(front);
      EightBits(k);
      var unit, v := Pow2(8 * k), BigEndian(front);
      assert BigEndian(bytes) == 256 * v + bytes[|bytes| - 1];
      assert first * (256 * unit) == 256 * (first * unit);
      assert (first + 1) * (256 * unit) == 256 * ((first + 1) * unit);
    }
  }

  lemma Times(a: int, b: int, unit: nat)
    requires a <= b
    ensures a * unit <= b * unit
  {
  }

  lemma LongerBytes(bytes: Bytes, k: nat)
    requires |bytes| > k + 1 && bytes[0] != 0
    ensures Pow2(8 * k + 7) <= BigEndian(bytes)
  {
    FirstByteBounds(bytes);
    Pow2Grows(8 * k + 7, 8 * (|bytes| - 1));
    Times(1, bytes[0], Pow2(8 * (|bytes| - 1)));
  }

  lemma EqualBytes(bytes: Bytes, k: nat)
    requires |bytes| == k + 1
    ensures BigEndian(bytes) < Pow2(8 * k + 7) <==> bytes[0] < 128
  {
    var first: int := bytes[0];
    FirstByteBounds(bytes);
    EightBits(k);
    if first < 128 {
      Times(first + 1, 128, Pow2(8 * k));
    } else {
      Times(128, first, Pow2(8 * k));
    }
  }

  lemma ShorterBytes(bytes: Bytes, k: nat)
    requires |bytes| <= k
    ensures BigEndian(bytes) < Pow2(8 * k + 7)
  {
    if bytes != [] {
      var first: int := bytes[0];
      FirstByteBounds(bytes);
      EightBits(|bytes| - 1);
      Pow2Grows(8 * |bytes|, 8 * k + 7);
      Times(first + 1, 256, Pow2(8 * (|bytes| - 1)));
    }
  }

  lemma SizeByBytes(bytes: Bytes, bits: nat, k: nat)
    requires bits == 8 * k + 8 && (bytes == [] || bytes[0] != 0)
    ensures ShorterThan(BigEndian(bytes), bits) <==> !(|bytes| > k + 1 || (|bytes| == k + 1 && bytes[0] >= 128))
  {
    if |bytes| > k + 1 {
      LongerBytes(bytes, k);
    } else if |bytes| == k + 1 {
      EqualBytes(bytes, k);
    } else {
      ShorterBytes(bytes, k);
    }
  }

  lemma ModulusSize(bytes: Bytes)
    ensures ShorterThan(BigEndian(bytes), MINIMUM_RSA_KEY_SIZE) <==> !AtLeast2048Bits(bytes)
  {
    StrippedValue(bytes);
    SizeByBytes(Stripped(bytes), MINIMUM_RSA_KEY_SIZE, 255);
  }

  /** The key may verify signatures. */
  predicate ForSigning(value: Jwk) {
    value.use == "" || value.use == "sig"
  }

  /** An RSA key with this modulus and exponent, both of the size required. */
  ghost predicate IsRsaKey(value: Jwk, n: nat, e: nat) {
    && ForSigning(value) && value.keyType == "RSA"
    && value.modulus.Decoded? && Stripped(value.modulus.bytes) == BytesOf(n) && AtLeast2048Bits(value.modulus.bytes)
    && value.exponent.Decoded? && Stripped(value.exponent.bytes) == BytesOf(e) && 3 <= e <= 2147483647
  }

  /** A P-256 key with these coordinates. */
  ghost predicate IsP256Key(value: Jwk, onCurve: (Bytes, Bytes) -> bool, x: Bytes, y: Bytes) {
    && ForSigning(value) && value.keyType == "EC" && value.curve == "P-256"
    && value.x == Decoded(x) && value.y == Decoded(y) && |x| == 32 && |y| == 32 && onCurve(x, y)
  }

  /** A key the verifier has no use for: not for signing, of another type or curve, or too short. */
  predicate IsSkipped(value: Jwk) {
    || !ForSigning(value)
    || (value.keyType != "RSA" && value.keyType != "EC")
    || (value.keyType == "EC" && value.curve != "P-256")
    || (value.keyType == "RSA" && value.modulus.Decoded? && value.exponent.Decoded? && !AtLeast2048Bits(value.modulus.bytes))
  }

  /** The key is one of the two kinds. */
  ghost predicate IsKey(value: Jwk, onCurve: (Bytes, Bytes) -> bool, key: PublicKey) {
    match key
    case Rsa(n, e) => IsRsaKey(value, n, e)
    case P256(x, y) => IsP256Key(value, onCurve, x, y)
  }

  lemma RsaReading(value: Jwk, key: PublicKey)
    requires ForSigning(value) && value.keyType == "RSA"
    ensures RsaKey(value) == Unusable <==> IsSkipped(value)
    ensures RsaKey(value) == Usable(key) <==> key.Rsa? && IsRsaKey(value, key.n, key.e)
  {
    if value.modulus.Decoded? && value.exponent.Decoded? {
      ModulusSize(value.modulus.bytes);
      if key.Rsa? {
        ValueExactly(value.modulus.bytes, key.n);
        ValueExactly(value.exponent.bytes, key.e);
      }
    }
  }

  /** What every key is worth: skipped, this verification key, or else malformed. */
  lemma ReadingExactly(value: Jwk, onCurve: (Bytes, Bytes) -> bool, key: PublicKey)
    ensures Read(value, onCurve) == Unusable <==> IsSkipped(value)
    ensures Read(value, onCurve) == Usable(key) <==> IsKey(value, onCurve, key)
  {
    if ForSigning(value) && value.keyType == "RSA" {
      RsaReading(value, key);
    }
  }

  /** The set is accepted exactly when every key is skipped or a verification key with a kid, and no two of those share one. */
  lemma AcceptedExactlyWhen(keys: seq<Jwk>, onCurve: (Bytes, Bytes) -> bool)
    ensures WellFormed(keys, onCurve) <==>
            && (forall i :: 0 <= i < |keys| ==> IsSkipped(keys[i]) || exists key :: IsKey(keys[i], onCurve, key))
            && (forall i :: 0 <= i < |keys| && !IsSkipped(keys[i]) ==> keys[i].keyID != "")
            && (forall i, j :: 0 <= i < j < |keys| && !IsSkipped(keys[i]) && !IsSkipped(keys[j]) ==> keys[i].keyID != keys[j].keyID)
  {
    forall i | 0 <= i < |keys| ensures KindsAgree(keys[i], onCurve) {
      KindsOfReading(keys[i], onCurve);
    }
  }

  ghost predicate KindsAgree(value: Jwk, onCurve: (Bytes, Bytes) -> bool) {
    && (Read(value, onCurve).Malformed? <==> !IsSkipped(value) && forall key :: !IsKey(value, onCurve, key))
    && (Read(value, onCurve).Usable? ==> !IsSkipped(value))
    && (!Read(value, onCurve).Malformed? && !IsSkipped(value) ==> Read(value, onCurve).Usable?)
  }

  lemma KindsOfReading(value: Jwk, onCurve: (Bytes, Bytes) -> bool)
    ensures KindsAgree(value, onCurve)
  {
    forall key ensures Read(value, onCurve) == Usable(key) <==> IsKey(value, onCurve, key) {
      ReadingExactly(value, onCurve, key);
    }
    ReadingExactly(value, onCurve, Rsa(0, 0));
    if Read(value, onCurve).Usable? {
      assert IsKey(value, onCurve, Read(value, onCurve).key);
    }
  }

  /** An accepted set gives a kid exactly the verification key that stands under it. */
  lemma HeldExactly(keys: seq<Jwk>, onCurve: (Bytes, Bytes) -> bool, held: Keys, kid: string, key: PublicKey)
    requires WellFormed(keys, onCurve) && HoldsUsable(keys, onCurve, held)
    ensures (kid in held && held[kid] == key) <==>
            exists i :: 0 <= i < |keys| && keys[i].keyID == kid && IsKey(keys[i], onCurve, key)
  {
    forall i | 0 <= i < |keys| ensures Read(keys[i], onCurve) == Usable(key) <==> IsKey(keys[i], onCurve, key) {
      ReadingExactly(keys[i], onCurve, key);
    }
    if kid in held && held[kid] == key {
      var i :| 0 <= i < |keys| && keys[i].keyID == kid && Read(keys[i], onCurve).Usable?;
      assert IsKey(keys[i], onCurve, key);
    }
  }

  /** An RSA key written down as its modulus and exponent is held as just that. */
  lemma WrittenRsaKeyIsHeld(keys: seq<Jwk>, onCurve: (Bytes, Bytes) -> bool, held: Keys, i: nat, n: nat, e: nat)
    requires WellFormed(keys, onCurve) && HoldsUsable(keys, onCurve, held) && i < |keys|
    requires ForSigning(keys[i]) && keys[i].keyType == "RSA"
    requires keys[i].modulus == Decoded(BytesOf(n)) && keys[i].exponent == Decoded(BytesOf(e))
    requires AtLeast2048Bits(BytesOf(n)) && 3 <= e <= 2147483647
    ensures keys[i].keyID in held && held[keys[i].keyID] == Rsa(n, e)
  {
    ValueOfBytes(n);
    ValueOfBytes(e);
    assert IsKey(keys[i], onCurve, Rsa(n, e));
    HeldExactly(keys, onCurve, held, keys[i].keyID, Rsa(n, e));
  }
}
