/** The 137-byte encoding of the node's key material and the one-line encoding
    of the issuer pin, each undone exactly by its reader. */
module KeyMaterial {
  import opened Text
  import opened Collections
  import opened JournalFile

  const KEY_BYTES: nat := 32
  const ROTATION_BYTES: nat := 64
  const MATERIAL_BYTES: nat := 137

  /** Key seeds are opaque bytes; `rotation` is the rotation that promoted this
      key and is still to be acknowledged, one character per byte. */
  datatype Keys = Keys(signing: seq<byte>, recipient: seq<byte>, version: nat, rotation: Option<string>)

  predicate WellFormed(k: Keys) {
    |k.signing| == KEY_BYTES && |k.recipient| == KEY_BYTES && k.version <= U64_MAX
    && (k.rotation.Some? ==> forall i | 0 <= i < |k.rotation.value| :: k.rotation.value[i] as int < 256)
  }

  // ---- Big-endian numbers --------------------------------------------------------------

  function Power256(n: nat): nat { if n == 0 then 1 else 256 * Power256(n - 1) }

  /** The low `width` bytes of `n`, most significant first. */
  function BigEndian(n: nat, width: nat): (s: seq<byte>)
    ensures |s| == width
  {
    if width == 0 then [] else BigEndian(n / 256, width - 1) + [n % 256]
  }

  function Number(s: seq<byte>): nat { if s == [] then 0 else 256 * Number(s[..|s| - 1]) + s[|s| - 1] }

  lemma {:induction false} NumberOfBytes(n: nat, width: nat)
    requires n < Power256(width)
    ensures Number(BigEndian(n, width)) == n
  {
    if width > 0 {
      NumberOfBytes(n / 256, width - 1);
      assert BigEndian(n, width)[..width - 1] == BigEndian(n / 256, width - 1);
    }
  }

  lemma {:induction false} BytesOfNumber(s: seq<byte>)
    ensures Number(s) < Power256(|s|) && BigEndian(Number(s), |s|) == s
  {
    if s != [] {
      BytesOfNumber(s[..|s| - 1]);
      assert s == s[..|s| - 1] + [s[|s| - 1]];
      assert Number(s) / 256 == Number(s[..|s| - 1]) && Number(s) % 256 == s[|s| - 1];
    }
  }

  lemma EightBytes()
    ensures Power256(8) == U64_MAX + 1
  {
    assert Power256(2) == 65_536;
    assert Power256(4) == 4_294_967_296;
    assert Power256(6) == 281_474_976_710_656;
  }

  // ---- Key material ------------------------------------------------------------------------

  function Bytes(s: string): seq<byte>
    requires forall i | 0 <= i < |s| :: s[i] as int < 256
  {
    seq(|s|, i requires 0 <= i < |s| => s[i] as int)
  }

  function Characters(b: seq<byte>): string { seq(|b|, i requires 0 <= i < |b| => b[i] as char) }

  function Zeros(n: nat): seq<byte> { seq(n, i => 0) }

  /** The rotation id with its length, padded with zeros. */
  function RotationField(rotation: Option<string>): seq<byte>
    requires rotation.Some? ==>
               && |rotation.value| <= ROTATION_BYTES
               && forall i | 0 <= i < |rotation.value| :: rotation.value[i] as int < 256
  {
    match rotation
    case None => Zeros(1 + ROTATION_BYTES)
    case Some(id) => [|id|] + Bytes(id) + Zeros(ROTATION_BYTES - |id|)
  }

  /** What the file holds, or none when the material cannot be written. */
  function EncodeKeys(k: Keys): Option<seq<byte>>
    requires WellFormed(k)
  {
    if k.version == 0 || (k.rotation.Some? && !(1 <= |k.rotation.value| <= ROTATION_BYTES)) then None
    else Some(BigEndian(k.version, 8) + k.signing + k.recipient + RotationField(k.rotation))
  }

  predicate AllZero(s: seq<byte>) { forall i | 0 <= i < |s| :: s[i] == 0 }

  function DecodeKeys(b: seq<byte>): Option<Keys> {
    if |b| != MATERIAL_BYTES then None else
    var version, length := Number(b[..8]), b[72];
    if version == 0 || length > ROTATION_BYTES || !AllZero(b[73 + length..]) then None
    else if length == 0 then Some(Keys(b[8..40], b[40..72], version, None))
    else
      var id := Characters(b[73..73 + length]);
      if IsOpaqueId(id) then Some(Keys(b[8..40], b[40..72], version, Some(id))) else None
  }

  /** The encoder fills a fixed buffer in place. */
  method Encode(k: Keys) returns (buffer: array?<byte>)
    requires WellFormed(k)
    ensures buffer == null <==> EncodeKeys(k).None?
    ensures buffer != null ==> fresh(buffer) && Some(buffer[..]) == EncodeKeys(k)
  {
    if k.version == 0 {
      return null;
    }
    if k.rotation.Some? && (k.rotation.value == "" || |k.rotation.value| > ROTATION_BYTES) {
      return null;
    }
    var b := new byte[MATERIAL_BYTES](i => 0);
    assert b[..] == Zeros(MATERIAL_BYTES);
    Put(b, 0, BigEndian(k.version, 8));
    Put(b, 8, k.signing);
    Put(b, 40, k.recipient);
    LaidOut(BigEndian(k.version, 8), k.signing, k.recipient);
    ghost var filled := BigEndian(k.version, 8) + k.signing + k.recipient;
    if k.rotation.Some? {
      var length, id := [|k.rotation.value|], Bytes(k.rotation.value);
      Put(b, 72, length);
      PatchNext(filled, 65, length);
      Put(b, 73, id);
      PatchNext(filled + length, 64, id);
      assert filled + length + id + Zeros(64 - |id|) == filled + RotationField(k.rotation);
    }
    buffer := b;
  }

  /** `b` with `s` written at `at`. */
  function Patched(b: seq<byte>, at: nat, s: seq<byte>): seq<byte>
    requires at + |s| <= |b|
  {
    b[..at] + s + b[at + |s|..]
  }

  /** Writing at the end of what is filled extends it. */
  lemma PatchNext(a: seq<byte>, n: nat, s: seq<byte>)
    requires |s| <= n
    ensures Patched(a + Zeros(n), |a|, s) == (a + s) + Zeros(n - |s|)
  {
    assert (a + Zeros(n))[..|a|] == a;
    assert (a + Zeros(n))[|a| + |s|..] == Zeros(n - |s|);
  }

  /** Filling the buffer piece by piece gives the fields in a row. */
  lemma LaidOut(version: seq<byte>, signing: seq<byte>, recipient: seq<byte>)
    requires |version| == 8 && |signing| == 32 && |recipient| == 32
    ensures Patched(Patched(Patched(Zeros(MATERIAL_BYTES), 0, version), 8, signing), 40, recipient)
         == (version + signing + recipient) + Zeros(65)
  {
    assert [] + Zeros(MATERIAL_BYTES) == Zeros(MATERIAL_BYTES) && [] + version == version;
    PatchNext([], MATERIAL_BYTES, version);
    PatchNext(version, 129, signing);
    PatchNext(version + signing, 97, recipient);
  }

  /** Copy a slice into the buffer. */
  method Put(b: array<byte>, at: nat, s: seq<byte>)
    requires at + |s| <= b.Length
    modifies b
    ensures b[..] == Patched(old(b[..]), at, s)
  {
    for i := 0 to |s|
      invariant b[..] == Patched(old(b[..]), at, s[..i])
    {
      b[at + i] := s[i];
      assert s[..i + 1] == s[..i] + [s[i]];
    }
    assert s[..|s|] == s;
  }

  // ---- Mutual inverses --------------------------------------------------------------------------

  lemma {:induction false} TextOfBytes(s: string)
    requires forall i | 0 <= i < |s| :: s[i] as int < 256
    ensures Characters(Bytes(s)) == s
  {
    forall i | 0 <= i < |s| ensures Characters(Bytes(s))[i] == s[i] {
    }
  }

  lemma BytesOfText(b: seq<byte>)
    ensures (forall i | 0 <= i < |b| :: Characters(b)[i] as int < 256) && Bytes(Characters(b)) == b
  {
  }

  /** The five fields of an encoding. */
  lemma EncodedParts(k: Keys)
    requires WellFormed(k) && EncodeKeys(k).Some?
    ensures var b := EncodeKeys(k).value;
            && |b| == MATERIAL_BYTES && b[..8] == BigEndian(k.version, 8) && b[8..40] == k.signing
            && b[40..72] == k.recipient && b[72..] == RotationField(k.rotation)
  {
  }

  lemma SliceOfRest(b: seq<byte>, at: nat, i: nat, j: nat)
    requires i <= j && at + j <= |b|
    ensures b[at..][i..j] == b[at + i..at + j]
  {
  }

  /** Reading undoes writing exactly when the rotation id, if any, is a valid
      identifier; otherwise the written file is refused. */
  lemma KeysRoundTrip(k: Keys)
    requires WellFormed(k) && EncodeKeys(k).Some?
    ensures DecodeKeys(EncodeKeys(k).value)
         == if k.rotation.None? || IsOpaqueId(k.rotation.value) then Some(k) else None
  {
    var b := EncodeKeys(k).value;
    EncodedParts(k);
    EightBytes();
    NumberOfBytes(k.version, 8);
    var field := RotationField(k.rotation);
    assert b[72] == field[0] && b[73..] == field[1..];
    if k.rotation.Some? {
      var id := k.rotation.value;
      assert field[1..1 + |id|] == Bytes(id) && field[1 + |id|..] == Zeros(64 - |id|);
      SliceOfRest(b, 72, 1, 1 + |id|);
      SliceOfRest(b, 72, 1 + |id|, 65);
      assert b[73..73 + |id|] == Bytes(id) && b[73 + |id|..] == Zeros(64 - |id|);
      TextOfBytes(id);
    } else {
      assert b[73..] == Zeros(64);
    }
  }

  /** Whatever the reader accepts is exactly what the writer would write. */
  lemma KeysReadBack(b: seq<byte>)
    requires DecodeKeys(b).Some?
    ensures var k := DecodeKeys(b).value;
            WellFormed(k) && EncodeKeys(k) == Some(b)
  {
    var k := DecodeKeys(b).value;
    BytesOfNumber(b[..8]);
    EightBytes();
    var id := b[73..73 + b[72]];
    BytesOfText(id);
    assert b[72..] == [b[72]] + id + b[73 + b[72]..];
    assert b[73 + b[72]..] == Zeros(64 - b[72]);
    assert b == b[..8] + b[8..40] + b[40..72] + b[72..];
    if b[72] == 0 {
      assert RotationField(k.rotation) == [0] + id + Zeros(64);
    }
  }

  // ---- The issuer pin -------------------------------------------------------------------------------

  datatype Pin = Pin(tenantId: string, nodeId: string, epoch: nat, keyId: string, publicKey: string)

  const MAX_PIN_BYTES: nat := 512

  predicate ValidPin(p: Pin) {
    && IsOpaqueId(p.tenantId) && IsOpaqueId(p.nodeId) && 1 <= p.epoch <= U64_MAX && IsOpaqueId(p.keyId)
    && |p.publicKey| == 43 && (forall i | 0 <= i < 43 :: IsIdChar(p.publicKey[i]))
    && p.keyId == "ed25519-" + p.publicKey
  }

  const BARS: seq<string> := ["|", "|", "|", "|"]

  function PinFields(p: Pin): seq<string> { [p.tenantId, p.nodeId, Digits(p.epoch), p.keyId, p.publicKey] }

  function PinText(p: Pin): string { Join(PinFields(p), BARS) }

  /** Exactly five fields, a positive canonical epoch and a valid pin. */
  function ReadPin(text: string): Option<Pin> {
    if |text| > MAX_PIN_BYTES then None else
    match SplitAll(text, BARS)
    case None => None
    case Some(f) =>
      match CanonicalU64(f[2])
      case None => None
      case Some(epoch) =>
        var p := Pin(f[0], f[1], epoch, f[3], f[4]);
        if Free(f[4], '|') && ValidPin(p) then Some(p) else None
  }

  lemma IdFree(s: string)
    requires forall i | 0 <= i < |s| :: IsIdChar(s[i])
    ensures Free(s, '|')
  {
  }

  lemma PinFieldsFree(p: Pin)
    requires ValidPin(p)
    ensures forall k | 0 <= k < 5 :: Free(PinFields(p)[k], '|')
  {
    IdFree(p.tenantId);
    IdFree(p.nodeId);
    IdFree(Digits(p.epoch));
    IdFree(p.keyId);
    IdFree(p.publicKey);
  }

  /** Every valid pin fits the reader's size bound. */
  lemma PinLength(p: Pin)
    requires ValidPin(p)
    ensures |PinText(p)| <= MAX_PIN_BYTES
  {
    U64Digits(p.epoch);
    var f := PinFields(p);
    assert |p.keyId| == 51;
    JoinLength(f, BARS);
    assert Total(BARS) == 4 by {
      assert BARS[1..][1..][1..][1..] == [];
      assert Total(BARS[1..][1..]) == 2;
    }
    assert f[1..][1..][1..][1..] == [f[4]] && f[1..][1..][1..][1..][1..] == [];
    assert Total(f[1..][1..][1..][1..]) == |f[4]|;
    assert Total(f[1..][1..][1..]) == |f[3]| + |f[4]|;
    assert Total(f[1..][1..]) == |f[2]| + |f[3]| + |f[4]|;
    assert Total(f[1..]) == |f[1]| + |f[2]| + |f[3]| + |f[4]|;
  }

  lemma U64Digits(n: nat)
    requires n <= U64_MAX
    ensures |Digits(n)| <= 20
  {
    assert Power10(4) == 10_000;
    assert Power10(8) == 100_000_000;
    assert Power10(12) == 1_000_000_000_000;
    assert Power10(16) == 10_000_000_000_000_000;
    assert Power10(20) == 100_000_000_000_000_000_000;
    DigitsLength(n, 20, Power10(20));
  }

  /** The pin reader accepts exactly the lines the writer writes for valid pins. */
  lemma PinExact(text: string, p: Pin)
    ensures ReadPin(text) == Some(p) <==> ValidPin(p) && text == PinText(p)
  {
    hide SplitAll, Join, CanonicalU64, Digits, Free, IsOpaqueId;
    CanonicalExact(Digits(p.epoch), p.epoch);
    if ValidPin(p) && text == PinText(p) {
      PinLength(p);
      PinFieldsFree(p);
      SplitOfJoin(PinFields(p), BARS);
    }
    if ReadPin(text) == Some(p) {
      JoinOfSplit(text, BARS);
      var f := SplitAll(text, BARS).value;
      CanonicalExact(f[2], p.epoch);
      assert f == PinFields(p);
    }
  }
}
