/** The device info block of modules/abootsettings.c: its three binary layouts, and
    reading and rewriting it in the last block of the boot loader's partition. */
module Aboot {
  import opened Bytes

  const BUF_SIZE: nat := 1024
  const MAGIC_SIZE: nat := 13
  const PANEL_LEN: nat := 64
  const VERSION_LEN: nat := 64

  /** "ANDROID-BOOT!" */
  const MAGIC: seq<byte> := [65, 78, 68, 82, 79, 73, 68, 45, 66, 79, 79, 84, 33]

  /** struct device_info */
  datatype Info = Info(magic: seq<byte>, unlocked: int, tampered: int, verified: int, unlockCritical: int,
                       chargerScreen: int, panel: seq<byte>, bootloader: seq<byte>, radio: seq<byte>,
                       verityMode: int, devinfoVersion: int)
  {
    /** The sizes of the struct's arrays. */
    predicate Sized() {
      |magic| == MAGIC_SIZE && |panel| == PANEL_LEN && |bootloader| == VERSION_LEN && |radio| == VERSION_LEN
    }

    /** What a decoder accepts: the magic string and flags that are 0 or 1. */
    predicate Proper(version: int) {
      && Sized() && magic == MAGIC
      && IsBool(unlocked) && IsBool(tampered) && IsBool(chargerScreen)
      && IsBool(if version == 2 then unlockCritical else verified)
      && (version == 2 ==> IsBool(verityMode) && 0 <= devinfoVersion < WORD)
    }
  }

  predicate IsBool(v: int) { v == 0 || v == 1 }

  predicate Supported(version: int) { version == 1 || version == 2 || version == 3 }

  /** Number of bytes a version's layout takes. */
  function Size(version: int): nat {
    if version == 1 then 100 else if version == 2 then 236 else 228
  }

  /** The fields of a version, in the order in which they are encoded. */
  function Parts(d: Info, version: int): (p: seq<Part>)
    requires Supported(version) && d.Sized()
    ensures LaidOut(p, Size(version))
  {
    [Part(0, Le32(version)), Part(4, d.magic), Part(20, Le32(d.unlocked)), Part(24, Le32(d.tampered)),
     Part(28, Le32(if version == 2 then d.unlockCritical else d.verified)), Part(32, Le32(d.chargerScreen)),
     Part(36, d.panel)]
    + (if version == 1 then [] else [Part(100, d.bootloader), Part(164, d.radio)])
    + (if version != 2 then [] else [Part(228, Le32(d.verityMode)), Part(232, Le32(d.devinfoVersion))])
  }

  /** The fields that all layouts share come first. */
  predicate CommonParts(p: seq<Part>, d: Info, version: int) {
    && |p| >= 7
    && p[0] == Part(0, Le32(version)) && p[1] == Part(4, d.magic)
    && p[2] == Part(20, Le32(d.unlocked)) && p[3] == Part(24, Le32(d.tampered))
    && p[4] == Part(28, Le32(if version == 2 then d.unlockCritical else d.verified))
    && p[5] == Part(32, Le32(d.chargerScreen)) && p[6] == Part(36, d.panel)
  }

  lemma PartsInCommon(d: Info, version: int)
    requires Supported(version) && d.Sized()
    ensures CommonParts(Parts(d, version), d, version)
  {
  }

  function Version(buf: seq<byte>): int
    requires |buf| == BUF_SIZE
  {
    Signed(Get(buf, 0, 4))
  }

  function Flag(buf: seq<byte>, at: nat): int
    requires |buf| == BUF_SIZE && at + 4 <= BUF_SIZE
  {
    Signed(Get(buf, at, 4))
  }

  /** A buffer that decode_device_info accepts. */
  predicate Decodable(buf: seq<byte>)
    requires |buf| == BUF_SIZE
  {
    && Supported(Version(buf))
    && Get(buf, 4, MAGIC_SIZE) == MAGIC
    && IsBool(Flag(buf, 20)) && IsBool(Flag(buf, 24)) && IsBool(Flag(buf, 28)) && IsBool(Flag(buf, 32))
    && (Version(buf) == 2 ==> IsBool(Flag(buf, 228)))
  }

  /** `prev` with the magic string and the flags of `buf`. */
  function WithFlags(prev: Info, buf: seq<byte>, version: int): Info
    requires |buf| == BUF_SIZE
  {
    Info(Get(buf, 4, MAGIC_SIZE), Flag(buf, 20), Flag(buf, 24),
         if version == 2 then prev.verified else Flag(buf, 28),
         if version == 2 then Flag(buf, 28) else prev.unlockCritical,
         Flag(buf, 32), prev.panel, prev.bootloader, prev.radio, prev.verityMode, prev.devinfoVersion)
  }

  /** The struct after decoding `buf` over `prev`; fields the version does not
      carry keep their old values. */
  function Decoded(prev: Info, buf: seq<byte>): Info
    requires |buf| == BUF_SIZE
  {
    var v := Version(buf);
    WithFlags(prev, buf, v).(
      panel := Get(buf, 36, PANEL_LEN),
      bootloader := if v == 1 then prev.bootloader else Get(buf, 100, VERSION_LEN),
      radio := if v == 1 then prev.radio else Get(buf, 164, VERSION_LEN),
      verityMode := if v == 2 then Flag(buf, 228) else prev.verityMode,
      devinfoVersion := if v == 2 then Unsigned(Get(buf, 232, 4)) else prev.devinfoVersion)
  }

  function Zeros(n: nat): (z: seq<byte>)
    ensures |z| == n && forall i :: 0 <= i < n ==> z[i] == 0
  {
    seq(n, _ => 0)
  }

  /** The zeroed buffer that write_device_info_to_disk encodes into. */
  function Image(d: Info, version: int): (b: seq<byte>)
    requires Supported(version) && d.Sized()
    ensures |b| == BUF_SIZE
  {
    PutAll(Zeros(BUF_SIZE), Parts(d, version))
  }

  // ----- round trips

  /** Field `k` of an encoded buffer reads back as it was written. */
  lemma FieldBack(d: Info, version: int, k: nat)
    requires Supported(version) && d.Sized() && k < |Parts(d, version)|
    ensures var p := Parts(d, version)[k]; Get(Image(d, version), p.at, |p.bytes|) == p.bytes
  {
    GetPutAll(Zeros(BUF_SIZE), Parts(d, version), k);
  }

  lemma FlagBack(v: int)
    requires -WORD / 2 <= v < WORD / 2
    ensures Signed(Le32(v)) == v
  {
    UnsignedOfLe(v);
  }

  /** Decoding an encoding of proper data succeeds and restores every field that
      the version carries. */
  lemma DecodeEncode(d: Info, version: int, prev: Info)
    requires Supported(version) && d.Proper(version)
    ensures var b := Image(d, version);
            && Decodable(b) && Version(b) == version
            && Decoded(prev, b) == Carried(prev, d, version)
  {
    FirstFieldsBack(d, version);
    if version != 1 {
      VersionsBack(d, version);
    }
    if version == 2 {
      VerityBack(d);
    }
  }

  lemma VersionsBack(d: Info, version: int)
    requires (version == 2 || version == 3) && d.Proper(version)
    ensures Get(Image(d, version), 100, VERSION_LEN) == d.bootloader
    ensures Get(Image(d, version), 164, VERSION_LEN) == d.radio
  {
    FieldBack(d, version, 7);
    FieldBack(d, version, 8);
  }

  lemma VerityBack(d: Info)
    requires d.Proper(2)
    ensures Flag(Image(d, 2), 228) == d.verityMode
    ensures Unsigned(Get(Image(d, 2), 232, 4)) == d.devinfoVersion
  {
    FieldBack(d, 2, 9);
    FieldBack(d, 2, 10);
    FlagBack(d.verityMode);
    UnsignedOfLe(d.devinfoVersion);
  }

  lemma FirstFieldsBack(d: Info, version: int)
    requires Supported(version) && d.Proper(version)
    ensures var b := Image(d, version);
            && Version(b) == version && Get(b, 4, MAGIC_SIZE) == MAGIC
            && Flag(b, 20) == d.unlocked && Flag(b, 24) == d.tampered
            && Flag(b, 28) == (if version == 2 then d.unlockCritical else d.verified)
            && Flag(b, 32) == d.chargerScreen && Get(b, 36, PANEL_LEN) == d.panel
  {
    var parts := Parts(d, version);
    assert parts[1] == Part(4, d.magic) && parts[6] == Part(36, d.panel);
    FieldBack(d, version, 0);
    FieldBack(d, version, 1);
    FieldBack(d, version, 2);
    FieldBack(d, version, 3);
    FieldBack(d, version, 4);
    FieldBack(d, version, 5);
    FieldBack(d, version, 6);
    FlagBack(version);
    FlagBack(d.unlocked);
    FlagBack(d.tampered);
    FlagBack(if version == 2 then d.unlockCritical else d.verified);
    FlagBack(d.chargerScreen);
  }

  /** `prev` with the fields that `version` carries taken from `d`. */
  function Carried(prev: Info, d: Info, version: int): Info {
    Info(d.magic, d.unlocked, d.tampered,
         if version == 2 then prev.verified else d.verified,
         if version == 2 then d.unlockCritical else prev.unlockCritical,
         d.chargerScreen, d.panel,
         if version == 1 then prev.bootloader else d.bootloader,
         if version == 1 then prev.radio else d.radio,
         if version == 2 then d.verityMode else prev.verityMode,
         if version == 2 then d.devinfoVersion else prev.devinfoVersion)
  }

  /** The bytes of the layout that hold data: not the three bytes of padding
      behind the magic string, nor what follows the layout. */
  predicate Live(version: int, i: int) {
    0 <= i < 17 || 20 <= i < Size(version)
  }

  /** The fields encoded from a decoded buffer hold the bytes that were there. */
  lemma FieldsOfDecoded(prev: Info, buf: seq<byte>)
    requires |buf| == BUF_SIZE && Decodable(buf) && prev.Sized()
    ensures var parts := Parts(Decoded(prev, buf), Version(buf));
            forall k :: 0 <= k < |parts| ==> parts[k].bytes == Get(buf, parts[k].at, |parts[k].bytes|)
  {
    FlagKept(buf, 0);
    FlagKept(buf, 20);
    FlagKept(buf, 24);
    FlagKept(buf, 28);
    FlagKept(buf, 32);
    FlagKept(buf, 228);
    LeOfUnsigned(Get(buf, 232, 4));
  }

  lemma FlagKept(buf: seq<byte>, at: nat)
    requires |buf| == BUF_SIZE && at + 4 <= BUF_SIZE
    ensures Le32(Flag(buf, at)) == Get(buf, at, 4)
  {
    LeOfUnsigned(Get(buf, at, 4));
  }

  /** The live bytes are exactly those that lie in a field. */
  lemma LiveIsCovered(d: Info, version: int, i: nat)
    requires Supported(version) && d.Sized()
    ensures Covered(Parts(d, version), i) <==> Live(version, i)
  {
    var p := Parts(d, version);
    var k := if i < 4 then 0 else if i < 20 then 1 else if i < 24 then 2 else if i < 28 then 3 else if i < 32 then 4
             else if i < 36 then 5 else if i < 100 then 6 else if i < 164 then 7 else if i < 228 then 8
             else if i < 232 then 9 else 10;
    if Live(version, i) {
      assert Inside(p[k], i);
    }
  }

  /** A live byte of an image comes from field `k`; every other byte is zero. */
  lemma ImageByte(d: Info, version: int, i: nat) returns (k: nat)
    requires Supported(version) && d.Sized() && i < BUF_SIZE
    ensures Live(version, i) ==>
              && k < |Parts(d, version)| && Inside(Parts(d, version)[k], i)
              && Image(d, version)[i] == Parts(d, version)[k].bytes[i - Parts(d, version)[k].at]
    ensures !Live(version, i) ==> Image(d, version)[i] == 0
  {
    LiveIsCovered(d, version, i);
    k := PutAllByte(Zeros(BUF_SIZE), Parts(d, version), i);
  }

  lemma GetAt(buf: seq<byte>, p: Part, i: nat)
    requires Inside(p, i) && p.at + |p.bytes| <= |buf| && p.bytes == Get(buf, p.at, |p.bytes|)
    ensures p.bytes[i - p.at] == buf[i]
  {
  }

  /** Re-encoding a decoded buffer reproduces every live byte and zeroes the rest. */
  lemma EncodeDecode(prev: Info, buf: seq<byte>, i: nat)
    requires |buf| == BUF_SIZE && Decodable(buf) && prev.Sized() && i < BUF_SIZE
    ensures Image(Decoded(prev, buf), Version(buf))[i] == if Live(Version(buf), i) then buf[i] else 0
  {
    var d, v := Decoded(prev, buf), Version(buf);
    var k := ImageByte(d, v, i);
    if Live(v, i) {
      FieldsOfDecoded(prev, buf);
      GetAt(buf, Parts(d, v)[k], i);
    }
  }

  // ----- setting the lock flag

  /** What read_device_info_from_disk reads from a block: the rest of its buffer
      has been zeroed. */
  function Padded(block: seq<byte>): (b: seq<byte>)
    requires |block| <= BUF_SIZE
    ensures |b| == BUF_SIZE
    ensures forall i :: 0 <= i < BUF_SIZE ==> b[i] == if i < |block| then block[i] else 0
  {
    block + Zeros(BUF_SIZE - |block|)
  }

  /** A block of which only the first `k` bytes have been overwritten. */
  function Torn(block: seq<byte>, image: seq<byte>, k: nat): (b: seq<byte>)
    requires k <= |block| <= |image|
    ensures |b| == |block| && forall i :: 0 <= i < |b| ==> b[i] == if i < k then image[i] else block[i]
  {
    image[..k] + block[k..]
  }

  /** What is written back to set the flag of the buffer `buf` to `value`. */
  function Relocked(prev: Info, buf: seq<byte>, value: int): (b: seq<byte>)
    requires |buf| == BUF_SIZE && Decodable(buf) && prev.Sized()
    ensures |b| == BUF_SIZE
  {
    Image(Decoded(prev, buf).(unlocked := value), Version(buf))
  }

  /** The image written when the flag of a decoded buffer is set to `value`: the
      flag's four bytes change, all other live bytes stay, the rest is zeroed. */
  lemma LockedImage(prev: Info, buf: seq<byte>, value: int, i: nat)
    requires |buf| == BUF_SIZE && Decodable(buf) && prev.Sized() && i < BUF_SIZE
    ensures Relocked(prev, buf, value)[i] ==
            if 20 <= i < 24 then Le32(value)[i - 20] else if Live(Version(buf), i) then buf[i] else 0
  {
    var d, v := Decoded(prev, buf), Version(buf);
    var k := ImageByte(d.(unlocked := value), v, i);
    if Live(v, i) {
      FieldsOfDecoded(prev, buf);
      LockedParts(prev, buf, value);
      LockedByte(Parts(d, v), Parts(d.(unlocked := value), v), buf, value, k, i);
    }
  }

  lemma LockedByte(p: seq<Part>, q: seq<Part>, buf: seq<byte>, value: int, k: nat, i: nat)
    requires |buf| == BUF_SIZE && 2 < |p| == |q| && q[2] == Part(20, Le32(value)) && LaidOut(q, BUF_SIZE)
    requires forall k :: 0 <= k < |p| && k != 2 ==> q[k] == p[k]
    requires forall k :: 0 <= k < |p| && k != 2 ==> p[k].at + |p[k].bytes| <= BUF_SIZE
                                                    && p[k].bytes == Get(buf, p[k].at, |p[k].bytes|)
    requires k < |p| && Inside(q[k], i)
    ensures q[k].bytes[i - q[k].at] == if 20 <= i < 24 then Le32(value)[i - 20] else buf[i]
  {
  }

  lemma LockedParts(prev: Info, buf: seq<byte>, value: int)
    requires |buf| == BUF_SIZE && Decodable(buf) && prev.Sized()
    ensures var d, v := Decoded(prev, buf), Version(buf);
            var p, q := Parts(d, v), Parts(d.(unlocked := value), v);
            |p| == |q| && q[2] == Part(20, Le32(value)) && forall k :: 0 <= k < |p| && k != 2 ==> q[k] == p[k]
  {
  }

  /** Buffers that agree on all live bytes but those of the flag decode alike. */
  lemma SameButFlag(prev: Info, a: seq<byte>, b: seq<byte>)
    requires |a| == BUF_SIZE == |b| && Decodable(a)
    requires forall i :: 0 <= i < BUF_SIZE && Live(Version(a), i) && !(20 <= i < 24) ==> a[i] == b[i]
    requires IsBool(Flag(b, 20))
    ensures Decodable(b) && Version(b) == Version(a)
    ensures Decoded(prev, b) == Decoded(prev, a).(unlocked := Flag(b, 20))
  {
    SameField(a, b, 0, 4);
    SameField(a, b, 4, MAGIC_SIZE);
    SameField(a, b, 24, 4);
    SameField(a, b, 28, 4);
    SameField(a, b, 32, 4);
    SameField(a, b, 36, PANEL_LEN);
    if Version(a) != 1 {
      SameField(a, b, 100, VERSION_LEN);
      SameField(a, b, 164, VERSION_LEN);
    }
    if Version(a) == 2 {
      SameField(a, b, 228, 4);
      SameField(a, b, 232, 4);
    }
  }

  lemma SameField(a: seq<byte>, b: seq<byte>, at: nat, n: nat)
    requires |a| == BUF_SIZE == |b| && at + n <= BUF_SIZE
    requires forall i :: at <= i < at + n ==> a[i] == b[i]
    ensures Get(a, at, n) == Get(b, at, n)
  {
  }

  /** The low byte decides a flag of 0 or 1. */
  lemma FlagBytes(buf: seq<byte>, at: nat)
    requires |buf| == BUF_SIZE && at + 4 <= BUF_SIZE
    ensures IsBool(Flag(buf, at)) <==> buf[at] <= 1 && buf[at + 1] == 0 && buf[at + 2] == 0 && buf[at + 3] == 0
    ensures IsBool(Flag(buf, at)) ==> Flag(buf, at) == buf[at]
  {
  }

  /** Which buffers decode, byte by byte. */
  lemma DecodableMeans(buf: seq<byte>)
    requires |buf| == BUF_SIZE
    ensures Decodable(buf) <==>
              && (buf[..4] == [1, 0, 0, 0] || buf[..4] == [2, 0, 0, 0] || buf[..4] == [3, 0, 0, 0])
              && buf[4..17] == [65, 78, 68, 82, 79, 73, 68, 45, 66, 79, 79, 84, 33]
              && (buf[20..24] == [0, 0, 0, 0] || buf[20..24] == [1, 0, 0, 0])
              && (buf[24..28] == [0, 0, 0, 0] || buf[24..28] == [1, 0, 0, 0])
              && (buf[28..32] == [0, 0, 0, 0] || buf[28..32] == [1, 0, 0, 0])
              && (buf[32..36] == [0, 0, 0, 0] || buf[32..36] == [1, 0, 0, 0])
              && (buf[0] == 2 ==> buf[228..232] == [0, 0, 0, 0] || buf[228..232] == [1, 0, 0, 0])
  {
    VersionBytes(buf);
    FlagRange(buf, 20);
    FlagRange(buf, 24);
    FlagRange(buf, 28);
    FlagRange(buf, 32);
    FlagRange(buf, 228);
  }

  lemma VersionBytes(buf: seq<byte>)
    requires |buf| == BUF_SIZE
    ensures forall v: byte :: 1 <= v <= 3 ==> (Version(buf) == v <==> buf[..4] == [v, 0, 0, 0])
  {
    assert buf[..4] == [buf[0], buf[1], buf[2], buf[3]];
  }

  lemma FlagRange(buf: seq<byte>, at: nat)
    requires |buf| == BUF_SIZE && at + 4 <= BUF_SIZE
    ensures IsBool(Flag(buf, at)) <==> buf[at..at + 4] == [0, 0, 0, 0] || buf[at..at + 4] == [1, 0, 0, 0]
  {
    FlagBytes(buf, at);
    assert buf[at..at + 4] == [buf[at], buf[at + 1], buf[at + 2], buf[at + 3]];
  }

  /** What a buffer that decodes says, byte by byte: version 2 has the flag of the
      critical partitions where the others have the verified flag, and version 1 has
      no version strings. */
  lemma DecodedMeans(prev: Info, buf: seq<byte>)
    requires |buf| == BUF_SIZE && Decodable(buf)
    ensures var d := Decoded(prev, buf); var v := buf[0];
            && d.unlocked == buf[20] && d.tampered == buf[24] && d.chargerScreen == buf[32]
            && d.verified == (if v == 2 then prev.verified else buf[28])
            && d.unlockCritical == (if v == 2 then buf[28] else prev.unlockCritical)
            && d.panel == buf[36..100]
            && d.bootloader == (if v == 1 then prev.bootloader else buf[100..164])
            && d.radio == (if v == 1 then prev.radio else buf[164..228])
            && d.verityMode == (if v == 2 then buf[228] else prev.verityMode)
            && d.devinfoVersion == if v == 2 then Unsigned(buf[232..236]) else prev.devinfoVersion
  {
    DecodableMeans(buf);
    VersionBytes(buf);
    FlagBytes(buf, 20);
    FlagBytes(buf, 24);
    FlagBytes(buf, 28);
    FlagBytes(buf, 32);
    if Version(buf) == 2 {
      FlagBytes(buf, 228);
    }
  }

  lemma BoolBytes(value: int)
    requires IsBool(value)
    ensures Le32(value) == [value, 0, 0, 0]
  {
  }

  /** The live bytes of an interrupted write. */
  lemma TornByte(prev: Info, block: seq<byte>, value: int, k: nat, i: nat)
    requires |block| <= BUF_SIZE && k <= |block| && IsBool(value) && prev.Sized()
    requires Decodable(Padded(block)) && i < BUF_SIZE && Live(Version(Padded(block)), i)
    ensures var buf := Padded(block);
            var torn := Padded(Torn(block, Relocked(prev, buf, value), k));
            torn[i] == if i == 20 && k > 20 then value else buf[i]
  {
    LockedImage(prev, Padded(block), value, i);
    FlagBytes(Padded(block), 20);
    BoolBytes(value);
  }

  /** A write of the lock flag that is interrupted anywhere leaves a block that
      still decodes: all other fields are as before, and the flag has its new value
      once its first byte has been written and its old value until then. */
  lemma TornWriteIsSafe(prev: Info, block: seq<byte>, value: int, k: nat)
    requires |block| <= BUF_SIZE && k <= |block| && IsBool(value) && prev.Sized()
    requires Decodable(Padded(block))
    ensures var buf := Padded(block); var d := Decoded(prev, buf);
            var torn := Padded(Torn(block, Relocked(prev, buf, value), k));
            && Decodable(torn) && Version(torn) == Version(buf)
            && Decoded(prev, torn) == d.(unlocked := if k > 20 then value else d.unlocked)
  {
    var buf := Padded(block);
    var d, v := Decoded(prev, buf), Version(buf);
    var torn := Padded(Torn(block, Relocked(prev, buf, value), k));
    forall i | 0 <= i < BUF_SIZE && Live(v, i)
      ensures torn[i] == if i == 20 && k > 20 then value else buf[i]
    {
      TornByte(prev, block, value, k, i);
    }
    FlagBytes(buf, 20);
    TornFlag(buf, torn, if k > 20 then value else d.unlocked);
    SameButFlag(prev, buf, torn);
  }

  lemma TornFlag(buf: seq<byte>, torn: seq<byte>, value: int)
    requires |buf| == BUF_SIZE == |torn| && IsBool(Flag(buf, 20)) && IsBool(value)
    requires torn[20] == value && torn[21] == buf[21] && torn[22] == buf[22] && torn[23] == buf[23]
    ensures Flag(torn, 20) == value
  {
  }

  /** After a complete write the flag reads back as set - exactly when the block
      is large enough to hold its first byte, or the value is 0 anyway. */
  lemma LockRoundTrip(prev: Info, block: seq<byte>, value: int)
    requires |block| <= BUF_SIZE && IsBool(value) && prev.Sized() && Decodable(Padded(block))
    ensures var done := Padded(Torn(block, Relocked(prev, Padded(block), value), |block|));
            Decoded(prev, done).unlocked == value <==> |block| > 20 || value == 0
  {
    TornWriteIsSafe(prev, block, value, |block|);
    FlagBytes(Padded(block), 20);
  }

  /** The last block after the first `k` bytes of an image have been written to it. */
  lemma BlockIsTorn(partition: seq<byte>, blockSize: nat, image: seq<byte>, k: nat)
    requires k <= blockSize <= |image| && blockSize <= |partition|
    ensures var offset := |partition| - blockSize; var after := Put(partition, offset, image[..k]);
            after[offset..] == Torn(partition[offset..], image, k) && after[..offset] == partition[..offset]
  {
  }

  /** On the partition: however far the write of SetUnlockedValue gets, reading the
      device info again finds it intact, with the new flag once the write has got
      past the flag's first byte; nothing in front of the last block changes. */
  lemma LockFlagSurvives(prev: Info, partition: seq<byte>, blockSize: nat, value: int, k: nat)
    requires k <= blockSize <= BUF_SIZE && blockSize < |partition| && IsBool(value) && prev.Sized()
    requires Decodable(Padded(partition[|partition| - blockSize..]))
    ensures var offset := |partition| - blockSize;
            var buf := Padded(partition[offset..]);
            var after := Put(partition, offset, Relocked(prev, buf, value)[..k]);
            && after[..offset] == partition[..offset]
            && Decodable(Padded(after[offset..])) && Version(Padded(after[offset..])) == Version(buf)
            && Decoded(prev, Padded(after[offset..]))
               == Decoded(prev, buf).(unlocked := if k > 20 then value else Decoded(prev, buf).unlocked)
  {
    var block := partition[|partition| - blockSize..];
    BlockIsTorn(partition, blockSize, Relocked(prev, Padded(block), value), k);
    TornWriteIsSafe(prev, block, value, k);
  }

  lemma PutOn(before: seq<byte>, offset: nat, image: seq<byte>, at: nat, n: nat)
    requires at + n <= |image| && offset + at + n <= |before|
    ensures Put(Put(before, offset, image[..at]), offset + at, image[at..at + n])
            == Put(before, offset, image[..at + n])
  {
  }

  /** The buffer after the first `k` fields have been copied in. */
  function Filled(before: seq<byte>, parts: seq<Part>, k: nat): (r: seq<byte>)
    requires LaidOut(parts, |before|) && k <= |parts|
    ensures |r| == |before|
    ensures k == 0 ==> r == before
    ensures k == |parts| ==> r == PutAll(before, parts)
  {
    assert parts[..|parts|] == parts;
    PutAll(before, parts[..k])
  }

  /** One memcpy of encode_device_info. */
  method CopyPart(buf: array<byte>, ghost before: seq<byte>, ghost parts: seq<Part>, ghost k: nat,
                  at: nat, bytes: seq<byte>)
    requires |before| == buf.Length && LaidOut(parts, |before|) && k < |parts| && parts[k] == Part(at, bytes)
    requires buf[..] == Filled(before, parts, k)
    modifies buf
    ensures buf[..] == Filled(before, parts, k + 1)
  {
    Memcpy(buf, at, bytes);
    assert parts[..k + 1][..k] == parts[..k];
  }

  /** What was in the struct before a successful decode does not get to the image:
      fields that an earlier, failed decode has overwritten are harmless. */
  lemma ImageForgets(p: Info, q: Info, buf: seq<byte>, value: int)
    requires |buf| == BUF_SIZE && Decodable(buf) && p.Sized() && q.Sized()
    ensures Relocked(p, buf, value) == Relocked(q, buf, value)
  {
    var v := Version(buf);
    var d, e := Decoded(p, buf).(unlocked := value), Decoded(q, buf).(unlocked := value);
    assert Parts(d, v) == Parts(e, v);
  }

  // ----- the module

  class AbootSettings {
    var device: Info
    var version: int
    /** Contents of the partition; its last block holds the device info. */
    var partition: seq<byte>

    constructor (partition: seq<byte>)
      ensures device.Sized() && this.partition == partition
    {
      device := Info(Zeros(MAGIC_SIZE), 0, 0, 0, 0, 0, Zeros(PANEL_LEN), Zeros(VERSION_LEN), Zeros(VERSION_LEN), 0, 0);
      version := 0;
      this.partition := partition;
    }

    /** The four flags, from offset 20 on. */
    method EncodeFlags(buf: array<byte>, ghost before: seq<byte>, ghost parts: seq<Part>, offset: nat)
      returns (size: nat)
      requires offset == 20 && CommonParts(parts, device, version)
      requires LaidOut(parts, |before|) && buf[..] == Filled(before, parts, 2)
      modifies buf
      ensures size == 36 && buf[..] == Filled(before, parts, 6)
    {
      size := offset;
      CopyPart(buf, before, parts, 2, size, Le32(device.unlocked));
      size := size + 4;
      CopyPart(buf, before, parts, 3, size, Le32(device.tampered));
      size := size + 4;
      CopyPart(buf, before, parts, 4, size, Le32(if version == 2 then device.unlockCritical else device.verified));
      size := size + 4;
      CopyPart(buf, before, parts, 5, size, Le32(device.chargerScreen));
      size := size + 4;
    }

    /** The fields that all layouts share. */
    method EncodeCommon(buf: array<byte>, ghost before: seq<byte>, ghost parts: seq<Part>) returns (size: nat)
      requires device.Sized() && CommonParts(parts, device, version)
      requires LaidOut(parts, |before|) && buf[..] == before
      modifies buf
      ensures size == 100 && buf[..] == Filled(before, parts, 7)
    {
      CopyPart(buf, before, parts, 0, 0, Le32(version));
      size := 4;
      CopyPart(buf, before, parts, 1, size, device.magic);
      size := size + 16;
      size := EncodeFlags(buf, before, parts, size);
      CopyPart(buf, before, parts, 6, size, device.panel);
      size := size + PANEL_LEN;
    }

    /** The fields that only some layouts have. */
    method EncodeExtras(buf: array<byte>, ghost before: seq<byte>, offset: nat) returns (size: nat)
      requires Supported(version) && device.Sized() && offset == 100 && |before| == BUF_SIZE
      requires buf[..] == Filled(before, Parts(device, version), 7)
      modifies buf
      ensures size == Size(version) && buf[..] == PutAll(before, Parts(device, version))
    {
      size := offset;
      ghost var parts := Parts(device, version);
      if version == 2 || version == 3 {
        CopyPart(buf, before, parts, 7, size, device.bootloader);
        size := size + VERSION_LEN;
        CopyPart(buf, before, parts, 8, size, device.radio);
        size := size + VERSION_LEN;
      }
      if version == 2 {
        CopyPart(buf, before, parts, 9, size, Le32(device.verityMode));
        size := size + 4;
        CopyPart(buf, before, parts, 10, size, Le32(device.devinfoVersion));
        size := size + 4;
      }
    }

    /** encode_device_info: returns the encoded size, 0 for an unknown version. */
    method EncodeDeviceInfo(buf: array<byte>) returns (size: nat)
      requires buf.Length == BUF_SIZE && device.Sized()
      modifies buf
      ensures !Supported(version) ==> size == 0 && buf[..] == old(buf[..])
      ensures Supported(version) ==> size == Size(version) && buf[..] == PutAll(old(buf[..]), Parts(device, version))
    {
      if version != 1 && version != 2 && version != 3 {
        return 0;
      }
      ghost var before := buf[..];
      PartsInCommon(device, version);
      size := EncodeCommon(buf, before, Parts(device, version));
      size := EncodeExtras(buf, before, size);
    }

    /** The magic string and the flags, from offset 4 on. */
    method DecodeFlags(buf: seq<byte>) returns (ok: bool)
      requires |buf| == BUF_SIZE && device.Sized()
      modifies this`device
      ensures device.Sized()
      ensures ok <==> Get(buf, 4, MAGIC_SIZE) == MAGIC
                      && IsBool(Flag(buf, 20)) && IsBool(Flag(buf, 24))
                      && IsBool(Flag(buf, 28)) && IsBool(Flag(buf, 32))
      ensures ok ==> device == WithFlags(old(device), buf, version)
    {
      var size := 4;
      device := device.(magic := Get(buf, size, MAGIC_SIZE));
      size := size + 16;
      if device.magic != MAGIC {
        return false;
      }
      var value := Flag(buf, size);
      size := size + 4;
      if value != 0 && value != 1 {
        return false;
      }
      device := device.(unlocked := value);
      value := Flag(buf, size);
      size := size + 4;
      if value != 0 && value != 1 {
        return false;
      }
      device := device.(tampered := value);
      value := Flag(buf, size);
      size := size + 4;
      if value != 0 && value != 1 {
        return false;
      }
      device := if version == 2 then device.(unlockCritical := value) else device.(verified := value);
      value := Flag(buf, size);
      if value != 0 && value != 1 {
        return false;
      }
      device := device.(chargerScreen := value);
      ok := true;
    }

    /** decode_device_info: `version` is overwritten even when it is not known. */
    method DecodeDeviceInfo(buf: seq<byte>) returns (ok: bool)
      requires |buf| == BUF_SIZE && device.Sized()
      modifies this`device, this`version
      ensures device.Sized() && version == Version(buf)
      ensures ok <==> Decodable(buf)
      ensures ok ==> device == Decoded(old(device), buf)
    {
      version := Flag(buf, 0);
      if version != 1 && version != 2 && version != 3 {
        return false;
      }
      ok := DecodeFlags(buf);
      if !ok {
        return;
      }
      var size := 36;
      device := device.(panel := Get(buf, size, PANEL_LEN));
      size := size + PANEL_LEN;
      if version == 2 || version == 3 {
        device := device.(bootloader := Get(buf, size, VERSION_LEN),
                          radio := Get(buf, size + VERSION_LEN, VERSION_LEN));
        size := size + 2 * VERSION_LEN;
      }
      if version == 2 {
        var value := Flag(buf, size);
        size := size + 4;
        if value != 0 && value != 1 {
          return false;
        }
        device := device.(verityMode := value, devinfoVersion := Unsigned(Get(buf, size, 4)));
      }
    }

    /** The block the device info is in, when the partition is larger than it. */
    function Block(blockSize: nat): seq<byte>
      requires blockSize <= |partition|
      reads this`partition
    {
      partition[|partition| - blockSize..]
    }

    /** The device info can be read: `blockSize` is what the driver reports. */
    predicate Readable(blockSize: int)
      reads this`partition
    {
      0 < blockSize <= BUF_SIZE && blockSize < |partition| && Decodable(Padded(Block(blockSize)))
    }

    /** set_file_offset and read_device_info_from_disk */
    method ReadDeviceInfo(blockSize: int) returns (ok: bool)
      requires device.Sized()
      modifies this`device, this`version
      ensures device.Sized()
      ensures ok <==> 0 < blockSize <= 1024 && blockSize < |partition| && Decodable(Padded(Block(blockSize)))
      ensures ok ==> version == Version(Padded(Block(blockSize)))
                     && device == Decoded(old(device), Padded(Block(blockSize)))
    {
      if blockSize <= 0 || |partition| <= blockSize || blockSize > BUF_SIZE {
        return false;
      }
      ok := DecodeDeviceInfo(Padded(partition[|partition| - blockSize..]));
    }

    /** The write loop of write_device_info_to_disk: some first `k` bytes of the
        image get to the last block. `results` are the results of the write calls;
        when they run out the device has lost power. */
    method WriteBlock(image: seq<byte>, blockSize: nat, results: seq<int>) returns (ok: bool, ghost k: nat)
      requires 0 < blockSize <= |image| && blockSize < |partition|
      modifies this`partition
      ensures k <= blockSize && (ok <==> k == blockSize)
      ensures partition == Put(old(partition), |old(partition)| - blockSize, image[..k])
    {
      ghost var before := partition;
      var offset := |partition| - blockSize;
      var byteCount := blockSize;
      var n, at := 0, 0;
      while byteCount > 0
        invariant 0 <= byteCount <= blockSize && at == blockSize - byteCount && n <= |results|
        invariant partition == Put(before, offset, image[..at])
        decreases |results| - n
      {
        if n == |results| || results[n] < 0 {
          return false, at;
        }
        var written := if results[n] < byteCount then results[n] else byteCount;
        PutOn(before, offset, image, at, written);
        partition := Put(partition, offset + at, image[at..at + written]);
        at := at + written;
        byteCount := byteCount - written;
        n := n + 1;
      }
      return true, blockSize;
    }

    /** set_unlocked_value: nothing is written unless the block could be decoded,
        and then only the last block, from its start, as far as the write gets. */
    method SetUnlockedValue(value: int, blockSize: int, results: seq<int>) returns (ok: bool, ghost k: nat)
      requires device.Sized()
      modifies this
      ensures device.Sized()
      ensures !old(Readable(blockSize)) ==> !ok && partition == old(partition)
      ensures old(Readable(blockSize)) ==>
                && k <= blockSize && (ok <==> k == blockSize)
                && partition == Put(old(partition), |old(partition)| - blockSize,
                                    Relocked(old(device), Padded(old(Block(blockSize))), value)[..k])
    {
      k := 0;
      ok := ReadDeviceInfo(blockSize);
      if !ok {
        return;
      }
      device := device.(unlocked := value);
      var data := new byte[BUF_SIZE](_ => 0);
      assert data[..] == Zeros(BUF_SIZE);
      var size := EncodeDeviceInfo(data);
      ok := size > 0;
      if ok {
        ok, k := WriteBlock(data[..], blockSize, results);
      }
    }

    /** get_unlocked_value */
    method GetUnlockedValue(blockSize: int) returns (ok: bool, unlocked: int)
      requires device.Sized()
      modifies this`device, this`version
      ensures device.Sized()
      ensures ok <==> 0 < blockSize <= 1024 && blockSize < |partition| && Decodable(Padded(Block(blockSize)))
      ensures ok ==> unlocked == Decoded(old(device), Padded(Block(blockSize))).unlocked
    {
      unlocked := 0;
      ok := ReadDeviceInfo(blockSize);
      if ok {
        unlocked := device.unlocked;
      }
    }
  }
}
