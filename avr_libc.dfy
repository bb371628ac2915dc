/**
 * Recovery of the target device's name from a compiled binary
 * (cargo-avr/src/util/avr_libc.rs): the avr-libc device-info note of the
 * `.note.gnu.avr.deviceinfo` section and its packed descriptor.
 *
 * The descriptor (`AvrDeviceInfoDesc`) is read with explicit bounds checks:
 * seven little-endian 32-bit fields at bytes 0-27, the first entry of the
 * string-offset table at bytes 28-31 and the string table from byte 32.
 */
module AvrLibc {
  import opened Common
  import Utf8

  const DeviceInfoSection := ".note.gnu.avr.deviceinfo"
  const AvrNoteType: u64 := 1
  const AvrNoteOwner := "AVR"

  const SectionNotFound := "AVR device info section not found"
  const NoteNotFound := "AVR device info note not found"
  const DescriptorTooShort := "AVR device info descriptor is truncated"
  const NameOutOfBounds := "AVR device name offset lies outside the string table"
  const NameUnterminated := "AVR device name is not NUL-terminated"
  const NameNotUtf8 := "AVR device name is not valid UTF-8"

  /** A note of the ELF note layout (System V gABI, "Note Section"): type, owner name, descriptor. */
  datatype NoteAny = NoteAny(nType: u64, name: string, desc: seq<byte>)

  /** A note as the ELF reader classifies it: two known GNU notes, or any other note. */
  datatype Note = GnuAbiTag | GnuBuildId | Unknown(note: NoteAny)

  /**
   * What the ELF layer yields for the binary: a failure to read or parse
   * the file, no section named `.note.gnu.avr.deviceinfo`, or that
   * section's notes in order.
   */
  datatype ElfView =
    | ReadFailed(ioMessage: string)
    | ParseFailed(parseMessage: string)
    | NoDeviceInfoSection
    | DeviceInfoNotes(notes: seq<Note>)

  predicate IsDeviceInfoNote(n: Note) {
    n.Unknown? && n.note.nType == AvrNoteType && n.note.name == AvrNoteOwner
  }

  /** The first device-info note of the section, in section order. */
  function FirstDeviceInfoNote(notes: seq<Note>): (r: Option<NoteAny>)
    ensures r.None? <==> forall i :: 0 <= i < |notes| ==> !IsDeviceInfoNote(notes[i])
    ensures r.Some? ==> exists i :: 0 <= i < |notes| && notes[i] == Unknown(r.value) &&
                                   IsDeviceInfoNote(notes[i]) &&
                                   forall j :: 0 <= j < i ==> !IsDeviceInfoNote(notes[j])
  {
    if notes == [] then None
    else if IsDeviceInfoNote(notes[0]) then Some(notes[0].note)
    else
      var r := FirstDeviceInfoNote(notes[1..]);
      assert r.Some? ==> exists i :: 0 <= i < |notes[1..]| && notes[1..][i] == Unknown(r.value) &&
                                     IsDeviceInfoNote(notes[1..][i]) &&
                                     forall j :: 0 <= j < i ==> !IsDeviceInfoNote(notes[1..][j]);
      if r.Some? then
        var i :| 0 <= i < |notes[1..]| && notes[1..][i] == Unknown(r.value) &&
                 IsDeviceInfoNote(notes[1..][i]) &&
                 forall j :: 0 <= j < i ==> !IsDeviceInfoNote(notes[1..][j]);
        assert notes[i + 1] == Unknown(r.value);
        assert forall j :: 0 <= j < i + 1 ==> !IsDeviceInfoNote(notes[j]) by {
          forall j | 0 <= j < i + 1 ensures !IsDeviceInfoNote(notes[j]) {
            if j > 0 { assert notes[j] == notes[1..][j - 1]; }
          }
        }
        r
      else r
  }

  /** The decoded descriptor. */
  datatype DeviceInfoDesc = DeviceInfoDesc(
    flashStart: u32, flashSize: u32,
    sramStart: u32, sramSize: u32,
    eepromStart: u32, eepromSize: u32,
    offsetTableSize: u32,
    nameOffset: u32,
    strtab: seq<byte>)

  const StrtabStart := 32

  function ReadU32(bs: seq<byte>, at: nat): u32
    requires at + 4 <= |bs|
  {
    (bs[at] as int + bs[at + 1] as int * 0x100 + bs[at + 2] as int * 0x1_0000 +
     bs[at + 3] as int * 0x100_0000) as u32
  }

  function U32Bytes(x: u32): (bs: seq<byte>)
    ensures |bs| == 4
  {
    var n := x as int;
    [(n % 0x100) as byte, ((n / 0x100) % 0x100) as byte,
     ((n / 0x1_0000) % 0x100) as byte, (n / 0x100_0000) as byte]
  }

  lemma ReadU32At(bs: seq<byte>, at: nat, x: u32)
    requires at + 4 <= |bs| && bs[at..at + 4] == U32Bytes(x)
    ensures ReadU32(bs, at) == x
  {
    var n := x as int;
    assert bs[at] == U32Bytes(x)[0] && bs[at + 1] == U32Bytes(x)[1];
    assert bs[at + 2] == U32Bytes(x)[2] && bs[at + 3] == U32Bytes(x)[3];
    ByteDigits(n);
  }

  lemma ByteDigits(n: int)
    requires 0 <= n < 0x1_0000_0000
    ensures n % 0x100 + ((n / 0x100) % 0x100) * 0x100 + ((n / 0x1_0000) % 0x100) * 0x1_0000 +
            (n / 0x100_0000) * 0x100_0000 == n
  {
  }

  /** Splits a descriptor into its fields; one shorter than the fixed header plus one offset is refused. */
  function ParseDesc(desc: seq<byte>): (r: Result<DeviceInfoDesc>)
    ensures r.Err? <==> |desc| < StrtabStart
    ensures r.Err? ==> r.msg == DescriptorTooShort
    ensures r.Ok? ==> r.value.strtab == desc[StrtabStart..] && r.value.nameOffset == ReadU32(desc, 28)
  {
    if |desc| < StrtabStart then Err(DescriptorTooShort)
    else Ok(DeviceInfoDesc(
      ReadU32(desc, 0), ReadU32(desc, 4), ReadU32(desc, 8), ReadU32(desc, 12),
      ReadU32(desc, 16), ReadU32(desc, 20), ReadU32(desc, 24), ReadU32(desc, 28),
      desc[StrtabStart..]))
  }

  /** The header fields of a descriptor, in layout order. */
  function Fields(d: DeviceInfoDesc): seq<u32> {
    [d.flashStart, d.flashSize, d.sramStart, d.sramSize,
     d.eepromStart, d.eepromSize, d.offsetTableSize, d.nameOffset]
  }

  function U32sBytes(xs: seq<u32>): (bs: seq<byte>)
    ensures |bs| == 4 * |xs|
  {
    if xs == [] then [] else U32Bytes(xs[0]) + U32sBytes(xs[1..])
  }

  lemma {:induction false} U32sBytesAt(xs: seq<u32>, k: nat)
    requires k < |xs|
    ensures U32sBytes(xs)[4 * k .. 4 * k + 4] == U32Bytes(xs[k])
  {
    if k > 0 {
      U32sBytesAt(xs[1..], k - 1);
      assert U32sBytes(xs)[4 * k .. 4 * k + 4] == U32sBytes(xs[1..])[4 * (k - 1) .. 4 * (k - 1) + 4];
    }
  }

  /** The descriptor bytes of a decoded descriptor. */
  function DescBytes(d: DeviceInfoDesc): seq<byte> {
    U32sBytes(Fields(d)) + d.strtab
  }

  /** Every descriptor is decoded back from its bytes. */
  lemma ParseDescBytes(d: DeviceInfoDesc)
    ensures ParseDesc(DescBytes(d)) == Ok(d)
  {
    var bs := DescBytes(d);
    var fs := Fields(d);
    forall k | 0 <= k < 8 ensures ReadU32(bs, 4 * k) == fs[k] {
      U32sBytesAt(fs, k);
      assert bs[4 * k .. 4 * k + 4] == U32sBytes(fs)[4 * k .. 4 * k + 4];
      ReadU32At(bs, 4 * k, fs[k]);
    }
    assert ReadU32(bs, 4 * 0) == d.flashStart && ReadU32(bs, 4 * 1) == d.flashSize;
    assert ReadU32(bs, 4 * 2) == d.sramStart && ReadU32(bs, 4 * 3) == d.sramSize;
    assert ReadU32(bs, 4 * 4) == d.eepromStart && ReadU32(bs, 4 * 5) == d.eepromSize;
    assert ReadU32(bs, 4 * 6) == d.offsetTableSize && ReadU32(bs, 4 * 7) == d.nameOffset;
    assert bs[StrtabStart..] == d.strtab;
  }

  /** The position of the first NUL byte of `bs`, if any. */
  function FirstNul(bs: seq<byte>): (r: Option<nat>)
    ensures r.Some? ==> r.value < |bs| && bs[r.value] == 0
    ensures r.Some? ==> forall i :: 0 <= i < r.value ==> bs[i] != 0
    ensures r.None? ==> forall i :: 0 <= i < |bs| ==> bs[i] != 0
  {
    if bs == [] then None
    else if bs[0] == 0 then Some(0)
    else match FirstNul(bs[1..])
      case Some(i) => Some(i + 1)
      case None => None
  }

  /** The NUL-terminated string at `offset` of the string table, without its terminator. */
  function CStrAt(strtab: seq<byte>, offset: nat): (r: Result<seq<byte>>)
    ensures offset > |strtab| ==> r == Err(NameOutOfBounds)
    ensures r.Ok? ==> offset + |r.value| < |strtab| && strtab[offset..offset + |r.value|] == r.value &&
                      strtab[offset + |r.value|] == 0 &&
                      forall i :: 0 <= i < |r.value| ==> r.value[i] != 0
  {
    if offset > |strtab| then Err(NameOutOfBounds)
    else match FirstNul(strtab[offset..])
      case Some(n) => Ok(strtab[offset..offset + n])
      case None => Err(NameUnterminated)
  }

  /**
   * The bytes of the name a descriptor designates: from byte 32 plus
   * `offset_table[0]` up to, and excluding, the first NUL.
   */
  function NameBytes(desc: seq<byte>): (r: Result<seq<byte>>)
    ensures |desc| < StrtabStart ==> r == Err(DescriptorTooShort)
    ensures |desc| >= StrtabStart && StrtabStart + ReadU32(desc, 28) as nat > |desc| ==> r == Err(NameOutOfBounds)
    ensures r.Err? ==> r.msg in {DescriptorTooShort, NameOutOfBounds, NameUnterminated}
    ensures r.Ok? ==>
              var start := StrtabStart + ReadU32(desc, 28) as nat;
              start + |r.value| < |desc| && desc[start..start + |r.value|] == r.value &&
              desc[start + |r.value|] == 0 && forall i :: 0 <= i < |r.value| ==> r.value[i] != 0
  {
    var d :- ParseDesc(desc);
    var r := CStrAt(d.strtab, d.nameOffset as nat);
    assert r.Ok? ==> desc[StrtabStart + d.nameOffset as nat..][..|r.value| + 1] ==
                     d.strtab[d.nameOffset as nat..][..|r.value| + 1];
    r
  }

  /**
   * The device name a descriptor designates: the name bytes, decoded as
   * UTF-8. A short descriptor, an offset past the end, a missing NUL and
   * bytes that are not UTF-8 are each an error.
   */
  function DeviceNameFromDesc(desc: seq<byte>): (r: Result<string>)
    ensures |desc| < StrtabStart ==> r == Err(DescriptorTooShort)
    ensures NameBytes(desc).Err? ==> r == Err(NameBytes(desc).msg)
    ensures NameBytes(desc).Ok? && Utf8.Decode(NameBytes(desc).value).None? ==> r == Err(NameNotUtf8)
    ensures r.Ok? <==> NameBytes(desc).Ok? && Utf8.Decode(NameBytes(desc).value).Some?
    ensures r.Ok? ==> Utf8.Encode(r.value) == NameBytes(desc).value
    ensures r.Err? ==> r.msg in {DescriptorTooShort, NameOutOfBounds, NameUnterminated, NameNotUtf8}
  {
    var bytes :- NameBytes(desc);
    match Utf8.Decode(bytes)
    case Some(name) =>
      Utf8.EncodeDecode(bytes);
      Ok(name)
    case None => Err(NameNotUtf8)
  }

  /**
   * `device_name_from_binary`, from the section lookup onward: the name in
   * the first device-info note of the section.
   */
  function DeviceNameFromBinary(elf: ElfView): (r: Result<string>)
    ensures elf.ReadFailed? ==> r == Err(elf.ioMessage)
    ensures elf.ParseFailed? ==> r == Err(elf.parseMessage)
    ensures elf.NoDeviceInfoSection? ==> r == Err(SectionNotFound)
    ensures elf.DeviceInfoNotes? ==>
              ((forall i :: 0 <= i < |elf.notes| ==> !IsDeviceInfoNote(elf.notes[i])) <==> r == Err(NoteNotFound))
    ensures elf.DeviceInfoNotes? && r != Err(NoteNotFound) ==>
              exists i :: 0 <= i < |elf.notes| && IsDeviceInfoNote(elf.notes[i]) &&
                          (forall j :: 0 <= j < i ==> !IsDeviceInfoNote(elf.notes[j])) &&
                          r == DeviceNameFromDesc(elf.notes[i].note.desc)
  {
    match elf
    case ReadFailed(m) => Err(m)
    case ParseFailed(m) => Err(m)
    case NoDeviceInfoSection => Err(SectionNotFound)
    case DeviceInfoNotes(notes) =>
      match FirstDeviceInfoNote(notes)
      case None => Err(NoteNotFound)
      case Some(note) => DeviceNameFromDesc(note.desc)
  }


  /** The name contains no NUL character. */
  predicate NoNulChar(name: string) {
    forall i :: 0 <= i < |name| ==> name[i] != 0 as char
  }

  lemma {:induction false} EncodeHasNoNul(name: string)
    requires NoNulChar(name)
    ensures forall i :: 0 <= i < |Utf8.Encode(name)| ==> Utf8.Encode(name)[i] != 0
  {
    if name != [] {
      EncodeHasNoNul(name[1..]);
      var e := Utf8.EncodeChar(name[0]);
      assert forall i :: 0 <= i < |e| ==> e[i] != 0 by {
        if name[0] as int >= 0x80 {
          forall i | 0 <= i < |e| ensures e[i] != 0 { assert e[i] >= 0x80; }
        }
      }
      var rest := Utf8.Encode(name[1..]);
      assert Utf8.Encode(name) == e + rest;
      forall i | 0 <= i < |e + rest| ensures (e + rest)[i] != 0 {
        if i >= |e| { assert (e + rest)[i] == rest[i - |e|]; }
      }
    }
  }

  /**
   * Whatever the seven header fields hold, a descriptor whose first string
   * offset points at a NUL-terminated UTF-8 name yields exactly that name.
   */
  lemma DeviceNameAtOffset(header: seq<byte>, pre: seq<byte>, name: string, post: seq<byte>)
    requires |header| == 28 && |pre| < 0x1_0000_0000
    requires NoNulChar(name)
    ensures DeviceNameFromDesc(header + U32Bytes(|pre| as u32) + pre + Utf8.Encode(name) + [0] + post) == Ok(name)
  {
    var enc := Utf8.Encode(name);
    var strtab := pre + enc + [0] + post;
    var desc := header + U32Bytes(|pre| as u32) + strtab;
    assert desc == header + U32Bytes(|pre| as u32) + pre + enc + [0] + post;
    ParseLaidOutDesc(header, |pre| as u32, strtab);
    EncodeHasNoNul(name);
    CStrOfTerminated(pre, enc, post);
    Utf8.DecodeEncode(name);
  }

  lemma ParseLaidOutDesc(header: seq<byte>, offset: u32, strtab: seq<byte>)
    requires |header| == 28
    ensures ParseDesc(header + U32Bytes(offset) + strtab).Ok?
    ensures ParseDesc(header + U32Bytes(offset) + strtab).value.nameOffset == offset
    ensures ParseDesc(header + U32Bytes(offset) + strtab).value.strtab == strtab
  {
    var desc := header + U32Bytes(offset) + strtab;
    assert desc[28..32] == U32Bytes(offset);
    ReadU32At(desc, 28, offset);
    assert desc[StrtabStart..] == strtab;
  }

  lemma CStrOfTerminated(pre: seq<byte>, bytes: seq<byte>, post: seq<byte>)
    requires forall i :: 0 <= i < |bytes| ==> bytes[i] != 0
    ensures CStrAt(pre + bytes + [0] + post, |pre|) == Ok(bytes)
  {
    var strtab := pre + bytes + [0] + post;
    var tail := strtab[|pre|..];
    assert tail == bytes + [0] + post;
    assert tail[|bytes|] == 0;
    assert forall i :: 0 <= i < |bytes| ==> tail[i] != 0 by {
      forall i | 0 <= i < |bytes| ensures tail[i] != 0 { assert tail[i] == bytes[i]; }
    }
    assert FirstNul(tail) == Some(|bytes|);
    assert strtab[|pre|..|pre| + |bytes|] == bytes;
  }

  /** The example of the avr-libc device-info note: offset 0, string table "atmega328p\0". */
  lemma DeviceNameAtmega328p(header: seq<byte>)
    requires |header| == 28
    ensures DeviceNameFromDesc(header + [0, 0, 0, 0] + [97, 116, 109, 101, 103, 97, 51, 50, 56, 112, 0]) ==
            Ok("atmega328p")
  {
    var bytes: seq<byte> := [97, 116, 109, 101, 103, 97, 51, 50, 56, 112];
    var strtab := bytes + [0];
    assert U32Bytes(0) == [0, 0, 0, 0];
    ParseLaidOutDesc(header, 0, strtab);
    assert header + U32Bytes(0) + strtab == header + [0, 0, 0, 0] + [97, 116, 109, 101, 103, 97, 51, 50, 56, 112, 0];
    CStrOfTerminated([], bytes, []);
    assert [] + bytes + [0] + [] == strtab;
    Atmega328pDecodes(bytes);
  }

  lemma Atmega328pDecodes(bytes: seq<byte>)
    requires bytes == [97, 116, 109, 101, 103, 97, 51, 50, 56, 112]
    ensures Utf8.Decode(bytes) == Some("atmega328p")
  {
    Utf8.DecodeAscii(bytes);
    var name := Utf8.Decode(bytes).value;
    assert |name| == 10;
    forall i | 0 <= i < 10 ensures name[i] == "atmega328p"[i] {
      assert name[i] as int == bytes[i] as int;
    }
    assert name == "atmega328p";
  }

  /** Only the first string offset and the string table matter: the seven header fields never do. */
  lemma DeviceNameIgnoresHeader(desc1: seq<byte>, desc2: seq<byte>)
    requires |desc1| == |desc2| && |desc1| >= 28 && desc1[28..] == desc2[28..]
    ensures DeviceNameFromDesc(desc1) == DeviceNameFromDesc(desc2)
  {
    if |desc1| >= StrtabStart {
      assert desc1[28..32] == desc2[28..32];
      assert desc1[28] == desc2[28] && desc1[29] == desc2[29];
      assert desc1[30] == desc2[30] && desc1[31] == desc2[31];
      assert ReadU32(desc1, 28) == ReadU32(desc2, 28);
      assert desc1[StrtabStart..] == desc2[StrtabStart..];
    }
  }

  /** Notes that are not device-info notes, placed before the others, change nothing. */
  lemma {:induction false} DeviceNameSkipsOtherNotes(others: seq<Note>, notes: seq<Note>)
    requires forall i :: 0 <= i < |others| ==> !IsDeviceInfoNote(others[i])
    ensures FirstDeviceInfoNote(others + notes) == FirstDeviceInfoNote(notes)
    ensures DeviceNameFromBinary(DeviceInfoNotes(others + notes)) == DeviceNameFromBinary(DeviceInfoNotes(notes))
  {
    if others != [] {
      assert (others + notes)[0] == others[0];
      assert (others + notes)[1..] == others[1..] + notes;
      DeviceNameSkipsOtherNotes(others[1..], notes);
    } else {
      assert others + notes == notes;
    }
  }
}
