/** The device name made from the hardware ID: byte packing, hex formatting, the cached name, and
    the advertiser's own fallback packing. */
module DeviceNaming {
  import opened Common
  import opened CStrings

  const PREFIX := "T52"
  const MIN_BUF := 16
  const NAME_MAX_LEN := 64

  function HexChar(n: bv8): char {
    if n == 0 then '0' else if n == 1 then '1' else if n == 2 then '2' else if n == 3 then '3'
    else if n == 4 then '4' else if n == 5 then '5' else if n == 6 then '6' else if n == 7 then '7'
    else if n == 8 then '8' else if n == 9 then '9' else if n == 10 then 'A' else if n == 11 then 'B'
    else if n == 12 then 'C' else if n == 13 then 'D' else if n == 14 then 'E' else 'F'
  }

  function HexByte(b: bv8): string { [HexChar(b >> 4), HexChar(b & 15)] }

  /** Four bytes as hex, in the order they stand in memory. */
  function HexBytes(q: seq<bv8>): string
    requires |q| == 4
  {
    HexByte(q[0]) + (HexByte(q[1]) + (HexByte(q[2]) + HexByte(q[3])))
  }

  /** The bytes of a word, highest first. */
  function BytesOf(word: bv32): seq<bv8> {
    [((word >> 24) & 255) as bv8, ((word >> 16) & 255) as bv8, ((word >> 8) & 255) as bv8, (word & 255) as bv8]
  }

  /** `%08X`. */
  function Hex8(word: bv32): string { HexBytes(BytesOf(word)) }

  /** Four bytes as one word, the last one lowest. */
  function Word(q: seq<bv8>): bv32
    requires |q| == 4
  {
    (((q[3] as bv32) | (q[2] as bv32 << 8)) | (q[1] as bv32 << 16)) | (q[0] as bv32 << 24)
  }

  /** Byte `b` moved to bits 8i..8i+7: `b << (8 * i)`, one shift amount at a time. */
  function Lane(b: bv8, i: nat): bv32
    requires i < 4
  {
    if i == 0 then b as bv32 else if i == 1 then b as bv32 << 8 else if i == 2 then b as bv32 << 16 else b as bv32 << 24
  }

  /** The last `i` bytes of the ID in memory order, as far as there are that many, after zeros. */
  function LastBytes(id: seq<bv8>, i: nat): (q: seq<bv8>)
    ensures |q| == 4
    ensures forall k :: 0 <= k < 4 ==> q[k] == if 3 - k < i && 3 - k < |id| then id[|id| - 4 + k] else 0
  {
    seq(4, k requires 0 <= k < 4 => if 3 - k < i && 3 - k < |id| then id[|id| - 4 + k] else 0)
  }

  /** The same bytes in the opposite order. */
  function FirstBytes(id: seq<bv8>, i: nat): (q: seq<bv8>)
    requires i <= |id|
    ensures |q| == 4
    ensures forall k :: 0 <= k < 4 ==> q[k] == if 3 - k < i then id[|id| - i + 3 - k] else 0
  {
    seq(4, k requires 0 <= k < 4 => if 3 - k < i then id[|id| - i + 3 - k] else 0)
  }

  function Used(id: seq<bv8>): nat { if |id| < 4 then |id| else 4 }

  function Name(id: seq<bv8>): string { PREFIX + "-" + HexBytes(LastBytes(id, 4)) }

  function FallbackName(id: seq<bv8>): string { PREFIX + "-" + HexBytes(FirstBytes(id, Used(id))) }

  /** Upper-case hexadecimal, the high half of each byte first, byte after byte. */
  lemma HexCharsAre()
    ensures HexChar(0) == '0' && HexChar(1) == '1' && HexChar(2) == '2' && HexChar(3) == '3'
    ensures HexChar(4) == '4' && HexChar(5) == '5' && HexChar(6) == '6' && HexChar(7) == '7'
    ensures HexChar(8) == '8' && HexChar(9) == '9' && HexChar(10) == 'A' && HexChar(11) == 'B'
    ensures HexChar(12) == 'C' && HexChar(13) == 'D' && HexChar(14) == 'E' && HexChar(15) == 'F'
  {
  }

  lemma HexBytesAre(q: seq<bv8>)
    requires |q| == 4
    ensures HexBytes(q) == [HexChar(q[0] >> 4), HexChar(q[0] & 15), HexChar(q[1] >> 4), HexChar(q[1] & 15),
                            HexChar(q[2] >> 4), HexChar(q[2] & 15), HexChar(q[3] >> 4), HexChar(q[3] & 15)]
  {
  }

  /** For example. */
  lemma NamesAre()
    ensures Name([0x00, 0x11, 0xDE, 0xAD, 0xBE, 0xEF]) == "T52-DEADBEEF"
    ensures Name([0x5A]) == "T52-0000005A"
    ensures FallbackName([0x00, 0x11, 0xDE, 0xAD, 0xBE, 0xEF]) == "T52-EFBEADDE"
  {
    assert LastBytes([0x00, 0x11, 0xDE, 0xAD, 0xBE, 0xEF], 4) == [0xDE, 0xAD, 0xBE, 0xEF];
    assert LastBytes([0x5A], 4) == [0x00, 0x00, 0x00, 0x5A];
    assert FirstBytes([0x00, 0x11, 0xDE, 0xAD, 0xBE, 0xEF], 4) == [0xEF, 0xBE, 0xAD, 0xDE];
    HexBytesAre([0xDE, 0xAD, 0xBE, 0xEF]);
    HexBytesAre([0x00, 0x00, 0x00, 0x5A]);
    HexBytesAre([0xEF, 0xBE, 0xAD, 0xDE]);
    HexCharsAre();
    NibblesOfExamples();
  }

  lemma NibblesOfExamples()
    ensures (0xDE as bv8) >> 4 == 13 && (0xDE as bv8) & 15 == 14 && (0xAD as bv8) >> 4 == 10 && (0xAD as bv8) & 15 == 13
    ensures (0xBE as bv8) >> 4 == 11 && (0xBE as bv8) & 15 == 14 && (0xEF as bv8) >> 4 == 14 && (0xEF as bv8) & 15 == 15
    ensures (0x5A as bv8) >> 4 == 5 && (0x5A as bv8) & 15 == 10 && (0 as bv8) >> 4 == 0 && (0 as bv8) & 15 == 0
  {
  }

  // ---------------------------------------------------------------- words and bytes

  lemma FirstByte(q: seq<bv8>)
    requires |q| == 4
    ensures ((Word(q) >> 24) & 255) as bv8 == q[0]
  {
  }

  lemma SecondByte(q: seq<bv8>)
    requires |q| == 4
    ensures ((Word(q) >> 16) & 255) as bv8 == q[1]
  {
  }

  lemma ThirdByte(q: seq<bv8>)
    requires |q| == 4
    ensures ((Word(q) >> 8) & 255) as bv8 == q[2]
  {
  }

  lemma FourthByte(q: seq<bv8>)
    requires |q| == 4
    ensures (Word(q) & 255) as bv8 == q[3]
  {
  }

  /** Taking the packed word apart gives its bytes back. */
  lemma BytesOfWord(q: seq<bv8>)
    requires |q| == 4
    ensures BytesOf(Word(q)) == q
  {
    FirstByte(q);
    SecondByte(q);
    ThirdByte(q);
    FourthByte(q);
  }

  lemma FillLowest(q: seq<bv8>, b: bv8)
    requires |q| == 4 && q[3] == 0
    ensures Word(q) | (b as bv32) == Word(q[3 := b])
  {
  }

  lemma FillSecond(q: seq<bv8>, b: bv8)
    requires |q| == 4 && q[2] == 0
    ensures Word(q) | (b as bv32 << 8) == Word(q[2 := b])
  {
  }

  lemma FillThird(q: seq<bv8>, b: bv8)
    requires |q| == 4 && q[1] == 0
    ensures Word(q) | (b as bv32 << 16) == Word(q[1 := b])
  {
  }

  lemma FillHighest(q: seq<bv8>, b: bv8)
    requires |q| == 4 && q[0] == 0
    ensures Word(q) | (b as bv32 << 24) == Word(q[0 := b])
  {
  }

  lemma FillLane(q: seq<bv8>, b: bv8, i: nat)
    requires |q| == 4 && i < 4 && q[3 - i] == 0
    ensures Word(q) | Lane(b, i) == Word(q[3 - i := b])
  {
    if i == 0 {
      FillLowest(q, b);
    } else if i == 1 {
      FillSecond(q, b);
    } else if i == 2 {
      FillThird(q, b);
    } else {
      FillHighest(q, b);
    }
  }

  /** A round of the shift-or loop fills the next byte. */
  lemma PackStep(id: seq<bv8>, i: nat)
    requires i < 4 && i < |id|
    ensures Word(LastBytes(id, i)) | Lane(id[|id| - 1 - i], i) == Word(LastBytes(id, i + 1))
  {
    var q := LastBytes(id, i);
    assert q[3 - i := id[|id| - 1 - i]] == LastBytes(id, i + 1);
    FillLane(q, id[|id| - 1 - i], i);
  }

  lemma ShiftWord(q: seq<bv8>, b: bv8)
    requires |q| == 4 && q[0] == 0
    ensures (Word(q) << 8) | b as bv32 == Word(q[1..] + [b])
  {
  }

  /** A round of the advertiser's loop moves every byte up and adds one below. */
  lemma FallbackStep(id: seq<bv8>, i: nat)
    requires i < Used(id)
    ensures (Word(FirstBytes(id, i)) << 8) | id[|id| - 1 - i] as bv32 == Word(FirstBytes(id, i + 1))
  {
    var q := FirstBytes(id, i);
    assert q[1..] + [id[|id| - 1 - i]] == FirstBytes(id, i + 1);
    ShiftWord(q, id[|id| - 1 - i]);
  }

  lemma NoBytes(q: seq<bv8>)
    requires |q| == 4 && forall k :: 0 <= k < 4 ==> q[k] == 0
    ensures Word(q) == 0
  {
  }

  /** Printing the packed word prints its bytes. */
  lemma WordPrints(q: seq<bv8>)
    requires |q| == 4
    ensures Hex8(Word(q)) == HexBytes(q)
  {
    BytesOfWord(q);
  }

  lemma NoRoundsYet(id: seq<bv8>)
    ensures Word(LastBytes(id, 0)) == 0 && Word(FirstBytes(id, 0)) == 0
  {
    NoBytes(LastBytes(id, 0));
    NoBytes(FirstBytes(id, 0));
  }

  /** Rounds past the start of the ID would add nothing, so the loop may stop there. */
  lemma PackStops(id: seq<bv8>, i: nat)
    requires |id| <= i <= 4 || i == 4
    ensures LastBytes(id, i) == LastBytes(id, 4)
  {
  }

  /** The loop of `device_naming_get_name`: the word whose bytes are the last ones of the ID. */
  method PackId(id: seq<bv8>) returns (uniqueId: bv32)
    ensures uniqueId == Word(LastBytes(id, 4))
  {
    uniqueId := 0;
    var i := 0;
    NoRoundsYet(id);
    while i < 4 && i < |id|
      invariant 0 <= i <= 4
      invariant uniqueId == Word(LastBytes(id, i))
    {
      PackStep(id, i);
      uniqueId := uniqueId | Lane(id[|id| - 1 - i], i);
      i := i + 1;
    }
    PackStops(id, i);
  }

  /** The loop of the advertiser's fallback. */
  method PackIdFallback(id: seq<bv8>) returns (uniqueId: bv32)
    ensures uniqueId == Word(FirstBytes(id, Used(id)))
  {
    var bytesToUse := if |id| < 4 then |id| else 4;
    uniqueId := 0;
    NoRoundsYet(id);
    for i := 0 to bytesToUse
      invariant uniqueId == Word(FirstBytes(id, i))
    {
      FallbackStep(id, i);
      uniqueId := (uniqueId << 8) | id[|id| - 1 - i] as bv32;
    }
  }

  // ---------------------------------------------------------------- the names

  lemma HexCharInjective(m: bv8, n: bv8)
    requires m < 16 && n < 16 && HexChar(m) == HexChar(n)
    ensures m == n
  {
  }

  lemma ByteFromNibbles(a: bv8, b: bv8)
    requires a >> 4 == b >> 4 && a & 15 == b & 15
    ensures a == b
  {
  }

  lemma HexByteInjective(a: bv8, b: bv8)
    requires HexByte(a) == HexByte(b)
    ensures a == b
  {
    assert HexByte(a)[0] == HexByte(b)[0] && HexByte(a)[1] == HexByte(b)[1];
    HexCharInjective(a >> 4, b >> 4);
    HexCharInjective(a & 15, b & 15);
    ByteFromNibbles(a, b);
  }

  lemma HeadAndTail(s: string, t: string, u: string, v: string)
    requires |s| == |u| && s + t == u + v
    ensures s == u && t == v
  {
    assert s == (s + t)[..|s|] && u == (u + v)[..|s|];
    assert t == (s + t)[|s|..] && v == (u + v)[|s|..];
  }

  lemma HexBytesInjective(q: seq<bv8>, p: seq<bv8>)
    requires |q| == |p| == 4 && HexBytes(q) == HexBytes(p)
    ensures q == p
  {
    HeadAndTail(HexByte(q[0]), HexByte(q[1]) + (HexByte(q[2]) + HexByte(q[3])),
                HexByte(p[0]), HexByte(p[1]) + (HexByte(p[2]) + HexByte(p[3])));
    HeadAndTail(HexByte(q[1]), HexByte(q[2]) + HexByte(q[3]), HexByte(p[1]), HexByte(p[2]) + HexByte(p[3]));
    HeadAndTail(HexByte(q[2]), HexByte(q[3]), HexByte(p[2]), HexByte(p[3]));
    HexByteInjective(q[0], p[0]);
    HexByteInjective(q[1], p[1]);
    HexByteInjective(q[2], p[2]);
    HexByteInjective(q[3], p[3]);
  }

  /** Two IDs have one name exactly when they agree in their last four bytes, zeros standing for the
      bytes a shorter ID lacks; for one length that means in the last min(4, length) bytes. */
  lemma NamesEqualIffLastBytesEqual(x: seq<bv8>, y: seq<bv8>)
    ensures Name(x) == Name(y) <==> LastBytes(x, 4) == LastBytes(y, 4)
    ensures |x| == |y| ==> (Name(x) == Name(y) <==> Tail(x) == Tail(y))
  {
    if Name(x) == Name(y) {
      HeadAndTail(PREFIX + "-", HexBytes(LastBytes(x, 4)), PREFIX + "-", HexBytes(LastBytes(y, 4)));
      HexBytesInjective(LastBytes(x, 4), LastBytes(y, 4));
    }
    if |x| == |y| {
      LastBytesOfTail(x);
      LastBytesOfTail(y);
      PaddingInjective(Tail(x), Tail(y));
    }
  }

  function Tail(id: seq<bv8>): seq<bv8> { id[|id| - Used(id)..] }

  lemma LastBytesOfTail(id: seq<bv8>)
    ensures LastBytes(Tail(id), 4) == LastBytes(id, 4)
  {
  }

  lemma PaddingInjective(x: seq<bv8>, y: seq<bv8>)
    requires |x| == |y| <= 4
    ensures LastBytes(x, 4) == LastBytes(y, 4) <==> x == y
  {
    assert LastBytes(x, 4)[4 - |x|..] == x && LastBytes(y, 4)[4 - |y|..] == y;
  }

  /** The last `Used` bytes, reversed. */
  function Reversed(id: seq<bv8>): (r: seq<bv8>)
    ensures |r| == Used(id)
    ensures forall i :: 0 <= i < |r| ==> r[i] == id[|id| - 1 - i]
  {
    seq(Used(id), i requires 0 <= i < Used(id) => id[|id| - 1 - i])
  }

  /** The advertiser's fallback names the device after the same bytes in the opposite order. */
  lemma FallbackIsReversed(id: seq<bv8>)
    ensures FallbackName(id) == Name(Reversed(id))
  {
    assert FirstBytes(id, Used(id)) == LastBytes(Reversed(id), 4);
  }

  /** So the two names agree exactly when the bytes used read the same in both directions. */
  lemma FallbackAgreesIffPalindrome(id: seq<bv8>)
    ensures FallbackName(id) == Name(id) <==> Reversed(id) == Tail(id)
  {
    FallbackIsReversed(id);
    NamesEqualIffLastBytesEqual(Reversed(id), id);
    LastBytesOfTail(id);
    PaddingInjective(Reversed(id), Tail(id));
  }

  lemma HexBytesPlain(q: seq<bv8>)
    requires |q| == 4
    ensures |HexBytes(q)| == 8 && NoNul(HexBytes(q))
  {
    assert NoNul(HexByte(q[0])) && NoNul(HexByte(q[1])) && NoNul(HexByte(q[2])) && NoNul(HexByte(q[3]));
  }

  lemma NamePlain(id: seq<bv8>)
    ensures |Name(id)| == 12 && NoNul(Name(id))
  {
    HexBytesPlain(LastBytes(id, 4));
  }

  /** What `hwinfo_get_device_id` returns: 1 to 8 bytes, or a failure. */
  datatype HwId = Id(bytes: seq<bv8>) | Failed

  class Naming {
    const buffer: array<char>
    var initialized: bool
    ghost var name: string

    ghost predicate Valid()
      reads this, buffer
    {
      buffer.Length == NAME_MAX_LEN && (initialized ==> |name| == 12 && Holds(buffer, name))
    }

    constructor ()
      ensures Valid() && !initialized && fresh(buffer)
    {
      buffer := new char[NAME_MAX_LEN];
      initialized, name := false, "";
    }

    /** The first call that gets an ID fixes the name; every later call with a buffer of at least 16
        returns that name, untruncated, whatever the hardware says then. */
    method GetName(out: array?<char>, hw: HwId) returns (ret: int)
      requires Valid() && out != buffer && (hw.Id? ==> 1 <= |hw.bytes| <= 8)
      modifies this, buffer, out
      ensures Valid()
      ensures out == null || out.Length < MIN_BUF ==>
        ret == EINVAL && initialized == old(initialized) && name == old(name) && (out != null ==> out[..] == old(out[..]))
      ensures out != null && out.Length >= MIN_BUF ==>
        if old(initialized) then ret == 0 && initialized && name == old(name) && Holds(out, name)
        else if hw.Failed? then ret == ENODEV && !initialized && Holds(out, PREFIX + "-UNKNOWN")
        else ret == 0 && initialized && name == Name(hw.bytes) && Holds(out, name)
    {
      if out == null || out.Length < MIN_BUF {
        return EINVAL;
      }
      if initialized {
        CopyString(out, buffer, name);
        return 0;
      }
      match hw {
        case Failed =>
          StrCopy(out, PREFIX + "-UNKNOWN");
          return ENODEV;
        case Id(id) =>
          var uniqueId := PackId(id);
          WordPrints(LastBytes(id, 4));
          NamePlain(id);
          StrCopy(out, PREFIX + "-" + Hex8(uniqueId));
          name := Name(id);
          CopyString(buffer, out, name);
          initialized := true;
          return 0;
      }
    }

    /** The advertiser's name: the cached one if there is one to be had, else its own packing of a
        second ID read, else zeros, cut to the buffer. */
    method GenerateUniqueDeviceName(out: array<char>, hw: HwId, again: HwId)
      requires Valid() && out != buffer && out.Length > 0
      requires (hw.Id? ==> 1 <= |hw.bytes| <= 8) && (again.Id? ==> 1 <= |again.bytes| <= 8)
      modifies this, buffer, out
      ensures Valid()
      ensures out.Length >= MIN_BUF && (old(initialized) || hw.Id?) ==>
        initialized && Holds(out, name) && name == if old(initialized) then old(name) else Name(hw.bytes)
      ensures out.Length < MIN_BUF || (!old(initialized) && hw.Failed?) ==>
        initialized == old(initialized) && Holds(out,
          Take(if again.Id? then FallbackName(again.bytes) else PREFIX + "-00000000", out.Length - 1))
    {
      var ret := GetName(out, hw);
      if ret != 0 {
        match again {
          case Id(id) =>
            var uniqueId := PackIdFallback(id);
            WordPrints(FirstBytes(id, Used(id)));
            FallbackIsReversed(id);
            NamePlain(Reversed(id));
            StrCopy(out, PREFIX + "-" + Hex8(uniqueId));
          case Failed =>
            StrCopy(out, PREFIX + "-00000000");
        }
      }
    }
  }

  /** `strncpy` between buffers that both have room for the string. */
  method CopyString(dst: array<char>, src: array<char>, ghost s: string)
    requires dst != src && Holds(src, s) && |s| < dst.Length
    modifies dst
    ensures Holds(dst, s)
  {
    HoldsAt(src, s);
    var i := 0;
    while src[i] != '\0'
      invariant 0 <= i <= |s|
      invariant dst[..i] == s[..i]
      decreases |s| - i
    {
      dst[i] := src[i];
      i := i + 1;
    }
    dst[i] := '\0';
  }
}
