/** The bounded pin-list string of the board diagnostics. */
module PinList {
  import opened Common
  import opened Text
  import opened CStrings

  const NGPIOS := 16

  predicate Set(mask: bv16, pin: nat)
    requires pin < NGPIOS
  {
    mask & ((1 as bv16) << pin) != 0
  }

  /** The set pins from `lo` up, in descending order. */
  function PinsFrom(mask: bv16, lo: nat): seq<nat>
    requires lo <= NGPIOS
    decreases NGPIOS - lo
  {
    if lo == NGPIOS then [] else PinsFrom(mask, lo + 1) + (if Set(mask, lo) then [lo] else [])
  }

  function Commas(pins: seq<nat>): string {
    if pins == [] then ""
    else if |pins| == 1 then Dec(pins[0])
    else Dec(pins[0]) + ("," + Commas(pins[1..]))
  }

  function ListText(mask: bv16): string {
    if PinsFrom(mask, 0) == [] then "none" else Commas(PinsFrom(mask, 0))
  }

  lemma {:induction false} CommasSnoc(pins: seq<nat>, pin: nat)
    ensures Commas(pins + [pin]) == if pins == [] then Dec(pin) else Commas(pins) + "," + Dec(pin)
  {
    var longer := pins + [pin];
    if pins == [] {
      assert longer == [pin];
    } else {
      assert longer[1..] == pins[1..] + [pin];
      CommasSnoc(pins[1..], pin);
      if |pins| == 1 {
        assert pins[1..] == [];
      }
    }
  }

  lemma {:induction false} CommasPlain(pins: seq<nat>)
    ensures NoNul(Commas(pins)) && (Commas(pins) == "" <==> pins == [])
  {
    if pins != [] {
      CommasPlain(pins[1..]);
      assert AllDigits(Dec(pins[0]));
    }
  }

  lemma {:induction false} PinsFromMembers(mask: bv16, lo: nat)
    requires lo <= NGPIOS
    ensures forall p :: p in PinsFrom(mask, lo) <==> lo <= p < NGPIOS && Set(mask, p)
    decreases NGPIOS - lo
  {
    if lo < NGPIOS {
      PinsFromMembers(mask, lo + 1);
    }
  }

  lemma {:induction false} PinsFromDescend(mask: bv16, lo: nat)
    requires lo <= NGPIOS
    ensures forall i, j :: 0 <= i < j < |PinsFrom(mask, lo)| ==> PinsFrom(mask, lo)[i] > PinsFrom(mask, lo)[j]
    decreases NGPIOS - lo
  {
    if lo < NGPIOS {
      PinsFromDescend(mask, lo + 1);
      PinsFromMembers(mask, lo + 1);
      var rest := PinsFrom(mask, lo + 1);
      assert forall i :: 0 <= i < |rest| ==> rest[i] in rest;
    }
  }

  /** The list says exactly which pins are set, highest first. */
  lemma PinsFromExact(mask: bv16)
    ensures forall p :: p in PinsFrom(mask, 0) <==> 0 <= p < NGPIOS && Set(mask, p)
    ensures forall i, j :: 0 <= i < j < |PinsFrom(mask, 0)| ==> PinsFrom(mask, 0)[i] > PinsFrom(mask, 0)[j]
  {
    PinsFromMembers(mask, 0);
    PinsFromDescend(mask, 0);
  }

  function ParseList(s: string): Option<seq<nat>>
    decreases |s|
  {
    var (n, rest) :- Number(s);
    if rest == "" then Some([n])
    else
      var more :- Literal(rest, ",");
      var others :- ParseListShorter(s, more);
      Some([n] + others)
  }

  function ParseListShorter(s: string, more: string): Option<seq<nat>>
    decreases |s|, 0
  {
    if |more| < |s| then ParseList(more) else None
  }

  lemma {:induction false} ParseCommas(pins: seq<nat>)
    requires pins != []
    ensures ParseList(Commas(pins)) == Some(pins)
  {
    if |pins| == 1 {
      NumberOf(pins[0], "");
      assert Dec(pins[0]) + "" == Dec(pins[0]);
      assert pins == [pins[0]];
    } else {
      var more := Commas(pins[1..]);
      ParseCommas(pins[1..]);
      NumberOf(pins[0], "," + more);
      LiteralOf(",", more);
      assert pins == [pins[0]] + pins[1..];
    }
  }

  /** Parsing an untruncated list gives back exactly the set pins, in descending order. */
  lemma ListRoundTrip(mask: bv16)
    requires PinsFrom(mask, 0) != []
    ensures ParseList(ListText(mask)) == Some(PinsFrom(mask, 0))
    ensures forall p :: 0 <= p < NGPIOS ==> (p in PinsFrom(mask, 0) <==> Set(mask, p))
  {
    ParseCommas(PinsFrom(mask, 0));
    PinsFromExact(mask);
  }

  /** No pin set reads "none"; otherwise the highest set pin stands first and a comma before each other. */
  lemma ListTextIs(mask: bv16)
    ensures PinsFrom(mask, 0) == [] ==> ListText(mask) == "none"
    ensures |PinsFrom(mask, 0)| == 1 ==> ListText(mask) == Dec(PinsFrom(mask, 0)[0])
    ensures |PinsFrom(mask, 0)| > 1 ==>
      ListText(mask) == Dec(PinsFrom(mask, 0)[0]) + ("," + Commas(PinsFrom(mask, 0)[1..]))
  {
  }

  /** Pins are the sixteen bits of the mask, pin 0 the least significant. */
  lemma SetMeans(mask: bv16)
    ensures Set(mask, 0) <==> mask & 0x0001 != 0
    ensures Set(mask, 1) <==> mask & 0x0002 != 0
    ensures Set(mask, 8) <==> mask & 0x0100 != 0
    ensures Set(mask, 15) <==> mask & 0x8000 != 0
    ensures NGPIOS == 16
  {
  }

  /** Truncating as one goes along is truncating at the end. */
  lemma TakeConcat(s: string, t: string, n: nat)
    ensures Take(Take(s, n) + Take(t, n - |Take(s, n)|), n) == Take(s + t, n)
    ensures Take(s, n) + Take(t, n - |Take(s, n)|) == Take(s + t, n)
  {
  }

  /** The loop: the list of set pins, cut to the buffer's size. */
  method AppendPins(mask: bv16, buffer: array<char>)
    requires buffer.Length > 0 && Holds(buffer, "")
    modifies buffer
    ensures Holds(buffer, Take(Commas(PinsFrom(mask, 0)), buffer.Length - 1))
  {
    var first := true;
    var pin := NGPIOS;
    while pin > 0
      invariant 0 <= pin <= NGPIOS
      invariant first == (PinsFrom(mask, pin) == [])
      invariant Holds(buffer, Take(Commas(PinsFrom(mask, pin)), buffer.Length - 1))
    {
      pin := pin - 1;
      PinsFromStep(mask, pin);
      if Set(mask, pin) {
        AppendPin(buffer, PinsFrom(mask, pin + 1), pin, first);
        first := false;
      }
    }
  }

  lemma NothingShown(mask: bv16, room: nat)
    ensures
      var shown := Take(Commas(PinsFrom(mask, 0)), room);
      Take(ListText(mask), room) == if shown == "" then Take("none", room) else shown
  {
    CommasPlain(PinsFrom(mask, 0));
  }

  /** For every mask and every buffer that can hold a NUL, the buffer ends up holding the list cut to
      the buffer's size. */
  method BuildPinListString(mask: bv16, buffer: array<char>)
    requires buffer.Length > 0
    modifies buffer
    ensures Holds(buffer, Take(ListText(mask), buffer.Length - 1))
  {
    buffer[0] := '\0';
    AppendPins(mask, buffer);
    NothingShown(mask, buffer.Length - 1);
    HoldsAt(buffer, Take(Commas(PinsFrom(mask, 0)), buffer.Length - 1));
    if buffer[0] == '\0' {
      StrCopy(buffer, "none");
    }
  }

  lemma PinsFromStep(mask: bv16, pin: nat)
    requires pin < NGPIOS
    ensures PinsFrom(mask, pin) == if Set(mask, pin) then PinsFrom(mask, pin + 1) + [pin] else PinsFrom(mask, pin + 1)
  {
    assert PinsFrom(mask, pin + 1) + [] == PinsFrom(mask, pin + 1);
  }

  /** A comma unless it is the first, then the pin. */
  method AppendPin(buffer: array<char>, ghost pins: seq<nat>, pin: nat, first: bool)
    requires buffer.Length > 0 && first == (pins == [])
    requires Holds(buffer, Take(Commas(pins), buffer.Length - 1))
    modifies buffer
    ensures Holds(buffer, Take(Commas(pins + [pin]), buffer.Length - 1))
  {
    ghost var before := Commas(pins);
    CommasSnoc(pins, pin);
    if !first {
      Append(buffer, before, ",");
      before := before + ",";
    }
    assert AllDigits(Dec(pin));
    Append(buffer, before, Dec(pin));
  }

  /** `strncat` with what room is left. */
  method Append(buffer: array<char>, ghost before: string, s: string)
    requires buffer.Length > 0 && NoNul(s)
    requires Holds(buffer, Take(before, buffer.Length - 1))
    modifies buffer
    ensures Holds(buffer, Take(before + s, buffer.Length - 1))
  {
    ghost var held := Take(before, buffer.Length - 1);
    var len := StrLen(buffer, held);
    StrNCat(buffer, held, s, buffer.Length - len - 1);
    TakeConcat(before, s, buffer.Length - 1);
  }
}
