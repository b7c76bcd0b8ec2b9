/** The debug shell's printer, and the round trips through the parser of its output. */
module Shell {
  import opened Common
  import opened Text
  import opened ShellParse
  import opened EssService
  import C = Ccs811

  function Label(ch: Char): string {
    match ch
    case TempChar => "temp"
    case HumChar => "humidity"
    case PressChar => "pressure"
    case Co2Char => "co2"
    case TvocChar => "tvoc"
  }

  /** What a GATT read handed the shell: a byte count or a negative error, and the bytes. The
      floating-point part of the decoded line is `tail`. */
  datatype Reply = Reply(ret: int, bytes: seq<byte>, tail: string)

  predicate ReplyOk(r: Reply) {
    OneLine(r.tail) && (r.ret >= 0 ==> r.ret == |r.bytes| && 2 <= |r.bytes| <= 8)
  }

  /** The integer the decoded line shows. */
  function DecodedValue(ch: Char, bytes: seq<byte>): int
    requires |bytes| >= 2
  {
    match ch
    case TempChar => Int16(FromLe(bytes[..2]))
    case PressChar => if |bytes| >= 4 then FromLe(bytes[..4]) else 0
    case _ => FromLe(bytes[..2])
  }

  /** `print_ess_decoded`; nothing when the value is too short. */
  function DecodedLines(ch: Char, r: Reply): seq<string>
    requires |r.bytes| >= 2
  {
    if ch.PressChar? && |r.bytes| < 4 then []
    else
      var raw := DecodedValue(ch, r.bytes);
      ["  decoded: " + (if (ch.Co2Char? || ch.TvocChar?) && raw == 0xFFFF then "0xFFFF (unknown)" else ShowInt(raw) + r.tail)]
  }

  function WireLine(ch: Char, r: Reply): string
    requires r.ret >= 0
  {
    Label(ch) + ShowNumber(" wire [", r.ret, "]: " + Hex(r.bytes))
  }

  function ErrorLine(ch: Char, ret: int): string { Label(ch) + (" GATT read failed: " + ShowInt(ret)) }

  function BatteryLine(level: nat, charging: bool): string {
    "battery cache: " + (Dec(level) + ("% charging=" + ShowYesNo(charging)))
  }

  function ReadLines(ch: Char, r: Reply): seq<string>
    requires ReplyOk(r)
  {
    if r.ret < 0 then [ErrorLine(ch, r.ret)] else [WireLine(ch, r)] + DecodedLines(ch, r)
  }

  /** The polled characteristics; the battery line comes before the fourth. */
  const POLL_ORDER: seq<Char> := [TempChar, HumChar, PressChar, Co2Char, TvocChar]

  function BatteryLines(i: nat, level: nat, charging: bool): seq<string> {
    if i == 3 then [BatteryLine(level, charging)] else []
  }

  /** The rest of one poll round from step `i`, given the replies its reads get: it stops at the
      first failing read. */
  function PollLines(i: nat, rs: seq<Reply>, level: nat, charging: bool): seq<string>
    requires |rs| == 5 && i <= 5 && forall r :: r in rs ==> ReplyOk(r)
    decreases 5 - i
  {
    if i == 5 then []
    else
      BatteryLines(i, level, charging) +
      (ReadLines(POLL_ORDER[i], rs[i]) + (if rs[i].ret < 0 then [] else PollLines(i + 1, rs, level, charging)))
  }

  /** The return code of the round. */
  function FirstError(i: nat, rs: seq<Reply>): int
    requires |rs| == 5 && i <= 5
    decreases 5 - i
  {
    if i == 5 then 0 else if rs[i].ret < 0 then rs[i].ret else FirstError(i + 1, rs)
  }

  /** What the parser should find: the reads up to the first failing one. */
  function Polled(i: nat, rs: seq<Reply>): seq<WireRead>
    requires |rs| == 5 && i <= 5
    decreases 5 - i
  {
    if i == 5 || rs[i].ret < 0 then []
    else [WireRead(Label(POLL_ORDER[i]), rs[i].ret, rs[i].bytes)] + Polled(i + 1, rs)
  }

  // ---------------------------------------------------------------- lines of the output

  lemma NameOf(ch: Char, rest: string)
    ensures Name(Label(ch) + rest) == Some((Label(ch), rest))
  {
    var s := Label(ch) + rest;
    assert Label(ch) <= s && s[|Label(ch)|..] == rest;
    match ch
    case TempChar =>
    case HumChar => assert s[0] == 'h';
    case PressChar => assert s[0] == 'p';
    case Co2Char => assert s[0] == 'c';
    case TvocChar => assert s[1] == 'v';
  }

  lemma MatchShownWire(ch: Char, n: nat, hex: string, open: string, close: string)
    requires hex != "" && HexText(hex) && close != "" && !IsDigit(close[0])
    ensures MatchWireWith(Label(ch) + ShowNumber(open, n, close + hex), open, close) == Some(WireMatch(Label(ch), n, hex))
  {
    NameOf(ch, ShowNumber(open, n, close + hex));
    NumberFieldOf(open, n, close + hex);
    LiteralOf(close, hex);
  }

  lemma WireLineParses(ch: Char, r: Reply)
    requires ReplyOk(r) && r.ret >= 0
    ensures WireReads([WireLine(ch, r)]) == Some([WireRead(Label(ch), r.ret, r.bytes)])
  {
    HexIsHexText(r.bytes);
    HexRoundTrip(r.bytes);
    MatchShownWire(ch, r.ret, Hex(r.bytes), " wire [", "]: ");
    OneWireRead(WireLine(ch, r));
  }

  /** No other line of the output looks like a wire read. */
  lemma ErrorLineIgnored(ch: Char, ret: int)
    ensures WireReads([ErrorLine(ch, ret)]) == Some([])
  {
    var s1 := " GATT read failed: " + ShowInt(ret);
    NameOf(ch, s1);
    assert s1[1] == 'G';
    NoLiteral(s1, " wire [", 1);
    OneWireRead(ErrorLine(ch, ret));
  }

  lemma NoLiteral(s: string, word: string, i: nat)
    requires i < |word| && i < |s| && s[i] != word[i]
    ensures Literal(s, word).None?
  {
  }

  lemma OtherFirstCharIgnored(line: string)
    requires line != "" && line[0] !in "thpc"
    ensures WireReads([line]) == Some([])
  {
    assert Name(line).None? by {
      assert "temp"[0] == 't' && "humidity"[0] == 'h' && "pressure"[0] == 'p' && "co2"[0] == 'c' && "tvoc"[0] == 't';
    }
    OneWireRead(line);
  }

  lemma ReadLinesParse(ch: Char, r: Reply)
    requires ReplyOk(r)
    ensures WireReads(ReadLines(ch, r)) == Some(if r.ret < 0 then [] else [WireRead(Label(ch), r.ret, r.bytes)])
  {
    if r.ret < 0 {
      ErrorLineIgnored(ch, r.ret);
    } else {
      WireLineParses(ch, r);
      DecodedIgnored(ch, r);
      WireReadsAppend([WireLine(ch, r)], DecodedLines(ch, r));
    }
  }

  lemma DecodedIgnored(ch: Char, r: Reply)
    requires |r.bytes| >= 2
    ensures WireReads(DecodedLines(ch, r)) == Some([])
  {
    var lines := DecodedLines(ch, r);
    if lines != [] {
      assert lines[0][0] == ' ' && lines == [lines[0]];
      OtherFirstCharIgnored(lines[0]);
    }
  }

  lemma BatteryIgnored(i: nat, level: nat, charging: bool)
    ensures WireReads(BatteryLines(i, level, charging)) == Some([])
  {
    var line := BatteryLine(level, charging);
    assert line[0] == 'b';
    OtherFirstCharIgnored(line);
  }

  /** Parsing the output of a poll gives back, in poll order, the name, length and bytes of every
      read up to the first that failed; decoded, battery and error lines are ignored. */
  lemma {:induction false} PollLinesParse(i: nat, rs: seq<Reply>, level: nat, charging: bool)
    requires |rs| == 5 && i <= 5 && forall r :: r in rs ==> ReplyOk(r)
    ensures WireReads(PollLines(i, rs, level, charging)) == Some(Polled(i, rs))
    decreases 5 - i
  {
    if i < 5 {
      var rest := if rs[i].ret < 0 then [] else PollLines(i + 1, rs, level, charging);
      var read := ReadLines(POLL_ORDER[i], rs[i]);
      if rs[i].ret >= 0 {
        PollLinesParse(i + 1, rs, level, charging);
      }
      ReadLinesParse(POLL_ORDER[i], rs[i]);
      WireReadsAppend(read, rest);
      BatteryIgnored(i, level, charging);
      WireReadsAppend(BatteryLines(i, level, charging), read + rest);
      assert [] + Polled(i, rs) == Polled(i, rs);
    }
  }

  /** The order of a round: the three climate reads, the battery, the two gases; each step goes on as
      long as its read succeeds. */
  lemma PollStepIs(i: nat, rs: seq<Reply>, level: nat, charging: bool)
    requires |rs| == 5 && i < 5 && (forall r :: r in rs ==> ReplyOk(r)) && rs[i].ret >= 0
    ensures PollLines(i, rs, level, charging) ==
      var rest := ReadLines([TempChar, HumChar, PressChar, Co2Char, TvocChar][i], rs[i]) + PollLines(i + 1, rs, level, charging);
      if i == 3 then [BatteryLine(level, charging)] + rest else rest
  {
    var rest := ReadLines(POLL_ORDER[i], rs[i]) + PollLines(i + 1, rs, level, charging);
    assert [] + rest == rest;
  }

  /** A failing read ends the round with its error. */
  lemma PollEndsAtError(i: nat, rs: seq<Reply>, level: nat, charging: bool)
    requires |rs| == 5 && i < 5 && (forall r :: r in rs ==> ReplyOk(r)) && rs[i].ret < 0
    ensures PollLines(i, rs, level, charging) ==
      (if i == 3 then [BatteryLine(level, charging)] else []) + [ErrorLine(POLL_ORDER[i], rs[i].ret)]
  {
  }

  lemma OneLineConcat(a: string, b: string)
    requires OneLine(a) && OneLine(b)
    ensures OneLine(a + b)
  {
  }

  lemma ShownNumberIsLine(word: string, n: nat, rest: string)
    requires OneLine(word) && OneLine(rest)
    ensures OneLine(ShowNumber(word, n, rest))
  {
    assert OneLine(Dec(n));
    OneLineConcat(Dec(n), rest);
    OneLineConcat(word, Dec(n) + rest);
  }

  lemma WireLineIsLine(ch: Char, r: Reply)
    requires r.ret >= 0
    ensures OneLine(WireLine(ch, r))
  {
    HexIsHexText(r.bytes);
    assert OneLine(Hex(r.bytes));
    OneLineConcat("]: ", Hex(r.bytes));
    ShownNumberIsLine(" wire [", r.ret, "]: " + Hex(r.bytes));
    OneLineConcat(Label(ch), ShowNumber(" wire [", r.ret, "]: " + Hex(r.bytes)));
  }

  lemma DecodedAreLines(ch: Char, r: Reply)
    requires |r.bytes| >= 2 && OneLine(r.tail)
    ensures forall line :: line in DecodedLines(ch, r) ==> OneLine(line)
  {
    ShowIntOneLine(DecodedValue(ch, r.bytes));
  }

  lemma ReadLinesAreLines(ch: Char, r: Reply)
    requires ReplyOk(r)
    ensures forall line :: line in ReadLines(ch, r) ==> OneLine(line)
  {
    if r.ret < 0 {
      ShowIntOneLine(r.ret);
    } else {
      WireLineIsLine(ch, r);
      DecodedAreLines(ch, r);
    }
  }

  lemma {:induction false} PollLinesAreLines(i: nat, rs: seq<Reply>, level: nat, charging: bool)
    requires |rs| == 5 && i <= 5 && forall r :: r in rs ==> ReplyOk(r)
    ensures forall line :: line in PollLines(i, rs, level, charging) ==> OneLine(line)
    decreases 5 - i
  {
    if i < 5 {
      BatteryLineIsLine(level, charging);
      var read := ReadLines(POLL_ORDER[i], rs[i]);
      ReadLinesAreLines(POLL_ORDER[i], rs[i]);
      var rest := if rs[i].ret < 0 then [] else PollLines(i + 1, rs, level, charging);
      if rs[i].ret >= 0 {
        PollLinesAreLines(i + 1, rs, level, charging);
      }
      InConcat(BatteryLines(i, level, charging), read + rest);
      InConcat(read, rest);
    }
  }

  lemma InConcat(a: seq<string>, b: seq<string>)
    ensures forall line :: line in a + b <==> line in a || line in b
  {
  }

  lemma BatteryLineIsLine(level: nat, charging: bool)
    ensures OneLine(BatteryLine(level, charging))
  {
    ShowIntOneLine(level);
    assert OneLine(ShowYesNo(charging));
  }

  lemma ShowIntOneLine(n: int)
    ensures OneLine(ShowInt(n))
  {
    assert '\n' !in Dec(if n < 0 then -n else n);
  }

  lemma PollParses(rs: seq<Reply>, level: nat, charging: bool)
    requires |rs| == 5 && forall r :: r in rs ==> ReplyOk(r)
    ensures WireReads(Lines(Unlines(PollLines(0, rs, level, charging)))) == Some(Polled(0, rs))
  {
    var lines := PollLines(0, rs, level, charging);
    PollLinesAreLines(0, rs, level, charging);
    LinesOfUnlines(lines);
    PollLinesParse(0, rs, level, charging);
    OneWireRead("");
    WireReadsAppend(lines, [""]);
    assert Polled(0, rs) + [] == Polled(0, rs);
  }

  // ---------------------------------------------------------------- from cache to cache

  /** Decoding the wire bytes of a value that fits its characteristic gives the value back: sint16
      for temperature, unsigned otherwise. */
  lemma DecodeWire(ch: Char, value: int)
    requires Fits(ch, value)
    ensures |Wire(ch, value)| == if ch.PressChar? then 4 else 2
    ensures DecodedValue(ch, Wire(ch, value)) == value
  {
    assert Pow256(2) == 0x1_0000 && Pow256(4) == 256 * Pow256(3) && Pow256(3) == 256 * Pow256(2);
    var bytes := Wire(ch, value);
    if ch.PressChar? {
      assert value % 0x1_0000_0000 == value;
      LeRoundTrip(value, 4);
      assert bytes[..4] == bytes;
    } else {
      LeRoundTrip(value % 0x1_0000, 2);
      assert bytes[..2] == bytes;
      Signed16(value);
    }
  }

  lemma Signed16(value: int)
    requires -0x8000 <= value < 0x1_0000
    ensures 0 <= value < 0x1_0000 ==> value % 0x1_0000 == value
    ensures value < 0x8000 ==> Int16(value % 0x1_0000) == value
  {
  }

  /** The replies of a round in which every read succeeds with the cached value. */
  function Replies(c: Cache, tails: seq<string>): (rs: seq<Reply>)
    requires |tails| == 5
    ensures |rs| == 5
    ensures forall i :: 0 <= i < 5 ==>
      rs[i] == Reply(|Wire(POLL_ORDER[i], At(c, POLL_ORDER[i]).value)|, Wire(POLL_ORDER[i], At(c, POLL_ORDER[i]).value), tails[i])
  {
    seq(5, i requires 0 <= i < 5 =>
      var bytes := Wire(POLL_ORDER[i], At(c, POLL_ORDER[i]).value);
      Reply(|bytes|, bytes, tails[i]))
  }

  lemma RepliesOk(c: Cache, tails: seq<string>, i: nat)
    requires CacheOk(c) && |tails| == 5 && i < 5 && OneLine(tails[i])
    ensures
      var r := Replies(c, tails)[i];
      ReplyOk(r) && r.ret >= 0 && DecodedValue(POLL_ORDER[i], r.bytes) == At(c, POLL_ORDER[i]).value
  {
    DecodeWire(POLL_ORDER[i], At(c, POLL_ORDER[i]).value);
  }

  /** A parsed read that carries `value` of `ch`. */
  ghost predicate Carries(w: WireRead, ch: Char, value: int) {
    w.name == Label(ch) && w.nbytes == |w.bytes| >= 2 && DecodedValue(ch, w.bytes) == value
  }

  /** End to end: whatever values the cache holds, masking, little-endian encoding, hex printing,
      parsing and little-endian decoding give them back in poll order. */
  lemma PollRoundTrip(c: Cache, tails: seq<string>, level: nat, charging: bool)
    requires CacheOk(c) && |tails| == 5 && forall t :: t in tails ==> OneLine(t)
    ensures forall r :: r in Replies(c, tails) ==> ReplyOk(r)
    ensures
      var found := WireReads(Lines(Unlines(PollLines(0, Replies(c, tails), level, charging))));
      && found.Some? && |found.value| == 5
      && forall i :: 0 <= i < 5 ==> Carries(found.value[i], POLL_ORDER[i], At(c, POLL_ORDER[i]).value)
  {
    var rs := Replies(c, tails);
    RepliesAllOk(c, tails);
    PollParses(rs, level, charging);
    PolledAll(0, rs);
    forall i | 0 <= i < 5 ensures Carries(Polled(0, rs)[i], POLL_ORDER[i], At(c, POLL_ORDER[i]).value) {
      ReplyCarries(c, tails, i);
      assert Polled(0, rs)[i - 0] == WireRead(Label(POLL_ORDER[i]), rs[i].ret, rs[i].bytes);
    }
  }

  /** The names found are these, in poll order. */
  lemma CarriedName(w: WireRead, i: nat, value: int)
    requires i < 5 && Carries(w, POLL_ORDER[i], value)
    ensures w.name == ["temp", "humidity", "pressure", "co2", "tvoc"][i]
  {
  }

  /** Decoding takes the low byte first; temperature is signed, pressure four bytes wide. */
  lemma DecodedValueIs(a: byte, b: byte, c: byte, d: byte)
    ensures DecodedValue(TempChar, [a, b]) == if b >= 128 then a + 256 * b - 65536 else a + 256 * b
    ensures DecodedValue(HumChar, [a, b]) == DecodedValue(Co2Char, [a, b]) == DecodedValue(TvocChar, [a, b]) == a + 256 * b
    ensures DecodedValue(PressChar, [a, b, c, d]) == a + 256 * b + 65536 * c + 16777216 * d
  {
    FromTwo(a, b);
    FromTwo(c, d);
    assert [a, b][..2] == [a, b];
    assert [a, b, c, d][..4] == [a, b, c, d];
    assert [a, b, c, d][1..] == [b, c, d] && [b, c, d][1..] == [c, d];
    assert FromLe([b, c, d]) == b + 256 * FromLe([c, d]);
    assert FromLe([a, b, c, d]) == a + 256 * FromLe([b, c, d]);
  }

  lemma FromTwo(a: byte, b: byte)
    ensures FromLe([a, b]) == a + 256 * b
  {
    assert [a, b][1..] == [b] && [b][1..] == [];
    assert FromLe([b]) == b + 256 * FromLe([]);
    assert FromLe([a, b]) == a + 256 * FromLe([b]);
  }

  /** The decoded line shows the cached value, or says that a gas is not known. */
  lemma DecodedLineShowsCached(c: Cache, ch: Char, tail: string)
    requires CacheOk(c)
    ensures
      var v := At(c, ch).value;
      var bytes := Wire(ch, v);
      && |bytes| >= 2
      && DecodedLines(ch, Reply(|bytes|, bytes, tail)) ==
           ["  decoded: " + (if (ch.Co2Char? || ch.TvocChar?) && v == 0xFFFF then "0xFFFF (unknown)" else ShowInt(v) + tail)]
  {
    DecodeWire(ch, At(c, ch).value);
  }

  lemma RepliesAllOk(c: Cache, tails: seq<string>)
    requires CacheOk(c) && |tails| == 5 && forall t :: t in tails ==> OneLine(t)
    ensures forall r :: r in Replies(c, tails) ==> ReplyOk(r)
    ensures forall i :: 0 <= i < 5 ==> Replies(c, tails)[i].ret >= 0
  {
    forall i | 0 <= i < 5 ensures ReplyOk(Replies(c, tails)[i]) && Replies(c, tails)[i].ret >= 0 {
      RepliesOk(c, tails, i);
    }
  }

  lemma ReplyCarries(c: Cache, tails: seq<string>, i: nat)
    requires CacheOk(c) && |tails| == 5 && i < 5 && OneLine(tails[i])
    ensures
      var r := Replies(c, tails)[i];
      Carries(WireRead(Label(POLL_ORDER[i]), if r.ret >= 0 then r.ret else 0, r.bytes), POLL_ORDER[i], At(c, POLL_ORDER[i]).value)
  {
    RepliesOk(c, tails, i);
  }

  lemma {:induction false} PolledAll(i: nat, rs: seq<Reply>)
    requires |rs| == 5 && i <= 5 && forall j :: 0 <= j < 5 ==> rs[j].ret >= 0
    ensures |Polled(i, rs)| == 5 - i
    ensures forall j :: i <= j < 5 ==> Polled(i, rs)[j - i] == WireRead(Label(POLL_ORDER[j]), rs[j].ret, rs[j].bytes)
    decreases 5 - i
  {
    if i < 5 {
      PolledAll(i + 1, rs);
      var p := Polled(i, rs);
      forall j | i < j < 5 ensures p[j - i] == WireRead(Label(POLL_ORDER[j]), rs[j].ret, rs[j].bytes) {
        assert p[j - i] == Polled(i + 1, rs)[j - (i + 1)];
      }
    }
  }

  // ---------------------------------------------------------------- status lines

  /** `ccs811_driver_get_debug_state`: readiness is asked first, the remaining time later. */
  function DebugState(d: C.Driver, now: int, later: int, mode: int): Ccs811Status {
    var d1 := C.NoteReady(d, now);
    var ms := C.Remaining(d1, later);
    Ccs811Status(d1.complete, d1.present, d1.idle, d1.ble, d1.awaiting, mode, if ms > 0 then ms else 0)
  }

  /** The printed status, followed by `rest`. */
  function ShowCcs811(st: Ccs811Status, labels: seq<string>, rest: string): string
    requires |labels| == 7
  {
    ShowFlag(labels[0], st.ready, ShowFlag(labels[1], st.enabled, ShowFlag(labels[2], st.idle,
      ShowFlag(labels[3], st.bleConnected, ShowFlag(labels[4], st.awaitFirst,
        ShowSigned(labels[5], st.mode, ShowNumber(labels[6], st.condMs, "\n" + rest)))))))
  }

  lemma MatchShownCcs811(st: Ccs811Status, labels: seq<string>, rest: string)
    requires |labels| == 7 && labels[6] != "" && !IsDigit(labels[6][0])
    ensures MatchCcs811With(ShowCcs811(st, labels, rest), labels) == Some(st)
  {
    var s6 := ShowNumber(labels[6], st.condMs, "\n" + rest);
    var s5 := ShowSigned(labels[5], st.mode, s6);
    var s4 := ShowFlag(labels[4], st.awaitFirst, s5);
    var s3 := ShowFlag(labels[3], st.bleConnected, s4);
    var s2 := ShowFlag(labels[2], st.idle, s3);
    var s1 := ShowFlag(labels[1], st.enabled, s2);
    FlagFieldOf(labels[0], st.ready, s1);
    FlagFieldOf(labels[1], st.enabled, s2);
    FlagFieldOf(labels[2], st.idle, s3);
    FlagFieldOf(labels[3], st.bleConnected, s4);
    FlagFieldOf(labels[4], st.awaitFirst, s5);
    SignedFieldOf(labels[5], st.mode, s6);
    NumberFieldOf(labels[6], st.condMs, "\n" + rest);
  }

  function Ccs811Text(st: Ccs811Status, rest: string): string { ShowCcs811(st, CCS811_LABELS, rest) }

  /** Every printed CCS811 status parses back to the same record, whatever the driver's state and
      whatever (possibly negative) mode it reports, and whatever text follows. */
  lemma Ccs811StatusRoundTrip(st: Ccs811Status, rest: string)
    ensures SearchCcs811(Ccs811Text(st, rest)) == Some(st)
  {
    assert CCS811_LABELS[6][0] == ' ';
    MatchShownCcs811(st, CCS811_LABELS, rest);
  }

  /** The status of a driver reads back what its two clock questions answered: never a negative
      time, and 0 whenever ready. */
  lemma DebugStateFaithful(d: C.Driver, now: int, later: int, mode: int)
    requires now <= later
    ensures
      var st := DebugState(d, now, later, mode);
      && st.ready == C.Ready(d, now)
      && st.condMs == C.Remaining(C.NoteReady(d, now), later)
      && st.enabled == d.present && st.idle == d.idle && st.bleConnected == d.ble && st.awaitFirst == d.awaiting
      && st.mode == mode
      && (st.ready ==> st.condMs == 0)
      && SearchCcs811(Ccs811Text(st, "")) == Some(st)
  {
    C.RemainingZeroIffReady(C.NoteReady(d, now), later);
    Ccs811StatusRoundTrip(DebugState(d, now, later, mode), "");
  }

  function Yes(b: bool): string { if b then "yes" else "no" }

  /** What the printed lines say, word by word. */
  lemma SmTextIs(st: SmStatus, rest: string)
    ensures SmText(st, rest) == "armed=" + (Yes(st.armed) + (" count=" + (Dec(st.count) + ("\n" + rest))))
  {
  }

  lemma Ccs811TextIs(st: Ccs811Status, rest: string)
    ensures Ccs811Text(st, rest) ==
      "ready=" + (Yes(st.ready) + (" enabled=" + (Yes(st.enabled) + (" idle=" + (Yes(st.idle) +
        (" ble_connected=" + (Yes(st.bleConnected) + (" await_1s=" + (Yes(st.awaitFirst) +
          (" mode=" + (ShowInt(st.mode) + (" cond_ms=" + (Dec(st.condMs) + ("\n" + rest))))))))))))))
  {
  }

  lemma EssLineIs(ch: Char, s: Sensor)
    ensures EssLine(ch, s) ==
      (match ch
       case TempChar => "temp"
       case HumChar => "humidity"
       case PressChar => "pressure"
       case Co2Char => "co2"
       case TvocChar => "tvoc")
      + (" known=" + (Yes(s.known) + (" notify=" + (Yes(s.notify) + (" value=" + (ShowInt(s.value) + ""))))))
  {
  }

  lemma ReadLinesAre(ch: Char, r: Reply)
    ensures r.ret >= 0 ==> WireLine(ch, r) == Label(ch) + (" wire [" + (Dec(r.ret) + ("]: " + Hex(r.bytes))))
    ensures ErrorLine(ch, r.ret) == Label(ch) + (" GATT read failed: " + ShowInt(r.ret))
  {
  }

  lemma BatteryLineIs(level: nat, charging: bool)
    ensures BatteryLine(level, charging) == "battery cache: " + (Dec(level) + ("% charging=" + Yes(charging)))
  {
  }


  function SmText(st: SmStatus, rest: string): string {
    ShowFlag("armed=", st.armed, ShowNumber(" count=", st.count, "\n" + rest))
  }

  lemma SmStatusRoundTrip(st: SmStatus, rest: string)
    ensures SearchSm(SmText(st, rest)) == Some(st)
  {
    FlagFieldOf("armed=", st.armed, ShowNumber(" count=", st.count, "\n" + rest));
    NumberFieldOf(" count=", st.count, "\n" + rest);
  }

  // ---------------------------------------------------------------- ESS status

  function StatusOf(ch: Char, s: Sensor): EssCharStatus {
    EssCharStatus(Label(ch), s.known, s.notify, s.value)
  }

  function ShowEss(ch: Char, s: Sensor, labels: seq<string>): string
    requires |labels| == 3
  {
    Label(ch) + ShowFlag(labels[0], s.known, ShowFlag(labels[1], s.notify, ShowSigned(labels[2], s.value, "")))
  }

  function EssLine(ch: Char, s: Sensor): string { ShowEss(ch, s, ESS_LABELS) }

  lemma MatchShownEss(ch: Char, s: Sensor, labels: seq<string>)
    requires |labels| == 3
    ensures MatchEssWith(ShowEss(ch, s, labels), labels) == Some(StatusOf(ch, s))
  {
    var s3 := ShowSigned(labels[2], s.value, "");
    var s2 := ShowFlag(labels[1], s.notify, s3);
    NameOf(ch, ShowFlag(labels[0], s.known, s2));
    FlagFieldOf(labels[0], s.known, s2);
    FlagFieldOf(labels[1], s.notify, s3);
    SignedFieldOf(labels[2], s.value, "");
  }

  /** `cmd_ess_status`: one line a characteristic, in this order. */
  function EssLines(c: Cache, i: nat): (lines: seq<string>)
    requires i <= 5
  {
    if i == 0 then [] else EssLines(c, i - 1) + [EssLine(POLL_ORDER[i - 1], At(c, POLL_ORDER[i - 1]))]
  }

  function EssEntries(c: Cache, i: nat): map<string, EssCharStatus>
    requires i <= 5
  {
    if i == 0 then map[]
    else
      var ch := POLL_ORDER[i - 1];
      EssEntries(c, i - 1)[Label(ch) := StatusOf(ch, At(c, ch))]
  }

  lemma EssStatusSnoc(lines: seq<string>, line: string)
    ensures EssStatus(lines + [line]) ==
      if MatchEssStatus(line).None? then EssStatus(lines)
      else EssStatus(lines)[MatchEssStatus(line).value.name := MatchEssStatus(line).value]
  {
    assert (lines + [line])[..|lines|] == lines;
  }

  lemma {:induction false} EssLinesParse(c: Cache, i: nat)
    requires i <= 5
    ensures EssStatus(EssLines(c, i)) == EssEntries(c, i)
  {
    if i > 0 {
      var ch := POLL_ORDER[i - 1];
      EssLinesParse(c, i - 1);
      MatchShownEss(ch, At(c, ch), ESS_LABELS);
      EssStatusSnoc(EssLines(c, i - 1), EssLine(ch, At(c, ch)));
    }
  }

  lemma ShownEssIsLine(ch: Char, s: Sensor, labels: seq<string>)
    requires |labels| == 3 && forall w :: w in labels ==> OneLine(w)
    ensures OneLine(ShowEss(ch, s, labels))
  {
    ShowIntOneLine(s.value);
    assert labels[0] in labels && labels[1] in labels && labels[2] in labels;
    OneLineConcat(labels[2], ShowInt(s.value) + "");
    var s2 := ShowFlag(labels[1], s.notify, ShowSigned(labels[2], s.value, ""));
    assert OneLine(s2);
    assert OneLine(ShowFlag(labels[0], s.known, s2));
    OneLineConcat(Label(ch), ShowFlag(labels[0], s.known, s2));
  }

  lemma {:induction false} EssLinesAreLines(c: Cache, i: nat)
    requires i <= 5
    ensures forall line :: line in EssLines(c, i) ==> OneLine(line)
  {
    if i > 0 {
      EssLinesAreLines(c, i - 1);
      ShownEssIsLine(POLL_ORDER[i - 1], At(c, POLL_ORDER[i - 1]), ESS_LABELS);
    }
  }

  /** Parsing the printed ESS status gives the whole cache back, keyed by name. */
  lemma EssStatusRoundTrip(c: Cache)
    ensures
      var found := EssStatus(Lines(Unlines(EssLines(c, 5))));
      && found.Keys == {"temp", "humidity", "pressure", "co2", "tvoc"}
      && forall ch :: found[Label(ch)] == StatusOf(ch, At(c, ch))
  {
    EssLinesParse(c, 5);
    EssLinesAreLines(c, 5);
    LinesOfUnlines(EssLines(c, 5));
    EssStatusSnoc(EssLines(c, 5), "");
    EntriesComplete(c);
  }

  lemma EntriesComplete(c: Cache)
    ensures EssEntries(c, 5).Keys == {"temp", "humidity", "pressure", "co2", "tvoc"}
    ensures forall ch :: EssEntries(c, 5)[Label(ch)] == StatusOf(ch, At(c, ch))
  {
    var m1 := map["temp" := StatusOf(TempChar, c.temp)];
    assert EssEntries(c, 1) == m1;
    var m2 := m1["humidity" := StatusOf(HumChar, c.hum)];
    assert EssEntries(c, 2) == m2;
    var m3 := m2["pressure" := StatusOf(PressChar, c.press)];
    assert EssEntries(c, 3) == m3;
    var m4 := m3["co2" := StatusOf(Co2Char, c.co2)];
    assert EssEntries(c, 4) == m4;
    assert EssEntries(c, 5) == m4["tvoc" := StatusOf(TvocChar, c.tvoc)];
  }

  // ---------------------------------------------------------------- the printing shell

  class Console {
    var out: string

    constructor ()
      ensures out == ""
    {
      out := "";
    }

    method PrintHex(buf: array<byte>, len: nat)
      requires len <= buf.Length
      modifies this
      ensures out == old(out) + Hex(buf[..len])
    {
      for i := 0 to len
        invariant out + Hex(buf[i..len]) == old(out) + Hex(buf[..len])
      {
        var rest := buf[i..len];
        assert rest[1..] == buf[i + 1..len];
        out := out + HexByte(buf[i]) + (if i + 1 < len then " " else "");
      }
    }

    method Print(line: string)
      modifies this
      ensures out == old(out) + Unlines([line])
    {
      assert [line][1..] == [];
      out := out + line + "\n";
    }

    method ReadEssChar(ch: Char, r: Reply) returns (ret: int)
      requires ReplyOk(r)
      modifies this
      ensures out == old(out) + Unlines(ReadLines(ch, r))
      ensures ret == if r.ret < 0 then r.ret else 0
    {
      if r.ret < 0 {
        Print(ErrorLine(ch, r.ret));
        return r.ret;
      }
      UnlinesAppend([WireLine(ch, r)], DecodedLines(ch, r));
      PrintWire(ch, r);
      PrintDecoded(ch, r);
      Regroup3(old(out), Unlines([WireLine(ch, r)]), Unlines(DecodedLines(ch, r)));
      return 0;
    }

    method PrintWire(ch: Char, r: Reply)
      requires ReplyOk(r) && r.ret >= 0
      modifies this
      ensures out == old(out) + Unlines([WireLine(ch, r)])
    {
      ShownWireIsWhole(ch, r);
      OneUnline(WireLine(ch, r));
      var buf := new byte[8](i => if 0 <= i < |r.bytes| then r.bytes[i] else 0);
      assert buf[..r.ret] == r.bytes;
      var head := Label(ch) + ShowNumber(" wire [", r.ret, "]: ");
      out := out + head;
      PrintHex(buf, r.ret);
      out := out + "\n";
      Regroup4(old(out), head, Hex(r.bytes), "\n");
    }

    method PrintDecoded(ch: Char, r: Reply)
      requires |r.bytes| >= 2
      modifies this
      ensures out == old(out) + Unlines(DecodedLines(ch, r))
    {
      var decoded := DecodedLines(ch, r);
      if decoded != [] {
        Print(decoded[0]);
        assert decoded == [decoded[0]];
      }
    }

    /** One poll round: the three climate reads, the battery line, the two gas reads. */
    method PollOnce(rs: seq<Reply>, level: nat, charging: bool) returns (ret: int)
      requires |rs| == 5 && forall r :: r in rs ==> ReplyOk(r)
      modifies this
      ensures out == old(out) + Unlines(PollLines(0, rs, level, charging))
      ensures ret == FirstError(0, rs)
    {
      ret := PollFrom(0, rs, level, charging);
    }

    method PollFrom(start: nat, rs: seq<Reply>, level: nat, charging: bool) returns (ret: int)
      requires |rs| == 5 && start <= 5 && forall r :: r in rs ==> ReplyOk(r)
      modifies this
      ensures out == old(out) + Unlines(PollLines(start, rs, level, charging))
      ensures ret == FirstError(start, rs)
    {
      ghost var goal := out + Unlines(PollLines(start, rs, level, charging));
      ret := 0;
      for i := start to 5
        invariant ret == 0 && FirstError(i, rs) == FirstError(start, rs)
        invariant out + Unlines(PollLines(i, rs, level, charging)) == goal
      {
        ret := PollStep(i, rs, level, charging, goal);
        if ret != 0 {
          NothingAfter(out);
          return;
        }
      }
      NothingAfter(out);
    }

    method PollStep(i: nat, rs: seq<Reply>, level: nat, charging: bool, ghost goal: string) returns (ret: int)
      requires |rs| == 5 && i < 5 && forall r :: r in rs ==> ReplyOk(r)
      requires out + Unlines(PollLines(i, rs, level, charging)) == goal
      modifies this
      ensures ret == if rs[i].ret < 0 then rs[i].ret else 0
      ensures out + (if ret != 0 then "" else Unlines(PollLines(i + 1, rs, level, charging))) == goal
    {
      UnlinesOfPoll(i, rs, level, charging);
      Regroup(out, Unlines(BatteryLines(i, level, charging)), Unlines(ReadLines(POLL_ORDER[i], rs[i])),
              if rs[i].ret < 0 then "" else Unlines(PollLines(i + 1, rs, level, charging)));
      if i == 3 {
        Print(BatteryLine(level, charging));
      } else {
        assert out + "" == out;
      }
      ret := ReadEssChar(POLL_ORDER[i], rs[i]);
    }
  }

  lemma Regroup(a: string, b: string, c: string, d: string)
    ensures a + (b + (c + d)) == ((a + b) + c) + d
  {
  }

  lemma Regroup4(a: string, b: string, c: string, d: string)
    ensures ((a + b) + c) + d == a + ((b + c) + d)
  {
  }

  lemma NothingAfter(a: string)
    ensures a + "" == a
  {
  }

  lemma Regroup3(a: string, b: string, c: string)
    ensures (a + b) + c == a + (b + c)
  {
  }

  lemma OneUnline(line: string)
    ensures Unlines([line]) == line + "\n"
  {
    assert [line][1..] == [];
  }

  lemma ShownWireIsWhole(ch: Char, r: Reply)
    requires r.ret >= 0
    ensures Label(ch) + ShowNumber(" wire [", r.ret, "]: ") + Hex(r.bytes) == WireLine(ch, r)
  {
    ConcatAssoc(Label(ch), " wire [", Dec(r.ret), "]: ", Hex(r.bytes));
  }

  lemma ConcatAssoc(a: string, b: string, c: string, d: string, e: string)
    ensures a + (b + (c + d)) + e == a + (b + (c + (d + e)))
  {
  }

  /** The output of one step of a poll, ahead of the rest. */
  lemma UnlinesOfPoll(i: nat, rs: seq<Reply>, level: nat, charging: bool)
    requires |rs| == 5 && i < 5 && forall r :: r in rs ==> ReplyOk(r)
    ensures
      Unlines(PollLines(i, rs, level, charging)) ==
      Unlines(BatteryLines(i, level, charging)) +
      (Unlines(ReadLines(POLL_ORDER[i], rs[i])) +
       (if rs[i].ret < 0 then "" else Unlines(PollLines(i + 1, rs, level, charging))))
  {
    var rest := if rs[i].ret < 0 then [] else PollLines(i + 1, rs, level, charging);
    var read := ReadLines(POLL_ORDER[i], rs[i]);
    UnlinesAppend(BatteryLines(i, level, charging), read + rest);
    UnlinesAppend(read, rest);
  }
}
