/** The Python parser of the debug shell's output: its regular expressions as functions that take
    matched pieces off the front, and its loops. */
module ShellParse {
  import opened Common
  import opened Text

  const NAMES: seq<string> := ["temp", "humidity", "pressure", "co2", "tvoc"]

  datatype WireRead = WireRead(name: string, nbytes: nat, bytes: seq<byte>)
  datatype SmStatus = SmStatus(armed: bool, count: nat)
  datatype EssCharStatus = EssCharStatus(name: string, known: bool, notify: bool, value: int)
  datatype Ccs811Status = Ccs811Status(
    ready: bool, enabled: bool, idle: bool, bleConnected: bool, awaitFirst: bool, mode: int, condMs: nat)

  /** The alternation of characteristic names. */
  function Name(s: string): Option<(string, string)> {
    if "temp" <= s then Some(("temp", s[4..]))
    else if "humidity" <= s then Some(("humidity", s[8..]))
    else if "pressure" <= s then Some(("pressure", s[8..]))
    else if "co2" <= s then Some(("co2", s[3..]))
    else if "tvoc" <= s then Some(("tvoc", s[4..]))
    else None
  }

  // ---------------------------------------------------------------- wire reads

  datatype WireMatch = WireMatch(name: string, nbytes: nat, hex: string)

  /** One whole line against the wire pattern, whose two fixed parts are `open` and `close`. */
  function MatchWireWith(line: string, open: string, close: string): Option<WireMatch> {
    var (name, s1) :- Name(line);
    var (n, s2) :- NumberField(s1, open);
    var hex :- Literal(s2, close);
    if hex != "" && HexText(hex) then Some(WireMatch(name, n, hex)) else None
  }

  function MatchWire(line: string): Option<WireMatch> { MatchWireWith(line, " wire [", "]: ") }

  /** The line is, from end to end: one of the names, " wire [", digits, "]: ", and a nonempty text of hex
      digits and spaces. */
  ghost predicate IsWireLine(line: string, m: WireMatch) {
    && m.name in NAMES && m.hex != "" && HexText(m.hex)
    && exists digits: string ::
         digits != "" && AllDigits(digits) && m.nbytes == Value(digits)
         && line == m.name + (" wire [" + (digits + ("]: " + m.hex)))
  }

  lemma NameIs(s: string)
    ensures Name(s).Some? ==> Name(s).value.0 in NAMES && s == Name(s).value.0 + Name(s).value.1
  {
    assert NAMES[0] in NAMES && NAMES[1] in NAMES && NAMES[2] in NAMES && NAMES[3] in NAMES && NAMES[4] in NAMES;
  }

  lemma NameFound(name: string, rest: string)
    requires name in NAMES
    ensures Name(name + rest) == Some((name, rest))
  {
    var s := name + rest;
    assert name <= s && s[|name|..] == rest;
    if name == "tvoc" {
      assert s[1] == 'v';
    } else {
      assert s[0] == name[0];
    }
  }

  /** The pattern matches a line exactly when it has that form, and what it captures is what stands
      there. */
  lemma MatchWireIff(line: string, m: WireMatch)
    ensures MatchWire(line) == Some(m) <==> IsWireLine(line, m)
  {
    if IsWireLine(line, m) {
      var digits: string :|
        digits != "" && AllDigits(digits) && m.nbytes == Value(digits)
        && line == m.name + (" wire [" + (digits + ("]: " + m.hex)));
      NameFound(m.name, " wire [" + (digits + ("]: " + m.hex)));
      LiteralOf(" wire [", digits + ("]: " + m.hex));
      NumberOfDigits(digits, "]: " + m.hex);
      LiteralOf("]: ", m.hex);
    }
    if MatchWire(line) == Some(m) {
      WireMatchIsLine(line, m);
    }
  }

  lemma WireMatchIsLine(line: string, m: WireMatch)
    requires MatchWire(line) == Some(m)
    ensures IsWireLine(line, m)
  {
    NameIs(line);
    var s1 := Name(line).value.1;
    var s2 := NumberField(s1, " wire [").value.1;
    var digits := Span(s1[7..]).0;
    LiteralIs(s1, " wire [");
    LiteralIs(s2, "]: ");
    assert s1[7..] == digits + s2;
    assert line == m.name + (" wire [" + (digits + ("]: " + m.hex)));
  }

  lemma LiteralIs(s: string, word: string)
    ensures Literal(s, word).Some? ==> s == word + Literal(s, word).value
  {
  }

  /** A line in front of what the rest gives: its read if it matches, nothing when its hex does not
      convert. */
  function Prefixed(line: string, rest: Option<seq<WireRead>>): Option<seq<WireRead>> {
    match MatchWire(line)
    case None => rest
    case Some(m) =>
      var bytes :- FromHex(m.hex);
      var others :- rest;
      Some([WireRead(m.name, m.nbytes, bytes)] + others)
  }

  /** The reads of some lines; nothing when a matched line's hex does not convert. */
  function WireReads(lines: seq<string>): Option<seq<WireRead>> {
    if lines == [] then Some([]) else Prefixed(lines[0], WireReads(lines[1..]))
  }

  function Joined(a: Option<seq<WireRead>>, b: Option<seq<WireRead>>): Option<seq<WireRead>> {
    if a.Some? && b.Some? then Some(a.value + b.value) else None
  }

  lemma PrefixedJoined(line: string, a: Option<seq<WireRead>>, b: Option<seq<WireRead>>)
    ensures Prefixed(line, Joined(a, b)) == Joined(Prefixed(line, a), b)
  {
    var m := MatchWire(line);
    if a.Some? && b.Some? && m.Some? && FromHex(m.value.hex).Some? {
      var read := WireRead(m.value.name, m.value.nbytes, FromHex(m.value.hex).value);
      assert [read] + (a.value + b.value) == ([read] + a.value) + b.value;
    }
  }

  lemma {:induction false} WireReadsAppend(a: seq<string>, b: seq<string>)
    ensures WireReads(a + b) == Joined(WireReads(a), WireReads(b))
    decreases |a|
  {
    var tail := WireReads(b);
    if a == [] {
      assert a + b == b;
      assert tail.Some? ==> [] + tail.value == tail.value;
    } else {
      WireReadsAppend(a[1..], b);
      assert (a + b)[1..] == a[1..] + b;
      PrefixedJoined(a[0], WireReads(a[1..]), tail);
    }
  }

  lemma OneWireRead(line: string)
    ensures WireReads([line]) ==
      (match MatchWire(line)
       case None => Some([])
       case Some(m) => if FromHex(m.hex).None? then None else Some([WireRead(m.name, m.nbytes, FromHex(m.hex).value)]))
  {
    assert [line][1..] == [];
    var m := MatchWire(line);
    if m.Some? && FromHex(m.value.hex).Some? {
      var read := WireRead(m.value.name, m.value.nbytes, FromHex(m.value.hex).value);
      assert [read] + [] == [read];
    }
  }

  /** `parse_wire_reads`; `None` is the `ValueError` of `bytes.fromhex`. */
  method ParseWireReads(text: string) returns (result: Option<seq<WireRead>>)
    ensures result == WireReads(Lines(text))
  {
    var lines := Lines(text);
    var found: seq<WireRead> := [];
    for i := 0 to |lines|
      invariant WireReads(lines[..i]) == Some(found)
    {
      WireReadsAppend(lines[..i], [lines[i]]);
      assert lines[..i + 1] == lines[..i] + [lines[i]];
      OneWireRead(lines[i]);
      assert found + [] == found;
      var m := MatchWire(lines[i]);
      if m.Some? {
        var raw := FromHex(m.value.hex);
        if raw.None? {
          FailureIsFinal(lines, i + 1);
          return None;
        }
        found := found + [WireRead(m.value.name, m.value.nbytes, raw.value)];
      }
    }
    assert lines[..|lines|] == lines;
    return Some(found);
  }

  lemma FailureIsFinal(lines: seq<string>, i: nat)
    requires i <= |lines| && WireReads(lines[..i]).None?
    ensures WireReads(lines).None?
  {
    WireReadsAppend(lines[..i], lines[i..]);
    assert lines == lines[..i] + lines[i..];
  }

  // ---------------------------------------------------------------- ESS status

  const ESS_LABELS: seq<string> := [" known=", " notify=", " value="]

  function MatchEssWith(line: string, labels: seq<string>): Option<EssCharStatus>
    requires |labels| == 3
  {
    var (name, s1) :- Name(line);
    var (known, s2) :- FlagField(s1, labels[0]);
    var (notify, s3) :- FlagField(s2, labels[1]);
    var (value, s4) :- SignedField(s3, labels[2]);
    if s4 == "" then Some(EssCharStatus(name, known, notify, value)) else None
  }

  function MatchEssStatus(line: string): Option<EssCharStatus> { MatchEssWith(line, ESS_LABELS) }

  predicate IsYesNo(s: string, b: bool) { s == if b then "yes" else "no" }

  /** An optional minus and digits. */
  ghost predicate IsSigned(s: string, v: int) {
    || (s != "" && AllDigits(s) && v == Value(s))
    || (|s| > 1 && s[0] == '-' && AllDigits(s[1..]) && v == 0 - Value(s[1..]))
  }

  /** The line is, from end to end: one of the names and the three fields, each with its value. */
  ghost predicate IsEssLine(line: string, st: EssCharStatus) {
    && st.name in NAMES
    && exists known: string, notify: string, value: string ::
         IsYesNo(known, st.known) && IsYesNo(notify, st.notify) && IsSigned(value, st.value)
         && line == st.name + (" known=" + (known + (" notify=" + (notify + (" value=" + value)))))
  }

  lemma SignedWhole(s: string, v: int)
    ensures IsSigned(s, v) <==> Signed(s) == Some((v, ""))
  {
    if s != "" && s[0] == '-' {
      SignedDigits(s[1..]);
      assert "-" <= s && s[0] in s && !AllDigits(s);
      assert |s| > 1 <==> s[1..] != "";
    } else {
      SignedDigits(s);
    }
  }

  lemma SignedDigits(s: string)
    ensures (s != "" && AllDigits(s)) <==> (Number(s).Some? && Number(s).value.1 == "")
    ensures s != "" && AllDigits(s) ==> Number(s) == Some((Value(s), ""))
  {
    if s != "" && AllDigits(s) {
      NumberOfDigits(s, "");
      assert s + "" == s;
    }
    if Number(s).Some? && Number(s).value.1 == "" {
      assert s == Span(s).0 + "";
    }
  }

  lemma FlagIs(s: string, word: string)
    ensures FlagField(s, word).Some? ==>
      s == word + ((if FlagField(s, word).value.0 then "yes" else "no") + FlagField(s, word).value.1)
  {
    LiteralIs(s, word);
    if FlagField(s, word).Some? {
      var rest := Literal(s, word).value;
      assert "yes" <= rest ==> rest == "yes" + rest[3..];
      assert "no" <= rest ==> rest == "no" + rest[2..];
    }
  }

  /** The pattern matches a line exactly when it has that form, and captures what stands there. */
  lemma MatchEssIff(line: string, st: EssCharStatus)
    ensures MatchEssStatus(line) == Some(st) <==> IsEssLine(line, st)
  {
    if IsEssLine(line, st) {
      EssLineMatches(line, st);
    }
    if MatchEssStatus(line) == Some(st) {
      EssMatchIsLine(line, st);
    }
  }

  lemma EssLineMatches(line: string, st: EssCharStatus)
    requires IsEssLine(line, st)
    ensures MatchEssStatus(line) == Some(st)
  {
    var known: string, notify: string, value: string :|
      IsYesNo(known, st.known) && IsYesNo(notify, st.notify) && IsSigned(value, st.value)
      && line == st.name + (" known=" + (known + (" notify=" + (notify + (" value=" + value)))));
    var s3 := " value=" + value;
    var s2 := " notify=" + (notify + s3);
    NameFound(st.name, " known=" + (known + s2));
    FlagFieldOf(" known=", st.known, s2);
    FlagFieldOf(" notify=", st.notify, s3);
    LiteralOf(" value=", value);
    SignedWhole(value, st.value);
  }

  lemma EssMatchIsLine(line: string, st: EssCharStatus)
    requires MatchEssStatus(line) == Some(st)
    ensures IsEssLine(line, st)
  {
    NameIs(line);
    var s1 := Name(line).value.1;
    FlagIs(s1, " known=");
    var s2 := FlagField(s1, " known=").value.1;
    FlagIs(s2, " notify=");
    var s3 := FlagField(s2, " notify=").value.1;
    LiteralIs(s3, " value=");
    var value := Literal(s3, " value=").value;
    SignedWhole(value, st.value);
    var known := if st.known then "yes" else "no";
    var notify := if st.notify then "yes" else "no";
    assert IsYesNo(known, st.known) && IsYesNo(notify, st.notify);
    assert line == st.name + (" known=" + (known + (" notify=" + (notify + (" value=" + value)))));
  }

  /** A later line of the same characteristic replaces an earlier one. */
  function EssStatus(lines: seq<string>): map<string, EssCharStatus> {
    if lines == [] then map[]
    else
      var before := EssStatus(lines[..|lines| - 1]);
      match MatchEssStatus(lines[|lines| - 1])
      case None => before
      case Some(st) => before[st.name := st]
  }

  method ParseEssStatus(text: string) returns (found: map<string, EssCharStatus>)
    ensures found == EssStatus(Lines(text))
  {
    var lines := Lines(text);
    found := map[];
    for i := 0 to |lines|
      invariant found == EssStatus(lines[..i])
    {
      assert lines[..i + 1][..i] == lines[..i];
      var m := MatchEssStatus(lines[i]);
      if m.Some? {
        found := found[m.value.name := m.value];
      }
    }
    assert lines[..|lines|] == lines;
  }

  // ---------------------------------------------------------------- searches

  function MatchSm(s: string): Option<SmStatus> {
    var (armed, s1) :- FlagField(s, "armed=");
    var (count, _) :- NumberField(s1, " count=");
    Some(SmStatus(armed, count))
  }

  const CCS811_LABELS: seq<string> :=
    ["ready=", " enabled=", " idle=", " ble_connected=", " await_1s=", " mode=", " cond_ms="]

  function MatchCcs811With(s: string, labels: seq<string>): Option<Ccs811Status>
    requires |labels| == 7
  {
    var (ready, s1) :- FlagField(s, labels[0]);
    var (enabled, s2) :- FlagField(s1, labels[1]);
    var (idle, s3) :- FlagField(s2, labels[2]);
    var (ble, s4) :- FlagField(s3, labels[3]);
    var (awaiting, s5) :- FlagField(s4, labels[4]);
    var (mode, s6) :- SignedField(s5, labels[5]);
    var (cond, _) :- NumberField(s6, labels[6]);
    Some(Ccs811Status(ready, enabled, idle, ble, awaiting, mode, cond))
  }

  function MatchCcs811(s: string): Option<Ccs811Status> { MatchCcs811With(s, CCS811_LABELS) }

  /** `re.search`: the leftmost match; `None` is the parser's `ValueError`. */
  function SearchSm(text: string): Option<SmStatus> {
    if MatchSm(text).Some? then MatchSm(text) else if text == "" then None else SearchSm(text[1..])
  }

  /** A search finds the leftmost match, and nothing only when there is none anywhere. */
  lemma {:induction false} SearchSmIsLeftmost(text: string)
    ensures SearchSm(text).None? <==> forall i :: 0 <= i <= |text| ==> MatchSm(text[i..]).None?
    ensures SearchSm(text).Some? ==>
      exists i :: 0 <= i <= |text| && MatchSm(text[i..]) == SearchSm(text) && forall j :: 0 <= j < i ==> MatchSm(text[j..]).None?
    decreases |text|
  {
    assert text[0..] == text;
    if MatchSm(text).None? && text != "" {
      var rest := text[1..];
      SearchSmIsLeftmost(rest);
      assert forall i :: 0 <= i <= |rest| ==> rest[i..] == text[i + 1..];
      forall i | 0 < i <= |text| ensures text[i..] == rest[i - 1..] {
      }
      if SearchSm(rest).Some? {
        var i :| 0 <= i <= |rest| && MatchSm(rest[i..]) == SearchSm(rest) && forall j :: 0 <= j < i ==> MatchSm(rest[j..]).None?;
        assert MatchSm(text[i + 1..]) == SearchSm(text);
      }
    }
  }

  function SearchCcs811(text: string): Option<Ccs811Status> {
    if MatchCcs811(text).Some? then MatchCcs811(text) else if text == "" then None else SearchCcs811(text[1..])
  }
}
