/**
 * xwirless/parser.py: the network record and its validators, the scan result, and the parser
 * that cuts `iwlist` scan output into per-device blocks and extracts one record per block.
 */
module Parser {
  import opened Wrappers
  import opened Text
  import opened Patterns

  /** A UTC time as `datetime.isoformat()` prints it; the core stores and compares it, never computes on it. */
  type Timestamp = string

  /** A float the core only passes along (a frequency in GHz, a scan duration), kept as its text. */
  type FloatText = string

  datatype Encryption = Open | WEP | WPA | WPA2 | WPA3

  function EncryptionName(e: Encryption): string
  {
    match e
    case Open => "Open"
    case WEP => "WEP"
    case WPA => "WPA"
    case WPA2 => "WPA2"
    case WPA3 => "WPA3"
  }

  datatype Cipher = CCMP | TKIP

  datatype Authentication = PSK | EAP

  /** `WiFiNetwork`: one access point seen in one scan. */
  datatype WiFiNetwork = WiFiNetwork(
    bssid: string,
    ssid: string,
    channel: int,
    frequency: FloatText,
    signalLevel: int,
    quality: string,
    encryption: Encryption,
    cipher: Option<Cipher>,
    authentication: Option<Authentication>,
    mode: string,
    protocol: string)

  /** The `ValueError` raised by the bssid validator. */
  datatype ValidationError = InvalidMacAddress

  /** Six two-hex-digit groups, each pair of groups separated by ':' or '-' (chosen per separator). */
  predicate IsMacGroups(v: string)
  {
    |v| == 17 && forall k :: 0 <= k < 17 ==> if k % 3 == 2 then v[k] == ':' || v[k] == '-' else IsHexDigit(v[k])
  }

  /**
   * What `re.match(r'^([0-9A-Fa-f]{2}[:-]){5}([0-9A-Fa-f]{2})$', v)` accepts. Python's `$`
   * matches at the end of the text and also just before a newline that ends it.
   */
  predicate IsMacSyntax(v: string)
  {
    IsMacGroups(v) || (|v| == 18 && v[17] == '\n' && IsMacGroups(v[..17]))
  }

  /**
   * `upper()` followed by `replace('-', ':')`, for the ASCII characters a MAC text can hold (hex
   * digits, ':', '-' and a final newline), on which `upper()` maps one character to one character.
   */
  function CanonicalChar(c: char): char
  {
    if 'a' <= c <= 'z' then (c as int - 32) as char else if c == '-' then ':' else c
  }

  /** `v.upper().replace('-', ':')` on MAC text, character by character. */
  function Canonicalise(v: string): string
  {
    seq(|v|, k requires 0 <= k < |v| => CanonicalChar(v[k]))
  }

  /** Upper-case, colon-separated MAC text. */
  predicate IsCanonicalMac(v: string)
  {
    IsMacSyntax(v) && forall k :: 0 <= k < |v| ==> !('a' <= v[k] <= 'z') && v[k] != '-'
  }

  /** `WiFiNetwork.validate_bssid`: reject malformed text, otherwise return its canonical form. */
  function ValidateBssid(v: string): (r: Result<string, ValidationError>)
    ensures r.Ok? <==> IsMacSyntax(v)
    ensures r.Ok? ==> IsCanonicalMac(r.value) && |r.value| == |v|
    ensures r.Ok? ==> forall k :: 0 <= k < |v| ==> r.value[k] == CanonicalChar(v[k])
  {
    if IsMacSyntax(v) then
      var w := Canonicalise(v);
      assert IsMacGroups(w[..17]) by {
        assert forall k :: 0 <= k < 17 ==> w[..17][k] == CanonicalChar(v[k]);
        if |v| == 18 { assert forall k :: 0 <= k < 17 ==> v[..17][k] == v[k]; }
      }
      assert |v| == 17 ==> w == w[..17];
      Ok(w)
    else Err(InvalidMacAddress)
  }

  /** Normalising twice is normalising once: a canonical bssid passes the validator unchanged. */
  lemma BssidIdempotent(v: string)
    requires ValidateBssid(v).Ok?
    ensures ValidateBssid(ValidateBssid(v).value) == ValidateBssid(v)
  {
    var w := ValidateBssid(v).value;
    assert Canonicalise(w) == w;
  }

  /** The validator leaves a text unchanged exactly when it is already canonical. */
  lemma BssidFixpoints(v: string)
    ensures ValidateBssid(v) == Ok(v) <==> IsCanonicalMac(v)
  {
    if IsCanonicalMac(v) {
      assert Canonicalise(v) == v;
    }
  }

  /** The outcome of `validate_signal_level`: the value itself and whether a warning is logged. */
  datatype SignalCheck = SignalCheck(value: int, unusual: bool)

  /** `WiFiNetwork.validate_signal_level`: keep every value; flag those outside -100..0. */
  function ValidateSignalLevel(v: int): (r: SignalCheck)
    ensures r.value == v
    ensures r.unusual <==> v < -100 || 0 < v
  {
    SignalCheck(v, v > 0 || v < -100)
  }

  /** `WiFiNetwork(...)`: build a record, running both field validators. */
  function NewWiFiNetwork(bssid: string, ssid: string, channel: int, frequency: FloatText, signalLevel: int,
                          quality: string, encryption: Encryption, cipher: Option<Cipher>,
                          authentication: Option<Authentication>, mode: string, protocol: string)
    : (r: Result<WiFiNetwork, ValidationError>)
    ensures r.Ok? <==> IsMacSyntax(bssid)
    ensures r.Ok? ==> IsCanonicalMac(r.value.bssid) && r.value.bssid == ValidateBssid(bssid).value
    ensures r.Ok? ==> r.value.signalLevel == signalLevel
    ensures r.Ok? ==> && r.value.ssid == ssid && r.value.channel == channel && r.value.frequency == frequency
                      && r.value.quality == quality && r.value.encryption == encryption
                      && r.value.cipher == cipher && r.value.authentication == authentication
                      && r.value.mode == mode && r.value.protocol == protocol
  {
    match ValidateBssid(bssid)
    case Err(e) => Err(e)
    case Ok(canonical) =>
      Ok(WiFiNetwork(canonical, ssid, channel, frequency, ValidateSignalLevel(signalLevel).value, quality,
                     encryption, cipher, authentication, mode, protocol))
  }

  /** `ScanResult`: one scan, whose constructor always recomputes `total_networks`. */
  class ScanResult {
    var timestamp: Timestamp
    var interface: string
    var networks: seq<WiFiNetwork>
    var totalNetworks: int
    var scanDuration: Option<FloatText>

    /** `total_networks` mirrors the network list. */
    predicate Valid()
      reads this
    {
      totalNetworks == |networks|
    }

    /** Whatever `total_networks` the caller passes, `__init__` overwrites it with `len(networks)`. */
    constructor (timestamp: Timestamp, interface: string, networks: seq<WiFiNetwork>, totalNetworks: int,
                 scanDuration: Option<FloatText>)
      ensures Valid()
      ensures this.timestamp == timestamp && this.interface == interface && this.networks == networks
      ensures this.scanDuration == scanDuration
    {
      this.timestamp := timestamp;
      this.interface := interface;
      this.networks := networks;
      this.totalNetworks := totalNetworks;
      this.scanDuration := scanDuration;
      this.totalNetworks := |networks|;
    }
  }

  /** Pair marker `i` with content `i`, for as many markers as there are. */
  function PairUp(markers: seq<string>, contents: seq<string>): (r: seq<string>)
    requires |markers| <= |contents|
    ensures |r| == |markers| && forall i :: 0 <= i < |markers| ==> r[i] == markers[i] + contents[i]
  {
    if markers == [] then [] else [markers[0] + contents[0]] + PairUp(markers[1..], contents[1..])
  }

  /**
   * The blocks `_split_cells` returns: the text before the first marker is dropped when it is
   * whitespace only, and the i-th remaining piece is glued after the i-th marker.
   */
  function CellBlocks(output: string): (cells: seq<string>)
  {
    var split := SplitOnMarkers(output);
    var contents := if Strip(split.pieces[0]) == [] then split.pieces[1..] else split.pieces;
    PairUp(split.markers, contents)
  }

  /** `WiFiParser._split_cells`. */
  method SplitCells(output: string) returns (cells: seq<string>)
    ensures cells == CellBlocks(output)
  {
    var split := SplitOnMarkers(output);
    var contents := split.pieces;
    if |contents| > 0 && Strip(contents[0]) == [] {
      contents := contents[1..];
    }
    cells := Reconstruct(split.markers, contents);
  }

  /** The reconstruction loop of `_split_cells`: glue address i to content i while both exist. */
  method Reconstruct(addresses: seq<string>, contents: seq<string>) returns (cells: seq<string>)
    ensures |addresses| <= |contents| ==> cells == PairUp(addresses, contents)
    ensures |contents| < |addresses| ==> cells == PairUp(addresses[..|contents|], contents)
  {
    cells := [];
    var i := 0;
    while i < |contents|
      invariant 0 <= i <= |contents|
      invariant |cells| == if i < |addresses| then i else |addresses|
      invariant forall k :: 0 <= k < |cells| ==> cells[k] == addresses[k] + contents[k]
    {
      if i < |addresses| {
        cells := cells + [addresses[i] + contents[i]];
      }
      i := i + 1;
    }
  }

  /** The text is its first piece followed by each marker glued to the piece after it. */
  lemma {:induction false} InterleaveAsBlocks(pieces: seq<string>, markers: seq<string>)
    requires |pieces| == |markers| + 1
    ensures Interleave(pieces, markers) == pieces[0] + Concat(PairUp(markers, pieces[1..]))
    decreases |markers|
  {
    if markers != [] {
      InterleaveAsBlocks(pieces[1..], markers[1..]);
      assert pieces[1..][1..] == pieces[2..];
      var blocks := PairUp(markers, pieces[1..]);
      assert blocks[1..] == PairUp(markers[1..], pieces[2..]);
    }
  }

  /** The text is one character longer per character of the blocks, plus the last piece. */
  lemma {:induction false} InterleaveLength(pieces: seq<string>, markers: seq<string>)
    requires |pieces| == |markers| + 1
    ensures |Interleave(pieces, markers)| == |Concat(PairUp(markers, pieces))| + |pieces[|markers|]|
    decreases |markers|
  {
    if markers != [] {
      InterleaveLength(pieces[1..], markers[1..]);
      var blocks := PairUp(markers, pieces);
      assert blocks[1..] == PairUp(markers[1..], pieces[1..]);
    }
  }

  /** A well-formed split with at least one marker comes from a text that contains a marker. */
  lemma MarkerShowsInText(pieces: seq<string>, markers: seq<string>)
    requires WellFormedSplit(pieces, markers)
    ensures markers != [] ==> ContainsMarker(Interleave(pieces, markers))
  {
    if markers != [] {
      var s := Interleave(pieces, markers);
      var p, m := pieces[0], markers[0];
      assert s == p + m + Interleave(pieces[1..], markers[1..]);
      assert s[|p|..|p| + |m|] == m;
    }
  }

  /** Text with no `Cell N - Address:` marker yields no block, without error. */
  lemma NoMarkerNoBlocks(output: string)
    requires !ContainsMarker(output)
    ensures CellBlocks(output) == []
  {
    SplitSound(output);
    var split := SplitOnMarkers(output);
    MarkerShowsInText(split.pieces, split.markers);
  }

  /** There is exactly one block per marker, so never more blocks than markers. */
  lemma BlockCountIsMarkerCount(output: string)
    ensures |CellBlocks(output)| == |SplitOnMarkers(output).markers|
  {
  }

  /**
   * With a whitespace-only preamble, block i is marker i followed by the text up to marker i+1,
   * and the blocks put together give back the whole text after the preamble.
   */
  lemma BlankPreambleBlocks(output: string)
    requires IsBlank(SplitOnMarkers(output).pieces[0])
    ensures var split := SplitOnMarkers(output);
      && CellBlocks(output) == PairUp(split.markers, split.pieces[1..])
      && |split.pieces[0]| <= |output|
      && Concat(CellBlocks(output)) == output[|split.pieces[0]|..]
  {
    var split := SplitOnMarkers(output);
    StripEmptyIffBlank(split.pieces[0]);
    SplitSound(output);
    InterleaveAsBlocks(split.pieces, split.markers);
  }

  /**
   * With any other preamble, block 0 is marker 0 followed by the preamble, block i is marker i
   * followed by the text of device i-1, and exactly the text after the last marker is lost.
   */
  lemma NonBlankPreambleBlocks(output: string)
    requires !IsBlank(SplitOnMarkers(output).pieces[0])
    ensures var split := SplitOnMarkers(output);
      && CellBlocks(output) == PairUp(split.markers, split.pieces)
      && |Concat(CellBlocks(output))| + |split.pieces[|split.markers|]| == |output|
  {
    var split := SplitOnMarkers(output);
    StripEmptyIffBlank(split.pieces[0]);
    SplitSound(output);
    InterleaveLength(split.pieces, split.markers);
  }

  /**
   * Real `iwlist` output opens with a header such as `wlan0     Scan completed :`. For a text
   * made of such a header and devices d0..dn (each the text after its marker), the block of
   * marker i carries the text of device i-1 and the block of marker 0 carries the header, so
   * the records come out under the wrong marker numbers and the text of the last device is
   * in no block at all.
   */
  lemma HeaderShiftsDevices(header: string, devices: seq<string>, markers: seq<string>)
    requires WellFormedSplit([header] + devices, markers) && !IsBlank(header)
    ensures CellBlocks(Interleave([header] + devices, markers)) == PairUp(markers, [header] + devices)
  {
    SplitRoundTrip([header] + devices, markers);
    NonBlankPreambleBlocks(Interleave([header] + devices, markers));
  }

  /** For a text opening with a blank preamble, each marker keeps its own device's text. */
  lemma BlankHeaderKeepsDevices(header: string, devices: seq<string>, markers: seq<string>)
    requires WellFormedSplit([header] + devices, markers) && IsBlank(header)
    ensures CellBlocks(Interleave([header] + devices, markers)) == PairUp(markers, devices)
  {
    SplitRoundTrip([header] + devices, markers);
    BlankPreambleBlocks(Interleave([header] + devices, markers));
    assert ([header] + devices)[1..] == devices;
  }

  /** The encryption `_parse_cell` reports, by its priority-ordered substring tests. */
  function DetectEncryption(cell: string): Encryption
  {
    if !Contains(cell, "Encryption key:on") then Open
    else if Contains(cell, "WPA2") || Contains(cell, "rsn_ie") then WPA2
    else if Contains(cell, "WPA") then WPA
    else if Contains(cell, "WEP") then WEP
    else if Contains(cell, "WPA3") then WPA3
    else Open
  }

  /** The cipher `_parse_cell` reports: looked for only when the key is on, CCMP before TKIP. */
  function DetectCipher(cell: string): Option<Cipher>
  {
    if !Contains(cell, "Encryption key:on") then None
    else if Contains(cell, "CCMP") then Some(CCMP)
    else if Contains(cell, "TKIP") then Some(TKIP)
    else None
  }

  /** The authentication `_parse_cell` reports: looked for only when the key is on, PSK before EAP. */
  function DetectAuthentication(cell: string): Option<Authentication>
  {
    if !Contains(cell, "Encryption key:on") then None
    else if Contains(cell, "PSK") then Some(PSK)
    else if Contains(cell, "EAP") then Some(EAP)
    else None
  }

  /** `WiFiParser._parse_cell`: one record per block, or `None` when the block is skipped. */
  function ParseCell(cell: string): (r: Option<WiFiNetwork>)
    ensures r.None? <==> Search(Address, cell).None? || !IsMacSyntax(Search(Address, cell).value)
  {
    match Search(Address, cell)
    case None => None
    case Some(address) =>
      var ssid := match Search(Essid, cell) case Some(name) => name case None => "Hidden";
      var channel := match Search(Channel, cell) case Some(digits) => DecimalValue(digits) case None => 0;
      var frequency := match Search(Frequency, cell) case Some(ghz) => ghz case None => "0.0";
      var signal := match Search(SignalLevel, cell) case Some(dbm) => SignedValue(dbm) case None => -100;
      var quality := match Search(Quality, cell) case Some(q) => q case None => "0/70";
      var protocol := match Search(Protocol, cell) case Some(name) => name case None => "IEEE 802.11";
      match NewWiFiNetwork(address, ssid, channel, frequency, signal, quality, DetectEncryption(cell),
                           DetectCipher(cell), DetectAuthentication(cell), "Master", protocol)
      case Ok(network) => Some(network)
      case Err(_) => None
  }

  /** A parsed bssid is the canonical form of the first address in the block: 17 characters, upper case, ':' only. */
  lemma ParsedBssidCanonical(cell: string)
    requires ParseCell(cell).Some?
    ensures var n := ParseCell(cell).value;
      && Search(Address, cell).Some?
      && n.bssid == Canonicalise(Search(Address, cell).value)
      && |n.bssid| == 17 && IsCanonicalMac(n.bssid)
  {
  }

  /** `WPA3` is never reported: a block containing `WPA3` also contains `WPA`, and that test comes first. */
  lemma EncryptionNeverWpa3(cell: string)
    ensures DetectEncryption(cell) != WPA3
  {
    if Contains(cell, "WPA3") {
      assert OccursAt("WPA3", "WPA", 0);
      ContainsTransitive(cell, "WPA3", "WPA");
    }
  }

  /** The encryption field as a function of which tokens the block contains, case by case. */
  lemma EncryptionPriority(cell: string)
    ensures var keyOn := Contains(cell, "Encryption key:on");
      var wpa2 := Contains(cell, "WPA2") || Contains(cell, "rsn_ie");
      && (DetectEncryption(cell) == WPA2 <==> keyOn && wpa2)
      && (DetectEncryption(cell) == WPA <==> keyOn && !wpa2 && Contains(cell, "WPA"))
      && (DetectEncryption(cell) == WEP <==> keyOn && !wpa2 && !Contains(cell, "WPA") && Contains(cell, "WEP"))
      && (DetectEncryption(cell) == Open <==>
            !keyOn || (!wpa2 && !Contains(cell, "WPA") && !Contains(cell, "WEP")))
  {
    EncryptionNeverWpa3(cell);
  }

  /** Without `Encryption key:on` a record is Open, with no cipher and no authentication. */
  lemma KeyOffMeansOpen(cell: string)
    requires ParseCell(cell).Some? && !Contains(cell, "Encryption key:on")
    ensures var n := ParseCell(cell).value;
      n.encryption == Open && n.cipher == None && n.authentication == None
  {
  }

  /** The defaults of `_parse_cell`: every missing field falls back to its constant, mode is always Master. */
  lemma ParseCellDefaults(cell: string)
    requires ParseCell(cell).Some?
    ensures var n := ParseCell(cell).value;
      && n.mode == "Master"
      && (Search(Essid, cell).None? ==> n.ssid == "Hidden")
      && (Search(Channel, cell).None? ==> n.channel == 0)
      && (Search(Frequency, cell).None? ==> n.frequency == "0.0")
      && (Search(SignalLevel, cell).None? ==> n.signalLevel == -100)
      && (Search(Quality, cell).None? ==> n.quality == "0/70")
      && (Search(Protocol, cell).None? ==> n.protocol == "IEEE 802.11")
  {
  }

  /**
   * The name is `Hidden` only when the block has no `ESSID:"..."` or literally names itself
   * Hidden; an empty quoted name stays empty. It never contains a double quote.
   */
  lemma SsidFromQuotes(cell: string)
    requires ParseCell(cell).Some?
    ensures var n := ParseCell(cell).value;
      && (n.ssid == "Hidden" ==> Search(Essid, cell).None? || Search(Essid, cell) == Some("Hidden"))
      && (Search(Essid, cell) == Some("") ==> n.ssid == "")
      && (Search(Essid, cell).Some? ==> forall k :: 0 <= k < |n.ssid| ==> n.ssid[k] != '"')
  {
  }

  /** Any signal level in the text is kept as written, even outside -100..0; the channel is never negative. */
  lemma SignalKeptAsWritten(cell: string)
    requires ParseCell(cell).Some?
    ensures var n := ParseCell(cell).value;
      && (Search(SignalLevel, cell).Some? ==> n.signalLevel == SignedValue(Search(SignalLevel, cell).value))
      && n.channel >= 0
  {
  }

  /** The records of a sequence of blocks, skipped blocks left out, in block order. */
  function ParseCells(cells: seq<string>): (r: seq<WiFiNetwork>)
    ensures |r| <= |cells|
  {
    if cells == [] then []
    else
      var last := ParseCell(cells[|cells| - 1]);
      ParseCells(cells[..|cells| - 1]) + (if last.Some? then [last.value] else [])
  }

  /** Parsing distributes over concatenation: what one block yields does not depend on its neighbours. */
  lemma {:induction false} ParseCellsAppend(a: seq<string>, b: seq<string>)
    ensures ParseCells(a + b) == ParseCells(a) + ParseCells(b)
    decreases |b|
  {
    if b == [] {
      assert a + b == a;
    } else {
      var b' := b[..|b| - 1];
      assert (a + b)[..|a + b| - 1] == a + b';
      assert (a + b)[|a + b| - 1] == b[|b| - 1];
      ParseCellsAppend(a, b');
    }
  }

  /** One block yields its record or nothing. */
  lemma ParseOneCell(cell: string)
    ensures ParseCells([cell]) == if ParseCell(cell).Some? then [ParseCell(cell).value] else []
  {
    assert [cell][..0] == [];
  }

  /** A block that fails is skipped while every other record still appears, in block order. */
  lemma BadBlockSkipped(a: seq<string>, bad: string, b: seq<string>)
    requires ParseCell(bad).None?
    ensures ParseCells(a + [bad] + b) == ParseCells(a) + ParseCells(b)
  {
    ParseCellsAppend(a + [bad], b);
    ParseCellsAppend(a, [bad]);
    ParseOneCell(bad);
  }

  /** A block that parses contributes exactly its record, between its neighbours' records. */
  lemma GoodBlockKept(a: seq<string>, good: string, b: seq<string>)
    requires ParseCell(good).Some?
    ensures ParseCells(a + [good] + b) == ParseCells(a) + [ParseCell(good).value] + ParseCells(b)
  {
    ParseCellsAppend(a + [good], b);
    ParseCellsAppend(a, [good]);
    ParseOneCell(good);
  }

  /** One more block adds its record, if it has one, after the records of the blocks before it. */
  lemma ParseCellsStep(cells: seq<string>, i: nat)
    requires i < |cells|
    ensures ParseCells(cells[..i + 1]) ==
      ParseCells(cells[..i]) + (if ParseCell(cells[i]).Some? then [ParseCell(cells[i]).value] else [])
  {
    assert cells[..i + 1][..i] == cells[..i];
  }

  /** `WiFiParser.parse_scan_output`; the capture time is a parameter instead of `datetime.utcnow()`. */
  method ParseScanOutput(output: string, interface: string, now: Timestamp) returns (result: ScanResult)
    ensures result.networks == ParseCells(CellBlocks(output))
    ensures result.Valid() && result.interface == interface && result.timestamp == now
    ensures result.scanDuration == None
  {
    var networks := [];
    var cells := SplitCells(output);
    var i := 0;
    while i < |cells|
      invariant 0 <= i <= |cells|
      invariant networks == ParseCells(cells[..i])
    {
      var network := ParseCell(cells[i]);
      ParseCellsStep(cells, i);
      if network.Some? {
        networks := networks + [network.value];
      }
      i := i + 1;
    }
    assert cells[..|cells|] == cells;
    result := new ScanResult(now, interface, networks, 0, None);
  }

  /** Text with no device marker parses to an empty network list. */
  lemma NoMarkerNoNetworks(output: string)
    requires !ContainsMarker(output)
    ensures ParseCells(CellBlocks(output)) == []
  {
    NoMarkerNoBlocks(output);
  }

  /** The indentation `iwlist` puts before each field of a device. */
  const Indent: string := "                    "

  /** One field line of a device block. */
  function FieldLine(field: string): string
  {
    Indent + field + "\n"
  }

  /** Field lines, one after the other. */
  function FieldLines(fields: seq<string>): string
  {
    if fields == [] then [] else FieldLine(fields[0]) + FieldLines(fields[1..])
  }

  /** The field lines contain whatever one of the fields contains. */
  lemma {:induction false} FieldLinesContain(fields: seq<string>, k: nat, t: string)
    requires k < |fields| && Contains(fields[k], t)
    ensures Contains(FieldLines(fields), t)
    decreases k
  {
    if k == 0 {
      ContainsWithin(Indent, fields[0], "\n" + FieldLines(fields[1..]), t);
      assert Indent + fields[0] + ("\n" + FieldLines(fields[1..])) == FieldLines(fields);
    } else {
      FieldLinesContain(fields[1..], k - 1, t);
      ContainsWithin(FieldLine(fields[0]), FieldLines(fields[1..]), [], t);
      assert FieldLine(fields[0]) + FieldLines(fields[1..]) + [] == FieldLines(fields);
    }
  }

  /** The fields of the first device of the scanner's dry-run output (sub-fields carry four more spaces). */
  const DryRunFields: seq<string> := [
    "ESSID:\"TestNetwork1\"",
    "Protocol:IEEE 802.11bgn",
    "Mode:Master",
    "Frequency:2.437 GHz (Channel 6)",
    "Encryption key:on",
    "Bit Rates:54 Mb/s",
    "Extra:rsn_ie=" + DryRunRsnIe,
    "IE: IEEE 802.11i/WPA2 Version 1",
    "    Group Cipher : CCMP",
    "    Pairwise Ciphers (1) : CCMP",
    "    Authentication Suites (1) : PSK",
    "Quality=70/70  Signal level=-30 dBm  ",
    "Extra:fm=0001"]

  const DryRunMac: string := "00:11:22:33:44:55"

  /** The hex payload of the dry-run device's RSN information element. */
  const DryRunRsnIe: string := "30140100000fac040100000fac040100000fac020000"

  /** A device block as `_split_cells` cuts it: marker, address, field lines, blank line. */
  function DeviceBlock(number: string, mac: string, fields: seq<string>): string
  {
    "Cell " + number + " - Address:" + " " + mac + ("\n" + FieldLines(fields) + "\n")
  }

  /** A device block contains whatever one of its fields contains. */
  lemma DeviceBlockContains(number: string, mac: string, fields: seq<string>, k: nat, t: string)
    requires k < |fields| && Contains(fields[k], t)
    ensures Contains(DeviceBlock(number, mac, fields), t)
  {
    FieldLinesContain(fields, k, t);
    var head := "Cell " + number + " - Address:" + " " + mac;
    ContainsWithin(head + "\n", FieldLines(fields), "\n", t);
    assert head + "\n" + FieldLines(fields) + "\n" == head + ("\n" + FieldLines(fields) + "\n");
  }

  /** A device block with a numbered marker and a well-formed address parses, under the canonical address. */
  lemma DeviceBlockParses(number: string, mac: string, fields: seq<string>)
    requires number != [] && AllDigits(number) && IsMacGroups(mac) && forall k :: 0 <= k < 17 ==> mac[k] != '-'
    ensures var cell := DeviceBlock(number, mac, fields);
      && ParseCell(cell).Some?
      && ParseCell(cell).value.bssid == Canonicalise(mac)
      && ParseCell(cell).value.encryption == DetectEncryption(cell)
      && ParseCell(cell).value.cipher == DetectCipher(cell)
      && ParseCell(cell).value.authentication == DetectAuthentication(cell)
  {
    MarkerFromDigits(number);
    assert AllMacChars(mac);
    AddressAfterMarker("Cell " + number + " - Address:", mac, "\n" + FieldLines(fields) + "\n");
  }

  /** A block mentioning the key, WPA2, CCMP and PSK is reported as WPA2 with CCMP and PSK. */
  lemma Wpa2CcmpPsk(cell: string)
    requires Contains(cell, "Encryption key:on") && Contains(cell, "WPA2")
    requires Contains(cell, "CCMP") && Contains(cell, "PSK")
    ensures DetectEncryption(cell) == WPA2 && DetectCipher(cell) == Some(CCMP) && DetectAuthentication(cell) == Some(PSK)
  {
  }

  /** The dry-run address is well formed and already canonical. */
  lemma DryRunMacCanonical()
    ensures IsMacGroups(DryRunMac) && (forall k :: 0 <= k < 17 ==> DryRunMac[k] != '-')
    ensures Canonicalise(DryRunMac) == DryRunMac
  {
  }

  /** The dry-run device mentions the key, WPA2, CCMP and PSK, each in one of its fields. */
  lemma DryRunMentions()
    ensures var cell := DeviceBlock("01", DryRunMac, DryRunFields);
      && Contains(cell, "Encryption key:on") && Contains(cell, "WPA2")
      && Contains(cell, "CCMP") && Contains(cell, "PSK")
  {
    DryRunMentionsKey();
    DryRunMentionsWpa2();
    DryRunMentionsCcmp();
    DryRunMentionsPsk();
  }

  lemma DryRunMentionsKey()
    ensures Contains(DeviceBlock("01", DryRunMac, DryRunFields), "Encryption key:on")
  {
    var field := DryRunFields[4];
    assert field == "Encryption key:on";
    assert OccursAt(field, "Encryption key:on", 0);
    DeviceBlockContains("01", DryRunMac, DryRunFields, 4, "Encryption key:on");
  }

  lemma DryRunMentionsWpa2()
    ensures Contains(DeviceBlock("01", DryRunMac, DryRunFields), "WPA2")
  {
    var field := DryRunFields[7];
    assert field == "IE: IEEE 802.11i/WPA2 Version 1";
    assert OccursAt(field, "WPA2", 17);
    DeviceBlockContains("01", DryRunMac, DryRunFields, 7, "WPA2");
  }

  lemma DryRunMentionsCcmp()
    ensures Contains(DeviceBlock("01", DryRunMac, DryRunFields), "CCMP")
  {
    var field := DryRunFields[8];
    assert field == "    Group Cipher : CCMP";
    assert OccursAt(field, "CCMP", 19);
    DeviceBlockContains("01", DryRunMac, DryRunFields, 8, "CCMP");
  }

  lemma DryRunMentionsPsk()
    ensures Contains(DeviceBlock("01", DryRunMac, DryRunFields), "PSK")
  {
    var field := DryRunFields[10];
    assert field == "    Authentication Suites (1) : PSK";
    assert OccursAt(field, "PSK", 32);
    DeviceBlockContains("01", DryRunMac, DryRunFields, 10, "PSK");
  }

  /** The field lines split at any field. */
  lemma {:induction false} FieldLinesSplit(fields: seq<string>, k: nat)
    requires k <= |fields|
    ensures FieldLines(fields) == FieldLines(fields[..k]) + FieldLines(fields[k..])
    decreases k
  {
    if k == 0 {
      assert fields[..0] == [] && fields[0..] == fields;
    } else {
      FieldLinesSplit(fields[1..], k - 1);
      assert fields[1..][..k - 1] == fields[1..k] && fields[1..][k - 1..] == fields[k..];
      assert fields[..k][0] == fields[0] && fields[..k][1..] == fields[1..k];
    }
  }

  /** Field lines cannot start a token that none of their fields can start and that leads with a letter. */
  lemma {:induction false} FieldLinesCannotStart(fields: seq<string>, a: char, b: char)
    requires a !in Indent && a != '\n'
    requires forall i :: 0 <= i < |fields| ==> CannotStart(fields[i], a, b)
    ensures CannotStart(FieldLines(fields), a, b)
    decreases |fields|
  {
    if fields != [] {
      FreeCannotStart(Indent, a, b);
      FreeCannotStart("\n", a, b);
      ConcatCannotStart(Indent, fields[0], a, b);
      ConcatCannotStart(Indent + fields[0], "\n", a, b);
      FieldLinesCannotStart(fields[1..], a, b);
      ConcatCannotStart(FieldLine(fields[0]), FieldLines(fields[1..]), a, b);
    }
  }

  /** What precedes the tail `post` of field `k` in a device block. */
  function BlockBefore(number: string, mac: string, fields: seq<string>, k: nat, pre: string): string
    requires k <= |fields|
  {
    "Cell " + number + " - Address:" + " " + mac + "\n" + FieldLines(fields[..k]) + Indent + pre
  }

  /** What follows field `k` in a device block. */
  function BlockAfter(fields: seq<string>, k: nat): string
    requires k < |fields|
  {
    "\n" + FieldLines(fields[k + 1..]) + "\n"
  }

  /** A device block is what precedes the tail of field `k`, that tail, and what follows field `k`. */
  lemma DeviceBlockAround(number: string, mac: string, fields: seq<string>, k: nat, pre: string, post: string)
    requires k < |fields| && fields[k] == pre + post
    ensures DeviceBlock(number, mac, fields) == BlockBefore(number, mac, fields, k, pre) + (post + BlockAfter(fields, k))
  {
    FieldLinesSplit(fields, k);
    assert fields[k..][0] == fields[k] && fields[k..][1..] == fields[k + 1..];
    var head, nl := "Cell " + number + " - Address:" + " " + mac, "\n";
    var a, b := FieldLines(fields[..k]), FieldLines(fields[k + 1..]);
    assert FieldLines(fields) == a + (Indent + (pre + post) + nl + b);
    Regroup(head, nl, a, Indent, pre, post, b);
  }

  /** The regrouping of a device block around the tail of one of its fields. */
  lemma Regroup(head: string, nl: string, a: string, indent: string, pre: string, post: string, b: string)
    ensures head + (nl + (a + (indent + (pre + post) + nl + b)) + nl) == (head + nl + a + indent + pre) + (post + (nl + b + nl))
  {
  }

  /** Nothing before the tail of field `k` can start the token when no part of it can. */
  lemma BlockBeforeCannotStart(number: string, mac: string, fields: seq<string>, k: nat, pre: string, a: char, b: char)
    requires k <= |fields| && a !in Indent && a != '\n'
    requires CannotStart("Cell " + number + " - Address:" + " " + mac + "\n", a, b)
    requires forall i :: 0 <= i < k ==> CannotStart(fields[i], a, b)
    requires CannotStart(pre, a, b)
    ensures CannotStart(BlockBefore(number, mac, fields, k, pre), a, b)
  {
    var head := "Cell " + number + " - Address:" + " " + mac + "\n";
    FieldLinesCannotStart(fields[..k], a, b);
    FreeCannotStart(Indent, a, b);
    ConcatCannotStart(head, FieldLines(fields[..k]), a, b);
    ConcatCannotStart(head + FieldLines(fields[..k]), Indent, a, b);
    ConcatCannotStart(head + FieldLines(fields[..k]) + Indent, pre, a, b);
  }

  /**
   * `re.search` over a device block finds a token-anchored pattern in the tail `post` of field `k`
   * when nothing before that tail can start the token and the pattern matches there.
   */
  lemma DeviceBlockSearch(p: Pattern, number: string, mac: string, fields: seq<string>, k: nat, pre: string, post: string)
    requires p != Frequency && k < |fields| && fields[k] == pre + post
    requires Token(p)[0] !in Indent && Token(p)[0] != '\n'
    requires CannotStart("Cell " + number + " - Address:" + " " + mac + "\n", Token(p)[0], Token(p)[1])
    requires forall i :: 0 <= i < k ==> CannotStart(fields[i], Token(p)[0], Token(p)[1])
    requires CannotStart(pre, Token(p)[0], Token(p)[1])
    requires MatchAt(p, BlockBefore(number, mac, fields, k, pre) + (post + BlockAfter(fields, k)), |BlockBefore(number, mac, fields, k, pre)|).Some?
    ensures Search(p, DeviceBlock(number, mac, fields))
      == MatchAt(p, BlockBefore(number, mac, fields, k, pre) + (post + BlockAfter(fields, k)), |BlockBefore(number, mac, fields, k, pre)|)
  {
    DeviceBlockAround(number, mac, fields, k, pre, post);
    BlockBeforeCannotStart(number, mac, fields, k, pre, Token(p)[0], Token(p)[1]);
    SearchAfter(p, BlockBefore(number, mac, fields, k, pre), post + BlockAfter(fields, k));
  }

  /** A device block's marker-and-address line cannot start a token whose lead is in neither the number nor the address. */
  lemma HeadCannotStart(number: string, mac: string, a: char, b: char)
    requires CannotStart("Cell ", a, b) && a !in " - Address:" && a != ' ' && a != '\n'
    requires a !in number && a !in mac
    ensures CannotStart("Cell " + number + " - Address:" + " " + mac + "\n", a, b)
  {
    FreeCannotStart(number, a, b);
    FreeCannotStart(" - Address:", a, b);
    FreeCannotStart(" ", a, b);
    FreeCannotStart(mac, a, b);
    FreeCannotStart("\n", a, b);
    ConcatCannotStart("Cell ", number, a, b);
    ConcatCannotStart("Cell " + number, " - Address:", a, b);
    ConcatCannotStart("Cell " + number + " - Address:", " ", a, b);
    ConcatCannotStart("Cell " + number + " - Address:" + " ", mac, a, b);
    ConcatCannotStart("Cell " + number + " - Address:" + " " + mac, "\n", a, b);
  }

  /** A device block whose first field is `ESSID:"<name>"` is named `name`. */
  lemma DeviceBlockEssid(number: string, mac: string, fields: seq<string>, name: string)
    requires fields != [] && fields[0] == "ESSID:\"" + name + "\"" && '"' !in name
    requires CannotStart("Cell " + number + " - Address:" + " " + mac + "\n", 'E', 'S')
    ensures Search(Essid, DeviceBlock(number, mac, fields)) == Some(name)
  {
    var post := fields[0];
    assert fields[0] == "" + post;
    var x, rest := BlockBefore(number, mac, fields, 0, ""), BlockAfter(fields, 0);
    EssidMatch(x, name, rest);
    assert post + rest == "ESSID:\"" + name + "\"" + rest;
    FreeCannotStart("", 'E', 'S');
    DeviceBlockSearch(Essid, number, mac, fields, 0, "", post);
  }

  /** A device block whose field `k` ends in `Channel <digits>` and a non-digit, with no token before it, is on that channel. */
  lemma DeviceBlockChannel(number: string, mac: string, fields: seq<string>, k: nat, pre: string, digits: string, tail: string)
    requires k < |fields| && fields[k] == pre + ("Channel " + digits + tail)
    requires digits != [] && AllDigits(digits) && tail != [] && !IsDigit(tail[0])
    requires CannotStart("Cell " + number + " - Address:" + " " + mac + "\n", 'C', 'h')
    requires forall i :: 0 <= i < k ==> CannotStart(fields[i], 'C', 'h')
    requires CannotStart(pre, 'C', 'h')
    ensures Search(Channel, DeviceBlock(number, mac, fields)) == Some(digits)
  {
    var post := "Channel " + digits + tail;
    var x, rest := BlockBefore(number, mac, fields, k, pre), BlockAfter(fields, k);
    ChannelMatch(x, digits, tail + rest);
    assert post + rest == "Channel " + digits + (tail + rest);
    DeviceBlockSearch(Channel, number, mac, fields, k, pre, post);
  }

  /** A device block whose field `k` holds `Signal level=-<digits> dBm`, with no token before it, reports that level. */
  lemma DeviceBlockSignal(number: string, mac: string, fields: seq<string>, k: nat, pre: string, digits: string, tail: string)
    requires k < |fields| && fields[k] == pre + ("Signal level=" + "-" + digits + tail)
    requires digits != [] && AllDigits(digits) && StartsWith(tail, " dBm")
    requires CannotStart("Cell " + number + " - Address:" + " " + mac + "\n", 'S', 'i')
    requires forall i :: 0 <= i < k ==> CannotStart(fields[i], 'S', 'i')
    requires CannotStart(pre, 'S', 'i')
    ensures Search(SignalLevel, DeviceBlock(number, mac, fields)) == Some("-" + digits)
  {
    var post := "Signal level=" + "-" + digits + tail;
    var x, rest := BlockBefore(number, mac, fields, k, pre), BlockAfter(fields, k);
    SignalTailRegroup("Signal level=" + "-", digits, tail, rest);
    NegativeSignalMatch(x, digits, tail + rest);
    DeviceBlockSearch(SignalLevel, number, mac, fields, k, pre, post);
  }

  /** Text that follows a signal level's unit keeps the unit at its head. */
  lemma SignalTailRegroup(lead: string, digits: string, tail: string, rest: string)
    requires StartsWith(tail, " dBm")
    ensures StartsWith(tail + rest, " dBm")
    ensures lead + digits + tail + rest == lead + digits + (tail + rest)
  {
    assert (tail + rest)[..4] == tail[..4];
  }

  /** The dry-run device's network name is `TestNetwork1`, its first field. */
  lemma DryRunEssid()
    ensures Search(Essid, DeviceBlock("01", DryRunMac, DryRunFields)) == Some("TestNetwork1")
  {
    HeadCannotStart("01", DryRunMac, 'E', 'S');
    assert DryRunFields[0] == "ESSID:\"" + "TestNetwork1" + "\"";
    DeviceBlockEssid("01", DryRunMac, DryRunFields, "TestNetwork1");
  }

  /** The dry-run device's channel is the `6` at the end of its frequency field. */
  lemma DryRunChannel()
    ensures Search(Channel, DeviceBlock("01", DryRunMac, DryRunFields)) == Some("6")
  {
    assert CannotStart("Cell ", 'C', 'h');
    HeadCannotStart("01", DryRunMac, 'C', 'h');
    var pre := "Frequency:2.437 GHz (";
    assert DryRunFields[3] == pre + ("Channel " + "6" + ")");
    FreeCannotStart(DryRunFields[0], 'C', 'h');
    FreeCannotStart(DryRunFields[1], 'C', 'h');
    FreeCannotStart(DryRunFields[2], 'C', 'h');
    FreeCannotStart(pre, 'C', 'h');
    DeviceBlockChannel("01", DryRunMac, DryRunFields, 3, pre, "6", ")");
  }

  /** A character absent from two texts is absent from the two together. */
  lemma AbsentFromConcat(a: string, b: string, c: char)
    requires c !in a && c !in b
    ensures c !in a + b
  {
  }

  /** No field of the dry-run device between its name and its authentication suites holds an `S`. */
  lemma DryRunMiddleFieldsFree()
    ensures forall i :: 1 <= i < 10 ==> 'S' !in DryRunFields[i]
  {
    DryRunProtocolToFrequencyFree();
    DryRunKeyAndRatesFree();
    DryRunRsnFree();
    DryRunCipherFieldsFree();
  }

  lemma DryRunProtocolToFrequencyFree()
    ensures 'S' !in DryRunFields[1] && 'S' !in DryRunFields[2] && 'S' !in DryRunFields[3]
  {
  }

  lemma DryRunKeyAndRatesFree()
    ensures 'S' !in DryRunFields[4] && 'S' !in DryRunFields[5]
  {
  }

  lemma DryRunRsnFree()
    ensures 'S' !in DryRunFields[6]
  {
    assert 'S' !in DryRunRsnIe;
    AbsentFromConcat("Extra:rsn_ie=", DryRunRsnIe, 'S');
  }

  lemma DryRunCipherFieldsFree()
    ensures 'S' !in DryRunFields[7] && 'S' !in DryRunFields[8] && 'S' !in DryRunFields[9]
  {
    DryRunIeFree();
  }

  lemma DryRunIeFree()
    ensures 'S' !in DryRunFields[7]
  {
  }

  /** Nothing in the dry-run device's fields before the signal level can start `Signal level=`. */
  lemma DryRunFieldsCannotStartSignal()
    ensures forall i :: 0 <= i < 11 ==> CannotStart(DryRunFields[i], 'S', 'i')
    ensures CannotStart("Quality=70/70  ", 'S', 'i')
  {
    FreeCannotStart("Quality=70/70  ", 'S', 'i');
    assert DryRunFields[0] == "ESSI" + "D:\"TestNetwork1\"";
    assert CannotStart("ESSI", 'S', 'i');
    ConcatCannotStart("ESSI", "D:\"TestNetwork1\"", 'S', 'i');
    assert DryRunFields[10] == "    Authentication Su" + "ites (1) : PSK";
    assert CannotStart("    Authentication Su", 'S', 'i');
    assert CannotStart("ites (1) : PSK", 'S', 'i');
    ConcatCannotStart("    Authentication Su", "ites (1) : PSK", 'S', 'i');
    DryRunMiddleFieldsFree();
    forall i | 1 <= i < 10 ensures CannotStart(DryRunFields[i], 'S', 'i') {
      FreeCannotStart(DryRunFields[i], 'S', 'i');
    }
  }

  /** The dry-run device's quality line ends in its signal level. */
  lemma DryRunSignalField()
    ensures DryRunFields[11] == "Quality=70/70  " + ("Signal level=" + "-" + "30" + " dBm  ")
  {
  }

  /** The dry-run device's signal level is the `-30` of its quality line. */
  lemma DryRunSignal()
    ensures Search(SignalLevel, DeviceBlock("01", DryRunMac, DryRunFields)) == Some("-30")
  {
    HeadCannotStart("01", DryRunMac, 'S', 'i');
    DryRunFieldsCannotStartSignal();
    DryRunSignalField();
    DeviceBlockSignal("01", DryRunMac, DryRunFields, 11, "Quality=70/70  ", "30", " dBm  ");
    assert "-" + "30" == "-30";
  }

  /** A parsed block takes its name, channel and signal level from the first matches of their patterns. */
  lemma ParsedFromSearches(cell: string, name: string, digits: string, dbm: string)
    requires ParseCell(cell).Some?
    requires Search(Essid, cell) == Some(name) && Search(Channel, cell) == Some(digits)
    requires Search(SignalLevel, cell) == Some(dbm)
    ensures CaptureShape(Channel, digits) && CaptureShape(SignalLevel, dbm)
    ensures var n := ParseCell(cell).value;
      n.ssid == name && n.channel == DecimalValue(digits) && n.signalLevel == SignedValue(dbm)
  {
  }

  /** The first device of the scanner's dry-run output parses as WPA2 with CCMP and PSK, under its own address. */
  lemma DryRunBlockSecurity()
    ensures var cell := DeviceBlock("01", DryRunMac, DryRunFields);
      && ParseCell(cell).Some?
      && ParseCell(cell).value.bssid == "00:11:22:33:44:55"
      && ParseCell(cell).value.encryption == WPA2
      && ParseCell(cell).value.cipher == Some(CCMP)
      && ParseCell(cell).value.authentication == Some(PSK)
  {
    DryRunMacCanonical();
    DeviceBlockParses("01", DryRunMac, DryRunFields);
    DryRunMentions();
    Wpa2CcmpPsk(DeviceBlock("01", DryRunMac, DryRunFields));
  }

  /**
   * The first device of the scanner's dry-run output parses to the network `TestNetwork1` on channel 6
   * at -30 dBm, WPA2 with CCMP and PSK, under its own address.
   */
  lemma DryRunBlockParses()
    ensures var cell := DeviceBlock("01", DryRunMac, DryRunFields);
      && ParseCell(cell).Some?
      && ParseCell(cell).value.bssid == "00:11:22:33:44:55"
      && ParseCell(cell).value.ssid == "TestNetwork1"
      && ParseCell(cell).value.channel == 6
      && ParseCell(cell).value.signalLevel == -30
      && ParseCell(cell).value.encryption == WPA2
      && ParseCell(cell).value.cipher == Some(CCMP)
      && ParseCell(cell).value.authentication == Some(PSK)
  {
    DryRunBlockSecurity();
    DryRunEssid();
    DryRunChannel();
    DryRunSignal();
    ParsedFromSearches(DeviceBlock("01", DryRunMac, DryRunFields), "TestNetwork1", "6", "-30");
    assert DecimalValue("6") == 6;
    assert "-30"[1..] == "30" && DecimalValue("30") == 30;
  }
}
