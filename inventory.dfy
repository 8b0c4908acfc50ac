/**
 * xwirless/db.py: the inventory of stored scans, the per-access-point history built from them,
 * the statistics that mirror both, and the comparison of two stored scans.
 */
module Inventory {
  import opened Wrappers
  import opened Text
  import opened Parser

  /** One `signal_history` entry. */
  datatype SignalSample = SignalSample(timestamp: Timestamp, signalLevel: int, quality: string)

  /** The `networks[bssid]` entry: what the inventory remembers about one access point. */
  datatype NetworkHistory = NetworkHistory(
    firstSeen: Timestamp,
    lastSeen: Timestamp,
    ssidHistory: seq<string>,
    signalHistory: seq<SignalSample>,
    encryptionHistory: seq<Encryption>,
    totalScans: nat)

  /** One element of `scans`, as `save_scan` stores it. */
  datatype StoredScan = StoredScan(
    id: string,
    timestamp: Timestamp,
    interface: string,
    totalNetworks: int,
    scanDuration: Option<FloatText>,
    networks: seq<WiFiNetwork>)

  /** The `statistics` record. */
  datatype Statistics = Statistics(totalScans: nat, uniqueNetworks: nat, lastScanDate: Option<Timestamp>)

  predicate NoDuplicates<T(==)>(xs: seq<T>)
  {
    forall i, j :: 0 <= i < j < |xs| ==> xs[i] != xs[j]
  }

  /** `if x not in xs: xs.append(x)`. */
  function AppendIfAbsent<T(==)>(xs: seq<T>, x: T): seq<T>
  {
    if x in xs then xs else xs + [x]
  }

  /**
   * Appending when absent extends the list by at most one element, keeps what was there, adds
   * exactly `x` to the members and never introduces a repeat.
   */
  lemma AppendIfAbsentFacts<T>(xs: seq<T>, x: T)
    ensures var r := AppendIfAbsent(xs, x); |xs| <= |r| <= |xs| + 1 && r[..|xs|] == xs && x in r
    ensures forall y :: y in AppendIfAbsent(xs, x) <==> y in xs || y == x
    ensures NoDuplicates(xs) ==> NoDuplicates(AppendIfAbsent(xs, x))
  {
  }

  /** The histories of one entry agree with each other: one signal sample per sighting, no repeated name or encryption. */
  predicate HistoryConsistent(h: NetworkHistory)
  {
    && |h.signalHistory| == h.totalScans
    && NoDuplicates(h.ssidHistory) && |h.ssidHistory| <= h.totalScans
    && NoDuplicates(h.encryptionHistory) && |h.encryptionHistory| <= h.totalScans
  }

  /** The entry `save_scan` creates for an access point it has not seen before. */
  function FreshHistory(at: Timestamp): NetworkHistory
  {
    NetworkHistory(at, at, [], [], [], 0)
  }

  /** The entry for `bssid`, or the fresh one `save_scan` would create for it. */
  function EntryOf(inventory: map<string, NetworkHistory>, bssid: string, at: Timestamp): NetworkHistory
  {
    if bssid in inventory then inventory[bssid] else FreshHistory(at)
  }

  /** One sighting of `network` at time `at`, applied to the access point's entry. */
  function Sighted(entry: NetworkHistory, network: WiFiNetwork, at: Timestamp): NetworkHistory
  {
    NetworkHistory(
      entry.firstSeen,
      at,
      AppendIfAbsent(entry.ssidHistory, network.ssid),
      entry.signalHistory + [SignalSample(at, network.signalLevel, network.quality)],
      AppendIfAbsent(entry.encryptionHistory, network.encryption),
      entry.totalScans + 1)
  }

  /** The body of `save_scan`'s loop: one sighting of `network` at time `at`. */
  function RecordSighting(inventory: map<string, NetworkHistory>, network: WiFiNetwork, at: Timestamp)
    : map<string, NetworkHistory>
  {
    inventory[network.bssid := Sighted(EntryOf(inventory, network.bssid, at), network, at)]
  }

  /** The inventory after recording every network of one scan, in order. */
  function RecordSightings(inventory: map<string, NetworkHistory>, networks: seq<WiFiNetwork>, at: Timestamp)
    : map<string, NetworkHistory>
  {
    if networks == [] then inventory
    else RecordSighting(RecordSightings(inventory, networks[..|networks| - 1], at), networks[|networks| - 1], at)
  }

  /** The access points a list of networks mentions. */
  function Bssids(networks: seq<WiFiNetwork>): (r: set<string>)
    ensures forall i :: 0 <= i < |networks| ==> networks[i].bssid in r
    ensures forall b :: b in r ==> exists i :: 0 <= i < |networks| && networks[i].bssid == b
  {
    if networks == [] then {}
    else Bssids(networks[..|networks| - 1]) + {networks[|networks| - 1].bssid}
  }

  /** The access points mentioned by any stored scan. */
  function AllBssids(scans: seq<StoredScan>): set<string>
  {
    if scans == [] then {} else AllBssids(scans[..|scans| - 1]) + Bssids(scans[|scans| - 1].networks)
  }

  /** The networks of a list that are sightings of `bssid`, in order. */
  function SightingsOf(networks: seq<WiFiNetwork>, bssid: string): (r: seq<WiFiNetwork>)
    ensures |r| <= |networks|
    ensures forall i :: 0 <= i < |r| ==> r[i].bssid == bssid
    ensures forall n :: n in r <==> n in networks && n.bssid == bssid
    ensures r == [] <==> bssid !in Bssids(networks)
  {
    if networks == [] then []
    else
      var last := networks[|networks| - 1];
      SightingsOf(networks[..|networks| - 1], bssid) + (if last.bssid == bssid then [last] else [])
  }

  /** The positions of a list that hold a sighting of `bssid`. */
  function SightingPositions(networks: seq<WiFiNetwork>, bssid: string): set<int>
  {
    set i | 0 <= i < |networks| && networks[i].bssid == bssid
  }

  /** The last network of a list adds its position when it is a sighting, and nothing otherwise. */
  lemma PositionsStep(networks: seq<WiFiNetwork>, bssid: string)
    requires networks != []
    ensures var init, last := networks[..|networks| - 1], networks[|networks| - 1];
      SightingPositions(networks, bssid)
        == SightingPositions(init, bssid) + (if last.bssid == bssid then {|init|} else {})
  {
    var init := networks[..|networks| - 1];
    forall i | 0 <= i < |init| ensures init[i] == networks[i] {
    }
  }

  /** Every sighting is kept: there are as many as there are positions of the list that hold one. */
  lemma {:induction false} SightingsCount(networks: seq<WiFiNetwork>, bssid: string)
    ensures |SightingsOf(networks, bssid)| == |SightingPositions(networks, bssid)|
    decreases |networks|
  {
    if networks == [] {
      assert SightingPositions(networks, bssid) == {};
    } else {
      var init, last := networks[..|networks| - 1], networks[|networks| - 1];
      SightingsCount(init, bssid);
      PositionsStep(networks, bssid);
      var before := SightingPositions(init, bssid);
      if last.bssid == bssid {
        assert |init| !in before;
        assert |before + {|init|}| == |before| + 1;
      } else {
        assert before + {} == before;
      }
    }
  }

  /** The signal samples a list of sightings at time `at` adds. */
  function Samples(sightings: seq<WiFiNetwork>, at: Timestamp): (r: seq<SignalSample>)
    ensures |r| == |sightings|
  {
    if sightings == [] then []
    else
      var last := sightings[|sightings| - 1];
      Samples(sightings[..|sightings| - 1], at) + [SignalSample(at, last.signalLevel, last.quality)]
  }

  /** Some sighting carries the name `ssid`. */
  predicate NamedIn(sightings: seq<WiFiNetwork>, ssid: string)
  {
    exists i :: 0 <= i < |sightings| && sightings[i].ssid == ssid
  }

  /** Some sighting carries the encryption `e`. */
  predicate EncryptedIn(sightings: seq<WiFiNetwork>, e: Encryption)
  {
    exists i :: 0 <= i < |sightings| && sightings[i].encryption == e
  }

  /** Recording a scan adds exactly the access points of that scan to the inventory's keys. */
  lemma {:induction false} SightingsKeys(inventory: map<string, NetworkHistory>, networks: seq<WiFiNetwork>, at: Timestamp)
    ensures RecordSightings(inventory, networks, at).Keys == inventory.Keys + Bssids(networks)
    decreases |networks|
  {
    if networks != [] {
      SightingsKeys(inventory, networks[..|networks| - 1], at);
    }
  }

  /** The sightings of one access point applied to its entry, in order. */
  function Replay(entry: NetworkHistory, seen: seq<WiFiNetwork>, at: Timestamp): NetworkHistory
  {
    if seen == [] then entry else Sighted(Replay(entry, seen[..|seen| - 1], at), seen[|seen| - 1], at)
  }

  /**
   * Recording a scan touches each access point only through its own sightings: its entry ends
   * up as its old (or fresh) entry with exactly the scan's sightings of it applied, and an access
   * point the scan does not see keeps its entry, or its absence.
   */
  lemma {:induction false} SightingsEntry(inventory: map<string, NetworkHistory>, networks: seq<WiFiNetwork>,
                                          at: Timestamp, bssid: string)
    ensures var after := RecordSightings(inventory, networks, at);
      && EntryOf(after, bssid, at) == Replay(EntryOf(inventory, bssid, at), SightingsOf(networks, bssid), at)
      && (bssid in after <==> bssid in inventory || bssid in Bssids(networks))
    decreases |networks|
  {
    if networks != [] {
      var init := networks[..|networks| - 1];
      SightingsEntry(inventory, init, at, bssid);
      var seen := SightingsOf(init, bssid);
      if networks[|networks| - 1].bssid == bssid {
        assert (seen + [networks[|networks| - 1]])[..|seen|] == seen;
      } else {
        assert seen + [] == seen;
      }
    }
  }

  /** Replaying sightings adds one sighting and one signal sample per sighting, in order. */
  lemma {:induction false} ReplayCounts(entry: NetworkHistory, seen: seq<WiFiNetwork>, at: Timestamp)
    ensures Replay(entry, seen, at).totalScans == entry.totalScans + |seen|
    ensures Replay(entry, seen, at).signalHistory == entry.signalHistory + Samples(seen, at)
    ensures Replay(entry, seen, at).firstSeen == entry.firstSeen
    ensures seen != [] ==> Replay(entry, seen, at).lastSeen == at
    decreases |seen|
  {
    if seen != [] {
      ReplayCounts(entry, seen[..|seen| - 1], at);
    }
  }

  /**
   * Every sighting in a scan counts: an access point's `total_scans` grows by the number of
   * positions of the scan's list that hold it (two sightings in one scan add two).
   */
  lemma RecordCountsEverySighting(inventory: map<string, NetworkHistory>, networks: seq<WiFiNetwork>,
                                  at: Timestamp, bssid: string)
    ensures EntryOf(RecordSightings(inventory, networks, at), bssid, at).totalScans
      == EntryOf(inventory, bssid, at).totalScans + |SightingPositions(networks, bssid)|
  {
    SightingsEntry(inventory, networks, at, bssid);
    ReplayCounts(EntryOf(inventory, bssid, at), SightingsOf(networks, bssid), at);
    SightingsCount(networks, bssid);
  }

  /** The last sighting names `x`, or an earlier one does. */
  lemma NamedInLast(seen: seq<WiFiNetwork>, x: string)
    requires seen != []
    ensures NamedIn(seen, x) <==> NamedIn(seen[..|seen| - 1], x) || seen[|seen| - 1].ssid == x
  {
    var init := seen[..|seen| - 1];
    if NamedIn(init, x) {
      var i :| 0 <= i < |init| && init[i].ssid == x;
      assert seen[i] == init[i];
    }
    if NamedIn(seen, x) && seen[|seen| - 1].ssid != x {
      var i :| 0 <= i < |seen| && seen[i].ssid == x;
      assert init[i] == seen[i];
    }
  }

  /** The last sighting carries `e`, or an earlier one does. */
  lemma EncryptedInLast(seen: seq<WiFiNetwork>, e: Encryption)
    requires seen != []
    ensures EncryptedIn(seen, e) <==> EncryptedIn(seen[..|seen| - 1], e) || seen[|seen| - 1].encryption == e
  {
    var init := seen[..|seen| - 1];
    if EncryptedIn(init, e) {
      var i :| 0 <= i < |init| && init[i].encryption == e;
      assert seen[i] == init[i];
    }
    if EncryptedIn(seen, e) && seen[|seen| - 1].encryption != e {
      var i :| 0 <= i < |seen| && seen[i].encryption == e;
      assert init[i] == seen[i];
    }
  }

  /** Replaying sightings only appends to the name and encryption histories. */
  lemma {:induction false} ReplayExtends(entry: NetworkHistory, seen: seq<WiFiNetwork>, at: Timestamp)
    ensures entry.ssidHistory <= Replay(entry, seen, at).ssidHistory
    ensures entry.encryptionHistory <= Replay(entry, seen, at).encryptionHistory
    decreases |seen|
  {
    if seen != [] {
      var prev := Replay(entry, seen[..|seen| - 1], at);
      ReplayExtends(entry, seen[..|seen| - 1], at);
      AppendIfAbsentFacts(prev.ssidHistory, seen[|seen| - 1].ssid);
      AppendIfAbsentFacts(prev.encryptionHistory, seen[|seen| - 1].encryption);
      PrefixTransitive(entry.ssidHistory, prev.ssidHistory, Replay(entry, seen, at).ssidHistory);
      PrefixTransitive(entry.encryptionHistory, prev.encryptionHistory, Replay(entry, seen, at).encryptionHistory);
    }
  }

  lemma PrefixTransitive<T>(a: seq<T>, b: seq<T>, c: seq<T>)
    requires a <= b && b <= c
    ensures a <= c
  {
    assert c[..|a|] == b[..|a|];
  }

  /** The name history gains exactly the names of the sightings. */
  lemma {:induction false} ReplayNames(entry: NetworkHistory, seen: seq<WiFiNetwork>, at: Timestamp, x: string)
    ensures x in Replay(entry, seen, at).ssidHistory <==> x in entry.ssidHistory || NamedIn(seen, x)
    decreases |seen|
  {
    if seen != [] {
      ReplayNames(entry, seen[..|seen| - 1], at, x);
      var prev := Replay(entry, seen[..|seen| - 1], at);
      assert Replay(entry, seen, at).ssidHistory == AppendIfAbsent(prev.ssidHistory, seen[|seen| - 1].ssid);
      AppendIfAbsentFacts(prev.ssidHistory, seen[|seen| - 1].ssid);
      NamedInLast(seen, x);
    }
  }

  /** The encryption history gains exactly the encryptions of the sightings. */
  lemma {:induction false} ReplayEncryptions(entry: NetworkHistory, seen: seq<WiFiNetwork>, at: Timestamp, e: Encryption)
    ensures e in Replay(entry, seen, at).encryptionHistory <==> e in entry.encryptionHistory || EncryptedIn(seen, e)
    decreases |seen|
  {
    if seen != [] {
      ReplayEncryptions(entry, seen[..|seen| - 1], at, e);
      var prev := Replay(entry, seen[..|seen| - 1], at);
      assert Replay(entry, seen, at).encryptionHistory == AppendIfAbsent(prev.encryptionHistory, seen[|seen| - 1].encryption);
      AppendIfAbsentFacts(prev.encryptionHistory, seen[|seen| - 1].encryption);
      EncryptedInLast(seen, e);
    }
  }

  /** A sighting keeps an entry's histories consistent. */
  lemma SightedConsistent(entry: NetworkHistory, network: WiFiNetwork, at: Timestamp)
    requires HistoryConsistent(entry)
    ensures HistoryConsistent(Sighted(entry, network, at)) && Sighted(entry, network, at).totalScans > 0
  {
    AppendIfAbsentFacts(entry.ssidHistory, network.ssid);
    AppendIfAbsentFacts(entry.encryptionHistory, network.encryption);
  }

  /** Every entry of the inventory is consistent and has been sighted at least once. */
  predicate AllConsistent(inventory: map<string, NetworkHistory>)
  {
    forall b {:trigger inventory[b]} :: b in inventory ==> HistoryConsistent(inventory[b]) && inventory[b].totalScans > 0
  }

  /** Recording a scan keeps every entry consistent and leaves every touched entry with at least one sighting. */
  lemma {:induction false} SightingsConsistent(inventory: map<string, NetworkHistory>, networks: seq<WiFiNetwork>,
                                               at: Timestamp)
    requires AllConsistent(inventory)
    ensures AllConsistent(RecordSightings(inventory, networks, at))
    decreases |networks|
  {
    if networks != [] {
      var before := RecordSightings(inventory, networks[..|networks| - 1], at);
      SightingsConsistent(inventory, networks[..|networks| - 1], at);
      var last := networks[|networks| - 1];
      var entry := EntryOf(before, last.bssid, at);
      assert HistoryConsistent(entry);
      SightedConsistent(entry, last, at);
      var after := before[last.bssid := Sighted(entry, last, at)];
      forall b | b in after ensures HistoryConsistent(after[b]) && after[b].totalScans > 0 {
        if b != last.bssid {
          assert after[b] == before[b];
        }
      }
    }
  }

  /** `get_scan`'s search: the first stored scan with this id. */
  function FindScan(scans: seq<StoredScan>, id: string): (r: Option<StoredScan>)
    ensures r.None? <==> forall i :: 0 <= i < |scans| ==> scans[i].id != id
    ensures r.Some? ==> exists i :: 0 <= i < |scans| && scans[i] == r.value && r.value.id == id &&
                                    forall j :: 0 <= j < i ==> scans[j].id != id
  {
    if scans == [] then None
    else if scans[0].id == id then Some(scans[0])
    else
      var rest := FindScan(scans[1..], id);
      if rest.Some? then
        var i :| 0 <= i < |scans[1..]| && scans[1..][i] == rest.value && rest.value.id == id &&
                 forall j :: 0 <= j < i ==> scans[1..][j].id != id;
        assert scans[i + 1] == rest.value;
        rest
      else rest
  }

  /**
   * Storing a scan never changes what an existing id finds; a scan whose id is already taken
   * (two saves within the same second) can never be found by its id.
   */
  lemma {:induction false} AppendKeepsLookup(scans: seq<StoredScan>, s: StoredScan, id: string)
    ensures FindScan(scans + [s], id) ==
      if FindScan(scans, id).Some? then FindScan(scans, id) else if s.id == id then Some(s) else None
    decreases |scans|
  {
    if scans != [] {
      assert (scans + [s])[1..] == scans[1..] + [s];
      AppendKeepsLookup(scans[1..], s, id);
    }
  }

  /** `{net["bssid"]: net for net in networks}`: one entry per access point, holding one of its sightings. */
  function BssidIndex(networks: seq<WiFiNetwork>): (r: map<string, WiFiNetwork>)
    ensures r.Keys == Bssids(networks)
    ensures forall b :: b in r ==> r[b].bssid == b
  {
    if networks == [] then map[]
    else BssidIndex(networks[..|networks| - 1])[networks[|networks| - 1].bssid := networks[|networks| - 1]]
  }

  /** A later sighting of the same access point replaces an earlier one: the index holds the last. */
  lemma {:induction false} BssidIndexLast(networks: seq<WiFiNetwork>, i: nat)
    requires i < |networks| && forall j :: i < j < |networks| ==> networks[j].bssid != networks[i].bssid
    ensures BssidIndex(networks)[networks[i].bssid] == networks[i]
    decreases |networks|
  {
    if i < |networks| - 1 {
      BssidIndexLast(networks[..|networks| - 1], i);
    }
  }

  /** The fields `compare_scans` compares, in the order it reports them. */
  datatype Field = Ssid | Signal | EncryptionField | Channel

  /** The field differs between the two sightings. */
  predicate Differs(f: Field, a: WiFiNetwork, b: WiFiNetwork)
  {
    match f
    case Ssid => a.ssid != b.ssid
    case Signal => a.signalLevel != b.signalLevel
    case EncryptionField => a.encryption != b.encryption
    case Channel => a.channel != b.channel
  }

  /** A field's place in the report: name, signal, encryption, channel. */
  function ReportRank(f: Field): nat
  {
    match f
    case Ssid => 0
    case Signal => 1
    case EncryptionField => 2
    case Channel => 3
  }

  /** The fields that differ, in report order. */
  function ChangedFields(a: WiFiNetwork, b: WiFiNetwork): (r: seq<Field>)
    ensures forall f :: f in r <==> Differs(f, a, b)
    ensures forall i, j :: 0 <= i < j < |r| ==> ReportRank(r[i]) < ReportRank(r[j])
    ensures NoDuplicates(r)
  {
    (if Differs(Ssid, a, b) then [Ssid] else [])
    + (if Differs(Signal, a, b) then [Signal] else [])
    + (if Differs(EncryptionField, a, b) then [EncryptionField] else [])
    + (if Differs(Channel, a, b) then [Channel] else [])
  }

  const Arrow: string := " → "

  /** The report line for one changed field, old value first. */
  function ChangeLine(f: Field, a: WiFiNetwork, b: WiFiNetwork): (line: string)
    ensures |line| > 0
  {
    match f
    case Ssid => "SSID: " + a.ssid + Arrow + b.ssid
    case Signal => "Signal: " + IntToDecimal(a.signalLevel) + Arrow + IntToDecimal(b.signalLevel) + " dBm"
    case EncryptionField => "Encryption: " + EncryptionName(a.encryption) + Arrow + EncryptionName(b.encryption)
    case Channel => "Channel: " + IntToDecimal(a.channel) + Arrow + IntToDecimal(b.channel)
  }

  /** The label that opens a field's report line. */
  function FieldLabel(f: Field): string
  {
    match f
    case Ssid => "SSID: "
    case Signal => "Signal: "
    case EncryptionField => "Encryption: "
    case Channel => "Channel: "
  }

  /** How a report line shows the field's value in one sighting. */
  function FieldText(f: Field, n: WiFiNetwork): string
  {
    match f
    case Ssid => n.ssid
    case Signal => IntToDecimal(n.signalLevel)
    case EncryptionField => EncryptionName(n.encryption)
    case Channel => IntToDecimal(n.channel)
  }

  /** The unit a report line puts after the new value. */
  function FieldUnit(f: Field): string
  {
    if f == Signal then " dBm" else ""
  }

  /**
   * A report line is the field's label, the old value, the arrow and the new value (then the
   * unit), and the texts shown tell the two values apart exactly when the field changed.
   */
  lemma ChangeLineReadsBack(f: Field, a: WiFiNetwork, b: WiFiNetwork)
    ensures ChangeLine(f, a, b) == FieldLabel(f) + FieldText(f, a) + Arrow + FieldText(f, b) + FieldUnit(f)
    ensures StartsWith(ChangeLine(f, a, b), FieldLabel(f))
    ensures FieldText(f, a) != FieldText(f, b) <==> Differs(f, a, b)
  {
    var line := ChangeLine(f, a, b);
    assert line == FieldLabel(f) + (FieldText(f, a) + Arrow + FieldText(f, b) + FieldUnit(f));
    match f
    case Ssid =>
    case Signal =>
      SignedRoundTrip(a.signalLevel);
      SignedRoundTrip(b.signalLevel);
    case EncryptionField =>
    case Channel =>
      SignedRoundTrip(a.channel);
      SignedRoundTrip(b.channel);
  }

  /** The `changes` list of one access point. */
  function ChangeLines(a: WiFiNetwork, b: WiFiNetwork): (lines: seq<string>)
    ensures |lines| == |ChangedFields(a, b)|
    ensures forall i :: 0 <= i < |lines| ==> lines[i] == ChangeLine(ChangedFields(a, b)[i], a, b)
  {
    var fields := ChangedFields(a, b);
    seq(|fields|, i requires 0 <= i < |fields| => ChangeLine(fields[i], a, b))
  }

  /** An access point is reported as changed exactly when its name, signal, encryption or channel differs. */
  lemma ChangeLinesEmptyIff(a: WiFiNetwork, b: WiFiNetwork)
    ensures ChangeLines(a, b) == [] <==>
      a.ssid == b.ssid && a.signalLevel == b.signalLevel && a.encryption == b.encryption && a.channel == b.channel
  {
    if ChangeLines(a, b) == [] {
      assert ChangedFields(a, b) == [];
      assert Ssid !in ChangedFields(a, b) && Signal !in ChangedFields(a, b);
      assert EncryptionField !in ChangedFields(a, b) && Channel !in ChangedFields(a, b);
    }
  }

  /** Swapping the two sightings reports the same fields. */
  lemma ChangedFieldsSymmetric(a: WiFiNetwork, b: WiFiNetwork)
    ensures ChangedFields(a, b) == ChangedFields(b, a)
  {
  }

  /** The result of `compare_scans`; `changed_networks` is keyed by bssid. */
  datatype ScanDiff = ScanDiff(
    scan1: string,
    scan2: string,
    scan1Timestamp: Timestamp,
    scan2Timestamp: Timestamp,
    newNetworks: set<string>,
    disappearedNetworks: set<string>,
    changedNetworks: map<string, seq<string>>,
    totalNew: nat,
    totalDisappeared: nat,
    totalChanged: nat)

  /** The comparison of two stored scans, once both are found. */
  function Diff(id1: string, id2: string, s1: StoredScan, s2: StoredScan): (d: ScanDiff)
    ensures d.newNetworks == Bssids(s2.networks) - Bssids(s1.networks)
    ensures d.disappearedNetworks == Bssids(s1.networks) - Bssids(s2.networks)
    ensures d.changedNetworks.Keys <= Bssids(s1.networks) * Bssids(s2.networks)
    ensures forall b :: b in d.changedNetworks ==> d.changedNetworks[b] != []
    ensures forall b :: b in d.changedNetworks ==>
      d.changedNetworks[b] == ChangeLines(BssidIndex(s1.networks)[b], BssidIndex(s2.networks)[b])
    ensures forall b :: b in Bssids(s1.networks) * Bssids(s2.networks) ==>
      (b in d.changedNetworks <==> ChangeLines(BssidIndex(s1.networks)[b], BssidIndex(s2.networks)[b]) != [])
    ensures d.totalNew == |d.newNetworks| && d.totalDisappeared == |d.disappearedNetworks|
    ensures d.totalChanged == |d.changedNetworks|
    ensures d.scan1 == id1 && d.scan2 == id2 && d.scan1Timestamp == s1.timestamp && d.scan2Timestamp == s2.timestamp
  {
    var index1 := BssidIndex(s1.networks);
    var index2 := BssidIndex(s2.networks);
    var appeared := index2.Keys - index1.Keys;
    var gone := index1.Keys - index2.Keys;
    var changed := map b | b in index1.Keys * index2.Keys && ChangeLines(index1[b], index2[b]) != []
                         :: ChangeLines(index1[b], index2[b]);
    ScanDiff(id1, id2, s1.timestamp, s2.timestamp, appeared, gone, changed, |appeared|, |gone|, |changed|)
  }

  /** A common access point is reported as changed exactly when its last sightings in the two scans differ. */
  lemma DiffChangedIff(id1: string, id2: string, s1: StoredScan, s2: StoredScan, b: string)
    requires b in Bssids(s1.networks) && b in Bssids(s2.networks)
    ensures var a, c := BssidIndex(s1.networks)[b], BssidIndex(s2.networks)[b];
      b in Diff(id1, id2, s1, s2).changedNetworks <==>
        a.ssid != c.ssid || a.signalLevel != c.signalLevel || a.encryption != c.encryption || a.channel != c.channel
  {
    ChangeLinesEmptyIff(BssidIndex(s1.networks)[b], BssidIndex(s2.networks)[b]);
  }

  /** New, disappeared and common access points split the two scans' access points without overlap. */
  lemma DiffPartition(id1: string, id2: string, s1: StoredScan, s2: StoredScan)
    ensures var d := Diff(id1, id2, s1, s2);
      var common := Bssids(s1.networks) * Bssids(s2.networks);
      && d.newNetworks + d.disappearedNetworks + common == Bssids(s1.networks) + Bssids(s2.networks)
      && d.newNetworks * d.disappearedNetworks == {}
      && d.newNetworks * common == {} && d.disappearedNetworks * common == {}
  {
    ThreeWaySplit(Bssids(s1.networks), Bssids(s2.networks));
  }

  lemma ThreeWaySplit(first: set<string>, second: set<string>)
    ensures (second - first) + (first - second) + first * second == first + second
    ensures (second - first) * (first - second) == {}
    ensures (second - first) * (first * second) == {} && (first - second) * (first * second) == {}
  {
  }

  /** Comparing the other way round swaps new and disappeared and reports the same access points as changed. */
  lemma DiffSymmetric(id1: string, id2: string, s1: StoredScan, s2: StoredScan)
    ensures var d, e := Diff(id1, id2, s1, s2), Diff(id2, id1, s2, s1);
      && e.newNetworks == d.disappearedNetworks && e.disappearedNetworks == d.newNetworks
      && e.changedNetworks.Keys == d.changedNetworks.Keys
  {
    var d, e := Diff(id1, id2, s1, s2), Diff(id2, id1, s2, s1);
    forall b | b in d.changedNetworks.Keys || b in e.changedNetworks.Keys
      ensures b in d.changedNetworks.Keys <==> b in e.changedNetworks.Keys
    {
      DiffChangedIff(id1, id2, s1, s2, b);
      DiffChangedIff(id2, id1, s2, s1, b);
    }
  }

  /** A scan compared with itself reports nothing new, gone or changed. */
  lemma DiffWithItself(id: string, s: StoredScan)
    ensures var d := Diff(id, id, s, s);
      d.newNetworks == {} && d.disappearedNetworks == {} && d.changedNetworks == map[]
  {
    var d := Diff(id, id, s, s);
    forall b | b in d.changedNetworks ensures false {
      DiffChangedIff(id, id, s, s, b);
    }
  }

  /** The statistics mirror the scans and the inventory. */
  predicate StatisticsMirror(scans: seq<StoredScan>, inventory: map<string, NetworkHistory>, statistics: Statistics)
  {
    && statistics.totalScans == |scans|
    && statistics.uniqueNetworks == |inventory.Keys|
    && statistics.lastScanDate == (if scans == [] then None else Some(scans[|scans| - 1].timestamp))
  }

  /** The inventory holds exactly the access points of the stored scans, each with consistent histories. */
  predicate Coherent(scans: seq<StoredScan>, inventory: map<string, NetworkHistory>, statistics: Statistics)
  {
    && StatisticsMirror(scans, inventory, statistics)
    && inventory.Keys == AllBssids(scans)
    && AllConsistent(inventory)
  }

  /** Storing a scan, recording its sightings and refreshing the statistics keeps the database coherent. */
  lemma SaveKeepsCoherent(scans: seq<StoredScan>, inventory: map<string, NetworkHistory>, statistics: Statistics,
                          scan: StoredScan, scans': seq<StoredScan>, after: map<string, NetworkHistory>, counts: Statistics)
    requires Coherent(scans, inventory, statistics)
    requires scans' == scans + [scan] && after == RecordSightings(inventory, scan.networks, scan.timestamp)
    requires counts == Statistics(|scans| + 1, |after.Keys|, Some(scan.timestamp))
    ensures Coherent(scans', after, counts)
  {
    SightingsKeys(inventory, scan.networks, scan.timestamp);
    SightingsConsistent(inventory, scan.networks, scan.timestamp);
    assert (scans + [scan])[..|scans|] == scans;
  }

  /** Recording one more network of the scan applies its sighting to the inventory so far. */
  lemma RecordSightingsStep(inventory: map<string, NetworkHistory>, networks: seq<WiFiNetwork>, i: nat, at: Timestamp)
    requires i < |networks|
    ensures RecordSightings(inventory, networks[..i + 1], at) ==
      RecordSighting(RecordSightings(inventory, networks[..i], at), networks[i], at)
  {
    assert networks[..i + 1][..i] == networks[..i];
  }

  /**
   * The network loop of `save_scan`: each sighting updates (or creates) its access point's entry,
   * one after the other, and the result is what the specification `RecordSightings` gives.
   */
  method RecordNetworks(networks: map<string, NetworkHistory>, sighted: seq<WiFiNetwork>, at: Timestamp)
    returns (inventory: map<string, NetworkHistory>)
    ensures inventory == RecordSightings(networks, sighted, at)
  {
    inventory := networks;
    var i := 0;
    while i < |sighted|
      invariant 0 <= i <= |sighted|
      invariant inventory == RecordSightings(networks, sighted[..i], at)
    {
      inventory := RecordSighting(inventory, sighted[i], at);
      RecordSightingsStep(networks, sighted, i, at);
      i := i + 1;
    }
    assert sighted[..|sighted|] == sighted;
  }

  /** The error `compare_scans` raises when an id is not stored. */
  datatype CompareError = ScanNotFound

  /** `InventoryDB`: the in-memory database; reading and writing the JSON file is not modelled. */
  class InventoryDB {
    var version: string
    var createdAt: Timestamp
    var lastUpdated: Timestamp
    var scans: seq<StoredScan>
    var networks: map<string, NetworkHistory>
    var statistics: Statistics

    /** The inventory and its statistics agree with the stored scans. */
    predicate Valid()
      reads this
    {
      Coherent(scans, networks, statistics)
    }

    /** `_create_empty_db`; the creation time is a parameter instead of `datetime.utcnow()`. */
    constructor (now: Timestamp)
      ensures Valid()
      ensures version == "1.0" && createdAt == now && lastUpdated == now
      ensures scans == [] && networks == map[] && statistics == Statistics(0, 0, None)
    {
      version := "1.0";
      createdAt := now;
      lastUpdated := now;
      scans := [];
      networks := map[];
      statistics := Statistics(0, 0, None);
    }

    /**
     * `save_scan`: append the scan, record each of its networks, refresh the statistics. The
     * `%Y%m%d_%H%M%S` clock reading and the update time are parameters.
     */
    method SaveScan(scan: ScanResult, clock: string, now: Timestamp) returns (id: string)
      requires Valid()
      modifies this
      ensures Valid()
      ensures id == "scan_" + clock
      ensures scans == old(scans) + [StoredScan(id, scan.timestamp, scan.interface, scan.totalNetworks,
                                                scan.scanDuration, scan.networks)]
      ensures networks == RecordSightings(old(networks), scan.networks, scan.timestamp)
      ensures statistics == Statistics(|scans|, |networks.Keys|, Some(scan.timestamp))
      ensures version == old(version) && createdAt == old(createdAt) && lastUpdated == now
    {
      id := "scan_" + clock;
      var record := StoredScan(id, scan.timestamp, scan.interface, scan.totalNetworks, scan.scanDuration, scan.networks);
      var inventory := RecordNetworks(networks, record.networks, record.timestamp);
      var counts := Statistics(|scans| + 1, |inventory.Keys|, Some(record.timestamp));
      SaveKeepsCoherent(scans, networks, statistics, record, scans + [record], inventory, counts);
      scans, networks, statistics, lastUpdated := scans + [record], inventory, counts, now;
    }

    /** `get_scan`: the first stored scan with this id, if any. */
    method GetScan(id: string) returns (r: Option<StoredScan>)
      ensures r == FindScan(scans, id)
    {
      var i := 0;
      while i < |scans|
        invariant 0 <= i <= |scans|
        invariant FindScan(scans, id) == FindScan(scans[i..], id)
      {
        if scans[i].id == id {
          return Some(scans[i]);
        }
        assert scans[i..][1..] == scans[i + 1..];
        i := i + 1;
      }
      return None;
    }

    /** `get_all_scans`: one stored scan per `save_scan`, as many as the statistics count. */
    function GetAllScans(): (r: seq<StoredScan>)
      reads this
      ensures Valid() ==> |r| == statistics.totalScans
      ensures r == scans
    {
      scans
    }

    /** `get_network_history`: present exactly for the access points some stored scan has seen. */
    function GetNetworkHistory(bssid: string): (r: Option<NetworkHistory>)
      reads this
      ensures r.Some? <==> bssid in networks
      ensures r.Some? ==> r.value == networks[bssid]
      ensures Valid() ==> (r.Some? <==> bssid in AllBssids(scans))
      ensures Valid() && r.Some? ==> HistoryConsistent(r.value) && r.value.totalScans > 0
    {
      if bssid in networks then Some(networks[bssid]) else None
    }

    /** `get_statistics`: the counts of stored scans and of distinct access points. */
    function GetStatistics(): (r: Statistics)
      reads this
      ensures r == statistics
      ensures Valid() ==> r.totalScans == |scans| && r.uniqueNetworks == |AllBssids(scans)|
      ensures Valid() ==> r.lastScanDate == if scans == [] then None else Some(scans[|scans| - 1].timestamp)
    {
      statistics
    }

    /** `compare_scans`: fails when either id is not stored, otherwise compares the two scans. */
    method CompareScans(id1: string, id2: string) returns (r: Result<ScanDiff, CompareError>)
      ensures r.Err? <==> FindScan(scans, id1).None? || FindScan(scans, id2).None?
      ensures r.Ok? ==> r.value == Diff(id1, id2, FindScan(scans, id1).value, FindScan(scans, id2).value)
    {
      var scan1 := GetScan(id1);
      var scan2 := GetScan(id2);
      if scan1.None? || scan2.None? {
        return Err(ScanNotFound);
      }
      return Ok(Diff(id1, id2, scan1.value, scan2.value));
    }
  }
}
