# xwirless core in Dafny

xwirless is a Wi-Fi inventory tool. It runs `iwlist <interface> scan`, or reads saved scan
output, and parses the text into one record per access point (`WiFiNetwork`: bssid, ssid,
channel, frequency, signal level, quality, encryption, cipher, authentication, mode,
protocol). A `ScanResult` collects the records of one scan. The tool stores scans in a JSON
inventory that keeps a per-access-point history and can compare two stored scans. Before any
scan it asks the user to type a legal confirmation phrase, and it only accepts local or
internal targets.

This project models that core:

- `Text` (text.dfy) holds the Python string operations the core uses:
  - whitespace and `strip()`;
  - the substring test `in` and `startswith`;
  - decimal `int()` and `str()`;
  - `lower()`, as far as a prefix test can observe it.
- `Patterns` (patterns.dfy) gives each regular expression of the parser a hand-written
  scanner:
  - `Search` is `re.search(...).group(1)`: the leftmost matching position, then the capture
    made there.
  - `SplitOnMarkers` is `re.split` together with `re.findall` on `Cell \d+ - Address:`. It is
    proved to be the inverse of putting pieces and markers back together.
- `Parser` (parser.py) covers:
  - the record and its two validators;
  - the `ScanResult` class, whose constructor recomputes the network count;
  - `_split_cells`, as a loop method proved against `CellBlocks`;
  - `_parse_cell`, including its defaults and the priority order of its substring tests;
  - `parse_scan_output`, as a loop method proved against `ParseCells(CellBlocks(output))`.
- `Inventory` (db.py) covers:
  - the `InventoryDB` class: scans, the per-bssid `networks` map and the statistics;
  - `save_scan`, whose loop is proved against the `RecordSightings` specification;
  - the lookups;
  - `compare_scans`.

  The class invariant (`Coherent`) says three things:
  - the inventory holds exactly the access points of the stored scans;
  - every entry's histories agree (one signal sample per sighting, no repeated name or
    encryption);
  - the statistics mirror the scans and the inventory.
- `Utils` (utils.py) covers the signal and encryption labels and the interface-name check.
- `Safety` (safety.py) covers the confirmation-phrase comparison and the target check.

The model follows the code where code and documentation part ways:

- The MAC pattern's `$` also matches before a final newline, so the validator accepts an
  18-character text ending in `\n`.
- `WPA3` can never be reported (`EncryptionNeverWpa3`).
- When the text before the first `Cell` marker is not whitespace only, as in real `iwlist`
  output with its `Scan completed` header, `_split_cells` shifts each device's text onto the
  next marker and loses the last device's text (`NonBlankPreambleBlocks`,
  `HeaderShiftsDevices`).
- The target check compares only the leading characters of the first field. `100.0.0.0/8` and
  `172.99.0.0/16` are accepted (`LookalikeRangesAccepted`), as the code's own "simple CIDR
  check" comment says. A bare private address without `/` is refused.

## Model

| member | source | states |
|---|---|---|
| Text.StripEmptyIffBlank | xwirless/parser.py:93 | `strip()` gives the empty text exactly when the text is whitespace only, the test `_split_cells` uses to drop a blank preamble |
| Text.StripFrame | xwirless/safety.py:54 | `strip()` removes exactly the surrounding whitespace of a text whose ends are not whitespace |
| Text.StripShape | xwirless/safety.py:54 | every text is its stripped form framed by two whitespace-only texts |
| Text.ContainsWithin | xwirless/parser.py:139-159 | a text contains whatever one of its middle parts contains (the `in` tests of `_parse_cell`) |
| Text.ContainsTransitive | xwirless/parser.py:139-147 | a text holding `t` holds every substring of `t` |
| Text.NatToDecimal | xwirless/db.py:158-159 | `str(n)` is a non-empty digit string without leading zeros |
| Text.DecimalRoundTrip | xwirless/parser.py:120-121 | `int(str(n)) == n` for every natural number |
| Text.SignedRoundTrip | xwirless/parser.py:127-128 | `int(str(i)) == i` for every integer, and `str(i)` has the shape `-?\d+` |
| Patterns.DigitRun | xwirless/parser.py:120 | a greedy `\d+` consumes a digit run that ends at the end of the text or before a non-digit |
| Patterns.DigitRunExact | xwirless/parser.py:120 | a digit run that ends before a non-digit is exactly what the greedy scan consumes |
| Patterns.QuoteIndex | xwirless/parser.py:116 | `[^"]*"` stops at the first double quote and skips none |
| Patterns.MatchAt | xwirless/parser.py:110-162 | a capture at a position has the shape of its pattern's group: 17 MAC characters, a quote-free name, `\d+`, `\d+\.\d+`, `-?\d+`, `\d+/\d+` or `IEEE 802.11[a-z]*` |
| Patterns.FirstMatch | xwirless/parser.py:110 | `re.search` takes the leftmost position where the pattern matches; none before it matches |
| Patterns.Search | xwirless/parser.py:110-162 | a captured group always has its pattern's group shape, as listed for `MatchAt` |
| Patterns.FirstMatchAt | xwirless/parser.py:110 | the match is at `k` when nothing matches before `k` and something matches at `k` |
| Patterns.MarkerAt | xwirless/parser.py:89 | a marker reported at a position is a text matched by `Cell \d+ - Address:` |
| Patterns.MarkerAtComplete | xwirless/parser.py:89 | every marker starting at a position is the one the scan reports |
| Patterns.MarkerFromDigits | xwirless/parser.py:89 | `Cell <digits> - Address:` is a marker for any non-empty digit string |
| Patterns.SplitOnMarkers | xwirless/parser.py:90-98 | there is one more piece than there are markers |
| Patterns.SplitSound | xwirless/parser.py:90-98 | splitting loses nothing: the pieces and markers interleaved give back the text; every marker is a marker and no piece holds one |
| Patterns.SplitRoundTrip | xwirless/parser.py:90-98 | splitting is the inverse of interleaving marker-free pieces with markers |
| Patterns.LeadingMarkerSplit | xwirless/parser.py:90-98 | a text that opens with a marker splits into an empty piece, that marker, and the split of the rest |
| Patterns.MatchStartsWithToken | xwirless/parser.py:110-162 | every pattern except the frequency one matches only where its literal text (`Address: `, `ESSID:"`, `Channel `, `Signal level=`, `Quality=`, `Protocol:IEEE 802.11`) occurs |
| Patterns.FreeCannotStart | xwirless/parser.py:110-162 | text without a token's first character holds no start of the token |
| Patterns.ConcatCannotStart | xwirless/parser.py:110-162 | two texts holding no start of a token hold none when put together |
| Patterns.NoMatchBefore | xwirless/parser.py:110-162 | no match of a pattern starts inside a text that holds no start of the pattern's token |
| Patterns.SearchAfter | xwirless/parser.py:110-162 | `re.search` over `x + y` finds the match at the end of `x` when `x` holds no start of the token and the pattern matches there |
| Patterns.EssidMatch | xwirless/parser.py:116-117 | `ESSID:"<name>"` captures the name when the name holds no quote |
| Patterns.ChannelMatch | xwirless/parser.py:120-121 | `Channel <digits>` followed by a non-digit captures exactly the digits |
| Patterns.NegativeSignalAt | xwirless/parser.py:127-128 | the signal pattern captures the minus sign and the digit run between the label and ` dBm` |
| Patterns.NegativeSignalMatch | xwirless/parser.py:127-128 | `Signal level=-<digits> dBm` captures `-<digits>` |
| Patterns.AddressAfterMarker | xwirless/parser.py:110 | in a block that opens with a marker, a space and 17 MAC characters, those characters are the captured address |
| Parser.ValidateBssid | xwirless/parser.py:28-34 | the validator accepts exactly the MAC syntax (including a final newline allowed by `$`), and what it returns is the input with each lower-case letter upper-cased and each '-' turned into ':' (one character for one, since the accepted text is ASCII), hence canonical (upper case, ':' only) |
| Parser.BssidIdempotent | xwirless/parser.py:28-34 | validating a validated bssid returns it unchanged |
| Parser.BssidFixpoints | xwirless/parser.py:28-34 | the validator returns its input unchanged exactly when the input is already canonical |
| Parser.ValidateSignalLevel | xwirless/parser.py:36-41 | every level is kept; it is flagged as unusual exactly when it is below -100 or above 0 |
| Parser.NewWiFiNetwork | xwirless/parser.py:13-41 | building a record succeeds exactly when the bssid has MAC syntax; the stored bssid is the validator's canonical form of the given one, the signal level is kept, and every other field is stored as given |
| Parser.ScanResult.constructor | xwirless/parser.py:43-54 | whatever count is passed, `total_networks` equals the number of networks; the other fields are kept |
| Parser.PairUp | xwirless/parser.py:100-102 | block i is address i followed by content i, one block per address |
| Parser.SplitCells | xwirless/parser.py:86-104 | the loop returns exactly `CellBlocks(output)` |
| Parser.Reconstruct | xwirless/parser.py:96-104 | the loop glues address i to content i for every index both lists have, one block per address at most |
| Parser.InterleaveAsBlocks | xwirless/parser.py:90-102 | the text is its first piece followed by each marker glued to the piece after it |
| Parser.InterleaveLength | xwirless/parser.py:90-102 | gluing each marker to the piece at its own index covers all of the text except the last piece |
| Parser.MarkerShowsInText | xwirless/parser.py:98 | a split with a marker comes from a text that contains one |
| Parser.NoMarkerNoBlocks | xwirless/parser.py:86-104 | text without a `Cell N - Address:` marker yields no block |
| Parser.BlockCountIsMarkerCount | xwirless/parser.py:98-103 | there is exactly one block per marker found by `findall` |
| Parser.BlankPreambleBlocks | xwirless/parser.py:92-103 | with a whitespace-only preamble, block i is marker i plus the text up to the next marker, and the blocks put together give back the text after the preamble |
| Parser.NonBlankPreambleBlocks | xwirless/parser.py:92-103 | with any other preamble, block i is marker i plus piece i (the preamble for i = 0), and the blocks cover all of the text except what follows the last marker |
| Parser.HeaderShiftsDevices | xwirless/parser.py:86-104 | for a header followed by devices, marker 0 gets the header and marker i gets device i-1, so the last device is in no block |
| Parser.BlankHeaderKeepsDevices | xwirless/parser.py:86-104 | for a blank preamble followed by devices, every marker keeps its own device |
| Parser.ParseCell | xwirless/parser.py:106-181 | a block is skipped exactly when it has no `Address: ` capture or the captured text fails the bssid validator |
| Parser.ParsedBssidCanonical | xwirless/parser.py:109-113 | a parsed bssid is the canonical form of the first address in the block: 17 characters, upper case, ':' only |
| Parser.EncryptionNeverWpa3 | xwirless/parser.py:139-147 | `WPA3` is never reported, since a block containing `WPA3` contains `WPA`, which is tested first |
| Parser.EncryptionPriority | xwirless/parser.py:134-147 | for each of WPA2, WPA, WEP and Open: the encryption is that value exactly when the key is on and the tokens tested earlier are absent (Open: key off or no token) |
| Parser.KeyOffMeansOpen | xwirless/parser.py:134-159 | without `Encryption key:on` a record is Open with no cipher and no authentication |
| Parser.Wpa2CcmpPsk | xwirless/parser.py:139-159 | a block with the key on that mentions WPA2, CCMP and PSK is reported as WPA2, CCMP, PSK |
| Parser.ParseCellDefaults | xwirless/parser.py:115-177 | each missing field gets its default (Hidden, 0, 0.0, -100, 0/70, IEEE 802.11); the mode is always Master |
| Parser.SsidFromQuotes | xwirless/parser.py:115-117 | the name is Hidden only when there is no quoted ESSID or the name is literally Hidden; an empty quoted name stays empty; a name never contains a quote |
| Parser.SignalKeptAsWritten | xwirless/parser.py:126-128 | a written signal level is kept as `int()` reads it, even outside -100..0; the channel is never negative |
| Parser.ParseCells | xwirless/parser.py:69-76 | a list of blocks never gives more records than blocks |
| Parser.ParseCellsStep | xwirless/parser.py:69-76 | parsing one more block appends what that block gives, if anything |
| Parser.ParseCellsAppend | xwirless/parser.py:69-76 | what one block gives does not depend on its neighbours: parsing distributes over concatenation |
| Parser.ParseOneCell | xwirless/parser.py:70-73 | one block gives its record or nothing |
| Parser.BadBlockSkipped | xwirless/parser.py:69-76 | a failing block is skipped and every other record still appears, in block order |
| Parser.GoodBlockKept | xwirless/parser.py:69-76 | a block that parses gives exactly its record, between its neighbours' records |
| Parser.ParseScanOutput | xwirless/parser.py:62-84 | the result holds exactly `ParseCells(CellBlocks(output))`, its count matches, and it carries the interface and capture time |
| Parser.NoMarkerNoNetworks | xwirless/parser.py:62-84 | output without a device marker parses to an empty network list |
| Parser.FieldLinesContain | xwirless/scanner.py:122-135 | indented field lines contain whatever one field contains |
| Parser.DeviceBlockContains | xwirless/scanner.py:122-135 | a device block contains whatever one of its fields contains |
| Parser.DeviceBlockParses | xwirless/parser.py:106-177 | a block with a numbered marker and a well-formed address parses, with the canonical address and the detected encryption, cipher and authentication |
| Parser.DryRunMacCanonical | xwirless/scanner.py:122 | the dry-run address is well formed and already canonical |
| Parser.DryRunMentionsKey | xwirless/scanner.py:127 | the first dry-run device has its key on |
| Parser.DryRunMentionsWpa2 | xwirless/scanner.py:130 | the first dry-run device mentions WPA2 |
| Parser.DryRunMentionsCcmp | xwirless/scanner.py:131 | the first dry-run device mentions CCMP |
| Parser.DryRunMentionsPsk | xwirless/scanner.py:133 | the first dry-run device mentions PSK |
| Parser.DryRunMentions | xwirless/scanner.py:121-135 | the first dry-run device mentions the key, WPA2, CCMP and PSK |
| Parser.FieldLinesSplit | xwirless/scanner.py:122-135 | the field lines of a device split at any field |
| Parser.FieldLinesCannotStart | xwirless/scanner.py:122-135 | field lines hold no start of a token that none of their fields holds and whose first character is no space or newline |
| Parser.DeviceBlockAround | xwirless/scanner.py:122-135 | a device block is what precedes the tail of field k, that tail, and what follows field k |
| Parser.BlockBeforeCannotStart | xwirless/scanner.py:122-135 | what precedes the tail of field k holds no start of a token when the marker line, the earlier fields and the head of field k hold none |
| Parser.HeadCannotStart | xwirless/scanner.py:122 | the marker-and-address line holds no start of a token whose first character is in neither the number nor the address |
| Parser.DeviceBlockSearch | xwirless/parser.py:110-131 | `re.search` over a device block finds a pattern in field k when nothing before it can start the pattern's token |
| Parser.DeviceBlockEssid | xwirless/parser.py:116-117 | a device whose first field is `ESSID:"<name>"` is named `name` |
| Parser.DeviceBlockChannel | xwirless/parser.py:120-121 | a device with `Channel <digits>` in field k and no `Ch` start before it is on that channel |
| Parser.DeviceBlockSignal | xwirless/parser.py:127-128 | a device with `Signal level=-<digits> dBm` in field k and no `Si` start before it reports that level |
| Parser.ParsedFromSearches | xwirless/parser.py:115-128 | a parsed block takes its name, its channel (`int()` of the digits) and its signal level (`int()` of the signed digits) from the first matches of their patterns |
| Parser.DryRunEssid | xwirless/scanner.py:122-123 | the first dry-run device's name is TestNetwork1 |
| Parser.DryRunChannel | xwirless/scanner.py:126 | the first dry-run device's channel is the 6 of its frequency line |
| Parser.DryRunSignal | xwirless/scanner.py:134 | the first dry-run device's signal level is the -30 of its quality line |
| Parser.DryRunBlockSecurity | xwirless/scanner.py:121-135 | the first dry-run device parses to 00:11:22:33:44:55 with WPA2, CCMP and PSK |
| Parser.DryRunBlockParses | xwirless/scanner.py:121-135 | the first dry-run device parses to 00:11:22:33:44:55, named TestNetwork1, on channel 6 at -30 dBm, with WPA2, CCMP and PSK |
| Inventory.AppendIfAbsentFacts | xwirless/db.py:84-85 | appending only when absent extends the list by at most one, keeps its prefix, makes the element present and keeps the list free of repeats |
| Inventory.Bssids | xwirless/db.py:142-143 | the set holds exactly the bssids of the list |
| Inventory.SightingsOf | xwirless/db.py:66-67 | a network is among the sightings of a bssid exactly when it is in the list and carries that bssid; there are none exactly when the list does not mention it |
| Inventory.PositionsStep | xwirless/db.py:66-67 | one more network adds its position to the sighting positions exactly when it carries the bssid |
| Inventory.SightingsCount | xwirless/db.py:66-67 | no sighting is dropped: there are as many as there are positions of the list that hold the bssid |
| Inventory.RecordCountsEverySighting | xwirless/db.py:66-92 | recording a scan raises an access point's `total_scans` by the number of its sightings in the scan, so two sightings add two |
| Inventory.SightingsKeys | xwirless/db.py:66-76 | recording a scan adds exactly the scan's access points to the inventory's keys |
| Inventory.SightingsEntry | xwirless/db.py:66-96 | each entry ends up as its old (or fresh) entry with exactly the scan's sightings of that access point applied, in order; other entries are untouched |
| Inventory.ReplayCounts | xwirless/db.py:70-92 | sightings add one to `total_scans` and one signal sample each, keep `first_seen`, and set `last_seen` to the scan time |
| Inventory.ReplayExtends | xwirless/db.py:83-96 | the name and encryption histories are only ever appended to |
| Inventory.ReplayNames | xwirless/db.py:83-85 | a name is in the history exactly when it was there before or some sighting carries it |
| Inventory.ReplayEncryptions | xwirless/db.py:94-96 | an encryption is in the history exactly when it was there before or some sighting carries it |
| Inventory.SightedConsistent | xwirless/db.py:78-96 | one sighting keeps an entry's histories consistent and leaves it with at least one sighting |
| Inventory.SightingsConsistent | xwirless/db.py:66-96 | recording a scan keeps every entry of the inventory consistent |
| Inventory.FindScan | xwirless/db.py:110-115 | the lookup finds nothing exactly when no scan has the id; otherwise it finds the first scan with that id |
| Inventory.AppendKeepsLookup | xwirless/db.py:51-63 | storing a scan never changes what an existing id finds; a second scan stored under a taken id (two saves in one second) can never be found |
| Inventory.BssidIndex | xwirless/db.py:138-139 | the index has exactly the scan's bssids as keys, each mapped to a sighting of itself |
| Inventory.BssidIndexLast | xwirless/db.py:138-139 | when a bssid repeats within a scan, its last sighting wins |
| Inventory.ChangedFields | xwirless/db.py:155-163 | a field is reported exactly when it differs, each field at most once, in the order SSID, signal, encryption, channel |
| Inventory.ChangeLine | xwirless/db.py:156-163 | every change line is non-empty; its layout is stated by `ChangeLineReadsBack` |
| Inventory.ChangeLineReadsBack | xwirless/db.py:156-163 | a change line is the field's label, the old value, ` → `, the new value and (for the signal) ` dBm`; the two values shown differ exactly when the field changed, since `str()` of a number reads back as that number |
| Inventory.ChangeLines | xwirless/db.py:155-163 | line i is the change line of the i-th differing field, one line per differing field |
| Inventory.ChangeLinesEmptyIff | xwirless/db.py:155-169 | an access point has no change lines exactly when its ssid, signal, encryption and channel are all equal |
| Inventory.ChangedFieldsSymmetric | xwirless/db.py:155-163 | swapping the two sightings reports the same fields |
| Inventory.Diff | xwirless/db.py:137-184 | new = second minus first, disappeared = first minus second; a common access point is in the changed map exactly when its last sightings give change lines, and then maps to those lines; the totals are the sizes; the ids and timestamps are those of the two scans |
| Inventory.DiffChangedIff | xwirless/db.py:150-169 | a common access point is reported as changed exactly when its ssid, signal, encryption or channel differs between its last sightings |
| Inventory.DiffPartition | xwirless/db.py:145-147 | new, disappeared and common access points are disjoint and together cover both scans |
| Inventory.DiffSymmetric | xwirless/db.py:142-169 | comparing the other way round swaps new and disappeared and reports the same access points as changed |
| Inventory.DiffWithItself | xwirless/db.py:142-169 | a scan compared with itself reports nothing new, gone or changed |
| Inventory.SaveKeepsCoherent | xwirless/db.py:49-102 | appending a scan, recording its sightings and refreshing the statistics keeps the database coherent |
| Inventory.InventoryDB.constructor | xwirless/db.py:34-47 | a new database is version 1.0, with no scans, no networks and zero statistics, and is coherent |
| Inventory.InventoryDB.SaveScan | xwirless/db.py:49-108 | the scan is appended under `scan_<clock>`, its sightings are recorded, the statistics count the scans and access points and date the last scan, and the database stays coherent |
| Inventory.RecordSightingsStep | xwirless/db.py:66-96 | recording one more network of the scan applies that network's sighting to the inventory recorded so far |
| Inventory.RecordNetworks | xwirless/db.py:66-96 | the loop over the scan's networks returns `RecordSightings` of the given inventory |
| Inventory.InventoryDB.GetScan | xwirless/db.py:110-115 | the loop returns the first stored scan with the id, or nothing |
| Inventory.InventoryDB.GetAllScans | xwirless/db.py:117-119 | returns the stored scans, as many as the statistics count |
| Inventory.InventoryDB.GetNetworkHistory | xwirless/db.py:121-123 | the history returned is the stored entry; one exists exactly for the access points some stored scan has seen, and it is consistent with at least one sighting |
| Inventory.InventoryDB.GetStatistics | xwirless/db.py:125-127 | returns the stored statistics, which count the stored scans and the distinct access points seen and date the last stored scan |
| Inventory.InventoryDB.CompareScans | xwirless/db.py:129-184 | fails exactly when either id is not stored; otherwise returns the comparison of the first scans with those ids |
| Utils.SignalBand | xwirless/utils.py:58-67 | Excellent exactly from -30 up, Good from -50 to below -30, Fair from -70 to below -50, Poor below -70 |
| Utils.FormatSignalLevel | xwirless/utils.py:58-67 | the icon is the one of the level's band |
| Utils.SignalBandMonotone | xwirless/utils.py:58-67 | a stronger signal never gets a worse band |
| Utils.SignalLabelReadsBack | xwirless/utils.py:58-67 | the label text starts with the level as `int()` reads it back, followed by ` dBm (` and the band's name |
| Utils.BandsDistinguishable | xwirless/utils.py:58-67 | distinct bands print distinct icons and distinct names |
| Utils.FormatEncryption | xwirless/utils.py:69-79 | the text is the name passed in; the icon is a question mark exactly for a name not in the table |
| Utils.EncryptionIconsCoverParser | xwirless/utils.py:69-79 | every encryption the parser can report has its own entry: Open and WEP have their own icons, and the three WPA generations share one |
| Utils.ValidateInterface | xwirless/utils.py:81-88 | an accepted name is non-empty |
| Utils.InterfacePrefixesReduce | xwirless/utils.py:87-88 | the check is a test for one of four prefixes (`wl`, `wifi`, `eth`, `en`) of the lower-case name |
| Utils.LowerAppend | xwirless/utils.py:88 | lower-casing distributes over concatenation |
| Utils.LowerIdempotent | xwirless/utils.py:88 | lower-casing twice is lower-casing once |
| Utils.InterfaceCaseInsensitive | xwirless/utils.py:88 | a name and its lower-case form are accepted alike |
| Utils.EmptyInterfaceRejected | xwirless/utils.py:83-84 | the empty name is rejected |
| Utils.WirelessNamesAccepted | xwirless/utils.py:87-88 | `wlan0` and `WLAN0` are accepted |
| Utils.WiredNamesAccepted | xwirless/utils.py:87-88 | `eth0` and `enp3s0` are accepted |
| Utils.LoopbackRejected | xwirless/utils.py:87-88 | `lo` is rejected |
| Safety.SurroundingWhitespaceAccepted | xwirless/safety.py:44-57 | the phrase with any whitespace around it is accepted |
| Safety.ConfirmedShape | xwirless/safety.py:54-61 | an accepted answer is the phrase with only whitespace around it |
| Safety.StripKeepsLength | xwirless/safety.py:54 | a `strip()` that removes nothing returns the text itself |
| Safety.LowerCaseRefused | xwirless/safety.py:44-61 | the comparison is case-sensitive: an answer of the phrase's length starting with a lower-case `i` is refused |
| Safety.BeforeFirst | xwirless/safety.py:76 | `split(c)[0]` is the prefix before the first `c`, or the whole text when there is none |
| Safety.RangeFirstFields | xwirless/safety.py:68-79 | the prefixes actually compared are 10, 172, 192 and 169 |
| Safety.BeforeFirstAt | xwirless/safety.py:76 | when the separator first occurs at index k, `split(c)[0]` is the first k characters |
| Safety.ValidateTargetIff | xwirless/safety.py:63-82 | a target is accepted exactly when it is a local host name, or it contains `/` and the text before the first `/` starts with 10, 172, 192 or 169 |
| Safety.NoSlashOnlyLocalHosts | xwirless/safety.py:65-82 | without `/`, only localhost, 127.0.0.1 and ::1 pass |
| Safety.BareAddressRefused | xwirless/safety.py:65-82 | a bare private address such as 192.168.1.1 is refused |
| Safety.BeforeFirstOf | xwirless/safety.py:76 | the text before the first `/` of `network/rest` is `network` when the network holds no `/` |
| Safety.BlockAccepted | xwirless/safety.py:75-78 | a block `network/length` is accepted when the network starts with a listed first field |
| Safety.InternalRangeAccepted | xwirless/safety.py:68-78 | the listed range 192.168.0.0/16 is accepted |
| Safety.LookalikeRangesAccepted | xwirless/safety.py:75-78 | public blocks that start like an internal one (100.0.0.0/8 and 172.99.0.0/16) are accepted too |
| Safety.BlockRefused | xwirless/safety.py:63-82 | a block `network/length` whose network starts with none of 10, 172, 192 and 169 is refused |
| Safety.PublicRangeRefused | xwirless/safety.py:63-82 | a public block such as 8.8.8.0/24 is refused |

## Left out

- Reading `iwlist` output (the scanner), the JSON file load and save of `InventoryDB`, logging, and printing the warning and reading the answer line are I/O and are not modelled. The scan output, the typed answer and the target are parameters.
- Clocks are parameters:
  - `datetime.utcnow()` becomes the `now` of `ParseScanOutput`, `InventoryDB.constructor` and `SaveScan`;
  - the `%Y%m%d_%H%M%S` reading that names a scan becomes the `clock` of `SaveScan`.
- Timestamps are kept as their `isoformat()` text. `ScanResult.timestamp` is modelled as that text, not as a `datetime`.
- Floats (`frequency`, `scan_duration`) are kept as their text. `float()` normalisation of the captured text (for example dropping trailing zeros) is not modelled.
- `\d` is modelled as ASCII digits only. Python also accepts other Unicode decimal digits.
- `Utils.ValidateInterface`: `lower()` is modelled only as far as an ASCII prefix test can observe it (A-Z, U+0130, U+212A).
- The encryption field is modelled as an enumeration of five values (Open, WEP, WPA, WPA2, WPA3), though the record declares it as any text. The parser produces only four of them, since it never reports WPA3. `FormatEncryption` still takes any text.
- The emoji of the display helpers are abstract icons. Their exact characters are not reproduced.
- `compare_scans` returns its new and disappeared lists in set order, and its changed list in set-iteration order. The model keeps them as sets and as a map keyed by bssid, so the order of those lists is not modelled.
- Stored scans and histories are values. Aliasing of the dictionaries returned by `get_scan`, `get_all_scans` and `get_network_history` (a caller mutating the database through them) is not modelled.
- A write that fails after `save_scan` has updated memory leaves the in-memory database updated. The model has no failure path for it.
- `Inventory.RecordNetworks` is the loop of `save_scan` written as a helper method. It has no counterpart of its own in the source.
- Only the first device of the scanner's dry-run output is proved to parse. Splitting the whole dry-run text is not proved on the literal; the general splitting lemmas cover it.
- `_parse_cell`'s exception handler is modelled for the one exception the body can raise: the bssid validator rejecting the capture.
- The other `SafetyValidator` checks (dry-run and sandbox notices) and the remaining helpers of utils.py (timestamp formatting, sample files) only print or read files, and are not part of this model.
