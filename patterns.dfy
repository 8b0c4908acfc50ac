/**
 * Hand-written scanners for the regular expressions of xwirless/parser.py. Each pattern is
 * anchored on a literal token, so a match at a position is decided by a few local tests;
 * `Search` is `re.search` (the leftmost position that matches, and the group captured there)
 * and `SplitOnMarkers` is `re.split` together with `re.findall` on `Cell \d+ - Address:`.
 */
module Patterns {
  import opened Wrappers
  import opened Text

  /** Length of the run of decimal digits starting at `i` (what a greedy `\d*` consumes). */
  function DigitRun(s: string, i: nat): (n: nat)
    requires i <= |s|
    ensures i + n <= |s| && AllDigits(s[i..i + n])
    ensures i + n == |s| || !IsDigit(s[i + n])
    decreases |s| - i
  {
    if i < |s| && IsDigit(s[i]) then
      var m := DigitRun(s, i + 1);
      assert s[i..i + 1 + m] == [s[i]] + s[i + 1..i + 1 + m];
      1 + m
    else 0
  }

  /** A run of digits that ends before a non-digit is exactly what the greedy scan consumes. */
  lemma {:induction false} DigitRunExact(s: string, i: nat, n: nat)
    requires i + n <= |s| && AllDigits(s[i..i + n])
    requires i + n == |s| || !IsDigit(s[i + n])
    ensures DigitRun(s, i) == n
    decreases n
  {
    if n > 0 {
      assert IsDigit(s[i..i + n][0]);
      assert s[i + 1..i + n] == s[i..i + n][1..];
      DigitRunExact(s, i + 1, n - 1);
    }
  }

  predicate IsLowerLetter(c: char)
  {
    'a' <= c <= 'z'
  }

  /** Length of the run of ASCII lower-case letters starting at `i` (a greedy `[a-z]*`). */
  function LowerRun(s: string, i: nat): (n: nat)
    requires i <= |s|
    ensures i + n <= |s| && forall k :: i <= k < i + n ==> IsLowerLetter(s[k])
    ensures i + n == |s| || !IsLowerLetter(s[i + n])
    decreases |s| - i
  {
    if i < |s| && IsLowerLetter(s[i]) then 1 + LowerRun(s, i + 1) else 0
  }

  /** A character of the class `[0-9A-Fa-f]`. */
  predicate IsHexDigit(c: char)
  {
    '0' <= c <= '9' || 'a' <= c <= 'f' || 'A' <= c <= 'F'
  }

  /** A character of the class `[0-9A-Fa-f:]`. */
  predicate IsMacChar(c: char)
  {
    IsHexDigit(c) || c == ':'
  }

  predicate AllMacChars(s: string)
  {
    forall k :: 0 <= k < |s| ==> IsMacChar(s[k])
  }

  /** Index of the first double quote at or after `i`. */
  function QuoteIndex(s: string, i: nat): (r: Option<nat>)
    requires i <= |s|
    ensures r.Some? ==> i <= r.value < |s| && s[r.value] == '"'
    ensures r.Some? ==> forall k :: i <= k < r.value ==> s[k] != '"'
    ensures r.None? ==> forall k :: i <= k < |s| ==> s[k] != '"'
    decreases |s| - i
  {
    if i == |s| then None else if s[i] == '"' then Some(i) else QuoteIndex(s, i + 1)
  }

  /** The seven field patterns of `_parse_cell`. */
  datatype Pattern =
    | Address    // Address: ([0-9A-Fa-f:]{17})
    | Essid      // ESSID:"([^"]*)"
    | Channel    // Channel (\d+)
    | Frequency  // (\d+\.\d+) GHz
    | SignalLevel // Signal level=(-?\d+) dBm
    | Quality    // Quality=(\d+/\d+)
    | Protocol   // Protocol:(IEEE 802\.11[a-z]*)

  /** Text matched by `-?\d+`. */
  predicate IsSignedDigits(c: string)
  {
    c != [] && (AllDigits(c) || (c[0] == '-' && |c| >= 2 && AllDigits(c[1..])))
  }

  /** Text matched by `\d+<sep>\d+`: two non-empty digit runs around one separator. */
  predicate IsDigitsAround(c: string, sep: char)
  {
    exists a :: 0 < a < |c| - 1 && c[a] == sep && AllDigits(c[..a]) && AllDigits(c[a + 1..])
  }

  /** What the group of each pattern can capture. */
  predicate CaptureShape(p: Pattern, c: string)
  {
    match p
    case Address => |c| == 17 && AllMacChars(c)
    case Essid => forall k :: 0 <= k < |c| ==> c[k] != '"'
    case Channel => c != [] && AllDigits(c)
    case Frequency => IsDigitsAround(c, '.')
    case SignalLevel => IsSignedDigits(c)
    case Quality => IsDigitsAround(c, '/')
    case Protocol => StartsWith(c, "IEEE 802.11") && forall k :: 11 <= k < |c| ==> IsLowerLetter(c[k])
  }

  function AddressAt(s: string, i: nat): (r: Option<string>)
    requires i <= |s|
    ensures r.Some? ==> CaptureShape(Address, r.value)
  {
    if OccursAt(s, "Address: ", i) && i + 26 <= |s| && AllMacChars(s[i + 9..i + 26])
    then Some(s[i + 9..i + 26]) else None
  }

  function EssidAt(s: string, i: nat): (r: Option<string>)
    requires i <= |s|
    ensures r.Some? ==> CaptureShape(Essid, r.value)
  {
    if OccursAt(s, "ESSID:\"", i) then
      match QuoteIndex(s, i + 7)
      case Some(j) => Some(s[i + 7..j])
      case None => None
    else None
  }

  function ChannelAt(s: string, i: nat): (r: Option<string>)
    requires i <= |s|
    ensures r.Some? ==> CaptureShape(Channel, r.value)
  {
    if OccursAt(s, "Channel ", i) && DigitRun(s, i + 8) > 0
    then Some(s[i + 8..i + 8 + DigitRun(s, i + 8)]) else None
  }

  function FrequencyAt(s: string, i: nat): (r: Option<string>)
    requires i <= |s|
    ensures r.Some? ==> CaptureShape(Frequency, r.value)
  {
    var a := DigitRun(s, i);
    if a > 0 && i + a < |s| && s[i + a] == '.' then
      var b := DigitRun(s, i + a + 1);
      if b > 0 && OccursAt(s, " GHz", i + a + 1 + b) then
        var c := s[i..i + a + 1 + b];
        assert c[..a] == s[i..i + a] && c[a + 1..] == s[i + a + 1..i + a + 1 + b];
        Some(c)
      else None
    else None
  }

  function SignalLevelAt(s: string, i: nat): (r: Option<string>)
    requires i <= |s|
    ensures r.Some? ==> CaptureShape(SignalLevel, r.value)
  {
    if OccursAt(s, "Signal level=", i) then
      var j := i + 13;
      // `-?` takes the minus sign when there is one; without it `\d+` cannot start on '-'.
      var sign := if j < |s| && s[j] == '-' then 1 else 0;
      var n := DigitRun(s, j + sign);
      if n > 0 && OccursAt(s, " dBm", j + sign + n) then
        var c := s[j..j + sign + n];
        assert sign == 1 ==> c[1..] == s[j + 1..j + 1 + n];
        Some(c)
      else None
    else None
  }

  function QualityAt(s: string, i: nat): (r: Option<string>)
    requires i <= |s|
    ensures r.Some? ==> CaptureShape(Quality, r.value)
  {
    if OccursAt(s, "Quality=", i) then
      var j := i + 8;
      var a := DigitRun(s, j);
      if a > 0 && j + a < |s| && s[j + a] == '/' then
        var b := DigitRun(s, j + a + 1);
        if b > 0 then
          var c := s[j..j + a + 1 + b];
          assert c[..a] == s[j..j + a] && c[a + 1..] == s[j + a + 1..j + a + 1 + b];
          Some(c)
        else None
      else None
    else None
  }

  function ProtocolAt(s: string, i: nat): (r: Option<string>)
    requires i <= |s|
    ensures r.Some? ==> CaptureShape(Protocol, r.value)
  {
    if OccursAt(s, "Protocol:IEEE 802.11", i) then
      var c := s[i + 9..i + 20 + LowerRun(s, i + 20)];
      assert c[..11] == s[i + 9..i + 20];
      assert forall k :: 11 <= k < |c| ==> c[k] == s[i + 9 + k];
      Some(c)
    else None
  }

  /** The group captured when pattern `p` is matched at position `i` of `s`, if it matches there. */
  function MatchAt(p: Pattern, s: string, i: nat): (r: Option<string>)
    requires i <= |s|
    ensures r.Some? ==> CaptureShape(p, r.value)
  {
    match p
    case Address => AddressAt(s, i)
    case Essid => EssidAt(s, i)
    case Channel => ChannelAt(s, i)
    case Frequency => FrequencyAt(s, i)
    case SignalLevel => SignalLevelAt(s, i)
    case Quality => QualityAt(s, i)
    case Protocol => ProtocolAt(s, i)
  }

  /** The leftmost position at or after `i` where `p` matches. */
  function FirstMatch(p: Pattern, s: string, i: nat): (r: Option<nat>)
    requires i <= |s|
    ensures r.Some? ==> i <= r.value <= |s| && MatchAt(p, s, r.value).Some?
    ensures r.Some? ==> forall j :: i <= j < r.value ==> MatchAt(p, s, j).None?
    ensures r.None? ==> forall j :: i <= j <= |s| ==> MatchAt(p, s, j).None?
    decreases |s| - i
  {
    if MatchAt(p, s, i).Some? then Some(i)
    else if i == |s| then None
    else FirstMatch(p, s, i + 1)
  }

  /** `re.search(p, s).group(1)`, or `None` when the pattern matches nowhere. */
  function Search(p: Pattern, s: string): (r: Option<string>)
    ensures r.Some? ==> CaptureShape(p, r.value)
  {
    match FirstMatch(p, s, 0)
    case Some(k) => MatchAt(p, s, k)
    case None => None
  }

  /** Text matched by `Cell \d+ - Address:`. */
  predicate IsMarker(m: string)
  {
    |m| >= 17 && m[..5] == "Cell " && m[|m| - 11..] == " - Address:" && AllDigits(m[5..|m| - 11])
  }

  /** Inside a marker only its first character is a 'C'. */
  lemma MarkerHasOneC(m: string, k: int)
    requires IsMarker(m) && 0 < k < |m|
    ensures m[k] != 'C'
  {
    if k < 5 {
      assert m[k] == m[..5][k];
    } else if k < |m| - 11 {
      assert m[k] == m[5..|m| - 11][k - 5];
    } else {
      assert m[k] == m[|m| - 11..][k - (|m| - 11)];
    }
  }

  /** Length of the marker that starts at `i`, if one does. */
  function MarkerAt(s: string, i: nat): (r: Option<nat>)
    requires i <= |s|
    ensures r.Some? ==> i + r.value <= |s| && IsMarker(s[i..i + r.value])
  {
    var d := if i + 5 <= |s| then DigitRun(s, i + 5) else 0;
    if OccursAt(s, "Cell ", i) && d > 0 && OccursAt(s, " - Address:", i + 5 + d) then
      assert s[i..i + 16 + d][..5] == s[i..i + 5];
      assert s[i..i + 16 + d][16 + d - 11..] == s[i + 5 + d..i + 16 + d];
      assert s[i..i + 16 + d][5..16 + d - 11] == s[i + 5..i + 5 + d];
      Some(16 + d)
    else None
  }

  /** The scan finds every marker: a marker starting at `i` is the one `MarkerAt` reports. */
  lemma MarkerAtComplete(s: string, i: nat, j: nat)
    requires i <= j <= |s| && IsMarker(s[i..j])
    ensures MarkerAt(s, i) == Some(j - i)
  {
    var m := s[i..j];
    var d := |m| - 16;
    assert |m| == j - i && |m| - 11 == 5 + d;
    assert s[i..i + 5] == m[..5];
    var digits, inner := s[i + 5..i + 5 + d], m[5..|m| - 11];
    forall k | 0 <= k < d ensures digits[k] == inner[k] {
      assert m[5 + k] == s[i + 5 + k];
    }
    assert s[j - 11..j] == m[|m| - 11..];
    MarkerAtIs(s, i, d);
  }

  /** `Cell `, a run of `d` digits and ` - Address:` at `i` is a marker of length `16 + d`. */
  lemma MarkerAtIs(s: string, i: nat, d: nat)
    requires OccursAt(s, "Cell ", i) && d > 0 && i + 5 + d <= |s|
    requires AllDigits(s[i + 5..i + 5 + d]) && OccursAt(s, " - Address:", i + 5 + d)
    ensures MarkerAt(s, i) == Some(16 + d)
  {
    assert s[i + 5 + d] == s[i + 5 + d..i + 16 + d][0];
    DigitRunExact(s, i + 5, d);
  }

  /** Some substring of `t` is a marker. */
  predicate ContainsMarker(t: string)
  {
    exists i, j | 0 <= i <= j <= |t| :: IsMarker(t[i..j])
  }

  /** `re.split` and `re.findall` together: the texts between markers and the markers themselves. */
  datatype Split = Split(pieces: seq<string>, markers: seq<string>)

  /** The text a split came from: piece, marker, piece, ..., marker, piece. */
  function Interleave(pieces: seq<string>, markers: seq<string>): string
    requires |pieces| == |markers| + 1
    decreases |markers|
  {
    if markers == [] then pieces[0]
    else pieces[0] + markers[0] + Interleave(pieces[1..], markers[1..])
  }

  /** Cut `s` at every non-overlapping occurrence of `Cell \d+ - Address:`, scanning left to right. */
  function SplitOnMarkers(s: string): (r: Split)
    ensures |r.pieces| == |r.markers| + 1
    decreases |s|
  {
    if s == [] then Split([[]], [])
    else match MarkerAt(s, 0)
      case Some(n) =>
        var rest := SplitOnMarkers(s[n..]);
        Split([[]] + rest.pieces, [s[..n]] + rest.markers)
      case None =>
        var rest := SplitOnMarkers(s[1..]);
        Split([[s[0]] + rest.pieces[0]] + rest.pieces[1..], rest.markers)
  }

  /** A split is a faithful decomposition: markers are markers, pieces hold none. */
  predicate WellFormedSplit(pieces: seq<string>, markers: seq<string>)
  {
    && |pieces| == |markers| + 1
    && (forall k :: 0 <= k < |markers| ==> IsMarker(markers[k]))
    && (forall k :: 0 <= k < |pieces| ==> !ContainsMarker(pieces[k]))
  }

  /** A text without markers loses none when its first character is dropped. */
  lemma NoMarkerInTail(p: string)
    requires p != [] && !ContainsMarker(p)
    ensures !ContainsMarker(p[1..])
  {
    forall i, j | 0 <= i <= j <= |p| - 1 ensures !IsMarker(p[1..][i..j]) {
      assert p[1..][i..j] == p[i + 1..j + 1];
    }
  }

  /** No marker starts at the first character of a non-empty, marker-free piece followed by a marker. */
  lemma NoMarkerAtPieceStart(p: string, t: string)
    requires p != [] && !ContainsMarker(p)
    requires t == [] || t[0] == 'C'
    ensures MarkerAt(p + t, 0).None?
  {
    var s := p + t;
    forall n | 0 <= n <= |s| ensures !IsMarker(s[0..n]) {
      if n <= |p| {
        assert s[0..n] == p[0..n];
      } else {
        assert s[0..n][|p|] == t[0];
        if IsMarker(s[0..n]) {
          MarkerHasOneC(s[0..n], |p|);
        }
      }
    }
  }

  /** Prepending a character to the first piece prepends it to the text. */
  lemma InterleaveExtendHead(c: char, pieces: seq<string>, markers: seq<string>)
    requires |pieces| == |markers| + 1
    ensures Interleave([[c] + pieces[0]] + pieces[1..], markers) == [c] + Interleave(pieces, markers)
  {
    var pieces' := [[c] + pieces[0]] + pieces[1..];
    assert pieces'[1..] == pieces[1..];
  }

  /** Prepending an empty piece and a marker prepends the marker to the text. */
  lemma InterleaveConsMarker(m: string, pieces: seq<string>, markers: seq<string>)
    requires |pieces| == |markers| + 1
    ensures Interleave([[]] + pieces, [m] + markers) == m + Interleave(pieces, markers)
  {
    assert ([[]] + pieces)[1..] == pieces;
    assert ([m] + markers)[1..] == markers;
  }

  /** A marker in front of a well-formed split keeps it well formed. */
  lemma WellFormedConsMarker(m: string, pieces: seq<string>, markers: seq<string>)
    requires IsMarker(m) && WellFormedSplit(pieces, markers)
    ensures WellFormedSplit([[]] + pieces, [m] + markers)
  {
    assert forall k :: 1 <= k < |pieces| + 1 ==> ([[]] + pieces)[k] == pieces[k - 1];
    assert forall k :: 1 <= k < |markers| + 1 ==> ([m] + markers)[k] == markers[k - 1];
  }

  /** A character that starts no marker can join the first piece. */
  lemma WellFormedExtendHead(c: char, pieces: seq<string>, markers: seq<string>)
    requires WellFormedSplit(pieces, markers)
    requires MarkerAt([c] + Interleave(pieces, markers), 0).None?
    ensures WellFormedSplit([[c] + pieces[0]] + pieces[1..], markers)
  {
    var tail := if markers == [] then [] else markers[0] + Interleave(pieces[1..], markers[1..]);
    assert [c] + Interleave(pieces, markers) == [c] + pieces[0] + tail;
    HeadKeepsNoMarker(c, pieces[0], tail);
    var pieces' := [[c] + pieces[0]] + pieces[1..];
    assert forall k :: 1 <= k < |pieces'| ==> pieces'[k] == pieces[k];
  }

  /** A character that starts no marker keeps a marker-free text marker-free when put in front of it. */
  lemma HeadKeepsNoMarker(c: char, p0: string, tail: string)
    requires !ContainsMarker(p0) && MarkerAt([c] + p0 + tail, 0).None?
    ensures !ContainsMarker([c] + p0)
  {
    var s := [c] + p0 + tail;
    var p := [c] + p0;
    forall i, j | 0 <= i <= j <= |p| ensures !IsMarker(p[i..j]) {
      if i >= 1 {
        assert p[i..j] == p0[i - 1..j - 1];
      } else {
        assert p[i..j] == s[0..j];
        if IsMarker(s[0..j]) {
          MarkerAtComplete(s, 0, j);
        }
      }
    }
  }

  /** Splitting recovers the text, finds only markers and leaves no marker inside a piece. */
  lemma {:induction false} SplitSound(s: string)
    ensures var r := SplitOnMarkers(s); Interleave(r.pieces, r.markers) == s && WellFormedSplit(r.pieces, r.markers)
    decreases |s|
  {
    if s != [] {
      match MarkerAt(s, 0)
      case Some(n) =>
        SplitSound(s[n..]);
        var rest := SplitOnMarkers(s[n..]);
        assert s == s[..n] + s[n..];
        InterleaveConsMarker(s[..n], rest.pieces, rest.markers);
        WellFormedConsMarker(s[..n], rest.pieces, rest.markers);
      case None =>
        SplitSound(s[1..]);
        var rest := SplitOnMarkers(s[1..]);
        assert s == [s[0]] + s[1..];
        InterleaveExtendHead(s[0], rest.pieces, rest.markers);
        WellFormedExtendHead(s[0], rest.pieces, rest.markers);
    }
  }

  /** Dropping the first piece and marker of a well-formed split leaves a well-formed split. */
  lemma WellFormedTail(pieces: seq<string>, markers: seq<string>)
    requires WellFormedSplit(pieces, markers) && markers != []
    ensures WellFormedSplit(pieces[1..], markers[1..])
  {
    assert forall k :: 0 <= k < |markers| - 1 ==> markers[1..][k] == markers[k + 1];
    assert forall k :: 0 <= k < |pieces| - 1 ==> pieces[1..][k] == pieces[k + 1];
  }

  /** A text that starts with a non-empty piece has no marker at its first character. */
  lemma PieceHeadNoMarker(pieces: seq<string>, markers: seq<string>)
    requires WellFormedSplit(pieces, markers) && pieces[0] != []
    ensures MarkerAt(Interleave(pieces, markers), 0).None?
  {
    var p := pieces[0];
    var tail := if markers == [] then [] else markers[0] + Interleave(pieces[1..], markers[1..]);
    assert Interleave(pieces, markers) == p + tail;
    assert tail == [] || tail[0] == 'C' by {
      if markers != [] {
        assert markers[0][..5] == "Cell ";
        assert tail[0] == markers[0][0];
      }
    }
    NoMarkerAtPieceStart(p, tail);
  }

  /** Removing the first character of a non-empty first piece leaves a well-formed split of the rest. */
  lemma PieceHeadRest(pieces: seq<string>, markers: seq<string>)
    requires WellFormedSplit(pieces, markers) && pieces[0] != []
    ensures var s := Interleave(pieces, markers);
      && s[0] == pieces[0][0]
      && s[1..] == Interleave([pieces[0][1..]] + pieces[1..], markers)
      && WellFormedSplit([pieces[0][1..]] + pieces[1..], markers)
  {
    var p := pieces[0];
    NoMarkerInTail(p);
    var pieces' := [p[1..]] + pieces[1..];
    assert pieces'[1..] == pieces[1..];
    assert forall k :: 1 <= k < |pieces'| ==> pieces'[k] == pieces[k];
  }

  /**
   * Splitting is the inverse of interleaving: a text assembled from marker-free pieces and
   * markers splits back into exactly those pieces and markers.
   */
  lemma {:induction false} SplitRoundTrip(pieces: seq<string>, markers: seq<string>)
    requires WellFormedSplit(pieces, markers)
    ensures SplitOnMarkers(Interleave(pieces, markers)) == Split(pieces, markers)
    decreases |Interleave(pieces, markers)|, 1
  {
    if pieces[0] == [] {
      SplitRoundTripAtMarker(pieces, markers);
    } else {
      SplitRoundTripAtChar(pieces, markers);
    }
  }

  /** The round trip when the text opens with a marker (or is empty). */
  lemma {:induction false} SplitRoundTripAtMarker(pieces: seq<string>, markers: seq<string>)
    requires WellFormedSplit(pieces, markers) && pieces[0] == []
    ensures SplitOnMarkers(Interleave(pieces, markers)) == Split(pieces, markers)
    decreases |Interleave(pieces, markers)|, 0
  {
    if markers == [] {
      assert pieces == [[]];
    } else {
      var m := markers[0];
      var rest := Interleave(pieces[1..], markers[1..]);
      assert Interleave(pieces, markers) == m + rest;
      LeadingMarkerSplit(m, rest);
      WellFormedTail(pieces, markers);
      SplitRoundTrip(pieces[1..], markers[1..]);
      assert [m] + markers[1..] == markers;
      assert [[]] + pieces[1..] == pieces;
    }
  }

  /** The round trip when the text opens with a character of its first piece. */
  lemma {:induction false} SplitRoundTripAtChar(pieces: seq<string>, markers: seq<string>)
    requires WellFormedSplit(pieces, markers) && pieces[0] != []
    ensures SplitOnMarkers(Interleave(pieces, markers)) == Split(pieces, markers)
    decreases |Interleave(pieces, markers)|, 0
  {
    var s := Interleave(pieces, markers);
    var p := pieces[0];
    PieceHeadNoMarker(pieces, markers);
    PieceHeadRest(pieces, markers);
    var pieces' := [p[1..]] + pieces[1..];
    SplitRoundTrip(pieces', markers);
    assert [s[0]] + p[1..] == p;
    assert [p] + pieces[1..] == pieces;
  }

  /** A text that opens with a marker splits into an empty piece, that marker, and the split of the rest. */
  lemma LeadingMarkerSplit(m: string, rest: string)
    requires IsMarker(m)
    ensures var r := SplitOnMarkers(rest); SplitOnMarkers(m + rest) == Split([[]] + r.pieces, [m] + r.markers)
  {
    var s := m + rest;
    assert s[0..|m|] == m;
    MarkerAtComplete(s, 0, |m|);
    assert s[|m|..] == rest;
  }

  /** `Cell <digits> - Address:` is a marker. */
  lemma MarkerFromDigits(digits: string)
    requires digits != [] && AllDigits(digits)
    ensures IsMarker("Cell " + digits + " - Address:")
  {
    var m := "Cell " + digits + " - Address:";
    assert m[..5] == "Cell ";
    assert m[|m| - 11..] == " - Address:";
    assert m[5..|m| - 11] == digits;
  }

  /** A marker holds no 'A' before its closing `Address:`. */
  lemma MarkerHasNoEarlyA(m: string, k: int)
    requires IsMarker(m) && 0 <= k < |m| - 8
    ensures m[k] != 'A'
  {
    if k < 5 {
      assert m[k] == m[..5][k];
    } else if k < |m| - 11 {
      assert m[k] == m[5..|m| - 11][k - 5];
    } else {
      assert m[k] == m[|m| - 11..][k - (|m| - 11)];
    }
  }

  /** The leftmost match from `i` is at `k` when nothing matches before `k` and something matches at `k`. */
  lemma {:induction false} FirstMatchAt(p: Pattern, s: string, i: nat, k: nat)
    requires i <= k <= |s| && MatchAt(p, s, k).Some?
    requires forall j :: i <= j < k ==> MatchAt(p, s, j).None?
    ensures FirstMatch(p, s, i) == Some(k)
    decreases k - i
  {
    if i < k {
      FirstMatchAt(p, s, i + 1, k);
    }
  }

  /** A block that opens with a marker, a space and 17 MAC characters has exactly those as its address. */
  lemma AddressAfterMarker(m: string, mac: string, rest: string)
    requires IsMarker(m) && |mac| == 17 && AllMacChars(mac)
    ensures Search(Address, m + " " + mac + rest) == Some(mac)
  {
    var s := m + " " + mac + rest;
    var k := |m| - 8;
    assert s[k..k + 9] == "Address: " by {
      assert m[k..] == m[|m| - 11..][3..];
      assert s[k..k + 9] == m[k..] + " ";
    }
    assert s[k + 9..k + 26] == mac;
    assert MatchAt(Address, s, k) == Some(mac);
    forall j | 0 <= j < k ensures MatchAt(Address, s, j).None? {
      MarkerHasNoEarlyA(m, j);
      assert s[j] == m[j];
      if j + 9 <= |s| {
        assert s[j..j + 9][0] == s[j];
      }
    }
    FirstMatchAt(Address, s, 0, k);
  }

  /** The literal text each pattern other than `Frequency` must find where it matches. */
  function Token(p: Pattern): string
    requires p != Frequency
  {
    match p
    case Address => "Address: "
    case Essid => "ESSID:\""
    case Channel => "Channel "
    case Frequency => ""
    case SignalLevel => "Signal level="
    case Quality => "Quality="
    case Protocol => "Protocol:IEEE 802.11"
  }

  /** A pattern anchored on a literal token matches only where that token occurs. */
  lemma MatchStartsWithToken(p: Pattern, s: string, j: nat)
    requires p != Frequency && j <= |s| && MatchAt(p, s, j).Some?
    ensures OccursAt(s, Token(p), j)
  {
  }

  /**
   * No position of `x` can start a text beginning with `a` then `b`: every `a` in `x` is followed,
   * inside `x`, by something other than `b`.
   */
  predicate CannotStart(x: string, a: char, b: char)
  {
    forall j :: 0 <= j < |x| && x[j] == a ==> j + 1 < |x| && x[j + 1] != b
  }

  /** Text without `a` cannot start it. */
  lemma FreeCannotStart(x: string, a: char, b: char)
    requires a !in x
    ensures CannotStart(x, a, b)
  {
  }

  /** Two texts that cannot start the token cannot start it when put together. */
  lemma ConcatCannotStart(u: string, v: string, a: char, b: char)
    requires CannotStart(u, a, b) && CannotStart(v, a, b)
    ensures CannotStart(u + v, a, b)
  {
    var w := u + v;
    forall j | 0 <= j < |w| && w[j] == a ensures j + 1 < |w| && w[j + 1] != b {
      if j < |u| {
        assert u[j] == a;
        assert w[j + 1] == u[j + 1];
      } else {
        assert v[j - |u|] == a;
        assert w[j + 1] == v[j - |u| + 1];
      }
    }
  }

  /** No match of a token-anchored pattern starts inside a text that cannot start its token. */
  lemma NoMatchBefore(p: Pattern, x: string, y: string)
    requires p != Frequency && CannotStart(x, Token(p)[0], Token(p)[1])
    ensures forall j :: 0 <= j < |x| ==> MatchAt(p, x + y, j).None?
  {
    forall j | 0 <= j < |x| ensures MatchAt(p, x + y, j).None? {
      if MatchAt(p, x + y, j).Some? {
        MatchStartsWithToken(p, x + y, j);
      }
    }
  }

  /** `re.search` finds the match at `|x|` when `x` cannot start the pattern's token. */
  lemma SearchAfter(p: Pattern, x: string, y: string)
    requires p != Frequency && CannotStart(x, Token(p)[0], Token(p)[1])
    requires MatchAt(p, x + y, |x|).Some?
    ensures Search(p, x + y) == MatchAt(p, x + y, |x|)
  {
    NoMatchBefore(p, x, y);
    FirstMatchAt(p, x + y, 0, |x|);
  }

  /** `ESSID:"<name>"` after `x` is captured there when the name holds no quote. */
  lemma EssidMatch(x: string, name: string, rest: string)
    requires '"' !in name
    ensures MatchAt(Essid, x + ("ESSID:\"" + name + "\"" + rest), |x|) == Some(name)
  {
    var y := "ESSID:\"" + name + "\"" + rest;
    var s := x + y;
    var i, j := |x|, |x| + 7 + |name|;
    assert s[i..i + 7] == y[..7] == "ESSID:\"";
    assert s[j] == y[7 + |name|] == '"';
    forall k | i + 7 <= k < j ensures s[k] != '"' {
      assert s[k] == name[k - i - 7];
    }
    assert QuoteIndex(s, i + 7) == Some(j) by {
      var q := QuoteIndex(s, i + 7);
      assert q.Some?;
    }
    assert s[i + 7..j] == name;
  }

  /** `Channel <digits>` after `x`, followed by a non-digit, is captured there as the digits. */
  lemma ChannelMatch(x: string, digits: string, rest: string)
    requires digits != [] && AllDigits(digits) && (rest == [] || !IsDigit(rest[0]))
    ensures MatchAt(Channel, x + ("Channel " + digits + rest), |x|) == Some(digits)
  {
    var y := "Channel " + digits + rest;
    var s := x + y;
    var i, n := |x|, |digits|;
    assert s[i..i + 8] == y[..8] == "Channel ";
    assert s[i + 8..i + 8 + n] == digits;
    if rest != [] {
      assert s[i + 8 + n] == rest[0];
    }
    DigitRunExact(s, i + 8, n);
  }

  /** The signal pattern at `i` captures the minus sign and the `n` digits that follow the label. */
  lemma NegativeSignalAt(s: string, i: nat, n: nat)
    requires OccursAt(s, "Signal level=", i) && i + 14 + n <= |s| && s[i + 13] == '-'
    requires n > 0 && AllDigits(s[i + 14..i + 14 + n]) && OccursAt(s, " dBm", i + 14 + n)
    ensures SignalLevelAt(s, i) == Some(s[i + 13..i + 14 + n])
  {
    assert s[i + 14 + n] == s[i + 14 + n..i + 14 + n + 4][0] == ' ';
    DigitRunExact(s, i + 14, n);
  }

  /** `Signal level=-<digits> dBm` after `x` is captured there as the signed digits. */
  lemma NegativeSignalMatch(x: string, digits: string, rest: string)
    requires digits != [] && AllDigits(digits) && StartsWith(rest, " dBm")
    ensures MatchAt(SignalLevel, x + ("Signal level=" + "-" + digits + rest), |x|) == Some("-" + digits)
  {
    var y := "Signal level=" + "-" + digits + rest;
    var s := x + y;
    var i, n := |x|, |digits|;
    assert s[i..i + 13] == y[..13] == "Signal level=";
    assert s[i + 13] == y[13] == '-';
    assert s[i + 14..i + 14 + n] == digits;
    assert s[i + 14 + n..i + 14 + n + 4] == rest[..4];
    assert s[i + 13..i + 14 + n] == "-" + digits;
    NegativeSignalAt(s, i, n);
  }
}
