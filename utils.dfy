/**
 * xwirless/utils.py: the display helpers for signal levels and encryption names, and the
 * interface-name check.
 */
module Utils {
  import opened Text
  import Parser

  /**
   * The emoji the helpers print, by meaning. The repository stores them double-encoded, so the
   * exact characters are not reproduced; only which helper prints which symbol is.
   */
  datatype Icon = GreenCircle | YellowCircle | OrangeCircle | RedCircle | OpenPadlock | ClosedPadlock | LockWithKey | QuestionMark

  /** `f"{icon} {text}"`: a label is an icon, a space, then text. */
  datatype Label = Label(icon: Icon, text: string)

  /** The quality bands of `format_signal_level`, best first. */
  datatype Band = Excellent | Good | Fair | Poor

  function BandRank(b: Band): nat
  {
    match b
    case Excellent => 3
    case Good => 2
    case Fair => 1
    case Poor => 0
  }

  function BandName(b: Band): string
  {
    match b
    case Excellent => "Excellent"
    case Good => "Good"
    case Fair => "Fair"
    case Poor => "Poor"
  }

  function BandIcon(b: Band): Icon
  {
    match b
    case Excellent => GreenCircle
    case Good => YellowCircle
    case Fair => OrangeCircle
    case Poor => RedCircle
  }

  /** The band of a level in dBm: at least -30, -50, -70, or below -70. */
  function SignalBand(level: int): (b: Band)
    ensures b == Excellent <==> -30 <= level
    ensures b == Good <==> -50 <= level < -30
    ensures b == Fair <==> -70 <= level < -50
    ensures b == Poor <==> level < -70
  {
    if level >= -30 then Excellent
    else if level >= -50 then Good
    else if level >= -70 then Fair
    else Poor
  }

  /** `format_signal_level`. */
  function FormatSignalLevel(level: int): (r: Label)
    ensures r.icon == BandIcon(SignalBand(level))
  {
    var band := SignalBand(level);
    Label(BandIcon(band), IntToDecimal(level) + " dBm (" + BandName(band) + ")")
  }

  /** A stronger signal never gets a worse label. */
  lemma SignalBandMonotone(weaker: int, stronger: int)
    requires weaker <= stronger
    ensures BandRank(SignalBand(weaker)) <= BandRank(SignalBand(stronger))
  {
  }

  /**
   * The label text starts with the level exactly as `int()` reads it back, followed by the unit
   * and the band's name; the icon and the name identify the band.
   */
  lemma SignalLabelReadsBack(level: int)
    ensures var text, n := FormatSignalLevel(level).text, |IntToDecimal(level)|;
      && n <= |text|
      && text[..n] == IntToDecimal(level) && SignedValue(text[..n]) == level
      && text[n..] == " dBm (" + BandName(SignalBand(level)) + ")"
  {
    SignedRoundTrip(level);
    var text := FormatSignalLevel(level).text;
    var n := |IntToDecimal(level)|;
    assert text == IntToDecimal(level) + (" dBm (" + BandName(SignalBand(level)) + ")");
  }

  /** Distinct bands print distinct icons and distinct names. */
  lemma BandsDistinguishable(a: Band, b: Band)
    requires a != b
    ensures BandIcon(a) != BandIcon(b) && BandName(a) != BandName(b)
  {
    assert BandName(a)[0] != BandName(b)[0] || |BandName(a)| != |BandName(b)|;
  }

  /** The icon table of `format_encryption`. */
  const EncryptionIcons: map<string, Icon> :=
    map["Open" := OpenPadlock, "WEP" := ClosedPadlock, "WPA" := LockWithKey, "WPA2" := LockWithKey, "WPA3" := LockWithKey]

  /** `format_encryption`: the table's icon, or a question mark for a name it does not know, then the name. */
  function FormatEncryption(encryption: string): (r: Label)
    ensures r.text == encryption
    ensures r.icon == QuestionMark <==> encryption !in EncryptionIcons
  {
    var icon := if encryption in EncryptionIcons then EncryptionIcons[encryption] else QuestionMark;
    Label(icon, encryption)
  }

  /**
   * Every encryption the parser reports has its own entry: Open and WEP have their own icons and
   * the three WPA generations share one.
   */
  lemma EncryptionIconsCoverParser(e: Parser.Encryption)
    ensures FormatEncryption(Parser.EncryptionName(e)).icon != QuestionMark
    ensures FormatEncryption(Parser.EncryptionName(e)).icon == OpenPadlock <==> e == Parser.Open
    ensures FormatEncryption(Parser.EncryptionName(e)).icon == ClosedPadlock <==> e == Parser.WEP
    ensures FormatEncryption(Parser.EncryptionName(e)).icon == LockWithKey <==> e in {Parser.WPA, Parser.WPA2, Parser.WPA3}
  {
  }

  /** The prefixes `validate_interface` accepts, in its order. */
  const InterfacePrefixes: seq<string> := ["wlan", "wifi", "eth", "en", "wl"]

  /** `validate_interface`: a non-empty name whose lower-case form starts with a known prefix. */
  function ValidateInterface(name: string): (r: bool)
    ensures r ==> name != []
  {
    if name == [] then false
    else
      var lowered := Lower(name);
      exists i | 0 <= i < |InterfacePrefixes| :: StartsWith(lowered, InterfacePrefixes[i])
  }

  /** `wlan` adds nothing to `wl`: the check is a test for one of four prefixes. */
  lemma InterfacePrefixesReduce(name: string)
    ensures ValidateInterface(name) <==>
      var lowered := Lower(name);
      StartsWith(lowered, "wl") || StartsWith(lowered, "wifi") || StartsWith(lowered, "eth") || StartsWith(lowered, "en")
  {
    var lowered := Lower(name);
    if name == [] {
      assert lowered == [];
    } else {
      if StartsWith(lowered, "wlan") {
        assert lowered[..2] == lowered[..4][..2];
      }
      assert InterfacePrefixes[0] == "wlan" && InterfacePrefixes[1] == "wifi" && InterfacePrefixes[2] == "eth";
      assert InterfacePrefixes[3] == "en" && InterfacePrefixes[4] == "wl";
    }
  }

  lemma {:induction false} LowerAppend(a: string, b: string)
    ensures Lower(a + b) == Lower(a) + Lower(b)
    decreases |a|
  {
    if a == [] {
      assert a + b == b;
    } else {
      assert (a + b)[0] == a[0] && (a + b)[1..] == a[1..] + b;
      LowerAppend(a[1..], b);
    }
  }

  /** Lower-casing is idempotent. */
  lemma {:induction false} LowerIdempotent(s: string)
    ensures Lower(Lower(s)) == Lower(s)
    decreases |s|
  {
    if s != [] {
      var head := LowerChar(s[0]);
      LowerIdempotent(s[1..]);
      LowerAppend(head, Lower(s[1..]));
      if |head| == 2 {
        assert Lower(head) == LowerChar(head[0]) + Lower(head[1..]);
        assert head[1..] == [head[1]];
        assert Lower([head[1]]) == LowerChar(head[1]) + Lower([]);
      } else {
        assert Lower(head) == LowerChar(head[0]) + Lower(head[1..]);
      }
    }
  }

  /** The check ignores case: a name and its lower-case form are accepted alike. */
  lemma InterfaceCaseInsensitive(name: string)
    ensures ValidateInterface(Lower(name)) == ValidateInterface(name)
  {
    LowerIdempotent(name);
    if name != [] {
      assert Lower(name) == LowerChar(name[0]) + Lower(name[1..]);
    } else {
      assert Lower(name) == [];
    }
  }

  /** The empty name is rejected, whatever the prefixes. */
  lemma EmptyInterfaceRejected()
    ensures !ValidateInterface("")
  {
  }

  /** A wireless name passes in any case. */
  lemma WirelessNamesAccepted()
    ensures ValidateInterface("wlan0") && ValidateInterface("WLAN0")
  {
    assert Lower("0") == "0";
    assert Lower("N0") == "n0";
    assert Lower("AN0") == "an0";
    assert Lower("LAN0") == "lan0";
    assert Lower("WLAN0") == "wlan0";
    InterfaceCaseInsensitive("WLAN0");
    assert StartsWith("wlan0", InterfacePrefixes[0]);
  }

  /** Wired names pass as well. */
  lemma WiredNamesAccepted()
    ensures ValidateInterface("eth0") && ValidateInterface("enp3s0")
  {
    EthAccepted();
    EnpAccepted();
  }

  lemma EthAccepted()
    ensures ValidateInterface("eth0")
  {
    assert Lower("eth0") == "eth0" by {
      assert Lower("0") == "0";
      assert Lower("h0") == "h0";
      assert Lower("th0") == "th0";
    }
    assert StartsWith("eth0", InterfacePrefixes[2]);
  }

  lemma EnpAccepted()
    ensures ValidateInterface("enp3s0")
  {
    assert Lower("enp3s0")[..2] == "en" by {
      LowerAppend("en", "p3s0");
      assert "en" + "p3s0" == "enp3s0";
      assert Lower("en") == "en" by {
        assert Lower("n") == "n";
      }
    }
    assert StartsWith(Lower("enp3s0"), InterfacePrefixes[3]);
  }

  /** The loopback interface is rejected. */
  lemma LoopbackRejected()
    ensures !ValidateInterface("lo")
  {
    assert Lower("lo") == "lo" by {
      assert Lower("o") == "o";
    }
    forall i | 0 <= i < |InterfacePrefixes| ensures !StartsWith("lo", InterfacePrefixes[i]) {
      assert InterfacePrefixes[i][0] != 'l';
    }
  }
}
