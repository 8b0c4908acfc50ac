/**
 * xwirless/safety.py: the legal confirmation phrase check and the target check that only lets
 * the tool point at the local host or at an internal address range.
 */
module Safety {
  import opened Text

  /**
   * The phrase the user must type before any scan. It is one string; it is written as two literals
   * because the verifier cannot index the front of a single 55-character literal.
   */
  const ConfirmationPhrase: string :=
    "I CONFIRM I OWN OR AM "
    + "AUTHORIZED TO TEST THESE NETWORKS"

  /**
   * The answer check of `show_legal_warning`: the typed line, stripped of surrounding whitespace,
   * must be the phrase exactly. Printing the warning and reading the line are not modelled; the
   * line is a parameter.
   */
  predicate IsConfirmed(answer: string)
  {
    Strip(answer) == ConfirmationPhrase
  }

  /** Whitespace around the phrase is forgiven. */
  lemma SurroundingWhitespaceAccepted(before: string, after: string)
    requires IsBlank(before) && IsBlank(after)
    ensures IsConfirmed(before + ConfirmationPhrase + after)
  {
    assert |ConfirmationPhrase| == 55;
    assert ConfirmationPhrase[0] == 'I';
    assert ConfirmationPhrase[54] == 'S';
    StripFrame(before, ConfirmationPhrase, after);
  }

  /** Nothing else is: an accepted answer is the phrase with only whitespace around it. */
  lemma ConfirmedShape(answer: string) returns (before: string, after: string)
    requires IsConfirmed(answer)
    ensures IsBlank(before) && IsBlank(after) && answer == before + ConfirmationPhrase + after
  {
    before, after := StripShape(answer);
  }

  /** Stripping that removes nothing returns the text itself. */
  lemma StripKeepsLength(s: string)
    requires |Strip(s)| == |s|
    ensures Strip(s) == s
  {
    var a, b := StripShape(s);
    assert a == [] && b == [];
  }

  /** The comparison is case-sensitive: an answer of the phrase's length starting with a lower-case i is refused. */
  lemma LowerCaseRefused(answer: string)
    requires |answer| == |ConfirmationPhrase| && answer[0] == 'i'
    ensures !IsConfirmed(answer)
  {
    if |Strip(answer)| == |answer| {
      StripKeepsLength(answer);
    }
    assert ConfirmationPhrase[0] == 'I';
  }

  /** The names `validate_target` always accepts. */
  const LocalHosts: seq<string> := ["localhost", "127.0.0.1", "::1"]

  /** The internal ranges `validate_target` lists. */
  const InternalRanges: seq<string> := ["10.0.0.0/8", "172.16.0.0/12", "192.168.0.0/16", "169.254.0.0/16"]

  /** `s.split(c)[0]`: the text before the first `c`, or all of it when there is none. */
  function BeforeFirst(s: string, c: char): (r: string)
    ensures |r| <= |s| && r == s[..|r|]
    ensures c !in r
    ensures |r| < |s| ==> s[|r|] == c
  {
    if s == [] || s[0] == c then [] else [s[0]] + BeforeFirst(s[1..], c)
  }

  /**
   * `SafetyValidator.validate_target`: a local host name, or a text containing '/' whose part
   * before the first '/' starts with the first dotted field of one of the internal ranges.
   */
  function ValidateTarget(target: string): bool
  {
    if target in LocalHosts then true
    else if '/' in target then
      var network := BeforeFirst(target, '/');
      exists i | 0 <= i < |InternalRanges| :: StartsWith(network, BeforeFirst(InternalRanges[i], '.'))
    else false
  }

  /** The prefixes actually compared are the first fields of the ranges: 10, 172, 192 and 169. */
  lemma RangeFirstFields()
    ensures BeforeFirst(InternalRanges[0], '.') == "10"
    ensures BeforeFirst(InternalRanges[1], '.') == "172"
    ensures BeforeFirst(InternalRanges[2], '.') == "192"
    ensures BeforeFirst(InternalRanges[3], '.') == "169"
  {
    FirstFieldOfRange(0, 2);
    FirstFieldOfRange(1, 3);
    FirstFieldOfRange(2, 3);
    FirstFieldOfRange(3, 3);
  }

  lemma FirstFieldOfRange(i: nat, k: nat)
    requires i < |InternalRanges| && k == (if i == 0 then 2 else 3)
    ensures BeforeFirst(InternalRanges[i], '.') == InternalRanges[i][..k]
  {
    var s := InternalRanges[i];
    assert s[k] == '.' && '.' !in s[..k];
    BeforeFirstAt(s, '.', k);
  }

  /** When `c` first occurs at index `k`, the text before the first `c` is the first `k` characters. */
  lemma BeforeFirstAt(s: string, c: char, k: nat)
    requires k < |s| && s[k] == c && c !in s[..k]
    ensures BeforeFirst(s, c) == s[..k]
  {
    var r := BeforeFirst(s, c);
    assert |r| >= k ==> r[..k] == s[..k];
  }

  /**
   * What the target check comes down to: a local host name, or some '/' with the text before
   * the first one starting with 10, 172, 192 or 169.
   */
  lemma ValidateTargetIff(target: string)
    ensures ValidateTarget(target) <==>
      || target in LocalHosts
      || ('/' in target &&
          var network := BeforeFirst(target, '/');
          StartsWith(network, "10") || StartsWith(network, "172") ||
          StartsWith(network, "192") || StartsWith(network, "169"))
  {
    RangeFirstFields();
  }

  /** Without a '/', only the three local host names pass: a bare private address is refused. */
  lemma NoSlashOnlyLocalHosts(target: string)
    requires '/' !in target
    ensures ValidateTarget(target) <==> target in LocalHosts
  {
  }

  /** A bare address such as 192.168.1.1 is refused. */
  lemma BareAddressRefused()
    ensures !ValidateTarget("192.168.1.1")
  {
    NoSlashOnlyLocalHosts("192.168.1.1");
    assert "192.168.1.1" != LocalHosts[0] && "192.168.1.1" != LocalHosts[1] && "192.168.1.1" != LocalHosts[2];
  }

  /** The text before the first separator of `network + [c] + rest`, when `network` has none, is `network`. */
  lemma {:induction false} BeforeFirstOf(network: string, c: char, rest: string)
    requires c !in network
    ensures BeforeFirst(network + [c] + rest, c) == network
    decreases |network|
  {
    if network == [] {
      assert (network + [c] + rest)[0] == c;
    } else {
      assert (network + [c] + rest)[1..] == network[1..] + [c] + rest;
      BeforeFirstOf(network[1..], c, rest);
    }
  }

  /** A block written `network/length` is accepted when its network starts with the first field of range i. */
  lemma BlockAccepted(network: string, length: string, i: nat)
    requires '/' !in network && i < |InternalRanges|
    requires StartsWith(network, BeforeFirst(InternalRanges[i], '.'))
    ensures ValidateTarget(network + "/" + length)
  {
    BeforeFirstOf(network, '/', length);
    assert (network + "/" + length)[|network|] == '/';
  }

  /** A listed internal range is accepted. */
  lemma InternalRangeAccepted()
    ensures ValidateTarget("192.168.0.0" + "/" + "16")
  {
    FirstFieldOfRange(2, 3);
    assert InternalRanges[2][..3] == "192";
    assert StartsWith("192.168.0.0", "192");
    BlockAccepted("192.168.0.0", "16", 2);
  }

  /**
   * Only the leading characters of the first field are compared, so public blocks whose text
   * starts like an internal one pass too: 100.0.0.0/8 (starts with "10") and 172.99.0.0/16
   * (outside 172.16.0.0/12).
   */
  lemma LookalikeRangesAccepted()
    ensures ValidateTarget("100.0.0.0" + "/" + "8") && ValidateTarget("172.99.0.0" + "/" + "16")
  {
    TenLookalikeAccepted();
    OneSeventyTwoLookalikeAccepted();
  }

  lemma TenLookalikeAccepted()
    ensures ValidateTarget("100.0.0.0" + "/" + "8")
  {
    FirstFieldOfRange(0, 2);
    assert InternalRanges[0][..2] == "10";
    assert StartsWith("100.0.0.0", "10");
    BlockAccepted("100.0.0.0", "8", 0);
  }

  lemma OneSeventyTwoLookalikeAccepted()
    ensures ValidateTarget("172.99.0.0" + "/" + "16")
  {
    FirstFieldOfRange(1, 3);
    assert InternalRanges[1][..3] == "172";
    assert StartsWith("172.99.0.0", "172");
    BlockAccepted("172.99.0.0", "16", 1);
  }

  /** A block whose network is no local host and starts with none of 10, 172, 192 and 169 is refused. */
  lemma BlockRefused(network: string, length: string)
    requires '/' !in network
    requires !StartsWith(network, "10") && !StartsWith(network, "172")
    requires !StartsWith(network, "192") && !StartsWith(network, "169")
    ensures !ValidateTarget(network + "/" + length)
  {
    var target := network + "/" + length;
    ValidateTargetIff(target);
    BeforeFirstOf(network, '/', length);
    assert target[|network|] == '/';
    forall h | h in LocalHosts ensures target != h {
      assert '/' !in h;
    }
  }

  /** A public block that does not start like an internal one is refused. */
  lemma PublicRangeRefused()
    ensures !ValidateTarget("8.8.8.0" + "/" + "24")
  {
    assert "8.8.8.0"[0] == '8';
    BlockRefused("8.8.8.0", "24");
  }
}
