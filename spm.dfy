/**
 * The client tag ("spm") of chiki/utils.py: a dot-separated token of five
 * small integers (os, platform, channel, version, reserved) carried on a
 * request. `ParseSpm` decodes a token and never fails; `GetSpm` returns
 * the token the request names, or synthesises one from the user agent;
 * `GetOs`, `GetPlatform`, `GetChannel` and `GetVersion` read single fields.
 * The request's `spm` argument and its `User-Agent` value are parameters.
 */
module Spm {
  import opened Wrappers
  import opened Text

  /** Operating systems, in scan order; the code of OsList[i] is i + 1. */
  const OsList: seq<string> := ["ios", "android", "windows", "linux", "mac"]

  /** Client applications, in scan order; the code of PlatformList[i] is i + 1. */
  const PlatformList: seq<string> := ["micromessenger", "weibo", "qq"]

  /** The channel field of every synthesised token. */
  const DefaultChannel: nat := 1001

  /** The tag that malformed and absent tokens decode to. */
  const ZeroTag: seq<nat> := [0, 0, 0, 0, 0]

  // ------------------------------------------------------------ decoding

  /** Python truthiness of an optional string: present and non-empty. */
  predicate Truthy(spm: Option<string>)
    ensures Truthy(spm) <==> spm != None && spm != Some("")
  {
    spm.Some? && spm.value != []
  }

  /** The token after the lower-case literal `unknown` has been replaced by `0`. */
  function Normalize(spm: Option<string>): (s: string)
    ensures Truthy(spm) ==> s != [] && !Contains(s, "unknown")
    ensures !Truthy(spm) ==> s == []
  {
    if Truthy(spm) then
      ReplaceRemovesAll(spm.value, "unknown", '0');
      Replace(spm.value, "unknown", "0")
    else []
  }

  /**
   * The pattern `^(\d+\.)+\d+$`: two or more dot-separated pieces, each a
   * non-empty run of decimal digits.
   */
  predicate IsToken(s: string)
    ensures IsToken(s) ==> '.' in s
  {
    JoinSplit(s, '.');
    var fields := Split(s, '.');
    |fields| >= 2 && forall i | 0 <= i < |fields| :: IsDigits(fields[i])
  }

  /**
   * What a token decodes to: for a well-formed token the first five fields
   * with zeros after the last one; for anything else the zero tag.
   */
  function Decode(spm: Option<string>): (tag: seq<nat>)
    ensures |tag| == 5
  {
    var s := Normalize(spm);
    if IsToken(s) then
      var fields := Split(s, '.');
      seq(5, i requires 0 <= i < 5 => if i < |fields| then DecimalValue(fields[i]) else 0)
    else
      ZeroTag
  }

  /** parse_spm: substitute, validate, split, convert, pad with zeros, cut to five. */
  method ParseSpm(spm: Option<string>) returns (res: seq<nat>)
    ensures |res| == 5
    ensures res == Decode(spm)
  {
    var s := spm;
    if Truthy(s) {
      s := Some(Replace(s.value, "unknown", "0"));
    }
    if Truthy(s) && IsToken(s.value) {
      var fields := Split(s.value, '.');
      res := seq(|fields|, i requires 0 <= i < |fields| => DecimalValue(fields[i]));
      while |res| < 5
        invariant |fields| <= |res|
        invariant forall i | 0 <= i < |res| :: res[i] == if i < |fields| then DecimalValue(fields[i]) else 0
      {
        res := res + [0];
      }
      res := res[..5];
      return;
    }
    res := ZeroTag;
  }

  // ---------------------------------------------------------- properties

  /** A token whose first character is not a digit is malformed. */
  lemma NonDigitStartNotToken(s: string)
    requires s != [] && !IsDigit(s[0])
    ensures !IsToken(s)
  {
    var fields := Split(s, '.');
    if s[0] != '.' {
      assert fields[0] == [s[0]] + Split(s[1..], '.')[0];
    }
    assert fields[0] == [] || fields[0][0] == s[0];
  }

  /** Only a present, non-empty token can decode to anything but zeros. */
  lemma DecodeFalsy(spm: Option<string>)
    requires !Truthy(spm)
    ensures Decode(spm) == ZeroTag
  {
    assert Split([], '.') == [[]];
  }

  /** Substituting `unknown` by hand beforehand changes nothing. */
  lemma DecodeUnknownSubstituted(s: string)
    ensures Decode(Some(Replace(s, "unknown", "0"))) == Decode(Some(s))
  {
    if s != [] {
      ReplaceIdempotent(s, "unknown", '0');
    }
  }

  /** Python's `'.'.join([str(x) for x in ns])`. */
  function JoinNats(ns: seq<nat>): (token: string)
    ensures |ns| >= 2 ==> IsToken(token) && 'u' !in token
  {
    var strs := seq(|ns|, i requires 0 <= i < |ns| => NatToString(ns[i]));
    NumeralsAvoid(strs);
    assert |ns| >= 2 ==> IsToken(Join(strs, '.')) by {
      if |ns| >= 2 {
        SplitJoin(strs, '.');
      }
    }
    Join(strs, '.')
  }

  /** Decimal numerals hold neither the separator nor the letter `u`. */
  lemma NumeralsAvoid(strs: seq<string>)
    requires forall i | 0 <= i < |strs| :: IsDigits(strs[i])
    ensures forall i | 0 <= i < |strs| :: '.' !in strs[i] && 'u' !in strs[i]
    ensures 'u' !in Join(strs, '.')
  {
    forall i | 0 <= i < |strs| ensures '.' !in strs[i] && 'u' !in strs[i] {
      assert IsDigits(strs[i]);
    }
    JoinAvoids(strs, '.', 'u');
  }

  /**
   * Padding and truncation: a token of k >= 2 naturals decodes to its first
   * min(k, 5) values followed by zeros.
   */
  lemma DecodeJoined(ns: seq<nat>)
    requires |ns| >= 2
    ensures Decode(Some(JoinNats(ns))) == seq(5, i requires 0 <= i < 5 => if i < |ns| then ns[i] else 0)
  {
    var strs := seq(|ns|, i requires 0 <= i < |ns| => NatToString(ns[i]));
    var token := JoinNats(ns);
    assert token == Join(strs, '.');
    NormalizeToken(token);
    NumeralsAvoid(strs);
    SplitJoin(strs, '.');
    var tag := Decode(Some(token));
    forall i | 0 <= i < 5 ensures tag[i] == if i < |ns| then ns[i] else 0 {
      if i < |ns| {
        DecimalRoundTrip(ns[i]);
      }
    }
  }

  /** A well-formed token without the letter `u` is left as it is by the substitution. */
  lemma NormalizeToken(token: string)
    requires IsToken(token) && 'u' !in token
    ensures Normalize(Some(token)) == token
  {
    NotContainsMissingChar(token, "unknown", 0);
    ReplaceAbsent(token, "unknown", "0");
  }

  /** Round trip: joining five naturals with dots and decoding gives them back. */
  lemma DecodeRoundTrip(tag: seq<nat>)
    requires |tag| == 5
    ensures Decode(Some(JoinNats(tag))) == tag
  {
    DecodeJoined(tag);
  }

  /** Absent, empty and single-field tokens decode to the zero tag. */
  lemma DecodeShortExamples()
    ensures Decode(None) == ZeroTag
    ensures Decode(Some("")) == ZeroTag
    ensures Decode(Some("7")) == ZeroTag
  {
    SplitNoSep("7", '.');
    assert Replace("7", "unknown", "0") == "7";
  }

  /** A non-digit field makes a token malformed. */
  lemma DecodeMalformedExamples()
    ensures Decode(Some("a.b")) == ZeroTag
  {
    assert Replace("a.b", "unknown", "0") == "a.b";
    NonDigitStartNotToken("a.b");
  }

  /** A trailing dot leaves an empty last field. */
  lemma DecodeTrailingDotExample()
    ensures Decode(Some("1.")) == ZeroTag
  {
    assert Replace("1.", "unknown", "0") == "1.";
    SplitAtSep("1", '.', "");
    assert "1" + "." + "" == "1.";
    assert Split("1.", '.')[1] == "";
  }

  /** Two dots in a row leave an empty field. */
  lemma DecodeEmptyFieldExample()
    ensures Decode(Some("1..2")) == ZeroTag
  {
    assert Replace("1..2", "unknown", "0") == "1..2";
    SplitAtSep("", '.', "2");
    SplitAtSep("1", '.', ".2");
    assert "1" + "." + ".2" == "1..2";
    assert Split("1..2", '.')[1] == "";
  }

  /** The literal `unknown` stands for a zero field. */
  lemma DecodeUnknownExample()
    ensures Decode(Some("unknown.3")) == [0, 3, 0, 0, 0]
  {
    UnknownSubstitutedExample();
    assert NatToString(0) == "0" && NatToString(3) == "3";
    assert seq(2, i requires 0 <= i < 2 => NatToString([0, 3][i])) == ["0", "3"];
    assert Join(["0", "3"], '.') == "0" + "." + "3" == "0.3";
    assert JoinNats([0, 3]) == "0.3";
    DecodeJoined([0, 3]);
    NormalizeToken("0.3");
  }

  lemma UnknownSubstitutedExample()
    ensures Normalize(Some("unknown.3")) == "0.3"
  {
    assert "unknown.3"[..7] == "unknown" && "unknown.3"[7..] == ".3";
    assert Replace(".3", "unknown", "0") == ".3";
    assert Replace("unknown.3", "unknown", "0") == "0" + ".3" == "0.3";
  }

  lemma UpperUnknownUnchanged()
    ensures Normalize(Some("UNKNOWN.3")) == "UNKNOWN.3"
  {
    NotContainsMissingChar("UNKNOWN.3", "unknown", 0);
    ReplaceAbsent("UNKNOWN.3", "unknown", "0");
  }

  /** The substitution is case-sensitive: upper-case `UNKNOWN` stays malformed. */
  lemma DecodeUpperUnknownExample()
    ensures Decode(Some("UNKNOWN.3")) == ZeroTag
  {
    UpperUnknownUnchanged();
    NonDigitStartNotToken("UNKNOWN.3");
  }

  // ------------------------------------------------------- synthesising

  /**
   * The code a for/else scan over `names[i..]` appends: one past the first
   * position whose name occurs in `s`; when none does, the loop variable is
   * left at the last position, so the code is |names|.
   */
  function ScanFrom(names: seq<string>, s: string, i: nat): (code: nat)
    requires i < |names|
    ensures i < code <= |names|
    decreases |names| - i
  {
    if Contains(s, names[i]) || i == |names| - 1 then i + 1
    else ScanFrom(names, s, i + 1)
  }

  /**
   * The scan's code is k + 1 exactly when no name before position k occurs
   * and either names[k] occurs or k is the last position.
   */
  lemma {:induction false} ScanFromIff(names: seq<string>, s: string, i: nat, k: nat)
    requires i <= k < |names|
    ensures ScanFrom(names, s, i) == k + 1 <==>
      (Contains(s, names[k]) || k == |names| - 1) &&
      forall j | i <= j < k :: !Contains(s, names[j])
    decreases |names| - i
  {
    if !(Contains(s, names[i]) || i == |names| - 1) && k > i {
      ScanFromIff(names, s, i + 1, k);
    }
  }

  /** The operating-system code of a user agent: 1 (ios) to 5 (mac, or nothing matched). */
  function OsCode(ua: string): (code: nat)
    ensures 1 <= code <= |OsList|
  {
    ScanFrom(OsList, Lower(ua), 0)
  }

  /** The platform code of a user agent: 1 (micromessenger) to 3 (qq, or nothing matched). */
  function PlatformCode(ua: string): (code: nat)
    ensures 1 <= code <= |PlatformList|
  {
    ScanFrom(PlatformList, Lower(ua), 0)
  }

  /** The four-field token get_spm synthesises: os, platform, channel 1001, version 0. */
  function SynthesizedToken(ua: string): (token: string)
    ensures Decode(Some(token)) == [OsCode(ua), PlatformCode(ua), DefaultChannel, 0, 0]
  {
    DecodeJoined([OsCode(ua), PlatformCode(ua), DefaultChannel, 0]);
    JoinNats([OsCode(ua), PlatformCode(ua), DefaultChannel, 0])
  }

  /**
   * One `for index, name in enumerate(names)` scan with its `else` clause:
   * both exits append `index + 1`, and after an unbroken loop `index` holds
   * the last position.
   */
  method Classify(names: seq<string>, lua: string) returns (code: nat)
    requires |names| > 0
    ensures code == ScanFrom(names, lua, 0)
  {
    var k := 0;
    var index := 0;
    while k < |names|
      invariant 0 <= k <= |names|
      invariant index == if k == 0 then 0 else k - 1
      invariant forall j | 0 <= j < k :: !Contains(lua, names[j])
    {
      index := k;
      if Contains(lua, names[k]) {
        break;
      }
      k := k + 1;
    }
    assert Contains(lua, names[index]) || index == |names| - 1;
    ScanFromIff(names, lua, 0, index);
    code := index + 1;
  }

  /** get_spm, with the request's `spm` argument and user agent as parameters. */
  method GetSpm(explicit: Option<string>, ua: string) returns (spm: string)
    ensures Truthy(explicit) ==> spm == explicit.value
    ensures !Truthy(explicit) ==> spm == SynthesizedToken(ua)
  {
    if Truthy(explicit) {
      return explicit.value;
    }
    var fields: seq<nat> := [];
    var lua := Lower(ua);
    var os := Classify(OsList, lua);
    fields := fields + [os];
    var platform := Classify(PlatformList, lua);
    fields := fields + [platform];
    fields := fields + [DefaultChannel];
    fields := fields + [0];
    assert fields == [OsCode(ua), PlatformCode(ua), 1001, 0];
    spm := JoinNats(fields);
  }

  /** The operating-system code is one past the first listed name in the lower-cased user agent. */
  lemma OsCodeIff(ua: string, k: nat)
    requires k < |OsList|
    ensures OsCode(ua) == k + 1 <==>
      (Contains(Lower(ua), OsList[k]) || k == |OsList| - 1) &&
      forall j | 0 <= j < k :: !Contains(Lower(ua), OsList[j])
  {
    ScanFromIff(OsList, Lower(ua), 0, k);
  }

  /** The platform code is one past the first listed name in the lower-cased user agent. */
  lemma PlatformCodeIff(ua: string, k: nat)
    requires k < |PlatformList|
    ensures PlatformCode(ua) == k + 1 <==>
      (Contains(Lower(ua), PlatformList[k]) || k == |PlatformList| - 1) &&
      forall j | 0 <= j < k :: !Contains(Lower(ua), PlatformList[j])
  {
    ScanFromIff(PlatformList, Lower(ua), 0, k);
  }

  /** List order wins: "android" before "linux", whatever else the agent says. */
  lemma AndroidBeforeLinux(ua: string)
    requires Contains(Lower(ua), "android") && !Contains(Lower(ua), "ios")
    ensures OsCode(ua) == 2
  {
    OsCodeIff(ua, 1);
  }

  /** A user agent naming no listed system gets 5, the code of "mac". */
  lemma OsCodeUnmatched(ua: string)
    requires forall j | 0 <= j < |OsList| :: !Contains(Lower(ua), OsList[j])
    ensures OsCode(ua) == 5
  {
    OsCodeIff(ua, 4);
  }

  /** A user agent naming no listed client gets 3, the code of "qq". */
  lemma PlatformCodeUnmatched(ua: string)
    requires forall j | 0 <= j < |PlatformList| :: !Contains(Lower(ua), PlatformList[j])
    ensures PlatformCode(ua) == 3
  {
    PlatformCodeIff(ua, 2);
  }

  // ----------------------------------------------------------- accessors

  /** get_os: field 0 of the resolved token. */
  method GetOs(explicit: Option<string>, ua: string) returns (os: nat)
    ensures Truthy(explicit) ==> os == Decode(explicit)[0]
    ensures !Truthy(explicit) ==> os == OsCode(ua) && 1 <= os <= 5
  {
    var spm := GetSpm(explicit, ua);
    var tag := ParseSpm(Some(spm));
    os := tag[0];
  }

  /** get_platform: field 1 of the resolved token. */
  method GetPlatform(explicit: Option<string>, ua: string) returns (platform: nat)
    ensures Truthy(explicit) ==> platform == Decode(explicit)[1]
    ensures !Truthy(explicit) ==> platform == PlatformCode(ua) && 1 <= platform <= 3
  {
    var spm := GetSpm(explicit, ua);
    var tag := ParseSpm(Some(spm));
    platform := tag[1];
  }

  /** get_channel: field 2 of the resolved token; 1001 when synthesised. */
  method GetChannel(explicit: Option<string>, ua: string) returns (channel: nat)
    ensures Truthy(explicit) ==> channel == Decode(explicit)[2]
    ensures !Truthy(explicit) ==> channel == 1001
  {
    var spm := GetSpm(explicit, ua);
    var tag := ParseSpm(Some(spm));
    channel := tag[2];
  }

  /** get_version: field 3 of the resolved token; 0 when synthesised. */
  method GetVersion(explicit: Option<string>, ua: string) returns (version: nat)
    ensures Truthy(explicit) ==> version == Decode(explicit)[3]
    ensures !Truthy(explicit) ==> version == 0
  {
    var spm := GetSpm(explicit, ua);
    var tag := ParseSpm(Some(spm));
    version := tag[3];
  }
}
