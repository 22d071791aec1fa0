/**
 * The input validators of pkg/validator/input_validator.go. Each validator is
 * a predicate on a byte string (Go `len` counts bytes); the regular
 * expressions of the source are written out as small matchers. The
 * `*InputValidator` receiver carries no state, so the validators are plain
 * functions here; only the lazily created global instance is a class.
 */
module Validator {
  import opened Common
  import opened UrlQuery

  const MaxSerialLength: nat := 35
  const MaxNameLength: nat := 35
  const MaxQueryLength: nat := 100

  datatype ValidationError =
    | EmptyUuid
    | MalformedUuid(uuid: string)
    | EmptySerial
    | SerialTooLong(length: nat)
    | SerialIllegalChars(sn: string)
    | EmptyName
    | NameTooLong(length: nat)
    | EmptyQuery
    | QueryTooLong(length: nat)
    | QueryBadEncoding(param: string)

  // ---------------------------------------------------------------------------
  // UUID: ^[0-9a-fA-F]{8}-[0-9a-fA-F]{4}-[0-9a-fA-F]{4}-[0-9a-fA-F]{4}-[0-9a-fA-F]{12}$

  /** The hex-run lengths of the UUID pattern, in order. */
  const UuidGroups: seq<nat> := [8, 4, 4, 4, 12]

  predicate AllHex(s: string) {
    forall i | 0 <= i < |s| :: IsHexDigit(s[i])
  }

  /** The pattern matcher: hex runs of the given lengths joined by single '-', anchored at both ends. */
  predicate MatchHexGroups(s: string, groups: seq<nat>)
    requires groups != []
    decreases |groups|
  {
    |s| >= groups[0] && AllHex(s[..groups[0]]) &&
    if |groups| == 1 then |s| == groups[0]
    else |s| > groups[0] && s[groups[0]] == '-' && MatchHexGroups(s[groups[0] + 1..], groups[1..])
  }

  /** The positions of the four separators in a 36-character UUID. */
  predicate IsSeparatorPosition(i: int) {
    i == 8 || i == 13 || i == 18 || i == 23
  }

  /** Reference definition: 36 characters, '-' at the separator positions, hex digits elsewhere. */
  predicate IsUuidText(s: string) {
    |s| == 36 &&
    forall i | 0 <= i < 36 :: if IsSeparatorPosition(i) then s[i] == '-' else IsHexDigit(s[i])
  }

  /** One step of the matcher: a hex run of length `n`, a '-', then the remaining groups. */
  lemma MatchStep(s: string, n: nat, rest: seq<nat>)
    requires rest != []
    ensures MatchHexGroups(s, [n] + rest) <==>
              |s| > n && AllHex(s[..n]) && s[n] == '-' && MatchHexGroups(s[n + 1..], rest)
  {
    assert ([n] + rest)[0] == n && ([n] + rest)[1..] == rest;
  }

  /** The hex digits of `s` from `lo` up to `hi`. */
  predicate HexRun(s: string, lo: nat, hi: nat)
    requires lo <= hi <= |s|
  {
    forall i | lo <= i < hi :: IsHexDigit(s[i])
  }

  /** A hex run of the suffix at `a`, located in `s` itself. */
  lemma HexRunOfSuffix(s: string, a: nat, n: nat)
    requires a + n <= |s|
    ensures AllHex(s[a..][..n]) <==> HexRun(s, a, a + n)
  {
    assert forall i | 0 <= i < n :: s[a..][..n][i] == s[a + i];
  }

  /** The matcher on the UUID groups, in terms of positions of `s`. */
  lemma UuidMatchUnfolded(s: string)
    ensures MatchHexGroups(s, UuidGroups) <==>
              |s| == 36 && HexRun(s, 0, 8) && s[8] == '-' && HexRun(s, 9, 13) && s[13] == '-' &&
              HexRun(s, 14, 18) && s[18] == '-' && HexRun(s, 19, 23) && s[23] == '-' && HexRun(s, 24, 36)
  {
    assert UuidGroups == [8] + ([4] + ([4] + ([4] + [12])));
    MatchStep(s, 8, [4] + ([4] + ([4] + [12])));
    if 24 < |s| {
      var t1 := s[9..];
      var t2 := t1[5..];
      var t3 := t2[5..];
      var t4 := t3[5..];
      assert t2 == s[14..] && t3 == s[19..] && t4 == s[24..];
      MatchStep(t1, 4, [4] + ([4] + [12]));
      MatchStep(t2, 4, [4] + [12]);
      MatchStep(t3, 4, [12]);
      assert t1[4] == s[13] && t2[4] == s[18] && t3[4] == s[23];
      HexRunOfSuffix(s, 0, 8);
      assert s[..8] == s[0..][..8];
      HexRunOfSuffix(s, 9, 4);
      HexRunOfSuffix(s, 14, 4);
      HexRunOfSuffix(s, 19, 4);
      if |s| == 36 {
        HexRunOfSuffix(s, 24, 12);
        assert t4[..12] == t4;
      }
    }
  }

  /** The matcher accepts exactly the strings of the reference definition. */
  lemma UuidMatchIffText(s: string)
    ensures MatchHexGroups(s, UuidGroups) <==> IsUuidText(s)
  {
    UuidMatchUnfolded(s);
    if |s| == 36 {
      if IsUuidText(s) {
        assert IsSeparatorPosition(8) && IsSeparatorPosition(13) && IsSeparatorPosition(18) && IsSeparatorPosition(23);
      }
    }
  }

  /** `ValidateUUID`. */
  function ValidateUUID(uuid: string): (r: Outcome<ValidationError>)
    ensures r.Pass? <==> IsUuidText(uuid)
    ensures uuid == "" ==> r == Fail(EmptyUuid)
  {
    UuidMatchIffText(uuid);
    if uuid == "" then Fail(EmptyUuid)
    else if !MatchHexGroups(uuid, UuidGroups) then Fail(MalformedUuid(uuid))
    else Pass
  }

  // ---------------------------------------------------------------------------
  // Device serial number: non-empty, at most 35 bytes, ^[a-zA-Z0-9_-]+$

  predicate IsSerialChar(c: char) {
    ('a' <= c <= 'z') || ('A' <= c <= 'Z') || ('0' <= c <= '9') || c == '_' || c == '-'
  }

  /** The matcher of `[a-zA-Z0-9_-]+`, anchored at both ends. */
  predicate MatchSerialChars(s: string)
    decreases |s|
  {
    s != "" && IsSerialChar(s[0]) && (|s| == 1 || MatchSerialChars(s[1..]))
  }

  lemma {:induction false} SerialMatchIffAll(s: string)
    ensures MatchSerialChars(s) <==> s != "" && forall i | 0 <= i < |s| :: IsSerialChar(s[i])
    decreases |s|
  {
    if |s| > 1 {
      SerialMatchIffAll(s[1..]);
      assert forall i | 1 <= i < |s| :: s[1..][i - 1] == s[i];
    }
  }

  /** `ValidateDeviceSN`. */
  function ValidateDeviceSN(sn: string): (r: Outcome<ValidationError>)
    ensures r.Pass? <==> 1 <= |sn| <= MaxSerialLength && forall i | 0 <= i < |sn| :: IsSerialChar(sn[i])
    ensures sn == "" ==> r == Fail(EmptySerial)
    ensures |sn| > MaxSerialLength ==> r == Fail(SerialTooLong(|sn|))
  {
    SerialMatchIffAll(sn);
    if sn == "" then Fail(EmptySerial)
    else if |sn| > MaxSerialLength then Fail(SerialTooLong(|sn|))
    else if !MatchSerialChars(sn) then Fail(SerialIllegalChars(sn))
    else Pass
  }

  // ---------------------------------------------------------------------------
  // Project / task name and query parameter

  /** `ValidateProjectName`: 1 to 35 bytes, any content. */
  function ValidateProjectName(name: string): (r: Outcome<ValidationError>)
    ensures r.Pass? <==> 1 <= |name| <= MaxNameLength
    ensures |name| > MaxNameLength ==> r == Fail(NameTooLong(|name|))
  {
    if name == "" then Fail(EmptyName)
    else if |name| > MaxNameLength then Fail(NameTooLong(|name|))
    else Pass
  }

  /** `ValidateQueryParam`: 1 to 100 bytes that `url.QueryUnescape` accepts (its result is discarded). */
  function ValidateQueryParam(param: string): (r: Outcome<ValidationError>)
    ensures r.Pass? <==> 1 <= |param| <= MaxQueryLength && PercentEscapesWellFormed(param)
    ensures |param| > MaxQueryLength ==> r == Fail(QueryTooLong(|param|))
  {
    UnescapeSucceedsIffWellFormed(param);
    if param == "" then Fail(EmptyQuery)
    else if |param| > MaxQueryLength then Fail(QueryTooLong(|param|))
    else if QueryUnescape(param).None? then Fail(QueryBadEncoding(param))
    else Pass
  }

  // ---------------------------------------------------------------------------
  // Relations between validators

  /** No valid UUID is a valid device serial number: 36 bytes exceed the serial limit. */
  lemma UuidIsNeverSerial(s: string)
    requires ValidateUUID(s).Pass?
    ensures ValidateDeviceSN(s) == Fail(SerialTooLong(36))
  {
  }

  /** A valid serial number contains no '/', so it cannot split an MQTT topic level. */
  lemma SerialHasNoSlash(sn: string)
    requires ValidateDeviceSN(sn).Pass?
    ensures '/' !in sn
  {
  }

  /** An escaped query parameter is refused only for being empty or too long, never for its encoding. */
  lemma EscapedQueryRefusedOnlyForLength(q: ByteString)
    ensures ValidateQueryParam(QueryEscape(q)).Pass? <==> q != "" && |QueryEscape(q)| <= MaxQueryLength
  {
    UnescapeInvertsEscape(q);
    UnescapeSucceedsIffWellFormed(QueryEscape(q));
  }

  // ---------------------------------------------------------------------------
  // The global instance

  /** `InputValidator` has no fields; its identity is all that `GetValidator` manages. */
  class InputValidator {
    constructor () { }
  }

  /** The package-level variable `globalInputValidator`. */
  class ValidatorGlobal {
    var globalInputValidator: InputValidator?

    constructor ()
      ensures globalInputValidator == null
    {
      globalInputValidator := null;
    }

    /** `GetValidator`: create the instance on the first call, return the same one afterwards. */
    method GetValidator() returns (v: InputValidator)
      modifies this
      ensures globalInputValidator == v
      ensures old(globalInputValidator) != null ==> v == old(globalInputValidator)
      ensures old(globalInputValidator) == null ==> fresh(v)
    {
      if globalInputValidator == null {
        globalInputValidator := new InputValidator();
      }
      v := globalInputValidator;
    }
  }
}
