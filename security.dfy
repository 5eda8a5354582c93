/**
 * Session signing and the origin allow-list.  The signature of a session id
 * is the lower-case hex HMAC (RFC 2104) with SHA-256 (FIPS 180-4) of the id
 * under the process secret; the HMAC itself is a parameter.  Comparison works
 * on the UTF-8 bytes of both strings, as `Buffer.from` produces them.
 */
module Security {
  import opened Wrappers
  import opened JsStrings

  /** An HMAC-SHA-256 output. */
  type Digest = d: seq<byte> | |d| == 32 witness seq(32, i => 0)

  /** HMAC-SHA-256 keyed by the first argument over the second. */
  type Hmac = (string, string) -> Digest

  function HexDigit(n: int): (c: char)
    requires 0 <= n < 16
    ensures c as int < 0x80
  {
    "0123456789abcdef"[n]
  }

  /** `digest('hex')`: two lower-case hex digits per byte, most significant first. */
  function HexEncode(bytes: seq<byte>): (h: string)
    ensures |h| == 2 * |bytes|
    ensures IsAscii(h)
  {
    if |bytes| == 0 then ""
    else [HexDigit(bytes[0] as int / 16), HexDigit(bytes[0] as int % 16)] + HexEncode(bytes[1..])
  }

  /** `signSession`: empty without a secret, otherwise the 64 hex digits of the HMAC. */
  function SignSession(hmac: Hmac, secret: string, sessionId: string): (sig: string)
    ensures secret == "" ==> sig == ""
    ensures secret != "" ==> |sig| == 64 && IsAscii(sig)
  {
    if secret == "" then "" else HexEncode(hmac(secret, sessionId))
  }

  /**
   * `verifySessionSignature`: false without a secret or without a signature;
   * false when the byte lengths differ; otherwise a byte-wise comparison.
   * Altogether: it holds exactly when there is a secret and the signature is
   * the expected hex digest, character for character.
   */
  function VerifySessionSignature(hmac: Hmac, secret: string, sessionId: string, signature: Option<string>): (ok: bool)
    ensures ok <==> secret != "" && signature == Some(SignSession(hmac, secret, sessionId))
  {
    if secret == "" || signature.None? || signature.value == "" then false
    else
      var expected := SignSession(hmac, secret, sessionId);
      var a := Utf8Encode(expected);
      var b := Utf8Encode(signature.value);
      Utf8EqualsAscii(expected, signature.value);
      if |a| != |b| then false else a == b
  }

  /** Whatever is signed verifies, as long as there is a secret. */
  lemma SignThenVerify(hmac: Hmac, secret: string, sessionId: string)
    requires secret != ""
    ensures VerifySessionSignature(hmac, secret, sessionId, Some(SignSession(hmac, secret, sessionId)))
  {
  }

  /** Without a secret nothing verifies, and a missing or empty signature never does. */
  lemma NothingVerifiesWithoutSecretOrSignature(hmac: Hmac, secret: string, sessionId: string, signature: Option<string>)
    requires secret == "" || signature == None || signature == Some("")
    ensures !VerifySessionSignature(hmac, secret, sessionId, signature)
  {
  }

  /** Changing any one character of a valid signature makes it fail. */
  lemma AlteredSignatureFails(hmac: Hmac, secret: string, sessionId: string, i: nat, c: char)
    requires secret != "" && i < 64 && SignSession(hmac, secret, sessionId)[i] != c
    ensures !VerifySessionSignature(hmac, secret, sessionId, Some(SignSession(hmac, secret, sessionId)[i := c]))
  {
    var sig := SignSession(hmac, secret, sessionId);
    assert sig[i := c][i] != sig[i];
  }

  // ---------------------------------------------------------------------------
  // Origin allow-list

  /** `.map(s => s.trim()).filter(Boolean)`. */
  function TrimmedEntries(parts: seq<string>): (entries: seq<string>)
    ensures forall i :: 0 <= i < |entries| ==> entries[i] != ""
    ensures |entries| <= |parts|
  {
    if |parts| == 0 then []
    else
      var t := Trim(parts[0]);
      (if t == "" then [] else [t]) + TrimmedEntries(parts[1..])
  }

  /** The allow-list read from `ALLOWED_ORIGINS` (an unset variable reads as ""). */
  function AllowedOrigins(allowedEnv: string): seq<string> {
    TrimmedEntries(Split(allowedEnv, ','))
  }

  /** `isOriginAllowed(origin)`: anything with an empty list; otherwise a non-empty origin equal to an entry. */
  function IsOriginAllowed(allowedEnv: string, origin: string): bool {
    var allowed := AllowedOrigins(allowedEnv);
    if |allowed| == 0 then true
    else if origin == "" then false
    else origin in allowed
  }

  /** Some piece of `parts` trims to `o`. */
  predicate TrimsTo(parts: seq<string>, o: string) {
    exists i :: 0 <= i < |parts| && Trim(parts[i]) == o
  }

  /** An entry of the list is the trim of some comma-separated piece, and every non-blank piece gives one. */
  lemma {:induction false} TrimmedEntriesMembers(parts: seq<string>, o: string)
    ensures o in TrimmedEntries(parts) <==> o != "" && TrimsTo(parts, o)
    decreases |parts|
  {
    if |parts| > 0 {
      TrimmedEntriesMembers(parts[1..], o);
      if o != "" && Trim(parts[0]) != o && (exists i :: 0 <= i < |parts| && Trim(parts[i]) == o) {
        var i :| 0 <= i < |parts| && Trim(parts[i]) == o;
        assert Trim(parts[1..][i - 1]) == o;
      }
      if exists i :: 0 <= i < |parts| - 1 && Trim(parts[1..][i]) == o {
        var i :| 0 <= i < |parts| - 1 && Trim(parts[1..][i]) == o;
        assert Trim(parts[i + 1]) == o;
      }
    }
  }

  /**
   * The allow-list decision in terms of the raw setting: with no non-blank
   * entry every origin passes, even ""; otherwise an origin passes exactly when
   * it is non-empty and equals the trim of one of the comma-separated pieces.
   */
  lemma OriginAllowedIff(allowedEnv: string, origin: string)
    ensures IsOriginAllowed(allowedEnv, origin)
            <==> (|AllowedOrigins(allowedEnv)| == 0
                 || (origin != "" && TrimsTo(Split(allowedEnv, ','), origin)))
  {
    var pieces := Split(allowedEnv, ',');
    TrimmedEntriesMembers(pieces, origin);
    assert AllowedOrigins(allowedEnv) == TrimmedEntries(pieces);
  }

  /** With a non-empty list the origin itself is not trimmed: one with surrounding white space never matches. */
  lemma PaddedOriginRejected(allowedEnv: string, origin: string)
    requires |AllowedOrigins(allowedEnv)| > 0
    requires origin != "" && (IsJsWhitespace(origin[0]) || IsJsWhitespace(origin[|origin| - 1]))
    ensures !IsOriginAllowed(allowedEnv, origin)
  {
    TrimmedEntriesMembers(Split(allowedEnv, ','), origin);
  }

  lemma TrimLeadingSpace(s: string)
    requires s != [] && !IsJsWhitespace(s[0]) && !IsJsWhitespace(s[|s| - 1])
    ensures Trim([' '] + s) == s
  {
    assert ([' '] + s)[1..] == s;
    assert TrimStart([' '] + s) == TrimStart(s) == s;
  }

  lemma TrimBlank(w: string)
    requires forall i :: 0 <= i < |w| ==> IsJsWhitespace(w[i])
    ensures Trim(w) == ""
  {
    TrimStartSuffix(w);
  }

  /** Two pieces around one comma. */
  lemma SplitTwo(a: string, b: string)
    requires ',' !in a && ',' !in b
    ensures Split(a + [','] + b, ',') == [a, b]
  {
    SplitAtFirst(a, ',', b);
    SplitWithoutSeparator(b, ',');
  }

  /** The list made of two pieces is their trims, blank ones dropped. */
  lemma EntriesOfTwo(x: string, y: string)
    ensures TrimmedEntries([x, y]) == (if Trim(x) == "" then [] else [Trim(x)]) + (if Trim(y) == "" then [] else [Trim(y)])
  {
    assert [x, y][1..] == [y];
    assert [y][1..] == [];
  }

  /** A setting "a, b" (as commonly written, a space after the comma) lists exactly `a` and `b`. */
  lemma ListOfTwo(a: string, b: string)
    requires a != "" && ',' !in a && !IsJsWhitespace(a[0]) && !IsJsWhitespace(a[|a| - 1])
    requires b != "" && ',' !in b && !IsJsWhitespace(b[0]) && !IsJsWhitespace(b[|b| - 1])
    ensures AllowedOrigins(a + ", " + b) == [a, b]
  {
    var rest := [' '] + b;
    assert a + ", " + b == a + [','] + rest;
    SplitTwo(a, rest);
    TrimOfTrimmed(a);
    TrimLeadingSpace(b);
    EntriesOfTwo(a, rest);
  }

  /** With the list "a, b", `b` passes and neither " b" nor the missing origin does. */
  lemma TwoOriginsExample(a: string, b: string)
    requires a != "" && ',' !in a && !IsJsWhitespace(a[0]) && !IsJsWhitespace(a[|a| - 1])
    requires b != "" && ',' !in b && !IsJsWhitespace(b[0]) && !IsJsWhitespace(b[|b| - 1])
    ensures IsOriginAllowed(a + ", " + b, b)
    ensures !IsOriginAllowed(a + ", " + b, " " + b)
    ensures !IsOriginAllowed(a + ", " + b, "")
  {
    ListOfTwo(a, b);
    PaddedOriginRejected(a + ", " + b, " " + b);
  }

  /** Pieces made only of white space give no entry. */
  lemma {:induction false} BlankPiecesNoEntries(parts: seq<string>)
    requires forall j, k :: 0 <= j < |parts| && 0 <= k < |parts[j]| ==> IsJsWhitespace(parts[j][k])
    ensures TrimmedEntries(parts) == []
    decreases |parts|
  {
    if |parts| > 0 {
      TrimBlank(parts[0]);
      forall j, k | 0 <= j < |parts| - 1 && 0 <= k < |parts[1..][j]| ensures IsJsWhitespace(parts[1..][j][k]) {
        assert parts[1..][j] == parts[j + 1];
      }
      BlankPiecesNoEntries(parts[1..]);
    }
  }

  /**
   * A setting made only of commas and white space (the empty setting
   * included) lists nothing, so every origin passes, even a missing one.
   */
  lemma BlankSettingAllowsAll(setting: string, origin: string)
    requires forall i :: 0 <= i < |setting| ==> setting[i] == ',' || IsJsWhitespace(setting[i])
    ensures IsOriginAllowed(setting, origin)
  {
    var parts := Split(setting, ',');
    forall j, k | 0 <= j < |parts| && 0 <= k < |parts[j]| ensures IsJsWhitespace(parts[j][k]) {
      SplitCharsFrom(setting, ',', j, k);
      assert parts[j][k] != ',';
    }
    BlankPiecesNoEntries(parts);
  }
}
