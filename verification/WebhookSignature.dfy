/** Verification of a webhook's signature and timestamp. The HMAC itself is a parameter. */
module WebhookSignature {
  import opened Entities
  import opened Int64
  import opened Text

  datatype Verdict = Valid | BadSignature | StaleTimestamp | MissingTimestamp | MissingSignature

  /** HMAC-SHA256 (RFC 2104): from a secret and a message to the bytes of the digest. */
  type Mac = (string, string) -> seq<Byte>

  const DEV_SECRET := "dev-webhook-secret"

  // ---- reading the headers ----

  datatype Fields = Fields(ts: string, sig: string)

  /** One part of the header: a `t` replaces the timestamp, a `v1` the signature, anything
      else is skipped. */
  function ReadPart(part: string, f: Fields): Fields {
    match Cut(part, '=')
    case None => f
    case Some((k, v)) => if k == "t" then f.(ts := v) else if k == "v1" then f.(sig := v) else f
  }

  function ReadParts(parts: seq<string>, f: Fields): Fields {
    if parts == [] then f else ReadPart(parts[|parts| - 1], ReadParts(parts[..|parts| - 1], f))
  }

  predicate HasTimestampKey(s: string) {
    exists i | 0 <= i < |s| - 1 :: s[i] == 't' && s[i + 1] == '='
  }

  predicate IsCombined(sigHeader: string) {
    ',' in sigHeader && HasTimestampKey(sigHeader)
  }

  /** The timestamp and signature the two headers carry, in either form. */
  function ReadHeaders(sigHeader: string, tsHeader: string): Fields {
    if IsCombined(sigHeader) then ReadParts(Split(sigHeader, ','), Fields(tsHeader, ""))
    else if |sigHeader| > 3 && sigHeader[..3] == "v1=" then Fields(tsHeader, sigHeader[3..])
    else Fields(tsHeader, sigHeader)
  }

  // ---- the checks ----

  function Abs64(x: int): int {
    if x < 0 then Wrap(-x) else x
  }

  function Distance(a: int, b: int): nat {
    if a < b then b - a else a - b
  }

  predicate IsFresh(ts: int, now: int, tolerance: int) {
    Abs64(Wrap(now - ts)) <= tolerance
  }

  /** The signature over a timestamp and a body, in hexadecimal. */
  function Sign(mac: Mac, secret: string, ts: int, raw: string): string {
    HexEncode(mac(secret, FormatInt(ts) + "." + raw))
  }

  function EffectiveSecret(secret: string): string {
    if secret == "" then DEV_SECRET else secret
  }

  function CheckFields(mac: Mac, raw: string, f: Fields, secret: string, now: int, tolerance: int): Verdict {
    if f.ts == "" then MissingTimestamp
    else if f.sig == "" then MissingSignature
    else
      match ParseInt64(TrimSpace(f.ts))
      case None => StaleTimestamp
      case Some(ts) =>
        if !IsFresh(ts, now, tolerance) then StaleTimestamp
        else if TrimSpace(f.sig) != Sign(mac, EffectiveSecret(secret), ts, raw) then BadSignature
        else Valid
  }

  function Verify(mac: Mac, raw: string, sigHeader: string, tsHeader: string, secret: string, now: int, tolerance: int)
    : Verdict
  {
    if sigHeader == "" then MissingSignature
    else CheckFields(mac, raw, ReadHeaders(sigHeader, tsHeader), secret, now, tolerance)
  }

  /** The verification as the service runs it, part by part. */
  method VerifyWebhook(mac: Mac, raw: string, sigHeader: string, tsHeader: string, secret: string, now: int,
                       tolerance: int)
    returns (verdict: Verdict)
    ensures verdict == Verify(mac, raw, sigHeader, tsHeader, secret, now, tolerance)
  {
    var key := if secret == "" then DEV_SECRET else secret;
    if sigHeader == "" {
      return MissingSignature;
    }
    var ts, sig := tsHeader, sigHeader;
    if IsCombined(sigHeader) {
      var sigPart := "";
      var parts := Split(sigHeader, ',');
      for i := 0 to |parts|
        invariant Fields(ts, sigPart) == ReadParts(parts[..i], Fields(tsHeader, ""))
      {
        assert parts[..i + 1][..i] == parts[..i];
        var kv := Cut(parts[i], '=');
        if kv.Some? {
          if kv.value.0 == "t" {
            ts := kv.value.1;
          } else if kv.value.0 == "v1" {
            sigPart := kv.value.1;
          }
        }
      }
      assert parts[..|parts|] == parts;
      sig := sigPart;
    } else if |sig| > 3 && sig[..3] == "v1=" {
      sig := sig[3..];
    }
    if ts == "" {
      return MissingTimestamp;
    }
    if sig == "" {
      return MissingSignature;
    }
    var parsed := ParseInt64(TrimSpace(ts));
    if parsed.None? || !IsFresh(parsed.value, now, tolerance) {
      return StaleTimestamp;
    }
    var expected := HexEncode(mac(key, FormatInt(parsed.value) + "." + raw));
    if TrimSpace(sig) != expected {
      return BadSignature;
    }
    verdict := Valid;
  }

  // ---- the three ways to print a signature ----

  function PrintCombined(ts: int, sig: string): string {
    "t=" + FormatInt(ts) + ",v1=" + sig
  }

  function PrintVersioned(sig: string): string {
    "v1=" + sig
  }

  lemma StampHasNoComma(ts: int)
    ensures ',' !in FormatInt(ts) && FormatInt(ts) != ""
  {
    var digits := FormatNat(if ts < 0 then -ts else ts);
    assert ',' !in digits;
  }

  lemma HexHasNoMarks(s: string)
    requires IsHex(s)
    ensures ',' !in s && '=' !in s && 't' !in s && 'v' !in s
  {
  }

  lemma CombinedSplits(stamp: string, sig: string)
    requires ',' !in stamp && IsHex(sig)
    ensures IsCombined("t=" + stamp + ",v1=" + sig)
    ensures Split("t=" + stamp + ",v1=" + sig, ',') == ["t=" + stamp, "v1=" + sig]
  {
    HexHasNoMarks(sig);
    var first, second := "t=" + stamp, "v1=" + sig;
    var header := "t=" + stamp + ",v1=" + sig;
    assert header == first + [','] + second;
    assert header[0] == 't' && header[1] == '=' && header[|first|] == ',';
    SplitAt(first, ',', second);
  }

  lemma PartsAreRead(stamp: string, sig: string, f: Fields)
    ensures ReadParts(["t=" + stamp, "v1=" + sig], f) == Fields(stamp, sig)
  {
    var first, second := "t=" + stamp, "v1=" + sig;
    assert first == "t" + ['='] + stamp && second == "v1" + ['='] + sig;
    CutAt("t", '=', stamp);
    CutAt("v1", '=', sig);
    assert [first, second][..1] == [first] && [first][..0] == [];
    assert ReadParts([first], f) == ReadPart(first, f);
    assert |"t"| != |"v1"|;
  }

  lemma CombinedIsRead(ts: int, sig: string, tsHeader: string)
    requires IsHex(sig)
    ensures ReadHeaders(PrintCombined(ts, sig), tsHeader) == Fields(FormatInt(ts), sig)
  {
    StampHasNoComma(ts);
    CombinedSplits(FormatInt(ts), sig);
    PartsAreRead(FormatInt(ts), sig, Fields(tsHeader, ""));
  }

  lemma SeparateIsRead(sig: string, tsHeader: string)
    requires IsHex(sig) && sig != ""
    ensures ReadHeaders(PrintVersioned(sig), tsHeader) == Fields(tsHeader, sig)
    ensures ReadHeaders(sig, tsHeader) == Fields(tsHeader, sig)
  {
    HexHasNoMarks(sig);
    var header := PrintVersioned(sig);
    assert header[..3] == "v1=" && header[3..] == sig;
    assert ',' !in header;
    assert |sig| > 3 ==> sig[..3][0] == sig[0] && sig[0] != 'v';
  }

  /** Whatever the signature, right or wrong, the combined header, the versioned header with
      a separate timestamp and the bare signature with one get the same verdict. */
  lemma ThreeFormsAgree(mac: Mac, raw: string, ts: int, sig: string, other: string, secret: string, now: int,
                        tolerance: int)
    requires IsHex(sig) && sig != ""
    ensures var combined := Verify(mac, raw, PrintCombined(ts, sig), other, secret, now, tolerance);
      && combined == Verify(mac, raw, PrintVersioned(sig), FormatInt(ts), secret, now, tolerance)
      && combined == Verify(mac, raw, sig, FormatInt(ts), secret, now, tolerance)
  {
    CombinedIsRead(ts, sig, other);
    SeparateIsRead(sig, FormatInt(ts));
  }

  /** What a printed signature meets: the age check of its timestamp, then the signature over
      it. */
  lemma FormattedIsChecked(mac: Mac, raw: string, ts: int, sig: string, other: string, secret: string, now: int,
                           tolerance: int)
    requires IsHex(sig) && sig != "" && Fits(ts)
    ensures Verify(mac, raw, PrintCombined(ts, sig), other, secret, now, tolerance) ==
      if !IsFresh(ts, now, tolerance) then StaleTimestamp
      else if sig == Sign(mac, EffectiveSecret(secret), ts, raw) then Valid
      else BadSignature
  {
    CombinedIsRead(ts, sig, other);
    StampHasNoComma(ts);
    ParseUndoesFormat(ts);
    TrimKeepsHex(sig);
  }

  /** A printed signature is accepted exactly when it is the right one and its timestamp is
      within the tolerance of now; it is refused as stale exactly when it is not. */
  lemma AcceptedExactly(mac: Mac, raw: string, ts: nat, sig: string, other: string, secret: string, now: nat,
                        tolerance: nat)
    requires IsHex(sig) && sig != "" && ts < TWO63 && now < TWO63
    ensures var verdict := Verify(mac, raw, PrintCombined(ts, sig), other, secret, now, tolerance);
      var close := Distance(now, ts) <= tolerance;
      && (verdict == Valid <==> close && sig == Sign(mac, EffectiveSecret(secret), ts, raw))
      && (verdict == StaleTimestamp <==> !close)
  {
    FormattedIsChecked(mac, raw, ts, sig, other, secret, now, tolerance);
    AgeIsExact(ts, now, tolerance);
  }

  /** A timestamp 2^63 seconds in the past is accepted with the right signature, however
      small the tolerance. */
  lemma FarTimestampIsAccepted(mac: Mac, raw: string, other: string, secret: string, now: nat, tolerance: nat)
    requires now < TWO63 && mac(EffectiveSecret(secret), FormatInt(now - TWO63) + "." + raw) != []
    ensures var ts := now - TWO63;
      Verify(mac, raw, PrintCombined(ts, Sign(mac, EffectiveSecret(secret), ts, raw)), other, secret, now, tolerance)
        == Valid
  {
    var ts := now - TWO63;
    FormattedIsChecked(mac, raw, ts, Sign(mac, EffectiveSecret(secret), ts, raw), other, secret, now, tolerance);
    AgeIsExact(ts, now, tolerance);
  }

  /** Signing and then verifying, in each of the three forms, succeeds exactly within the
      tolerance. */
  lemma SignedThenVerified(mac: Mac, raw: string, ts: nat, other: string, secret: string, now: nat, tolerance: nat)
    requires ts < TWO63 && now < TWO63
    requires mac(EffectiveSecret(secret), FormatInt(ts) + "." + raw) != []
    ensures var sig := Sign(mac, EffectiveSecret(secret), ts, raw);
      var close := Distance(now, ts) <= tolerance;
      && (Verify(mac, raw, PrintCombined(ts, sig), other, secret, now, tolerance) == Valid <==> close)
      && (Verify(mac, raw, PrintVersioned(sig), FormatInt(ts), secret, now, tolerance) == Valid <==> close)
      && (Verify(mac, raw, sig, FormatInt(ts), secret, now, tolerance) == Valid <==> close)
  {
    var sig := Sign(mac, EffectiveSecret(secret), ts, raw);
    AcceptedExactly(mac, raw, ts, sig, other, secret, now, tolerance);
    ThreeFormsAgree(mac, raw, ts, sig, other, secret, now, tolerance);
  }

  /** With 64-bit subtraction and absolute value, the age check means a true distance except
      for timestamps so far below zero that the distance does not fit. */
  lemma AgeIsExact(ts: int, now: nat, tolerance: nat)
    requires Fits(ts) && now < TWO63
    ensures IsFresh(ts, now, tolerance)
       <==> Distance(now, ts) <= tolerance || now - ts == TWO63 || (now - ts > TWO63 && TWO64 - (now - ts) <= tolerance)
    ensures ts >= 0 ==> (IsFresh(ts, now, tolerance) <==> Distance(now, ts) <= tolerance)
  {
    var d := now - ts;
    if d < TWO63 {
      assert Wrap(d) == d;
    } else {
      assert Wrap(d) == d - TWO64;
    }
  }

  // ---- any headers ----

  predicate StartsWith(s: string, prefix: string) {
    |prefix| <= |s| && s[..|prefix|] == prefix
  }

  lemma KeyIsPrefix(part: string, k: string, v: string)
    requires part == k + ['='] + v
    ensures k == "t" ==> StartsWith(part, "t=")
    ensures k == "v1" ==> StartsWith(part, "v1=")
  {
    if k == "t" {
      assert part[..2] == "t=";
    }
    if k == "v1" {
      assert part[..3] == "v1=";
    }
  }

  lemma OneKeyOnly(part: string)
    ensures !(StartsWith(part, "t=") && StartsWith(part, "v1="))
  {
    if StartsWith(part, "t=") {
      assert part[0] == part[..2][0] == 't';
      assert |part| >= 3 ==> part[..3][0] == 't';
    }
  }

  /** One part: after `t=` stands a timestamp, after `v1=` a signature; the rest is skipped. */
  lemma PartIsRead(part: string, f: Fields)
    ensures ReadPart(part, f) ==
      if StartsWith(part, "t=") then Fields(part[2..], f.sig)
      else if StartsWith(part, "v1=") then Fields(f.ts, part[3..])
      else f
  {
    var cut := Cut(part, '=');
    if cut.Some? {
      KeyIsPrefix(part, cut.value.0, cut.value.1);
    }
    if StartsWith(part, "t=") {
      assert part == "t" + ['='] + part[2..];
      CutAt("t", '=', part[2..]);
    } else if StartsWith(part, "v1=") {
      assert part == "v1" + ['='] + part[3..];
      CutAt("v1", '=', part[3..]);
    }
  }

  /** The last part with a prefix, if there is one. */
  ghost predicate IsLastWith(parts: seq<string>, prefix: string, i: nat) {
    i < |parts| && StartsWith(parts[i], prefix) && forall j | i < j < |parts| :: !StartsWith(parts[j], prefix)
  }

  /** Of several parts with a timestamp the last one counts; without any the field stays as it
      was. */
  lemma {:induction false} LastTimestampCounts(parts: seq<string>, f: Fields)
    ensures forall i: nat | IsLastWith(parts, "t=", i) :: ReadParts(parts, f).ts == parts[i][2..]
    ensures (forall i | 0 <= i < |parts| :: !StartsWith(parts[i], "t=")) ==> ReadParts(parts, f).ts == f.ts
  {
    if parts != [] {
      var n := |parts| - 1;
      LastTimestampCounts(parts[..n], f);
      PartIsRead(parts[n], ReadParts(parts[..n], f));
      forall i: nat | IsLastWith(parts, "t=", i)
        ensures ReadParts(parts, f).ts == parts[i][2..]
      {
        if i < n {
          assert IsLastWith(parts[..n], "t=", i);
        }
      }
    }
  }

  /** The same for signatures. */
  lemma {:induction false} LastSignatureCounts(parts: seq<string>, f: Fields)
    ensures forall i: nat | IsLastWith(parts, "v1=", i) :: ReadParts(parts, f).sig == parts[i][3..]
    ensures (forall i | 0 <= i < |parts| :: !StartsWith(parts[i], "v1=")) ==> ReadParts(parts, f).sig == f.sig
  {
    if parts != [] {
      var n := |parts| - 1;
      LastSignatureCounts(parts[..n], f);
      PartIsRead(parts[n], ReadParts(parts[..n], f));
      OneKeyOnly(parts[n]);
      forall i: nat | IsLastWith(parts, "v1=", i)
        ensures ReadParts(parts, f).sig == parts[i][3..]
      {
        if i < n {
          assert IsLastWith(parts[..n], "v1=", i);
        }
      }
    }
  }

  /** A header is read in parts exactly when it has a comma and `t=` somewhere; otherwise all of
      it is the signature, less a leading `v1=`. */
  lemma HeaderIsReadInParts(sigHeader: string, tsHeader: string)
    ensures ReadHeaders(sigHeader, tsHeader) ==
      if ',' in sigHeader && exists a, b :: sigHeader == a + "t=" + b
      then ReadParts(Split(sigHeader, ','), Fields(tsHeader, ""))
      else Fields(tsHeader, if StartsWith(sigHeader, "v1=") && sigHeader != "v1=" then sigHeader[3..] else sigHeader)
  {
    if i :| 0 <= i < |sigHeader| - 1 && sigHeader[i] == 't' && sigHeader[i + 1] == '=' {
      assert sigHeader == sigHeader[..i] + "t=" + sigHeader[i + 2..];
    }
    if a, b :| sigHeader == a + "t=" + b {
      assert sigHeader[|a|] == 't' && sigHeader[|a| + 1] == '=';
      assert HasTimestampKey(sigHeader);
    }
  }

  /** The key the signature is checked with. */
  lemma KeyIs(secret: string)
    ensures EffectiveSecret(secret) == if secret == "" then "dev-webhook-secret" else secret
  {
  }

  /** The timestamps that are let through: those within the tolerance of now, and those so far
      below zero that the distance wraps to a small or to the least 64-bit number. */
  predicate AgeAccepted(ts: int, now: nat, tolerance: nat) {
    || (now - ts <= tolerance && ts - now <= tolerance)
    || now - ts == TWO63
    || (now - ts > TWO63 && TWO64 - (now - ts) <= tolerance)
  }

  /** Whatever the two headers, which verdict is given. It is Valid exactly when there is a
      signature header, the timestamp read from it parses, its age is accepted, and the
      signature read is the hexadecimal HMAC over the timestamp, a dot and the body. */
  lemma VerdictExactly(mac: Mac, raw: string, sigHeader: string, tsHeader: string, secret: string, now: nat,
                       tolerance: nat)
    requires now < TWO63
    ensures var verdict := Verify(mac, raw, sigHeader, tsHeader, secret, now, tolerance);
      var f := ReadHeaders(sigHeader, tsHeader);
      var key := if secret == "" then "dev-webhook-secret" else secret;
      var present := sigHeader != "" && f.ts != "" && f.sig != "";
      var ts := ParseInt64(TrimSpace(f.ts));
      var timely := ts.Some? && AgeAccepted(ts.value, now, tolerance);
      var right := timely && TrimSpace(f.sig) == HexEncode(mac(key, FormatInt(ts.value) + "." + raw));
      && (verdict == MissingSignature <==> sigHeader == "" || (f.ts != "" && f.sig == ""))
      && (verdict == MissingTimestamp <==> sigHeader != "" && f.ts == "")
      && (verdict == StaleTimestamp <==> present && !timely)
      && (verdict == Valid <==> present && right)
  {
    var ts := ParseInt64(TrimSpace(ReadHeaders(sigHeader, tsHeader).ts));
    if ts.Some? {
      AgeIsExact(ts.value, now, tolerance);
    }
  }
}
