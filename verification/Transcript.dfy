/** Length-prefixed transcripts (internal/auth/transcript.go) and why signatures over them cannot be confused. */
module Transcript {
  import opened Tables

  const MAX_FIELD := 0x1_0000_0000

  /** Four bytes, most significant first. */
  function Be32(n: nat): (b: Bytes)
    requires n < MAX_FIELD
    ensures |b| == 4 && 0x100_0000 * b[0] as int + 0x1_0000 * b[1] as int + 0x100 * b[2] as int + b[3] as int == n
  {
    var high, low := n / 0x1_0000, n % 0x1_0000;
    [high / 0x100, high % 0x100, low / 0x100, low % 0x100]
  }

  function FromBe32(b: Bytes): (n: nat)
    requires |b| == 4
    ensures n == 0x100_0000 * b[0] as int + 0x1_0000 * b[1] as int + 0x100 * b[2] as int + b[3] as int
  {
    var high, low := 0x100 * (b[0] as int) + b[1] as int, 0x100 * (b[2] as int) + b[3] as int;
    0x1_0000 * high + low
  }

  lemma Be32RoundTrip(n: nat)
    requires n < MAX_FIELD
    ensures FromBe32(Be32(n)) == n
  {
  }

  predicate Fits(fields: seq<Bytes>) {
    forall f :: f in fields ==> |f| < MAX_FIELD
  }

  function Encode(fields: seq<Bytes>): Bytes
    requires Fits(fields)
    decreases |fields|
  {
    if fields == [] then []
    else
      var n := |fields| - 1;
      assert fields[n] in fields;
      Encode(fields[..n]) + Be32(|fields[n]|) + fields[n]
  }

  // BuildTranscript
  method BuildTranscript(domain: Bytes, fields: seq<Bytes>) returns (out: Outcome<Bytes>)
    ensures out.Ok? <==> domain != [] && Fits(fields)
    ensures out.Ok? ==> out.value == domain + Encode(fields)
    ensures out.Err? ==> out.error == InvalidInput
  {
    if domain == [] { return Err(InvalidInput); }
    var buffer := domain;
    for i := 0 to |fields|
      invariant Fits(fields[..i]) && buffer == domain + Encode(fields[..i])
    {
      if |fields[i]| >= MAX_FIELD { return Err(InvalidInput); }
      assert fields[..i + 1][..i] == fields[..i];
      var length := Be32(|fields[i]|);
      buffer := buffer + length;
      buffer := buffer + fields[i];
    }
    assert fields[..|fields|] == fields;
    return Ok(buffer);
  }

  /** Reads the fields back, or finds that the bytes are not a sequence of fields. */
  function Decode(b: Bytes): Option<seq<Bytes>>
    decreases |b|
  {
    if b == [] then Some([])
    else if |b| < 4 then None
    else
      var n := FromBe32(b[..4]);
      if |b| < 4 + n then None
      else
        var rest := Decode(b[4 + n..]);
        if rest.None? then None else Some([b[4..4 + n]] + rest.value)
  }

  lemma {:induction false} EncodeFront(first: Bytes, rest: seq<Bytes>)
    requires Fits([first] + rest)
    ensures |first| < MAX_FIELD && Fits(rest)
    ensures Encode([first] + rest) == Be32(|first|) + first + Encode(rest)
    decreases |rest|
  {
    hide Be32, Fits;
    var all := [first] + rest;
    FitsParts(first, rest);
    if rest == [] {
      assert all[..0] == [];
      assert [] + Be32(|first|) + first == Be32(|first|) + first + [];
    } else {
      var n := |rest| - 1;
      assert all[..n + 1] == [first] + rest[..n];
      EncodeFront(first, rest[..n]);
      var front, middle := Be32(|first|) + first, Encode(rest[..n]);
      assert (front + middle) + Be32(|rest[n]|) + rest[n] == front + (middle + Be32(|rest[n]|) + rest[n]);
    }
  }

  lemma FitsParts(first: Bytes, rest: seq<Bytes>)
    requires Fits([first] + rest)
    ensures |first| < MAX_FIELD && Fits(rest)
    ensures rest != [] ==>
              |rest[|rest| - 1]| < MAX_FIELD && Fits(rest[..|rest| - 1]) && Fits([first] + rest[..|rest| - 1])
  {
    var all := [first] + rest;
    assert first == all[0] && forall f :: f in rest ==> f in all;
    if rest != [] { assert rest[|rest| - 1] in rest; }
  }

  /** Round trip: the decoder recovers exactly the fields that were encoded. */
  lemma {:induction false} DecodeEncode(fields: seq<Bytes>)
    requires Fits(fields)
    ensures Decode(Encode(fields)) == Some(fields)
    decreases |fields|
  {
    if fields != [] {
      var first, rest := fields[0], fields[1..];
      assert fields == [first] + rest;
      EncodeFront(first, rest);
      DecodeEncode(rest);
      DecodeOne(first, Encode(rest));
      hide Encode, Decode;
    }
  }

  lemma DecodeOne(first: Bytes, tail: Bytes)
    requires |first| < MAX_FIELD && Decode(tail).Some?
    ensures Decode(Be32(|first|) + first + tail) == Some([first] + Decode(tail).value)
  {
    var b := Be32(|first|) + first + tail;
    Be32RoundTrip(|first|);
    assert b[..4] == Be32(|first|);
    assert b[4..4 + |first|] == first && b[4 + |first|..] == tail;
    hide Be32, FromBe32;
  }

  // ---- the five domains ----

  predicate IsAscii(s: string) {
    forall i :: 0 <= i < |s| ==> s[i] < 128 as char
  }

  /** `[]byte(s)` for a string of one-byte characters. */
  function Ascii(s: string): (b: Bytes)
    requires IsAscii(s)
    ensures |b| == |s| && forall i :: 0 <= i < |s| ==> b[i] == s[i] as int
  {
    if s == "" then []
    else
      var n := |s| - 1;
      Ascii(s[..n]) + [s[n] as Byte]
  }

  /** A 64-bit integer as PutUint64 writes it: two's complement, most significant byte first. */
  type Int64 = x: int | -0x8000_0000_0000_0000 <= x < 0x8000_0000_0000_0000

  /** Two's complement in 64 bits. */
  function Unsigned(x: Int64): (u: nat)
    ensures u < 0x1_0000_0000_0000_0000 && (u == x || u == x + 0x1_0000_0000_0000_0000)
  {
    if x < 0 then x + 0x1_0000_0000_0000_0000 else x
  }

  /** The number that eight bytes spell, most significant first. */
  function Weighted(b: Bytes): nat
    requires |b| == 8
  {
    0x100_0000_0000_0000 * b[0] as int + 0x1_0000_0000_0000 * b[1] as int + 0x100_0000_0000 * b[2] as int
    + 0x1_0000_0000 * b[3] as int + 0x100_0000 * b[4] as int + 0x1_0000 * b[5] as int + 0x100 * b[6] as int
    + b[7] as int
  }

  function Be64(x: Int64): (b: Bytes)
    ensures |b| == 8 && Weighted(b) == Unsigned(x)
  {
    var u := Unsigned(x);
    Be32(u / MAX_FIELD) + Be32(u % MAX_FIELD)
  }

  lemma Be64Injective(x: Int64, y: Int64)
    requires Be64(x) == Be64(y)
    ensures x == y
  {
    assert Weighted(Be64(x)) == Unsigned(x) && Weighted(Be64(y)) == Unsigned(y);
    hide Be64, Weighted;
  }

  /** Everything the relay and its clients sign or authenticate with a transcript. Text fields are their bytes. */
  datatype Statement =
    | AccountCreate(instance: Bytes, attempt: Bytes, username: Bytes, account: Bytes, challenge: Bytes, authSalt: Bytes,
                    loginKey: Bytes, accountKey: Bytes, envelopeHash: Bytes, device: Bytes, deviceName: Bytes,
                    deviceKey: Bytes)
    | LoginProof(instance: Bytes, attempt: Bytes, username: Bytes, challenge: Bytes, device: Bytes, deviceName: Bytes,
                 deviceKey: Bytes)
    | DeviceSession(instance: Bytes, attempt: Bytes, challenge: Bytes, device: Bytes)
    | DiscardGroups(instance: Bytes, account: Bytes, device: Bytes, group: Bytes, revision: Int64)
    | DekEnvelope(instance: Bytes, username: Bytes, account: Bytes, authSalt: Bytes)

  function DomainText(s: Statement): (text: string)
    ensures IsAscii(text) && |text| >= 18
  {
    match s
    case AccountCreate(_, _, _, _, _, _, _, _, _, _, _, _) => "lumina-account-create"
    case LoginProof(_, _, _, _, _, _, _) => "lumina-login-proof"
    case DeviceSession(_, _, _, _) => "lumina-device-session"
    case DiscardGroups(_, _, _, _, _) => "lumina-discard-sync-groups"
    case DekEnvelope(_, _, _, _) => "lumina-dek-envelope"
  }

  function Domain(s: Statement): (b: Bytes)
    ensures |b| == |DomainText(s)|
  {
    Ascii(DomainText(s))
  }

  // The order in which each builder passes its fields.
  function Fields(s: Statement): seq<Bytes> {
    match s
    case AccountCreate(instance, attempt, username, account, challenge, authSalt, loginKey, accountKey, envelopeHash,
                       device, name, key) =>
      [instance, attempt, challenge, username, account, authSalt, loginKey, accountKey, envelopeHash, device, name, key]
    case LoginProof(instance, attempt, username, challenge, device, name, key) =>
      [instance, attempt, username, challenge, device, name, key]
    case DeviceSession(instance, attempt, challenge, device) => [instance, attempt, challenge, device]
    case DiscardGroups(instance, account, device, group, revision) => [instance, account, device, group, Be64(revision)]
    case DekEnvelope(instance, username, account, authSalt) => [instance, username, account, authSalt]
  }

  function Transcribe(s: Statement): Bytes
    requires Fits(Fields(s))
  {
    Domain(s) + Encode(Fields(s))
  }

  /** The bytes are the ASCII text followed by the fields, each behind its length. */
  predicate Reads(b: Bytes, text: string, fields: seq<Bytes>) {
    && |text| <= |b| && (forall i :: 0 <= i < |text| ==> b[i] as int == text[i] as int)
    && Decode(b[|text|..]) == Some(fields)
  }

  lemma EncodedReads(text: string, fields: seq<Bytes>)
    requires IsAscii(text) && Fits(fields)
    ensures Reads(Ascii(text) + Encode(fields), text, fields)
  {
    var b := Ascii(text) + Encode(fields);
    assert b[|text|..] == Encode(fields);
    DecodeEncode(fields);
    hide Ascii, Encode, Decode;
  }

  // BuildTranscript with a domain constant, as all builders call it.
  method BuildDomain(text: string, fields: seq<Bytes>) returns (out: Outcome<Bytes>)
    requires IsAscii(text) && text != ""
    ensures out == if Fits(fields) then Ok(Ascii(text) + Encode(fields)) else Err(InvalidInput)
    ensures out.Ok? ==> Reads(out.value, text, fields)
  {
    hide Ascii, Encode, Decode, Reads, Fits;
    out := BuildTranscript(Ascii(text), fields);
    if out.Ok? { EncodedReads(text, fields); }
  }

  // BuildAccountCreateTranscript
  method BuildAccountCreate(s: Statement) returns (out: Outcome<Bytes>)
    requires s.AccountCreate?
    ensures out == if Fits(Fields(s)) then Ok(Transcribe(s)) else Err(InvalidInput)
    ensures out.Ok? ==>
              Reads(out.value, "lumina-account-create",
                    [s.instance, s.attempt, s.challenge, s.username, s.account, s.authSalt, s.loginKey, s.accountKey,
                     s.envelopeHash, s.device, s.deviceName, s.deviceKey])
  {
    hide Ascii, Encode, Reads, Fits;
    out := BuildDomain("lumina-account-create",
                       [s.instance, s.attempt, s.challenge, s.username, s.account, s.authSalt, s.loginKey,
                        s.accountKey, s.envelopeHash, s.device, s.deviceName, s.deviceKey]);
  }

  // BuildLoginTranscript
  method BuildLogin(s: Statement) returns (out: Outcome<Bytes>)
    requires s.LoginProof?
    ensures out == if Fits(Fields(s)) then Ok(Transcribe(s)) else Err(InvalidInput)
    ensures out.Ok? ==>
              Reads(out.value, "lumina-login-proof",
                    [s.instance, s.attempt, s.username, s.challenge, s.device, s.deviceName, s.deviceKey])
  {
    hide Ascii, Encode, Reads, Fits;
    out := BuildDomain("lumina-login-proof",
                       [s.instance, s.attempt, s.username, s.challenge, s.device, s.deviceName, s.deviceKey]);
  }

  // BuildSessionTranscript
  method BuildSession(s: Statement) returns (out: Outcome<Bytes>)
    requires s.DeviceSession?
    ensures out == if Fits(Fields(s)) then Ok(Transcribe(s)) else Err(InvalidInput)
    ensures out.Ok? ==> Reads(out.value, "lumina-device-session", [s.instance, s.attempt, s.challenge, s.device])
  {
    hide Ascii, Encode, Reads, Fits;
    out := BuildDomain("lumina-device-session", [s.instance, s.attempt, s.challenge, s.device]);
  }

  // BuildDiscardGroupsTranscript
  method BuildDiscardGroups(s: Statement) returns (out: Outcome<Bytes>)
    requires s.DiscardGroups?
    ensures out == if Fits(Fields(s)) then Ok(Transcribe(s)) else Err(InvalidInput)
    ensures out.Ok? ==>
              exists r :: Reads(out.value, "lumina-discard-sync-groups", [s.instance, s.account, s.device, s.group, r])
                          && |r| == 8 && Weighted(r) == Unsigned(s.revision)
  {
    hide Ascii, Encode, Reads, Fits;
    var revision := Be64(s.revision);
    out := BuildDomain("lumina-discard-sync-groups", [s.instance, s.account, s.device, s.group, revision]);
  }

  // BuildDEKEnvelopeAAD
  method BuildDekEnvelope(s: Statement) returns (out: Outcome<Bytes>)
    requires s.DekEnvelope?
    ensures out == if Fits(Fields(s)) then Ok(Transcribe(s)) else Err(InvalidInput)
    ensures out.Ok? ==> Reads(out.value, "lumina-dek-envelope", [s.instance, s.username, s.account, s.authSalt])
  {
    hide Ascii, Encode, Reads, Fits;
    out := BuildDomain("lumina-dek-envelope", [s.instance, s.username, s.account, s.authSalt]);
  }

  /** No two of the domains agree on their first ten bytes, so none is a prefix of another. */
  lemma DomainsDiffer(s: Statement, t: Statement)
    requires Domain(s)[..10] == Domain(t)[..10]
    ensures DomainText(s) == DomainText(t) && Domain(s) == Domain(t)
  {
    var x, y := DomainText(s), DomainText(t);
    forall i | 0 <= i < 10 ensures x[i] == y[i] {
      assert Domain(s)[..10][i] == x[i] as int && Domain(t)[..10][i] == y[i] as int;
    }
    assert x[7] == y[7] && x[8] == y[8] && x[9] == y[9];
  }

  lemma SameFieldsSameStatement(s: Statement, t: Statement)
    requires DomainText(s) == DomainText(t) && Fields(s) == Fields(t)
    ensures s == t
  {
    assert DomainText(s)[7..10] == DomainText(t)[7..10];
    if s.DiscardGroups? && t.DiscardGroups? {
      assert Fields(s)[4] == Fields(t)[4];
      Be64Injective(s.revision, t.revision);
    }
    hide Be64;
    forall i | 0 <= i < |Fields(s)| ensures Fields(s)[i] == Fields(t)[i] {}
  }

  /** Two transcripts of any kinds are equal only if kind and every field are equal. */
  lemma TranscriptsAreUnambiguous(s: Statement, t: Statement)
    requires Fits(Fields(s)) && Fits(Fields(t)) && Transcribe(s) == Transcribe(t)
    ensures s == t
  {
    hide Encode, Decode, Fields, DomainText, Domain, Fits;
    assert Domain(s)[..10] == Transcribe(s)[..10];
    assert Domain(t)[..10] == Transcribe(t)[..10];
    DomainsDiffer(s, t);
    assert Encode(Fields(s)) == Transcribe(s)[|Domain(s)|..];
    assert Encode(Fields(t)) == Transcribe(t)[|Domain(t)|..];
    DecodeEncode(Fields(s));
    DecodeEncode(Fields(t));
    SameFieldsSameStatement(s, t);
  }
}
