/** DollNetwork/enrollment_signing.go and DollLink/Authentication/types.go: the byte strings
    that are signed. */
module Transcript {
  import opened Common

  type Byte = x: int | 0 <= x < 256
  type Bytes = seq<Byte>

  const MAX_SIGNED_STRING := 256

  predicate IsAscii(s: string) {
    forall i :: 0 <= i < |s| ==> s[i] as int < 128
  }

  type AsciiString = s: string | IsAscii(s)

  function Ascii(s: AsciiString): Bytes {
    seq(|s|, i requires 0 <= i < |s| => s[i] as int)
  }

  lemma AsciiIsInjective(a: AsciiString, b: AsciiString)
    requires Ascii(a) == Ascii(b)
    ensures a == b
  {
    forall i | 0 <= i < |a| ensures a[i] == b[i] {
      assert Ascii(a)[i] == Ascii(b)[i];
    }
  }

  /** "NEONDOLL-SIGN-V1" and a zero byte. */
  const DOMAIN: Bytes := Ascii("NEONDOLL-SIGN-V1") + [0]

  // ----- framing

  /** The last `width` bytes of a number, most significant first. */
  function BigEndian(n: nat, width: nat): (b: Bytes)
    ensures |b| == width
  {
    if width == 0 then [] else BigEndian(n / 0x100, width - 1) + [n % 0x100]
  }

  function FromBigEndian(b: Bytes): nat {
    if b == [] then 0 else FromBigEndian(b[..|b| - 1]) * 0x100 + b[|b| - 1]
  }

  function Power256(width: nat): nat {
    if width == 0 then 1 else 0x100 * Power256(width - 1)
  }

  lemma {:induction false} BigEndianRoundTrip(n: nat, width: nat)
    requires n < Power256(width)
    ensures FromBigEndian(BigEndian(n, width)) == n
  {
    if width > 0 {
      assert n / 0x100 < Power256(width - 1);
      BigEndianRoundTrip(n / 0x100, width - 1);
      assert BigEndian(n, width)[..width - 1] == BigEndian(n / 0x100, width - 1);
    }
  }

  lemma {:induction false} FromBigEndianRoundTrip(b: Bytes)
    ensures BigEndian(FromBigEndian(b), |b|) == b
  {
    if b != [] {
      FromBigEndianRoundTrip(b[..|b| - 1]);
    }
  }

  const LENGTH_SIZE: nat := 4

  function Uint32(n: nat): (b: Bytes)
    ensures |b| == LENGTH_SIZE
  {
    BigEndian(n, LENGTH_SIZE)
  }

  predicate ValidField(field: Bytes) {
    0 < |field| <= MAX_SIGNED_STRING
  }

  predicate ValidFields(fields: seq<Bytes>) {
    forall field :: field in fields ==> ValidField(field)
  }

  function Frame(field: Bytes): Bytes {
    Uint32(|field|) + field
  }

  function Frames(fields: seq<Bytes>): Bytes {
    if fields == [] then [] else Frame(fields[0]) + Frames(fields[1..])
  }

  function Signed(kind: Bytes, fields: seq<Bytes>): Option<Bytes> {
    if ValidFields([kind] + fields) then Some(DOMAIN + Frames([kind] + fields)) else None
  }

  /** The room the fields take: four bytes of length and the field itself, each. */
  function Room(fields: seq<Bytes>): nat {
    if fields == [] then 0 else Room(fields[..|fields| - 1]) + LENGTH_SIZE + |fields[|fields| - 1]|
  }

  lemma RoomSnoc(fields: seq<Bytes>, n: nat)
    requires n < |fields|
    ensures Room(fields[..n + 1]) == Room(fields[..n]) + LENGTH_SIZE + |fields[n]|
  {
    assert fields[..n + 1][..n] == fields[..n];
  }

  lemma {:induction false} FramesFillTheirRoom(fields: seq<Bytes>)
    ensures |Frames(fields)| == Room(fields)
  {
    if fields != [] {
      var init, last := fields[..|fields| - 1], fields[|fields| - 1];
      FramesFillTheirRoom(init);
      FramesSnoc(init, last);
      assert fields == init + [last];
    }
  }

  lemma FramesCons(field: Bytes, rest: seq<Bytes>)
    ensures Frames([field] + rest) == Uint32(|field|) + field + Frames(rest)
    ensures ValidFields([field] + rest) <==> ValidField(field) && ValidFields(rest)
  {
    var fields := [field] + rest;
    assert fields[0] == field && fields[1..] == rest;
    assert field in fields && forall f :: f in fields <==> f == field || f in rest;
  }

  lemma {:induction false} FramesSnoc(fields: seq<Bytes>, field: Bytes)
    ensures Frames(fields + [field]) == Frames(fields) + Frame(field)
  {
    if fields == [] {
      assert Frames([field]) == Frame(field) + Frames([]);
    } else {
      assert (fields + [field])[1..] == fields[1..] + [field];
      FramesSnoc(fields[1..], field);
    }
  }

  // ----- reading it back

  function Parse(b: Bytes): Option<seq<Bytes>>
    decreases |b|
  {
    if b == [] then Some([])
    else if |b| < 4 then None
    else
      var n := FromBigEndian(b[..4]);
      if n == 0 || n > MAX_SIGNED_STRING || 4 + n > |b| then None
      else
        var rest := Parse(b[4 + n..]);
        if rest.None? then None else Some([b[4..4 + n]] + rest.value)
  }

  function Read(b: Bytes): Option<(Bytes, seq<Bytes>)> {
    if |b| < |DOMAIN| || b[..|DOMAIN|] != DOMAIN then None
    else
      var fields := Parse(b[|DOMAIN|..]);
      if fields.None? || fields.value == [] then None else Some((fields.value[0], fields.value[1..]))
  }

  lemma {:induction false} ParseFrames(fields: seq<Bytes>)
    requires ValidFields(fields)
    ensures Parse(Frames(fields)) == Some(fields)
  {
    if fields != [] {
      var field, rest := fields[0], fields[1..];
      var b, n := Frames(fields), |field|;
      assert field in fields && forall f :: f in rest ==> f in fields;
      BigEndianRoundTrip(n, LENGTH_SIZE);
      assert b[..4] == Uint32(n) && b[4..4 + n] == field && b[4 + n..] == Frames(rest);
      ParseFrames(rest);
      assert [field] + rest == fields;
    }
  }

  /** The first frame read is what stood there. */
  lemma FrameRead(b: Bytes, n: int)
    requires |b| >= 4 && n == FromBigEndian(b[..4]) && 4 + n <= |b|
    ensures b == Uint32(n) + b[4..4 + n] + b[4 + n..]
  {
    FromBigEndianRoundTrip(b[..4]);
  }

  lemma {:induction false} FramesParse(b: Bytes)
    requires Parse(b).Some?
    ensures ValidFields(Parse(b).value) && Frames(Parse(b).value) == b
    decreases |b|
  {
    if b != [] {
      var n := FromBigEndian(b[..4]);
      var field, after := b[4..4 + n], b[4 + n..];
      FramesParse(after);
      FrameRead(b, n);
      FramesCons(field, Parse(after).value);
    }
  }

  /** Reading a transcript gives back the kind and fields it was made from. */
  lemma ReadSigned(kind: Bytes, fields: seq<Bytes>)
    requires Signed(kind, fields).Some?
    ensures Read(Signed(kind, fields).value) == Some((kind, fields))
  {
    var all := [kind] + fields;
    ParseFrames(all);
    var b := DOMAIN + Frames(all);
    assert b[..|DOMAIN|] == DOMAIN && b[|DOMAIN|..] == Frames(all);
    assert all[1..] == fields;
  }

  /** Only transcripts can be read, each in one way. */
  lemma SignedRead(b: Bytes)
    requires Read(b).Some?
    ensures var (kind, fields) := Read(b).value;
            Signed(kind, fields) == Some(b)
  {
    var rest := b[|DOMAIN|..];
    FramesParse(rest);
    var all := Parse(rest).value;
    assert [all[0]] + all[1..] == all;
    assert b == b[..|DOMAIN|] + rest;
  }

  /** A transcript determines kind, number of fields and every field. */
  lemma SignedIsInjective(kind: Bytes, fields: seq<Bytes>, kind': Bytes, fields': seq<Bytes>)
    requires Signed(kind, fields).Some? && Signed(kind, fields) == Signed(kind', fields')
    ensures kind == kind' && fields == fields'
  {
    ReadSigned(kind, fields);
    ReadSigned(kind', fields');
  }

  // ----- the code

  method StringField(value: Bytes) returns (field: Option<Bytes>)
    ensures field == if ValidField(value) then Some(value) else None
  {
    if |value| == 0 || |value| > MAX_SIGNED_STRING { return None; }
    return Some(value);
  }

  method AppendField(dst: Bytes, field: Bytes) returns (b: Bytes)
    ensures b == dst + Frame(field)
  {
    var length := Uint32(|field|);
    b := dst + length;
    b := b + field;
    assert dst + length + field == dst + (length + field);
  }

  /** The first pass: checks the fields and adds up the room they take. */
  method Measure(kind: Bytes, fields: seq<Bytes>) returns (ok: bool, total: nat)
    ensures ok <==> ValidFields([kind] + fields)
    ensures ok ==> total == |DOMAIN| + Room([kind] + fields)
  {
    var typeField := StringField(kind);
    ghost var all := [kind] + fields;
    assert all[0] == kind && forall i :: 0 <= i < |fields| ==> fields[i] == all[i + 1];
    if typeField.None? {
      assert kind in all;
      return false, 0;
    }
    total := |DOMAIN| + 4 + |kind|;
    RoomSnoc(all, 0);
    for i := 0 to |fields|
      invariant forall k :: 0 <= k <= i ==> ValidField(all[k])
      invariant total == |DOMAIN| + Room(all[..i + 1])
    {
      if |fields[i]| == 0 || |fields[i]| > MAX_SIGNED_STRING {
        assert all[i + 1] in all;
        return false, 0;
      }
      RoomSnoc(all, i + 1);
      total := total + 4 + |fields[i]|;
    }
    assert all[..|all|] == all;
    return true, total;
  }

  /** The capacity computed in the first pass is exactly the length of the result. */
  method SignedMessage(kind: Bytes, fields: seq<Bytes>) returns (message: Option<Bytes>, total: nat)
    ensures message == Signed(kind, fields)
    ensures message.Some? ==> total == |message.value| == |DOMAIN| + Room([kind] + fields)
  {
    var ok;
    ok, total := Measure(kind, fields);
    if !ok { return None, 0; }
    ghost var all := [kind] + fields;
    var b := AppendField(DOMAIN, kind);
    assert all[..1] == [kind] && Frames([kind]) == Frame(kind) + Frames([]);
    for i := 0 to |fields|
      invariant b == DOMAIN + Frames(all[..i + 1])
    {
      assert all[..i + 2] == all[..i + 1] + [fields[i]];
      FramesSnoc(all[..i + 1], fields[i]);
      b := AppendField(b, fields[i]);
    }
    assert all[..|all|] == all;
    FramesFillTheirRoom(all);
    return Some(b), total;
  }

  // ----- the messages that are signed

  /** The messages, with keys and nonces decoded, times formatted and metadata encoded.
      Version, metadata, status, permissions and frame type are carried but not signed. */
  datatype Message =
    | EnrollmentBegin(version: int, core: Bytes, request: Bytes, bodyKey: Bytes, wgKey: Bytes, nonce: Bytes, metadata: Bytes)
    | EnrollmentRedeem(version: int, core: Bytes, request: Bytes, invitation: Bytes, secret: Bytes, bodyKey: Bytes,
                       wgKey: Bytes, nonce: Bytes, metadata: Bytes)
    | EnrollmentResult(version: int, core: Bytes, request: Bytes, bodyKey: Bytes, nonce: Bytes)
    | EnrollmentPending(version: int, core: Bytes, request: Bytes, fingerprint: Bytes, coreNonce: Bytes, code: Bytes, expires: Bytes)
    | EnrollmentReceipt(version: int, core: Bytes, request: Bytes, body: Bytes, fingerprint: Bytes, membership: Bytes,
                        issued: Bytes, status: Bytes, permissions: seq<Bytes>)
    | AuthChallenge(version: int, frame: Bytes, core: Bytes, body: Bytes, session: Bytes, nonce: Bytes, coreNonce: Bytes,
                    expires: Bytes, algorithm: Bytes)
    | AuthProof(version: int, frame: Bytes, core: Bytes, body: Bytes, session: Bytes, nonce: Bytes, coreNonce: Bytes, algorithm: Bytes)
    | AuthAccept(version: int, frame: Bytes, core: Bytes, body: Bytes, session: Bytes, outcome: Bytes)

  const ENROLLMENT_BEGIN: AsciiString := "enrollment.begin"
  const ENROLLMENT_REDEEM: AsciiString := "enrollment.redeem"
  const ENROLLMENT_RESULT: AsciiString := "enrollment.result.request"
  const ENROLLMENT_PENDING: AsciiString := "enrollment.pending"
  const ENROLLMENT_RECEIPT: AsciiString := "enrollment.receipt"
  const AUTH_CHALLENGE: AsciiString := "body.auth.challenge"
  const AUTH_PROOF: AsciiString := "body.auth.proof"
  const AUTH_ACCEPT: AsciiString := "body.auth.accept"

  function Kind(m: Message): AsciiString {
    if m.EnrollmentBegin? then ENROLLMENT_BEGIN
    else if m.EnrollmentRedeem? then ENROLLMENT_REDEEM
    else if m.EnrollmentResult? then ENROLLMENT_RESULT
    else if m.EnrollmentPending? then ENROLLMENT_PENDING
    else if m.EnrollmentReceipt? then ENROLLMENT_RECEIPT
    else if m.AuthChallenge? then AUTH_CHALLENGE
    else if m.AuthProof? then AUTH_PROOF
    else AUTH_ACCEPT
  }

  function Fields(m: Message): seq<Bytes> {
    match m
    case EnrollmentBegin(_, core, request, bodyKey, wgKey, nonce, _) => [core, request, bodyKey, wgKey, nonce]
    case EnrollmentRedeem(_, core, request, invitation, secret, bodyKey, wgKey, nonce, _) =>
      [core, request, invitation, secret, bodyKey, wgKey, nonce]
    case EnrollmentResult(_, core, request, bodyKey, nonce) => [core, request, bodyKey, nonce]
    case EnrollmentPending(_, core, request, fingerprint, coreNonce, code, expires) =>
      [core, request, fingerprint, coreNonce, code, expires]
    case EnrollmentReceipt(_, core, request, body, fingerprint, membership, issued, _, _) =>
      [core, request, body, fingerprint, membership, issued]
    case AuthChallenge(_, _, core, body, session, nonce, coreNonce, expires, algorithm) =>
      [core, body, session, nonce, coreNonce, expires, algorithm]
    case AuthProof(_, _, core, body, session, nonce, coreNonce, algorithm) => [core, body, session, nonce, coreNonce, algorithm]
    case AuthAccept(_, _, core, body, session, outcome) => [core, body, session, outcome]
  }

  /** The message without what it carries unsigned. */
  function Bare(m: Message): Message {
    match m
    case EnrollmentBegin(_, core, request, bodyKey, wgKey, nonce, _) => EnrollmentBegin(0, core, request, bodyKey, wgKey, nonce, [])
    case EnrollmentRedeem(_, core, request, invitation, secret, bodyKey, wgKey, nonce, _) =>
      EnrollmentRedeem(0, core, request, invitation, secret, bodyKey, wgKey, nonce, [])
    case EnrollmentResult(_, core, request, bodyKey, nonce) => EnrollmentResult(0, core, request, bodyKey, nonce)
    case EnrollmentPending(_, core, request, fingerprint, coreNonce, code, expires) =>
      EnrollmentPending(0, core, request, fingerprint, coreNonce, code, expires)
    case EnrollmentReceipt(_, core, request, body, fingerprint, membership, issued, _, _) =>
      EnrollmentReceipt(0, core, request, body, fingerprint, membership, issued, [], [])
    case AuthChallenge(_, _, core, body, session, nonce, coreNonce, expires, algorithm) =>
      AuthChallenge(0, [], core, body, session, nonce, coreNonce, expires, algorithm)
    case AuthProof(_, _, core, body, session, nonce, coreNonce, algorithm) =>
      AuthProof(0, [], core, body, session, nonce, coreNonce, algorithm)
    case AuthAccept(_, _, core, body, session, outcome) => AuthAccept(0, [], core, body, session, outcome)
  }

  function Transcribe(m: Message): Option<Bytes> {
    Signed(Ascii(Kind(m)), Fields(m))
  }

  method CollectFields(values: seq<Bytes>) returns (fields: Option<seq<Bytes>>)
    ensures fields == if ValidFields(values) then Some(values) else None
  {
    var result: seq<Bytes> := [];
    for i := 0 to |values|
      invariant result == values[..i] && ValidFields(result)
    {
      var field := StringField(values[i]);
      if field.None? {
        assert values[i] in values;
        return None;
      }
      result := result + [field.value];
    }
    assert values[..|values|] == values;
    return Some(result);
  }

  /** The bytes sign and verify work on: the fields are checked first. */
  method TranscribeMessage(m: Message) returns (transcript: Option<Bytes>)
    ensures transcript == Transcribe(m)
  {
    ghost var all := [Ascii(Kind(m))] + Fields(m);
    assert forall i :: 0 <= i < |Fields(m)| ==> all[i + 1] == Fields(m)[i];
    var fields := CollectFields(Fields(m));
    if fields.None? {
      var field :| field in Fields(m) && !ValidField(field);
      assert field in all;
      return None;
    }
    var total;
    transcript, total := SignedMessage(Ascii(Kind(m)), fields.value);
  }

  /** The kinds as they stand in the transcript, and the bytes every transcript starts with. */
  lemma KindsAndDomain(m: Message)
    ensures m.EnrollmentBegin? ==> Kind(m) == "enrollment.begin"
    ensures m.EnrollmentRedeem? ==> Kind(m) == "enrollment.redeem"
    ensures m.EnrollmentResult? ==> Kind(m) == "enrollment.result.request"
    ensures m.EnrollmentPending? ==> Kind(m) == "enrollment.pending"
    ensures m.EnrollmentReceipt? ==> Kind(m) == "enrollment.receipt"
    ensures m.AuthChallenge? ==> Kind(m) == "body.auth.challenge"
    ensures m.AuthProof? ==> Kind(m) == "body.auth.proof"
    ensures m.AuthAccept? ==> Kind(m) == "body.auth.accept"
    ensures |DOMAIN| == 17 && DOMAIN[16] == 0 && forall i :: 0 <= i < 16 ==> DOMAIN[i] == "NEONDOLL-SIGN-V1"[i] as int
  {
  }

  /** Reading the transcript of a message gives its fields in this order. */
  lemma TranscriptReads(m: Message)
    requires Transcribe(m).Some?
    ensures Read(Transcribe(m).value).Some?
    ensures var (kind, fields) := Read(Transcribe(m).value).value;
            && (m.EnrollmentBegin? ==> kind == Ascii(ENROLLMENT_BEGIN) && fields == [m.core, m.request, m.bodyKey, m.wgKey, m.nonce])
            && (m.EnrollmentRedeem? ==>
                  kind == Ascii(ENROLLMENT_REDEEM)
                  && fields == [m.core, m.request, m.invitation, m.secret, m.bodyKey, m.wgKey, m.nonce])
            && (m.EnrollmentResult? ==> kind == Ascii(ENROLLMENT_RESULT) && fields == [m.core, m.request, m.bodyKey, m.nonce])
            && (m.EnrollmentPending? ==>
                  kind == Ascii(ENROLLMENT_PENDING)
                  && fields == [m.core, m.request, m.fingerprint, m.coreNonce, m.code, m.expires])
            && (m.EnrollmentReceipt? ==>
                  kind == Ascii(ENROLLMENT_RECEIPT)
                  && fields == [m.core, m.request, m.body, m.fingerprint, m.membership, m.issued])
            && (m.AuthChallenge? ==>
                  kind == Ascii(AUTH_CHALLENGE)
                  && fields == [m.core, m.body, m.session, m.nonce, m.coreNonce, m.expires, m.algorithm])
            && (m.AuthProof? ==>
                  kind == Ascii(AUTH_PROOF) && fields == [m.core, m.body, m.session, m.nonce, m.coreNonce, m.algorithm])
            && (m.AuthAccept? ==> kind == Ascii(AUTH_ACCEPT) && fields == [m.core, m.body, m.session, m.outcome])
  {
    ReadSigned(Ascii(Kind(m)), Fields(m));
  }

  lemma KindsDiffer(a: Message, b: Message)
    requires Kind(a) == Kind(b)
    ensures a.EnrollmentBegin? <==> b.EnrollmentBegin?
    ensures a.EnrollmentRedeem? <==> b.EnrollmentRedeem?
    ensures a.EnrollmentResult? <==> b.EnrollmentResult?
    ensures a.EnrollmentPending? <==> b.EnrollmentPending?
    ensures a.EnrollmentReceipt? <==> b.EnrollmentReceipt?
    ensures a.AuthChallenge? <==> b.AuthChallenge?
    ensures a.AuthProof? <==> b.AuthProof?
    ensures a.AuthAccept? <==> b.AuthAccept?
  {
    assert |Kind(a)| == |Kind(b)| && Kind(a)[0] == Kind(b)[0] && Kind(a)[11] == Kind(b)[11];
  }

  lemma FieldsAreTheBareMessage(a: Message, b: Message)
    ensures Kind(a) == Kind(b) && Fields(a) == Fields(b) <==> Bare(a) == Bare(b)
  {
    if Kind(a) == Kind(b) && Fields(a) == Fields(b) {
      KindsDiffer(a, b);
      assert |Fields(a)| == |Fields(b)| && forall i :: 0 <= i < |Fields(a)| ==> Fields(a)[i] == Fields(b)[i];
    }
  }

  /** Two messages, of the same or of different kinds, sign the same bytes exactly when they
      differ at most in what is carried unsigned. */
  lemma SameBytesExactlyWhenSameSignedPart(a: Message, b: Message)
    requires Transcribe(a).Some?
    ensures Transcribe(a) == Transcribe(b) <==> Bare(a) == Bare(b)
  {
    FieldsAreTheBareMessage(a, b);
    if Transcribe(a) == Transcribe(b) {
      SignedIsInjective(Ascii(Kind(a)), Fields(a), Ascii(Kind(b)), Fields(b));
      AsciiIsInjective(Kind(a), Kind(b));
    }
  }

  /** So the signature of a receipt does not cover its permissions or its status. */
  lemma ReceiptPermissionsAreNotSigned(receipt: Message, permissions: seq<Bytes>, status: Bytes)
    requires receipt.EnrollmentReceipt?
    ensures Transcribe(receipt.(permissions := permissions, status := status)) == Transcribe(receipt)
  {
  }

  /** Two such receipts that can be signed. */
  lemma ReceiptsThatCoincide() returns (a: Message, b: Message)
    ensures a.EnrollmentReceipt? && b.EnrollmentReceipt? && a.permissions != b.permissions
    ensures Transcribe(a).Some? && Transcribe(a) == Transcribe(b)
  {
    a := EnrollmentReceipt(1, [1], [1], [1], [1], [1], [1], [1], []);
    b := a.(permissions := [[1]]);
    SignableExactlyWhenFieldsFit(a);
    ReceiptPermissionsAreNotSigned(a, b.permissions, b.status);
  }

  /** A message can be signed exactly when each of its fields has between 1 and 256 bytes. */
  lemma SignableExactlyWhenFieldsFit(m: Message)
    ensures Transcribe(m).Some? <==> forall i :: 0 <= i < |Fields(m)| ==> 1 <= |Fields(m)[i]| <= 256
  {
    var all := [Ascii(Kind(m))] + Fields(m);
    assert forall i :: 0 <= i < |Fields(m)| ==> all[i + 1] == Fields(m)[i];
    if ValidFields(all) {
      forall i | 0 <= i < |Fields(m)| ensures ValidField(Fields(m)[i]) {
        assert all[i + 1] in all;
      }
    }
  }
}
