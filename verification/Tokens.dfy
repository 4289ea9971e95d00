/** Public tutor references. */
module Identity {
  import opened Wrappers
  import opened Text
  import Base64
  import Utf8

  const SUFFIX := "-nxt"

  /** `None` is the error for an empty id. */
  function EncodePublicRef(userId: string): Option<string> {
    if userId == "" then None else Some(Base64.Encode(Utf8.Encode(userId + SUFFIX)))
  }

  /** What a reference with nothing around it says. */
  function DecodeRef(ref: string): Option<string> {
    if ref == "" then None
    else
      var raw := Base64.Decode(ref);
      if raw.None? then None
      else
        var text := Utf8.Decode(raw.value);
        if text.None? || |text.value| <= |SUFFIX| || text.value[|text.value| - |SUFFIX|..] != SUFFIX then None
        else Some(text.value[..|text.value| - |SUFFIX|])
  }

  function DecodePublicRef(ref: string): Option<string> {
    DecodeRef(Strip(ref))
  }

  lemma AlphabetHasNoSpace(s: string)
    requires Base64.InAlphabet(s)
    ensures Strip(s) == s
  {
    forall i | 0 <= i < |s| ensures !IsSpace(s[i]) {
      assert Base64.DigitOf(s[i]).Some?;
    }
    StripKeeps(s);
  }

  lemma SuffixOff(userId: string)
    ensures var t := userId + SUFFIX; t[|t| - |SUFFIX|..] == SUFFIX && t[..|t| - |SUFFIX|] == userId
  {
  }

  /** A text without outer white space names `userId` exactly when it decodes to the id's bytes. */
  lemma NamesExactly(ref: string, userId: string)
    requires userId != ""
    ensures DecodeRef(ref) == Some(userId) <==> Base64.Decode(ref) == Some(Utf8.Encode(userId + SUFFIX))
  {
    hide Base64.Decode, Utf8.Encode, Utf8.Decode;
    SuffixOff(userId);
    Utf8.DecodeUndoesEncode(userId + SUFFIX);
    if Base64.Decode(ref).Some? {
      var raw := Base64.Decode(ref).value;
      EmptyTextIsEmpty(ref, userId);
      if Utf8.Decode(raw).Some? {
        Utf8.EncodeUndoesDecode(raw);
        var t := Utf8.Decode(raw).value;
        if |t| > |SUFFIX| {
          assert t == t[..|t| - |SUFFIX|] + t[|t| - |SUFFIX|..];
        }
      }
    }
  }

  lemma EmptyTextIsEmpty(ref: string, userId: string)
    ensures ref == "" ==> Base64.Decode(ref) == Some([])
    ensures Utf8.Encode(userId + SUFFIX) != []
  {
    Utf8.EncodeConcat(userId, SUFFIX);
    assert SUFFIX != "";
  }

  /** Every id reads back from its reference, so references are unique. */
  lemma RefsRoundTrip(userId: string)
    requires userId != ""
    ensures EncodePublicRef(userId).Some? && DecodePublicRef(EncodePublicRef(userId).value) == Some(userId)
  {
    hide Base64.Encode, Base64.Decode, Utf8.Encode, Strip, DecodeRef;
    var raw := Utf8.Encode(userId + SUFFIX);
    Base64.DecodeUndoesEncode(raw);
    Base64.EncodedText(raw);
    AlphabetHasNoSpace(Base64.Encode(raw));
    NamesExactly(Base64.Encode(raw), userId);
  }

  lemma RefsAreUnique(a: string, b: string)
    requires a != "" && EncodePublicRef(a) == EncodePublicRef(b)
    ensures a == b
  {
    hide DecodePublicRef, Base64.Encode;
    if b != "" {
      RefsRoundTrip(a);
      RefsRoundTrip(b);
    }
  }

  /** `ref` names the id, is trimmed, and is not the reference the id encodes to. */
  ghost predicate AnotherRef(userId: string, ref: string) {
    Strip(ref) == ref && Some(ref) != EncodePublicRef(userId) && DecodePublicRef(ref) == Some(userId)
  }

  /** The other way round it is not one to one: besides its own reference another text names the same id exactly
    * when the id's bytes and the suffix do not fill whole groups of three. */
  lemma SecondRefExistsExactly(userId: string)
    requires userId != ""
    ensures (exists ref :: AnotherRef(userId, ref)) <==> |Utf8.Encode(userId)| % 3 != 2
  {
    hide AnotherRef, Utf8.Encode;
    if |Utf8.Encode(userId)| % 3 != 2 {
      var ref := SecondRef(userId);
    } else {
      forall ref ensures !AnotherRef(userId, ref) {
        NoSecondRef(userId, ref);
      }
    }
  }

  lemma SecondRef(userId: string) returns (ref: string)
    requires userId != "" && |Utf8.Encode(userId)| % 3 != 2
    ensures AnotherRef(userId, ref)
  {
    hide Base64.Encode, Base64.Decode, Utf8.Encode, Strip, DecodeRef;
    var raw := Utf8.Encode(userId + SUFFIX);
    RawLength(userId);
    Base64.SpareBitsAreIgnored(raw);
    ref :| ref != Base64.Encode(raw) && Base64.Decode(ref) == Some(raw);
    NamesExactly(ref, userId);
    DecodableIsInAlphabet(ref);
    AlphabetHasNoSpace(ref);
  }

  lemma NoSecondRef(userId: string, ref: string)
    requires userId != "" && |Utf8.Encode(userId)| % 3 == 2
    ensures !AnotherRef(userId, ref)
  {
    hide Base64.Encode, Base64.Decode, Utf8.Encode, Strip, DecodeRef, Base64.SpareBits;
    if Strip(ref) == ref && DecodePublicRef(ref) == Some(userId) {
      var raw := Utf8.Encode(userId + SUFFIX);
      RawLength(userId);
      NamesExactly(ref, userId);
      Base64.EncodeUndoesDecodeExactly(ref);
      WholeGroupsHaveNoSpare(raw, ref);
    }
  }

  lemma DecodableIsInAlphabet(s: string)
    requires Base64.Decode(s).Some?
    ensures Base64.InAlphabet(s)
  {
  }

  lemma RawLength(userId: string)
    ensures |Utf8.Encode(userId + SUFFIX)| == |Utf8.Encode(userId)| + 4
  {
    Utf8.EncodeConcat(userId, SUFFIX);
    assert Utf8.Encode(SUFFIX) == [0x2D, 0x6E, 0x78, 0x74] by {
      assert SUFFIX[1..] == "nxt" && "nxt"[1..] == "xt" && "xt"[1..] == "t" && "t"[1..] == "";
      assert Utf8.Encode("t") == [0x74] + Utf8.Encode("");
      assert Utf8.Encode("xt") == [0x78] + Utf8.Encode("t");
      assert Utf8.Encode("nxt") == [0x6E] + Utf8.Encode("xt");
    }
  }

  lemma WholeGroupsHaveNoSpare(raw: Base64.Bytes, s: string)
    requires |raw| % 3 == 0 && Base64.Decode(s) == Some(raw)
    ensures Base64.InAlphabet(s) && Base64.SpareBits(Base64.Digits(s)) == 0
  {
    hide Base64.ToDigits, Base64.FromDigits, Base64.DigitOf, Base64.CharOf;
    Base64.DigitCount(raw);
    Base64.EncodeUndoesDecodeExactly(s);
  }
}

/** Continuation tokens: a signed, encoded claim that a paused match may be resumed. */
module Continuation {
  import opened Wrappers
  import opened Text
  import opened Base64

  const TOKEN_VERSION := "c1"
  const REASON_LIMIT := 64

  datatype Claim = Claim(sessionId: string, conversationRef: string, reason: string, issuedAt: int, expiresAt: int)

  /** The JSON object in a token. */
  datatype Document = Document(version: string, claim: Claim)

  datatype Failure = Malformed | BadSignature | Expired | WrongConversation | UnknownVersion | NotAscii

  /** The key and the library calls: a MAC over the payload text, the JSON codec, and the decoder of base64 text. */
  datatype Codec = Codec(mac: string -> Bytes, dumps: Document -> Bytes, loads: Bytes -> Option<Document>,
                         unb64: string -> Option<Bytes>)

  /** JSON reads back what it wrote, and the lenient base64 decoder agrees with the strict one wherever that accepts. */
  ghost predicate Sound(k: Codec) {
    && (forall d :: k.loads(k.dumps(d)) == Some(d))
    && (forall s :: Decode(s).Some? ==> k.unb64(s) == Decode(s))
  }

  predicate Ascii(s: string) {
    forall i :: 0 <= i < |s| ==> s[i] as int < 128
  }

  function Clip(s: string, n: nat): string {
    if |s| <= n then s else s[..n]
  }

  function ClaimFor(conversationRef: string, reason: string, sessionId: string, ttl: int, now: int): Claim {
    Claim(sessionId, conversationRef, Clip(reason, REASON_LIMIT), now, now + ttl)
  }

  /** `sessionId` is the caller's, or a fresh one. */
  function Issue(k: Codec, conversationRef: string, reason: string, sessionId: string, ttl: int, now: int): (string, Claim) {
    var claim := ClaimFor(conversationRef, reason, sessionId, ttl, now);
    var payload := Encode(k.dumps(Document(TOKEN_VERSION, claim)));
    (payload + "." + Encode(k.mac(payload)), claim)
  }

  /** The first dot, or the length if there is none. */
  function Dot(s: string): (i: nat)
    ensures i <= |s| && (i < |s| ==> s[i] == '.') && (forall j :: 0 <= j < i ==> s[j] != '.')
  {
    if s == "" || s[0] == '.' then 0
    else
      var rest := Dot(s[1..]);
      assert forall j :: 1 <= j < rest + 1 ==> s[j] == s[1..][j - 1];
      rest + 1
  }

  /** Comparing two strings in constant time is an error unless both are ASCII. */
  function Verify(k: Codec, token: string, conversationRef: string, now: int): Result<Claim, Failure> {
    var t := Strip(token);
    var dot := Dot(t);
    if dot == |t| then Err(Malformed)
    else
      var payload, signature := t[..dot], t[dot + 1..];
      if !Ascii(payload) || !Ascii(signature) then Err(NotAscii)
      else if Encode(k.mac(payload)) != signature then Err(BadSignature)
      else
        var raw := k.unb64(payload);
        var doc := if raw.None? then None else k.loads(raw.value);
        if doc.None? then Err(Malformed)
        else if doc.value.version != TOKEN_VERSION then Err(UnknownVersion)
        else Check(doc.value.claim, conversationRef, now)
  }

  function Check(claim: Claim, conversationRef: string, now: int): Result<Claim, Failure> {
    if claim.sessionId == "" || claim.conversationRef == "" then Err(Malformed)
    else if !Ascii(claim.conversationRef) || !Ascii(conversationRef) then Err(NotAscii)
    else if claim.conversationRef != conversationRef then Err(WrongConversation)
    else if claim.expiresAt <= now then Err(Expired)
    else Ok(claim)
  }

  lemma AlphabetIsPlain(s: string)
    requires InAlphabet(s)
    ensures Ascii(s) && (forall i :: 0 <= i < |s| ==> s[i] != '.' && !IsSpace(s[i]))
  {
    forall i | 0 <= i < |s| ensures s[i] as int < 128 && s[i] != '.' && !IsSpace(s[i]) {
      assert DigitOf(s[i]).Some?;
    }
  }

  /** Two alphabet texts around a dot come apart again. */
  lemma TokenComesApart(payload: string, signature: string)
    requires InAlphabet(payload) && InAlphabet(signature)
    ensures var t := payload + "." + signature;
            Strip(t) == t && Dot(t) == |payload| && t[..|payload|] == payload && t[|payload| + 1..] == signature
            && |payload| < |t|
  {
    hide Strip, InAlphabet, IsSpace;
    var t := payload + "." + signature;
    AlphabetIsPlain(payload);
    AlphabetIsPlain(signature);
    assert !IsSpace('.') by {
      DotIsNoSpace();
    }
    assert NoOuterSpace(t);
    StripKeeps(t);
    assert t[|payload|] == '.';
    assert forall j :: 0 <= j < |payload| ==> t[j] == payload[j];
  }

  lemma DotIsNoSpace()
    ensures !IsSpace('.')
  {
  }

  /** Verifying an issued token, at any time and for any conversation, ends in exactly the check of the issued claim:
    * the claim itself for the same conversation before expiry, and otherwise the one error that applies. */
  lemma VerifyReadsIssue(k: Codec, conversationRef: string, reason: string, sessionId: string, ttl: int, now: int,
                         asked: string, later: int)
    requires Sound(k)
    ensures var (token, claim) := Issue(k, conversationRef, reason, sessionId, ttl, now);
            Verify(k, token, asked, later) == Check(claim, asked, later)
  {
    hide Strip, Dot, InAlphabet, Decode, Encode;
    var claim := ClaimFor(conversationRef, reason, sessionId, ttl, now);
    var doc := Document(TOKEN_VERSION, claim);
    var payload := Encode(k.dumps(doc));
    var signature := Encode(k.mac(payload));
    EncodedText(k.dumps(doc));
    EncodedText(k.mac(payload));
    DecodeUndoesEncode(k.dumps(doc));
    AlphabetIsPlain(payload);
    AlphabetIsPlain(signature);
    TokenComesApart(payload, signature);
    assert k.unb64(payload) == Some(k.dumps(doc));
  }

  /** An issued token resumes exactly the conversation it was issued for, strictly before its expiry, with the whole
    * claim unchanged; an empty or non-ASCII conversation reference can never be resumed. */
  lemma ResumesExactly(k: Codec, conversationRef: string, reason: string, sessionId: string, ttl: int, now: int,
                       asked: string, later: int)
    requires Sound(k) && sessionId != ""
    ensures var (token, claim) := Issue(k, conversationRef, reason, sessionId, ttl, now);
            (Verify(k, token, asked, later) == Ok(claim)
             <==> asked == conversationRef && asked != "" && Ascii(asked) && later < now + ttl)
  {
    hide Verify, Issue, Ascii;
    VerifyReadsIssue(k, conversationRef, reason, sessionId, ttl, now, asked, later);
    IssuedClaim(k, conversationRef, reason, sessionId, ttl, now);
  }

  lemma IssuedClaim(k: Codec, conversationRef: string, reason: string, sessionId: string, ttl: int, now: int)
    ensures Issue(k, conversationRef, reason, sessionId, ttl, now).1 == ClaimFor(conversationRef, reason, sessionId, ttl, now)
  {
  }

  /** What becomes of an issued token, by name: first an empty session or reference, then one that is not ASCII, then
    * another conversation's question, then time; and what is accepted is the whole claim, its reason cut to 64. */
  lemma IssuedTokensByName(k: Codec, conversationRef: string, reason: string, sessionId: string, ttl: int, now: int,
                           asked: string, later: int)
    requires Sound(k)
    ensures var (token, claim) := Issue(k, conversationRef, reason, sessionId, ttl, now);
            var r := Verify(k, token, asked, later);
            && claim == Claim(sessionId, conversationRef, if |reason| <= 64 then reason else reason[..64], now, now + ttl)
            && (r == Err(Malformed) <==> sessionId == "" || conversationRef == "")
            && (r == Err(NotAscii) <==> sessionId != "" && conversationRef != "" && (!Ascii(conversationRef) || !Ascii(asked)))
            && (r == Err(WrongConversation) <==>
                sessionId != "" && conversationRef != "" && Ascii(conversationRef) && Ascii(asked) && asked != conversationRef)
            && (r == Err(Expired) <==> sessionId != "" && asked == conversationRef != "" && Ascii(asked) && later >= now + ttl)
            && (r.Ok? <==> sessionId != "" && asked == conversationRef != "" && Ascii(asked) && later < now + ttl)
            && (r.Ok? ==> r.value == claim)
  {
    hide Verify, Issue, Ascii;
    VerifyReadsIssue(k, conversationRef, reason, sessionId, ttl, now, asked, later);
    IssuedClaim(k, conversationRef, reason, sessionId, ttl, now);
  }

  /** Whatever is accepted was signed under the key and is in date, for the conversation that asked. */
  lemma AcceptedIsSignedAndCurrent(k: Codec, token: string, asked: string, now: int)
    requires Verify(k, token, asked, now).Ok?
    ensures var claim := Verify(k, token, asked, now).value;
            && claim.conversationRef == asked && claim.expiresAt > now && claim.sessionId != ""
            && (exists payload :: Strip(token) == payload + "." + Encode(k.mac(payload))
                                  && k.unb64(payload).Some? && k.loads(k.unb64(payload).value) == Some(Document(TOKEN_VERSION, claim)))
  {
    hide Strip, Encode;
    var t := Strip(token);
    var payload := t[..Dot(t)];
    assert t == payload + "." + t[Dot(t) + 1..];
  }

  /** The payload text of a claim's token. */
  function PayloadOf(k: Codec, claim: Claim): string {
    Encode(k.dumps(Document(TOKEN_VERSION, claim)))
  }

  /** Nobody signs without the key: a token whose payload carries that payload's own MAC has an issued payload. A token
    * with any other signature is not restricted. */
  ghost predicate SignedOnlyByIssuing(k: Codec, token: string, issued: set<Claim>) {
    var t := Strip(token);
    Dot(t) < |t| && t[Dot(t) + 1..] == Encode(k.mac(t[..Dot(t)])) ==>
      exists claim :: claim in issued && t[..Dot(t)] == PayloadOf(k, claim)
  }

  /** What is accepted was issued: if only issuing signs, then any token at all is accepted exactly if it is an issued
    * claim's own token and that claim passes the check. */
  lemma AcceptedExactlyIfIssued(k: Codec, token: string, issued: set<Claim>, asked: string, now: int)
    requires Sound(k) && SignedOnlyByIssuing(k, token, issued)
    ensures Verify(k, token, asked, now).Ok? <==>
      exists claim :: claim in issued && IsTokenOf(k, token, claim) && Check(claim, asked, now).Ok?
    ensures Verify(k, token, asked, now).Ok? ==> Verify(k, token, asked, now).value in issued
  {
    hide Strip, Encode, Decode, Ascii;
    forall claim | claim in issued && IsTokenOf(k, token, claim) ensures Verify(k, token, asked, now) == Check(claim, asked, now) {
      OwnTokenIsChecked(k, token, claim, asked, now);
    }
    if Verify(k, token, asked, now).Ok? {
      SignedPayloadIsIssued(k, token, issued, asked, now);
    }
  }

  /** The trimmed token is the claim's payload with its signature. */
  predicate IsTokenOf(k: Codec, token: string, claim: Claim) {
    Strip(token) == PayloadOf(k, claim) + "." + Encode(k.mac(PayloadOf(k, claim)))
  }

  lemma OwnTokenIsChecked(k: Codec, token: string, claim: Claim, asked: string, now: int)
    requires Sound(k) && IsTokenOf(k, token, claim)
    ensures Verify(k, token, asked, now) == Check(claim, asked, now)
  {
    hide Strip, Dot, InAlphabet, Decode, Encode;
    var doc := Document(TOKEN_VERSION, claim);
    var payload := PayloadOf(k, claim);
    var signature := Encode(k.mac(payload));
    EncodedText(k.dumps(doc));
    EncodedText(k.mac(payload));
    DecodeUndoesEncode(k.dumps(doc));
    AlphabetIsPlain(payload);
    AlphabetIsPlain(signature);
    TokenComesApart(payload, signature);
    assert k.unb64(payload) == Some(k.dumps(doc));
  }

  lemma SignedPayloadIsIssued(k: Codec, token: string, issued: set<Claim>, asked: string, now: int)
    requires SignedOnlyByIssuing(k, token, issued) && Verify(k, token, asked, now).Ok?
    ensures exists claim :: claim in issued && IsTokenOf(k, token, claim)
  {
    hide Strip, Encode, Decode, Ascii;
    var t := Strip(token);
    var payload, signature := t[..Dot(t)], t[Dot(t) + 1..];
    var claim :| claim in issued && payload == PayloadOf(k, claim);
    assert t == payload + "." + signature;
  }
}
