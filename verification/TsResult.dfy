/** The TypeScript SDK's result validator on typed values, packages/soul-sdk/src/validation.ts:195-364, 444-487 and
    538-596, against the Rust parser. `safeUrl` is the SDK's URL policy. */
module TsResult {
  import opened Wrappers
  import opened Hex
  import opened Felt
  import opened Types
  import opened Json
  import opened Codec
  import opened ResultCodec
  import opened Events
  import opened Wire
  import opened Binding
  import opened TsMirror
  import EndToEnd
  import TsText

  // ---- contents ----------------------------------------------------------

  /** `CONTROL_CHARACTER`. */
  predicate ControlCharacter(c: char) {
    '\U{0}' <= c <= '\U{1f}' || '\U{7f}' <= c <= '\U{9f}'
  }

  predicate ErrorOk(error: JobError) {
    && error.message != [] && |error.message| <= 160
    && !exists i :: 0 <= i < |error.message| && ControlCharacter(error.message[i])
  }

  /** `parseProofDescriptor`. */
  predicate DescriptorOk(safeUrl: string -> bool, p: ProofDescriptor) {
    && p.format == "stwo-cairo-json-v1" && p.mediaType == "application/vnd.soul-society.stwo-proof+json"
    && p.channel == "blake2s"
    && IsLowerHexOfLength(p.sha256, 64)
    && p.byteSize <= MAX_SAFE_INTEGER && p.byteSize != 0 && p.byteSize <= 33_554_432
    && safeUrl(p.url)
  }

  /** `parseMetrics`. */
  predicate MetricsOk(m: JobMetrics) {
    && m.executionMs <= MAX_SAFE_INTEGER && m.provingMs <= MAX_SAFE_INTEGER && m.verificationMs <= MAX_SAFE_INTEGER
  }

  /** `parseResult`. */
  predicate ResultOk(safeUrl: string -> bool, r: JobResultContent) {
    && r.protocol == "soul-society/1" && IsLowerHexOfLength(r.requestId, 64)
    && match r
       case ErrorResult(_, _, error) => ErrorOk(error)
       case SuccessResult(_, _, statement, proof, metrics) =>
         StatementParses(statement) && DescriptorOk(safeUrl, proof) && MetricsOk(metrics)
  }

  // ---- the embedded request ----------------------------------------------

  function LastSafe(members: seq<Member>, key: string): Option<nat> {
    var v :- GetLast(members, key);
    if v.Num? && v.n <= MAX_SAFE_INTEGER then Some(v.n) else None
  }

  /** `hasExactKeys` of the embedded event. */
  predicate HasSevenKeys(members: seq<Member>) {
    (set m | m in members :: m.key) == {"id", "pubkey", "created_at", "kind", "tags", "content", "sig"}
  }

  /** The shape test of `parseEmbeddedEvent`; of repeated members `JSON.parse` keeps the last. */
  function ShapedEvent(members: seq<Member>): Option<Event> {
    var _ :- Guard(HasSevenKeys(members));
    var id :- LastStr(members, "id");
    var pubkey :- LastStr(members, "pubkey");
    var sig :- LastStr(members, "sig");
    var _ :- Guard(IsLowerHexOfLength(id, 64) && IsLowerHexOfLength(pubkey, 64) && IsLowerHexOfLength(sig, 128));
    var createdAt :- LastSafe(members, "created_at");
    var kind :- LastSafe(members, "kind");
    var content :- LastStr(members, "content");
    var tagsJson :- GetLast(members, "tags");
    var _ :- Guard(tagsJson.Arr?);
    var tags :- TagList(tagsJson.items);
    Some(Event(id, Unsigned(pubkey, createdAt, kind, tags, content), sig))
  }

  /** `parseEmbeddedEvent`. */
  function EmbeddedEvent(nostr: Nostr, text: string): Option<Event> {
    var j :- Read(text);
    var _ :- Guard(j.Obj?);
    var event :- ShapedEvent(j.members);
    if nostr.Verify(event) then Some(event) else None
  }

  // ---- the validator -----------------------------------------------------

  function ExpectedTags(text: string, x: Event, c: JobRequestContent, r: JobResultContent): Tags {
    [["request", text],
     ["e", x.id],
     ["p", x.body.pubkey],
     ["i", TsText.RequestText(c), "text"],
     ["status", if r.SuccessResult? then "success" else "error"],
     ["protocol", "soul-society/1"],
     ["service", TsText.ServiceName(c.service)],
     ["t", "soul-society"]]
  }

  /** `validateResultEvent` accepts `e` as result `r` of the validated request `x` with content `c`. Equality with the
      request event is that of all members. */
  predicate SdkAcceptsResult(
    nostr: Nostr, safeUrl: string -> bool, e: Event, x: Event, c: JobRequestContent, now: int, r: JobResultContent)
  {
    && nostr.Verify(e)
    && e.body.kind == TsText.RequestKind(c.service) + 1000
    && |TsText.Encode(e.body.content)| <= 32768
    && e.body.createdAt <= MAX_SAFE_INTEGER
    && x.body.createdAt <= e.body.createdAt <= now + 300
    && ResultOk(safeUrl, r)
    && TsText.ResultText(r) == e.body.content
    && r.requestId == x.id
    && (r.SuccessResult? ==> BoundToRequest(r.statement, c))
    && |e.body.tags| == 8 && |e.body.tags[0]| == 2 && e.body.tags[0][0] == "request"
    && EmbeddedEvent(nostr, e.body.tags[0][1]) == Some(x)
    && StringifyTags(e.body.tags) == StringifyTags(ExpectedTags(e.body.tags[0][1], x, c, r))
  }

  // ---- agreement ---------------------------------------------------------

  /** On contents the two validators differ by the statement's own checks only, which the binding makes equal. */
  lemma ContentsAgree(safeUrl: string -> bool, r: JobResultContent, c: JobRequestContent)
    requires c.service == c.input.Service()
    ensures
      (ResultOk(safeUrl, r) && (r.SuccessResult? ==> BoundToRequest(r.statement, c))) <==>
        r.Validate(safeUrl).Success?
        && (r.SuccessResult? ==> StatementParses(r.statement) && BoundToRequest(r.statement, c))
  {
    hide StatementParses, BoundToRequest, ProofStatement.Validate, StatementMatchesRequest, IsLowerHexOfLength;
    if r.SuccessResult? {
      StatementChecksAgree(r.statement, c);
    } else {
      ErrorsAgree(r.error);
    }
  }

  lemma ErrorsAgree(error: JobError)
    ensures ErrorOk(error) <==> error.Valid()
  {
    assert forall c: char :: ControlCharacter(c) <==> IsControl(c);
  }

  lemma KeyTestsAgree(members: seq<Member>)
    ensures HasSevenKeys(members) <==> HasExactlyEventKeys(members)
  {
    var keys := set m | m in members :: m.key;
    forall k ensures k in keys <==> exists i :: 0 <= i < |members| && members[i].key == k {
    }
    var seven := {"id", "pubkey", "created_at", "kind", "tags", "content", "sig"};
    assert forall k :: k in EVENT_KEYS <==> k in seven;
    if HasSevenKeys(members) {
      forall i | 0 <= i < |members| ensures members[i].key in EVENT_KEYS {
        assert members[i].key in keys;
      }
    }
    if HasExactlyEventKeys(members) {
      assert keys == seven;
    }
  }

  lemma ShapesAgree(members: seq<Member>, x: Event)
    requires WellFormed(x) && x.body.createdAt <= MAX_SAFE_INTEGER
    ensures ShapedEvent(members) == Some(x) <==> HasExactlyEventKeys(members) && EventOfMembers(members) == Some(x)
  {
    hide HasSevenKeys, HasExactlyEventKeys, GetLast, TagList, IsLowerHexOfLength;
    KeyTestsAgree(members);
  }

  /** The two parsers of an embedded copy find the same request event in it. */
  lemma EmbeddedAgree(nostr: Nostr, text: string, x: Event)
    requires WellFormed(x) && x.body.createdAt <= MAX_SAFE_INTEGER
    ensures EmbeddedEvent(nostr, text) == Some(x) <==> ParseEmbedded(nostr, text) == Success(x)
  {
    hide ShapedEvent, EventOfMembers, HasExactlyEventKeys, WellFormed;
    match Read(text)
    case None =>
    case Some(j) =>
      if j.Obj? { ShapesAgree(j.members, x); }
  }

  lemma RequestFacts(nostr: Nostr, x: Event, seen: U64)
    requires WellFormed(x) && ParseRequest(nostr, x, seen).Success?
    ensures
      var request := ParseRequest(nostr, x, seen).value;
      var c := EndToEnd.ContentOf(request);
      && request.canonicalInput == Canonical(c) && request.customerPubkey == x.body.pubkey
      && request.id == x.id && request.createdAt == x.body.createdAt && c.service == c.input.Service()
      && Deserialize(request.serializedEvent) == Some(x) && nostr.Verify(x)
  {
    hide Canonical, ReadContent, BaseTags, BidTags, ReadBid, Serialize, Deserialize, WellFormed;
    EventRoundTrip(x);
  }

  lemma TagsAgree(text: string, x: Event, c: JobRequestContent, r: JobResultContent, request: JobRequest)
    requires request.id == x.id && request.customerPubkey == x.body.pubkey
    requires request.canonicalInput == Canonical(c) && request.service == c.service
    requires c.protocol == SOUL_WIRE_PROTOCOL && c.service == c.input.Service()
    ensures ExpectedTags(text, x, c, r) == ResultTags(request.(serializedEvent := text), r)
  {
    hide TsText.RequestText, Canonical;
    TsText.RequestTextsAgree(c);
    TsText.NamesAgree(c.service);
  }

  /** A result either side takes has one text in both languages. */
  lemma TextsAgree(safeUrl: string -> bool, r: JobResultContent)
    requires ResultOk(safeUrl, r) || r.Validate(safeUrl).Success?
    ensures TsText.ResultText(r) == CanonicalResult(r)
  {
    hide TsText.ResultText, CanonicalResult, IsLowerHexOfLength, ErrorOk, JobError.Valid;
    TsText.ResultTextsAgree(r);
  }

  /** The SDK accepts a result of a request exactly when the Rust parser does, its time is a safe integer, its statement
      is bound to the typed request, and its embedded copy is the request event in every member. */
  lemma ResultChecksAgree(
    nostr: Nostr, safeUrl: string -> bool, e: Event, x: Event, seen: U64, now: U64, r: JobResultContent)
    requires WellFormed(x) && ParseRequest(nostr, x, seen).Success? && x.body.createdAt <= MAX_SAFE_INTEGER
    ensures
      var request := ParseRequest(nostr, x, seen).value;
      SdkAcceptsResult(nostr, safeUrl, e, x, EndToEnd.ContentOf(request), now, r) <==>
        EndToEnd.SdkValidateResult(nostr, safeUrl, e, request, now) == Some(r)
  {
    var request := ParseRequest(nostr, x, seen).value;
    hide ParseRequest, WellFormed;
    RequestFacts(nostr, x, seen);
    if SdkAcceptsResult(nostr, safeUrl, e, x, EndToEnd.ContentOf(request), now, r) {
      AcceptedIsValidated(nostr, safeUrl, e, x, request, now, r);
    }
    if EndToEnd.SdkValidateResult(nostr, safeUrl, e, request, now) == Some(r) {
      ValidatedIsAccepted(nostr, safeUrl, e, x, request, now, r);
    }
  }

  ghost predicate ParsedFrom(nostr: Nostr, x: Event, request: JobRequest) {
    var c := EndToEnd.ContentOf(request);
    && WellFormed(x) && x.body.createdAt <= MAX_SAFE_INTEGER && nostr.Verify(x)
    && request.canonicalInput == Canonical(c) && request.customerPubkey == x.body.pubkey
    && request.id == x.id && request.createdAt == x.body.createdAt && c.service == c.input.Service()
    && c.protocol == SOUL_WIRE_PROTOCOL && Deserialize(request.serializedEvent) == Some(x)
  }

  lemma AcceptedIsValidated(
    nostr: Nostr, safeUrl: string -> bool, e: Event, x: Event, request: JobRequest, now: U64, r: JobResultContent)
    requires ParsedFrom(nostr, x, request)
    requires SdkAcceptsResult(nostr, safeUrl, e, x, EndToEnd.ContentOf(request), now, r)
    ensures EndToEnd.SdkValidateResult(nostr, safeUrl, e, request, now) == Some(r)
  {
    hide WellFormed, Deserialize, EmbeddedEvent, ParseEmbedded, ParseResult, Answers, Carries, TsText.ResultText;
    hide StringifyTags, ResultOk, StatementParses, BoundToRequest, JobResultContent.Validate, ExpectedTags;
    hide Nostr.Verify;
    AcceptedCarriesToo(nostr, safeUrl, e, x, request, now, r);
    EmbeddedAgree(nostr, e.body.tags[0][1], x);
    CarryingIsAccepted(nostr, safeUrl, e, request, now, r, e.body.tags[0][1]);
  }

  lemma AcceptedCarriesToo(
    nostr: Nostr, safeUrl: string -> bool, e: Event, x: Event, request: JobRequest, now: U64, r: JobResultContent)
    requires ParsedFrom(nostr, x, request)
    requires SdkAcceptsResult(nostr, safeUrl, e, x, EndToEnd.ContentOf(request), now, r)
    ensures Answers(safeUrl, r, request) && Carries(nostr, e, r, request, now, e.body.tags[0][1])
    ensures r.SuccessResult? ==>
      StatementParses(r.statement) && BoundToRequest(r.statement, EndToEnd.ContentOf(request))
  {
    var c, text := EndToEnd.ContentOf(request), e.body.tags[0][1];
    hide WellFormed, Canonical, CanonicalResult, Utf8Length, Deserialize, EmbeddedEvent, ParseEmbedded;
    hide StringifyTags, ResultOk, StatementParses, BoundToRequest, JobResultContent.Validate, ExpectedTags;
    hide TsText.ResultText, TsText.RequestKind, TsText.Encode, Nostr.Verify;
    TsText.NamesAgree(c.service);
    LengthsAgree(e.body.content);
    TextsAgree(safeUrl, r);
    ContentsAgree(safeUrl, r, c);
    EmbeddedAgree(nostr, text, x);
    StringifyInjective(e.body.tags, ExpectedTags(text, x, c, r));
    TagsAgree(text, x, c, r, request);
    hide ResultTags;
    BoundNamesService(r, c);
  }

  lemma BoundNamesService(r: JobResultContent, c: JobRequestContent)
    requires r.SuccessResult? ==> BoundToRequest(r.statement, c)
    ensures r.SuccessResult? ==> r.statement.service == c.service
  {
  }

  lemma ValidatedIsAccepted(
    nostr: Nostr, safeUrl: string -> bool, e: Event, x: Event, request: JobRequest, now: U64, r: JobResultContent)
    requires ParsedFrom(nostr, x, request)
    requires EndToEnd.SdkValidateResult(nostr, safeUrl, e, request, now) == Some(r)
    ensures SdkAcceptsResult(nostr, safeUrl, e, x, EndToEnd.ContentOf(request), now, r)
  {
    var c := EndToEnd.ContentOf(request);
    hide WellFormed, Canonical, CanonicalResult, Utf8Length, Deserialize, EmbeddedEvent, ParseEmbedded, ParseResult;
    hide StringifyTags, ResultOk, StatementParses, BoundToRequest, JobResultContent.Validate, ExpectedTags;
    hide TsText.ResultText, TsText.RequestKind, TsText.Encode;
    TsText.NamesAgree(c.service);
    LengthsAgree(e.body.content);
    AcceptedCarries(nostr, safeUrl, e, request, now, r);
    TextsAgree(safeUrl, r);
    var text := e.body.tags[0][1];
    RequestTagFirst(request.(serializedEvent := text), r);
    ContentsAgree(safeUrl, r, c);
    EmbeddedAgree(nostr, text, x);
    TagsAgree(text, x, c, r, request);
  }

  lemma RequestTagFirst(request: JobRequest, r: JobResultContent)
    ensures ResultTags(request, r)[0] == ["request", request.serializedEvent]
  {
  }
}
