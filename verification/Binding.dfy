/** Binding results to requests, crates/soul-core/src/nostr_events.rs:103-224. */
module Binding {
  import opened Wrappers
  import opened Felt
  import opened Types
  import opened Json
  import opened Codec
  import opened ResultCodec
  import opened Events
  import opened Wire
  import JsonGrammar

  function ResultTags(request: JobRequest, result: JobResultContent): (tags: Tags)
    ensures |tags| == 8 && forall i :: 0 <= i < 8 ==> tags[i] != []
  {
    [["request", request.serializedEvent],
     ["e", request.id],
     ["p", request.customerPubkey],
     ["i", request.canonicalInput, INPUT_TYPE],
     ["status", result.Status()],
     ["protocol", SOUL_WIRE_PROTOCOL],
     ["service", request.service.AsStr()],
     ["t", TOPIC]]
  }

  /** The embedded copy: an object with exactly the seven event members, in any order and spacing. */
  function ParseEmbedded(nostr: Nostr, text: string): Result<Event, WireError> {
    match Read(text)
    case None => Failure(MalformedJson)
    case Some(j) =>
      var _ :- Need(j.Obj? && HasExactlyEventKeys(j.members), MalformedJson);
      match EventOfMembers(j.members)
      case None => Failure(MalformedJson)
      case Some(event) =>
        var _ :- Need(nostr.Verify(event), InvalidEvent);
        Success(event)
  }

  /** The library compares events by id. */
  function CheckEmbedded(nostr: Nostr, text: string, request: JobRequest): Result<(), WireError> {
    var embedded :- ParseEmbedded(nostr, text);
    match Deserialize(request.serializedEvent)
    case None => Failure(MalformedJson)
    case Some(expected) =>
      var _ :- Need(nostr.Verify(expected), InvalidEvent);
      Need(embedded.id == expected.id, RequestBindingMismatch)
  }

  function ParseResult(
    nostr: Nostr, urlAllowed: string -> bool, e: Event, request: JobRequest, now: U64)
    : Result<JobResultContent, WireError>
  {
    var _ :- Need(nostr.Verify(e), InvalidEvent);
    var _ :- Need(e.body.kind == request.service.ResultKind(), ServiceKindMismatch);
    var _ :- Need(Utf8Length(e.body.content) <= MAX_RESULT_BYTES, ResultTooLarge);
    var _ :- Need(
      request.createdAt <= e.body.createdAt <= SaturatingAdd(now, MAX_FUTURE_SKEW_SECS), InvalidTimestamp);
    match ReadResult(e.body.content)
    case None => Failure(MalformedJson)
    case Some(result) =>
      match result.Validate(urlAllowed)
      case Failure(error) => Failure(Validation(error))
      case Success(_) =>
        var _ :- Need(result.requestId == request.id, RequestBindingMismatch);
        var _ :- Need(result.SuccessResult? ==> result.statement.service == request.service, ServiceKindMismatch);
        var _ :- Need(CanonicalResult(result) == e.body.content, NonCanonicalJson);
        var tags := e.body.tags;
        var _ :- Need(|tags| == 8 && |tags[0]| == 2 && tags[0][0] == "request", InvalidTag);
        var text := tags[0][1];
        var _ :- CheckEmbedded(nostr, text, request);
        var expected := ResultTags(request, result);
        var _ :- Need(tags == expected[0 := expected[0][1 := text]], InvalidTag);
        Success(result)
  }

  // ---- exactly what is accepted ------------------------------------------

  /** The conditions on a result that do not concern its embedded copy. */
  ghost predicate Answers(urlAllowed: string -> bool, result: JobResultContent, request: JobRequest) {
    && result.Validate(urlAllowed).Success?
    && result.requestId == request.id
    && (result.SuccessResult? ==> result.statement.service == request.service)
    && Utf8Length(CanonicalResult(result)) <= MAX_RESULT_BYTES
  }

  ghost predicate Carries(
    nostr: Nostr, e: Event, result: JobResultContent, request: JobRequest, now: U64, text: string)
  {
    && nostr.Verify(e)
    && e.body.kind == request.service.ResultKind()
    && request.createdAt <= e.body.createdAt <= now + MAX_FUTURE_SKEW_SECS
    && e.body.content == CanonicalResult(result)
    && e.body.tags == ResultTags(request.(serializedEvent := text), result)
    && CheckEmbedded(nostr, text, request).Success?
  }

  /** A result event is accepted exactly when it carries the canonical text of a valid answer to the request, the
      eight tags, and any authentic copy of the request, whatever the copy's member order or white space. */
  lemma ResultAcceptedIff(
    nostr: Nostr, urlAllowed: string -> bool, e: Event, request: JobRequest, now: U64, result: JobResultContent)
    ensures ParseResult(nostr, urlAllowed, e, request, now) == Success(result) <==>
      Answers(urlAllowed, result, request) && exists text :: Carries(nostr, e, result, request, now, text)
  {
    if ParseResult(nostr, urlAllowed, e, request, now) == Success(result) {
      AcceptedCarries(nostr, urlAllowed, e, request, now, result);
    } else if Answers(urlAllowed, result, request) && exists text :: Carries(nostr, e, result, request, now, text) {
      var text :| Carries(nostr, e, result, request, now, text);
      CarryingIsAccepted(nostr, urlAllowed, e, request, now, result, text);
    }
  }

  lemma ReplacedCopy(request: JobRequest, result: JobResultContent, text: string)
    ensures
      var expected := ResultTags(request, result);
      expected[0 := expected[0][1 := text]] == ResultTags(request.(serializedEvent := text), result)
  {
    assert ["request", request.serializedEvent][1 := text] == ["request", text];
  }

  lemma AcceptedCarries(
    nostr: Nostr, urlAllowed: string -> bool, e: Event, request: JobRequest, now: U64, result: JobResultContent)
    requires ParseResult(nostr, urlAllowed, e, request, now) == Success(result)
    ensures Answers(urlAllowed, result, request)
    ensures |e.body.tags| == 8 && |e.body.tags[0]| == 2
    ensures Carries(nostr, e, result, request, now, e.body.tags[0][1])
  {
    hide CanonicalResult, ReadResult, CheckEmbedded, Utf8Length;
    var text := e.body.tags[0][1];
    ReplacedCopy(request, result, text);
  }

  lemma CarryingIsAccepted(
    nostr: Nostr, urlAllowed: string -> bool, e: Event, request: JobRequest, now: U64, result: JobResultContent,
    text: string)
    requires Answers(urlAllowed, result, request) && Carries(nostr, e, result, request, now, text)
    ensures ParseResult(nostr, urlAllowed, e, request, now) == Success(result)
  {
    hide CanonicalResult, ReadResult, CheckEmbedded, Utf8Length;
    ResultRoundTrip(result);
    ReplacedCopy(request, result, text);
  }

  // ---- consequences ------------------------------------------------------

  /** What the authenticated part of an event determines of the request parsed from it. */
  lemma ParsedFromBody(nostr: Nostr, x: Event, y: Event, s: U64, t: U64)
    requires ParseRequest(nostr, x, s).Success? && ParseRequest(nostr, y, t).Success?
    requires x.id == y.id && x.body == y.body
    ensures
      var rx, ry := ParseRequest(nostr, x, s).value, ParseRequest(nostr, y, t).value;
      rx == ry.(serializedEvent := rx.serializedEvent)
  {
    hide Canonical, ReadContent, BaseTags, BidTags, ReadBid, Serialize;
  }

  lemma ParsedIsAuthentic(nostr: Nostr, x: Event, s: U64)
    requires ParseRequest(nostr, x, s).Success?
    ensures nostr.Verify(x) && ParseRequest(nostr, x, s).value.id == x.id
  {
    hide Canonical, ReadContent, BaseTags, BidTags, ReadBid, Serialize;
  }

  lemma AcceptedNamesRequest(nostr: Nostr, urlAllowed: string -> bool, e: Event, request: JobRequest, now: U64)
    requires ParseResult(nostr, urlAllowed, e, request, now).Success?
    ensures |e.body.tags| == 8 && e.body.tags[1] == ["e", request.id]
  {
    hide CanonicalResult, ReadResult, CheckEmbedded, Utf8Length;
    AcceptedCarries(nostr, urlAllowed, e, request, now, ParseResult(nostr, urlAllowed, e, request, now).value);
  }

  /** One result, one request: a result event accepted for two authenticated requests was made for one, unless two
      different request bodies hash to one id. The signed copies may differ in their signatures only. */
  lemma OneResultOneRequest(
    nostr: Nostr, urlAllowed: string -> bool, e: Event, x: Event, y: Event, s: U64, t: U64, m: U64, n: U64)
    requires ParseRequest(nostr, x, s).Success? && ParseRequest(nostr, y, t).Success?
    requires ParseResult(nostr, urlAllowed, e, ParseRequest(nostr, x, s).value, m).Success?
    requires ParseResult(nostr, urlAllowed, e, ParseRequest(nostr, y, t).value, n).Success?
    ensures
      var rx, ry := ParseRequest(nostr, x, s).value, ParseRequest(nostr, y, t).value;
      rx == ry.(serializedEvent := rx.serializedEvent) || nostr.IdCollision(x.body, y.body)
  {
    var rx, ry := ParseRequest(nostr, x, s).value, ParseRequest(nostr, y, t).value;
    hide ParseRequest, ParseResult;
    ParsedIsAuthentic(nostr, x, s);
    ParsedIsAuthentic(nostr, y, t);
    AcceptedNamesRequest(nostr, urlAllowed, e, rx, m);
    AcceptedNamesRequest(nostr, urlAllowed, e, ry, n);
    assert ["e", rx.id][1] == ["e", ry.id][1];
    if x.body == y.body {
      ParsedFromBody(nostr, x, y, s, t);
    }
  }

  /** The request's own serialized event is a copy that passes. */
  lemma OwnCopyPasses(nostr: Nostr, x: Event, s: U64)
    requires WellFormed(x) && ParseRequest(nostr, x, s).Success?
    ensures CheckEmbedded(nostr, Serialize(x), ParseRequest(nostr, x, s).value).Success?
  {
    hide Serialize, EventMembers, EventOfMembers, HasExactlyEventKeys, ReadContent, ReadBid, Canonical;
    EventRoundTrip(x);
    EventMembersRoundTrip(x);
  }

  // ---- signed copies -----------------------------------------------------

  lemma SerializedInjective(x: Event, y: Event)
    requires WellFormed(x) && WellFormed(y)
    ensures Serialize(x) == Serialize(y) <==> x == y
  {
    hide Serialize, Deserialize;
    EventRoundTrip(x);
    EventRoundTrip(y);
  }

  lemma ParsedKeepsCopy(nostr: Nostr, x: Event, s: U64)
    requires ParseRequest(nostr, x, s).Success?
    ensures ParseRequest(nostr, x, s).value.serializedEvent == Serialize(x)
  {
    hide Canonical, ReadContent, BaseTags, BidTags, ReadBid, Serialize;
  }

  /** "One result, one request", exactly: two requests that accept one result are equal if and only if their events
      carry the same signature, unless two request bodies share an id. */
  lemma OneResultOneSignedRequest(
    nostr: Nostr, urlAllowed: string -> bool, e: Event, x: Event, y: Event, s: U64, t: U64, m: U64, n: U64)
    requires WellFormed(x) && WellFormed(y)
    requires ParseRequest(nostr, x, s).Success? && ParseRequest(nostr, y, t).Success?
    requires ParseResult(nostr, urlAllowed, e, ParseRequest(nostr, x, s).value, m).Success?
    requires ParseResult(nostr, urlAllowed, e, ParseRequest(nostr, y, t).value, n).Success?
    ensures
      || nostr.IdCollision(x.body, y.body)
      || (ParseRequest(nostr, x, s).value == ParseRequest(nostr, y, t).value <==> x.sig == y.sig)
  {
    hide ParseRequest, ParseResult, Serialize;
    var rx, ry := ParseRequest(nostr, x, s).value, ParseRequest(nostr, y, t).value;
    OneResultOneRequest(nostr, urlAllowed, e, x, y, s, t, m, n);
    ParsedKeepsCopy(nostr, x, s);
    ParsedKeepsCopy(nostr, y, t);
    ParsedIsAuthentic(nostr, x, s);
    ParsedIsAuthentic(nostr, y, t);
    SerializedInjective(x, y);
    if !nostr.IdCollision(x.body, y.body) {
      assert rx == ry.(serializedEvent := rx.serializedEvent);
      AcceptedNamesRequest(nostr, urlAllowed, e, rx, m);
      AcceptedNamesRequest(nostr, urlAllowed, e, ry, n);
      assert ["e", rx.id][1] == ["e", ry.id][1];
      assert x.body == y.body;
    }
  }

  lemma CheckIgnoresSignature(nostr: Nostr, text: string, x: Event, y: Event, rx: JobRequest, ry: JobRequest)
    requires WellFormed(x) && WellFormed(y) && nostr.Verify(x) && nostr.Verify(y) && x.id == y.id
    requires rx.serializedEvent == Serialize(x) && ry.serializedEvent == Serialize(y)
    ensures CheckEmbedded(nostr, text, rx) == CheckEmbedded(nostr, text, ry)
  {
    hide Serialize, Deserialize, ParseEmbedded;
    EventRoundTrip(x);
    EventRoundTrip(y);
  }

  lemma ReplacedCopiesAgree(rx: JobRequest, ry: JobRequest, result: JobResultContent, text: string)
    requires rx == ry.(serializedEvent := rx.serializedEvent)
    ensures
      var ex, ey := ResultTags(rx, result), ResultTags(ry, result);
      ex[0 := ex[0][1 := text]] == ey[0 := ey[0][1 := text]]
  {
    ReplacedCopy(rx, result, text);
    ReplacedCopy(ry, result, text);
    assert rx.(serializedEvent := text) == ry.(serializedEvent := text);
  }

  lemma SameVerdict(
    nostr: Nostr, urlAllowed: string -> bool, e: Event, rx: JobRequest, ry: JobRequest, now: U64)
    requires rx == ry.(serializedEvent := rx.serializedEvent)
    requires |e.body.tags| == 8 && |e.body.tags[0]| == 2 ==>
      CheckEmbedded(nostr, e.body.tags[0][1], rx) == CheckEmbedded(nostr, e.body.tags[0][1], ry)
    ensures ParseResult(nostr, urlAllowed, e, rx, now) == ParseResult(nostr, urlAllowed, e, ry, now)
  {
    hide CanonicalResult, ReadResult, Utf8Length, CheckEmbedded, ResultTags, JobResultContent.Validate, Nostr.Verify;
    var tags := e.body.tags;
    if |tags| == 8 && |tags[0]| == 2 && ReadResult(e.body.content).Some? {
      ReplacedCopiesAgree(rx, ry, ReadResult(e.body.content).value, tags[0][1]);
    }
  }

  /** Two signatures of one request body accept the same results: the failing inputs are exactly these. */
  lemma AcceptanceIgnoresSignature(
    nostr: Nostr, urlAllowed: string -> bool, e: Event, x: Event, y: Event, s: U64, t: U64, now: U64)
    requires WellFormed(x) && WellFormed(y) && x.id == y.id && x.body == y.body
    requires ParseRequest(nostr, x, s).Success? && ParseRequest(nostr, y, t).Success?
    ensures ParseResult(nostr, urlAllowed, e, ParseRequest(nostr, x, s).value, now)
         == ParseResult(nostr, urlAllowed, e, ParseRequest(nostr, y, t).value, now)
  {
    hide ParseRequest, ParseResult, Serialize, CheckEmbedded, WellFormed, Nostr.Verify;
    var rx, ry := ParseRequest(nostr, x, s).value, ParseRequest(nostr, y, t).value;
    ParsedFromBody(nostr, x, y, s, t);
    ParsedKeepsCopy(nostr, x, s);
    ParsedKeepsCopy(nostr, y, t);
    ParsedIsAuthentic(nostr, x, s);
    ParsedIsAuthentic(nostr, y, t);
    if |e.body.tags| == 8 && |e.body.tags[0]| == 2 {
      CheckIgnoresSignature(nostr, e.body.tags[0][1], x, y, rx, ry);
    }
    SameVerdict(nostr, urlAllowed, e, rx, ry, now);
  }

  // ---- the embedded copy -------------------------------------------------

  /** The embedded copy of an accepted result is an authentic event with the request's id: it is the request's own body,
      or two bodies share that id. */
  lemma AcceptedEmbedsRequest(
    nostr: Nostr, urlAllowed: string -> bool, e: Event, x: Event, seen: U64, now: U64)
    requires WellFormed(x) && ParseRequest(nostr, x, seen).Success?
    requires ParseResult(nostr, urlAllowed, e, ParseRequest(nostr, x, seen).value, now).Success?
    ensures |e.body.tags| == 8 && |e.body.tags[0]| == 2 && e.body.tags[0][0] == "request"
    ensures ParseEmbedded(nostr, e.body.tags[0][1]).Success?
    ensures
      var copy := ParseEmbedded(nostr, e.body.tags[0][1]).value;
      && nostr.Verify(copy) && copy.id == x.id
      && (copy.body == x.body || nostr.IdCollision(copy.body, x.body))
  {
    hide ParseRequest, ParseResult, Serialize, Deserialize;
    var request := ParseRequest(nostr, x, seen).value;
    ParsedKeepsCopy(nostr, x, seen);
    ParsedIsAuthentic(nostr, x, seen);
    EventRoundTrip(x);
    var result := ParseResult(nostr, urlAllowed, e, request, now).value;
    AcceptedCarries(nostr, urlAllowed, e, request, now, result);
    CheckedCopy(nostr, e.body.tags[0][1], x, request);
    FirstTag(request.(serializedEvent := e.body.tags[0][1]), result);
  }

  lemma FirstTag(request: JobRequest, result: JobResultContent)
    ensures ResultTags(request, result)[0] == ["request", request.serializedEvent]
  {
  }

  lemma CheckedCopy(nostr: Nostr, text: string, x: Event, request: JobRequest)
    requires Deserialize(request.serializedEvent) == Some(x)
    requires CheckEmbedded(nostr, text, request).Success?
    ensures
      var copy := ParseEmbedded(nostr, text);
      copy.Success? && nostr.Verify(copy.value) && copy.value.id == x.id && nostr.Verify(x)
  {
    hide Read, HasExactlyEventKeys, EventOfMembers, Deserialize;
  }

  /** And a copy of anything else is refused as such. */
  lemma ForeignCopyIsRefused(nostr: Nostr, text: string, x: Event, request: JobRequest)
    requires Deserialize(request.serializedEvent) == Some(x) && nostr.Verify(x)
    requires ParseEmbedded(nostr, text).Success? && ParseEmbedded(nostr, text).value.id != x.id
    ensures CheckEmbedded(nostr, text, request) == Failure(RequestBindingMismatch)
  {
    hide ParseEmbedded, Deserialize;
  }

  /** An event is found in every JSON text of its seven members: in any order, spacing and spelling. */
  lemma EmbeddedInAnySpelling(nostr: Nostr, text: string, members: seq<Member>, x: Event)
    requires JsonGrammar.Denotes(text, Obj(members)) && DistinctKeys(members)
    requires forall m :: m in members <==> m in EventMembers(x)
    requires WellFormed(x) && nostr.Verify(x)
    ensures ParseEmbedded(nostr, text) == Success(x)
  {
    JsonGrammar.ReadIffDenotes(text, Obj(members));
    MembersDecide(members, x);
    hide Read, EventOfMembers, HasExactlyEventKeys, WellFormed, EventMembers, DistinctKeys, JsonGrammar.Denotes;
  }

  lemma MembersDecide(members: seq<Member>, x: Event)
    requires DistinctKeys(members) && WellFormed(x)
    requires forall m :: m in members <==> m in EventMembers(x)
    ensures EventOfMembers(members) == Some(x) && HasExactlyEventKeys(members)
  {
    var own := EventMembers(x);
    EventMembersRoundTrip(x);
    EventKeysDistinct(x);
    forall k | 0 <= k < 7 ensures GetLast(members, own[k].key) == GetLast(own, own[k].key) {
      assert own[k] in members;
      var i :| 0 <= i < |members| && members[i] == own[k];
      GetLastAt(members, i);
      GetLastAt(own, k);
    }
    assert HasExactlyEventKeys(members) by {
      forall i | 0 <= i < |members| ensures members[i].key in EVENT_KEYS {
        assert members[i] in own;
      }
      forall key | key in EVENT_KEYS ensures exists i :: 0 <= i < |members| && members[i].key == key {
        var k :| 0 <= k < 7 && own[k].key == key;
        assert own[k] in members;
      }
    }
    hide GetLast, TagList, WellFormed, DistinctKeys, HasExactlyEventKeys;
    SameLasts(members, own);
  }

  /** The seven members looked up decide what event is read. */
  lemma SameLasts(members: seq<Member>, own: seq<Member>)
    requires forall key :: key in EVENT_KEYS ==> GetLast(members, key) == GetLast(own, key)
    ensures EventOfMembers(members) == EventOfMembers(own)
  {
    hide GetLast, TagList, WellFormed;
    assert "id" == EVENT_KEYS[0] && "pubkey" == EVENT_KEYS[1] && "created_at" == EVENT_KEYS[2];
    assert "kind" == EVENT_KEYS[3] && "tags" == EVENT_KEYS[4] && "content" == EVENT_KEYS[5] && "sig" == EVENT_KEYS[6];
  }

  // ---- why a result is refused -------------------------------------------

  /** A refused result is refused for the first thing wrong with it: the event, its kind, its size, its time, its text,
      its content, and then its binding to the request. */
  lemma ResultRefusedFor(
    nostr: Nostr, urlAllowed: string -> bool, e: Event, request: JobRequest, now: U64, error: WireError)
    requires ParseResult(nostr, urlAllowed, e, request, now) == Failure(error)
    ensures
      if !nostr.Verify(e) then error == InvalidEvent
      else if e.body.kind != request.service.ResultKind() then error == ServiceKindMismatch
      else if Utf8Length(e.body.content) > 32768 then error == ResultTooLarge
      else if !(request.createdAt <= e.body.createdAt <= now + 300) then error == InvalidTimestamp
      else
        match ReadResult(e.body.content)
        case None => error == MalformedJson
        case Some(result) =>
          (match result.Validate(urlAllowed)
           case Failure(reason) => error == Validation(reason)
           case Success(_) => NotBound(nostr, e, request, result, error))
  {
    hide ReadResult, CanonicalResult, Utf8Length, CheckEmbedded, ResultTags, Nostr.Verify, JobResultContent.Validate;
  }

  /** Why a valid result, in an authentic, timely and short event, is not taken for this request. */
  predicate NotBound(nostr: Nostr, e: Event, request: JobRequest, result: JobResultContent, error: WireError) {
    if result.requestId != request.id then error == RequestBindingMismatch
    else if result.SuccessResult? && result.statement.service != request.service then error == ServiceKindMismatch
    else if e.body.content != CanonicalResult(result) then error == NonCanonicalJson
    else if |e.body.tags| != 8 || |e.body.tags[0]| != 2 || e.body.tags[0][0] != "request" then error == InvalidTag
    else
      match CheckEmbedded(nostr, e.body.tags[0][1], request)
      case Failure(reason) => error == reason
      case Success(_) => error == InvalidTag
  }
}
