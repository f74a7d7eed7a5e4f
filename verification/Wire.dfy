/** The signed event codec, crates/soul-core/src/nostr_events.rs. */
module Wire {
  import opened Wrappers
  import opened Felt
  import opened Decimal
  import opened Types
  import opened Json
  import opened Codec
  import opened Events

  const INPUT_TYPE: string := "text"
  const TOPIC: string := "soul-society"

  type Tags = seq<seq<string>>

  datatype WireError =
    | InvalidEvent
    | UnsupportedKind
    | InvalidTimestamp
    | RequestTooLarge
    | ResultTooLarge
    | MalformedJson
    | NonCanonicalJson
    | DuplicateTag
    | InvalidTag
    | ServiceKindMismatch
    | RequestBindingMismatch
    | Validation(error: ValidationError)

  function Utf8Length(s: string): nat {
    if s == [] then 0
    else
      var c := s[0] as int;
      (if c < 0x80 then 1 else if c < 0x800 then 2 else if c < 0x10000 then 3 else 4) + Utf8Length(s[1..])
  }

  function ServiceOfRequestKind(kind: int): Option<ServiceType> {
    if kind == Fibonacci.RequestKind() then Some(Fibonacci)
    else if kind == HashVerify.RequestKind() then Some(HashVerify)
    else if kind == MerkleProof.RequestKind() then Some(MerkleProof)
    else None
  }

  /** `str::parse::<u64>`: one optional plus sign, then digits, leading zeros included. */
  function ParseU64(s: string): Option<U64> {
    var digits := if s != [] && s[0] == '+' then s[1..] else s;
    if digits != [] && AllDigits(digits) && DecValue(digits) < U64_LIMIT then Some(DecValue(digits)) else None
  }

  // ---- requests ----------------------------------------------------------

  function RequestTags(c: JobRequestContent, bid: Option<U64>): Result<Tags, WireError> {
    var _ :- Need(bid.None? || bid.value <= MAX_SAFE_INTEGER, InvalidTag);
    Success(BaseTags(c) + BidTags(bid))
  }

  function BaseTags(c: JobRequestContent): Tags {
    [["i", Canonical(c), INPUT_TYPE], ["protocol", SOUL_WIRE_PROTOCOL], ["service", c.service.AsStr()], ["t", TOPIC]]
    + if c.expiresAt.Some? then [["expiration", Dec(c.expiresAt.value)]] else []
  }

  function BidTags(bid: Option<U64>): Tags {
    if bid.Some? then [["bid", Dec(bid.value)]] else []
  }

  function TagsNamed(tags: Tags, key: string): Tags {
    if tags == [] then []
    else (if tags[0] != [] && tags[0][0] == key then [tags[0]] else []) + TagsNamed(tags[1..], key)
  }

  function OptionalScalarTag(tags: Tags, key: string): Result<Option<string>, WireError> {
    var named := TagsNamed(tags, key);
    if |named| == 0 then Success(None)
    else if |named| > 1 then Failure(DuplicateTag)
    else if |named[0]| != 2 then Failure(InvalidTag)
    else Success(Some(named[0][1]))
  }

  function ReadBid(tags: Tags): Result<Option<U64>, WireError> {
    var text :- OptionalScalarTag(tags, "bid");
    match text
    case None => Success(None)
    case Some(s) =>
      match ParseU64(s)
      case None => Failure(InvalidTag)
      case Some(bid) =>
        var _ :- Need(bid <= MAX_SAFE_INTEGER, InvalidTag);
        Success(Some(bid))
  }

  function RequestOf(e: Event, c: JobRequestContent, bid: Option<U64>): JobRequest {
    JobRequest(
      e.id, c.service, c.input, if bid.Some? then bid.value else 0, e.body.pubkey, e.body.createdAt, c.expiresAt,
      Canonical(c), Serialize(e))
  }

  function ParseRequest(nostr: Nostr, e: Event, now: U64): Result<JobRequest, WireError> {
    var _ :- Need(nostr.Verify(e), InvalidEvent);
    var service := ServiceOfRequestKind(e.body.kind);
    var _ :- Need(service.Some?, UnsupportedKind);
    var _ :- Need(Utf8Length(e.body.content) <= MAX_REQUEST_BYTES, RequestTooLarge);
    var createdAt := e.body.createdAt;
    var _ :- Need(
      && createdAt <= SaturatingAdd(now, MAX_FUTURE_SKEW_SECS)
      && SaturatingSub(now, createdAt) <= MAX_REQUEST_AGE_SECS, InvalidTimestamp);
    match ReadContent(e.body.content)
    case None => Failure(MalformedJson)
    case Some(content) =>
      match content.Validate(createdAt, now)
      case Failure(error) => Failure(Validation(error))
      case Success(_) =>
        var _ :- Need(content.service == service.value, ServiceKindMismatch);
        var _ :- Need(Canonical(content) == e.body.content, NonCanonicalJson);
        var bid :- ReadBid(e.body.tags);
        var tags :- RequestTags(content, bid);
        var _ :- Need(e.body.tags == tags, InvalidTag);
        Success(RequestOf(e, content, bid))
  }

  /** The observation window, without saturation. */
  predicate InWindow(createdAt: int, now: int) {
    createdAt - MAX_FUTURE_SKEW_SECS <= now <= createdAt + MAX_REQUEST_AGE_SECS
  }

  /** The saturating comparisons are the exact window, for every pair of u64 clocks. */
  lemma SaturatingWindowIsExact(createdAt: U64, now: U64)
    ensures
      && createdAt <= SaturatingAdd(now, MAX_FUTURE_SKEW_SECS)
      && SaturatingSub(now, createdAt) <= MAX_REQUEST_AGE_SECS
      <==> InWindow(createdAt, now)
  {
  }

  /** An event that carries exactly what the request encoder emits for a content and an optional bid. */
  ghost predicate Encodes(nostr: Nostr, e: Event, now: U64, c: JobRequestContent, bid: Option<U64>) {
    && nostr.Verify(e)
    && e.body.kind == c.service.RequestKind()
    && e.body.content == Canonical(c)
    && RequestTags(c, bid) == Success(e.body.tags)
    && InWindow(e.body.createdAt, now)
    && c.Validate(e.body.createdAt, now).Success?
  }

  lemma {:induction false} TagsNamedConcat(a: Tags, b: Tags, key: string)
    ensures TagsNamed(a + b, key) == TagsNamed(a, key) + TagsNamed(b, key)
  {
    if a == [] {
      assert a + b == b;
    } else {
      TagsNamedConcat(a[1..], b, key);
      assert (a + b)[1..] == a[1..] + b;
      var head: Tags := if a[0] != [] && a[0][0] == key then [a[0]] else [];
      assert head + (TagsNamed(a[1..], key) + TagsNamed(b, key)) == head + TagsNamed(a[1..], key) + TagsNamed(b, key);
    }
  }

  lemma {:induction false} NoTagNamed(tags: Tags, key: string)
    requires forall i :: 0 <= i < |tags| ==> tags[i] == [] || tags[i][0] != key
    ensures TagsNamed(tags, key) == []
  {
    if tags != [] {
      NoTagNamed(tags[1..], key);
    }
  }

  lemma ParseDec(n: U64)
    ensures ParseU64(Dec(n)) == Some(n) && ParseU64(['+'] + Dec(n)) == Some(n)
  {
    ValueOfDec(n);
    assert (['+'] + Dec(n))[1..] == Dec(n);
  }

  lemma ReadBidOfRequestTags(c: JobRequestContent, bid: Option<U64>)
    requires bid.None? || bid.value <= MAX_SAFE_INTEGER
    ensures ReadBid(BaseTags(c) + BidTags(bid)) == Success(bid)
  {
    TagsNamedConcat(BaseTags(c), BidTags(bid), "bid");
    NoTagNamed(BaseTags(c), "bid");
    if bid.Some? {
      ParseDec(bid.value);
      assert TagsNamed(BidTags(bid), "bid") == BidTags(bid);
    }
  }

  // ---- canonical requests are short --------------------------------------

  lemma {:induction false} Utf8AtMostFour(s: string)
    ensures Utf8Length(s) <= 4 * |s|
  {
    if s != [] {
      Utf8AtMostFour(s[1..]);
    }
  }

  lemma NumberLength(n: U64)
    ensures |Print(Num(n))| <= 20
  {
    assert Pow10(5) == 100000;
    assert Pow10(10) == 10000000000;
    assert Pow10(15) == 1000000000000000;
    assert Pow10(20) == 100000000000000000000;
    DecLength(n, 20);
  }

  lemma FeltTextLength(f: FeltHex)
    ensures |Print(Str(f))| == 68
  {
    EscapePlain(f);
  }

  lemma {:induction false} FeltListLength(felts: seq<FeltHex>)
    ensures |PrintItems(FeltItems(felts))| <= 69 * |felts|
  {
    hide Print, IsFeltText;
    if felts != [] {
      FeltTextLength(felts[0]);
      FeltListLength(felts[1..]);
      assert FeltItems(felts)[1..] == FeltItems(felts[1..]);
    }
  }

  /** Members of at most `bound` characters each, but for one at `heavy`. */
  lemma {:induction false} MembersLength(members: seq<Member>, bound: nat, heavy: nat)
    requires heavy < |members|
    requires forall i :: 0 <= i < |members| && i != heavy ==> |PrintMember(members[i])| <= bound
    ensures |PrintMembers(members)| <= |members| * (bound + 1) + |PrintMember(members[heavy])|
  {
    hide PrintMember;
    if |members| > 1 {
      if heavy > 0 {
        MembersLength(members[1..], bound, heavy - 1);
      } else {
        LightMembersLength(members[1..], bound);
      }
      assert |members| * (bound + 1) == (|members| - 1) * (bound + 1) + bound + 1;
    }
  }

  lemma {:induction false} LightMembersLength(members: seq<Member>, bound: nat)
    requires forall i :: 0 <= i < |members| ==> |PrintMember(members[i])| <= bound
    ensures |PrintMembers(members)| <= |members| * (bound + 1)
  {
    hide PrintMember;
    if |members| > 1 {
      LightMembersLength(members[1..], bound);
      assert |members| * (bound + 1) == (|members| - 1) * (bound + 1) + bound + 1;
    }
  }

  lemma MemberLength(m: Member)
    requires Plain(m.key)
    ensures |PrintMember(m)| == |m.key| + 3 + |Print(m.value)|
  {
    EscapePlain(m.key);
  }

  lemma PlainLength(s: string)
    requires Plain(s)
    ensures |Print(Str(s))| == |s| + 2
  {
    EscapePlain(s);
  }

  lemma BracketsLength(items: seq<Json>, members: seq<Member>)
    ensures |Print(Arr(items))| == |PrintItems(items)| + 2
    ensures |Print(Obj(members))| == |PrintMembers(members)| + 2
  {
  }

  lemma MerkleInputLength(input: JobInput)
    requires input.MerkleProofInput? && input.Validate().Success?
    ensures |Print(Obj(InputMembers(input)))| <= 2700
  {
    var members := InputMembers(input);
    hide Print, PrintMember, PrintMembers, PrintItems, FeltItems, IsFeltText, Escape;
    BracketsLength(FeltItems(input.proof), members);
    MemberLength(members[0]);
    PlainLength(input.Service().AsStr());
    MemberLength(members[1]);
    MemberLength(members[2]);
    MemberLength(members[3]);
    MemberLength(members[4]);
    FeltTextLength(input.root);
    FeltTextLength(input.leaf);
    FeltListLength(input.proof);
    NumberLength(input.index);
    MembersLength(members, 90, 3);
  }

  lemma FibonacciInputLength(input: JobInput)
    requires input.FibonacciInput?
    ensures |Print(Obj(InputMembers(input)))| <= 2700
  {
    var members := InputMembers(input);
    hide Print, PrintMember, PrintMembers, Escape;
    MemberLength(members[0]);
    PlainLength(input.Service().AsStr());
    MemberLength(members[1]);
    NumberLength(input.n);
    LightMembersLength(members, 90);
    BracketsLength([], members);
  }

  lemma HashInputLength(input: JobInput)
    requires input.HashVerifyInput?
    ensures |Print(Obj(InputMembers(input)))| <= 2700
  {
    var members := InputMembers(input);
    hide Print, PrintMember, PrintMembers, Escape, IsFeltText;
    MemberLength(members[0]);
    PlainLength(input.Service().AsStr());
    MemberLength(members[1]);
    MemberLength(members[2]);
    FeltTextLength(input.hash);
    FeltTextLength(input.preimage);
    LightMembersLength(members, 90);
    BracketsLength([], members);
  }

  lemma InputLength(input: JobInput)
    requires input.Validate().Success?
    ensures |Print(Obj(InputMembers(input)))| <= 2700
  {
    hide Print, InputMembers;
    match input
    case FibonacciInput(_) => FibonacciInputLength(input);
    case HashVerifyInput(_, _) => HashInputLength(input);
    case MerkleProofInput(_, _, _, _) => MerkleInputLength(input);
  }

  lemma PlainNames(service: ServiceType)
    ensures Plain(SOUL_WIRE_PROTOCOL) && |SOUL_WIRE_PROTOCOL| == 14
    ensures Plain(service.AsStr()) && |service.AsStr()| <= 12
    ensures Plain("protocol") && Plain("service") && Plain("expires_at")
  {
  }

  lemma LightContentMembers(c: JobRequestContent)
    requires c.protocol == SOUL_WIRE_PROTOCOL
    ensures |PrintMember(Member("protocol", Str(c.protocol)))| <= 90
    ensures |PrintMember(Member("service", Str(c.service.AsStr())))| <= 90
    ensures c.expiresAt.Some? ==> |PrintMember(Member("expires_at", Num(c.expiresAt.value)))| <= 90
  {
    hide Print, PrintMember, Plain, ServiceType.AsStr;
    PlainNames(c.service);
    MemberLength(Member("protocol", Str(c.protocol)));
    MemberLength(Member("service", Str(c.service.AsStr())));
    PlainLength(SOUL_WIRE_PROTOCOL);
    PlainLength(c.service.AsStr());
    if c.expiresAt.Some? {
      MemberLength(Member("expires_at", Num(c.expiresAt.value)));
      NumberLength(c.expiresAt.value);
    }
  }

  lemma ContentLength(c: JobRequestContent)
    requires c.input.Validate().Success? && c.protocol == SOUL_WIRE_PROTOCOL
    ensures |Canonical(c)| <= 4000
  {
    hide Print, PrintMember, PrintMembers, InputMembers;
    var members := ContentJson(c).members;
    LightContentMembers(c);
    InputLength(c.input);
    MemberLength(members[2]);
    MembersLength(members, 90, 2);
    BracketsLength([], members);
  }

  /** The encoder's own output always passes the size limit. */
  lemma CanonicalFits(c: JobRequestContent)
    requires c.input.Validate().Success? && c.protocol == SOUL_WIRE_PROTOCOL
    ensures Utf8Length(Canonical(c)) <= MAX_REQUEST_BYTES
  {
    ContentLength(c);
    Utf8AtMostFour(Canonical(c));
  }

  // ---- what is accepted --------------------------------------------------

  /** Every in-window encoding parses back to the values it was built from ... */
  lemma EncodingIsAccepted(nostr: Nostr, e: Event, now: U64, c: JobRequestContent, bid: Option<U64>)
    requires Encodes(nostr, e, now, c, bid)
    ensures ParseRequest(nostr, e, now) == Success(RequestOf(e, c, bid))
  {
    hide Canonical, ReadContent, BaseTags, BidTags, ReadBid, Serialize;
    CanonicalFits(c);
    SaturatingWindowIsExact(e.body.createdAt, now);
    ContentRoundTrip(c);
    ReadBidOfRequestTags(c, bid);
  }

  /** ... and only encodings are accepted. */
  lemma AcceptedIsEncoding(nostr: Nostr, e: Event, now: U64)
    requires ParseRequest(nostr, e, now).Success?
    ensures exists c, bid ::
      Encodes(nostr, e, now, c, bid) && ParseRequest(nostr, e, now) == Success(RequestOf(e, c, bid))
  {
    hide Canonical, ReadContent, BaseTags, BidTags, ReadBid, Serialize;
    SaturatingWindowIsExact(e.body.createdAt, now);
    var c := ReadContent(e.body.content).value;
    var bid := ReadBid(e.body.tags).value;
    assert Encodes(nostr, e, now, c, bid);
  }

  /** Accepted requests are exactly the encoder's image. */
  lemma AcceptedIffEncoded(nostr: Nostr, e: Event, now: U64)
    ensures ParseRequest(nostr, e, now).Success? <==> exists c, bid :: Encodes(nostr, e, now, c, bid)
  {
    if ParseRequest(nostr, e, now).Success? {
      AcceptedIsEncoding(nostr, e, now);
    } else if exists c, bid :: Encodes(nostr, e, now, c, bid) {
      var c, bid :| Encodes(nostr, e, now, c, bid);
      EncodingIsAccepted(nostr, e, now, c, bid);
    }
  }

  /** A refused request is refused for the first thing wrong with it. */
  lemma RefusedFor(nostr: Nostr, e: Event, now: U64)
    requires ParseRequest(nostr, e, now).Failure?
    ensures
      var error := ParseRequest(nostr, e, now).error;
      var read := ReadContent(e.body.content);
      && (error == InvalidEvent <==> !nostr.Verify(e))
      && (!error.InvalidEvent? ==>
            && (error == UnsupportedKind <==> e.body.kind !in {5601, 5602, 5603})
            && (!error.UnsupportedKind? ==>
                  && (error == RequestTooLarge <==> Utf8Length(e.body.content) > 16384)
                  && (!error.RequestTooLarge? ==>
                        && (error == InvalidTimestamp <==>
                              !(e.body.createdAt - 300 <= now <= e.body.createdAt + 600))
                        && (!error.InvalidTimestamp? ==> RefusedContent(e, now, read, error)))))
  {
    hide ReadContent, Canonical, Utf8Length, JobRequestContent.Validate, BaseTags, BidTags;
    SaturatingWindowIsExact(e.body.createdAt, now);
  }

  /** Why an authentic, timely and short event is refused. */
  predicate RefusedContent(e: Event, now: U64, read: Option<JobRequestContent>, error: WireError) {
    && (error == MalformedJson <==> read.None?)
    && (read.Some? ==>
          var c := read.value;
          var valid := c.Validate(e.body.createdAt, now);
          && (error.Validation? <==> valid.Failure?)
          && (if valid.Failure? then error == Validation(valid.error)
              else if e.body.kind != c.service.RequestKind() then error == ServiceKindMismatch
              else if e.body.content != Canonical(c) then error == NonCanonicalJson
              else error == if |TagsNamed(e.body.tags, "bid")| > 1 then DuplicateTag else InvalidTag))
  }

  // ---- what the tags say -------------------------------------------------

  lemma {:induction false} TagAt(tags: Tags, k: nat, key: string)
    requires k < |tags| && tags[k] != [] && tags[k][0] == key
    requires forall i :: 0 <= i < |tags| && i != k ==> tags[i] == [] || tags[i][0] != key
    ensures TagsNamed(tags, key) == [tags[k]]
  {
    if k > 0 {
      TagAt(tags[1..], k - 1, key);
    } else {
      NoTagNamed(tags[1..], key);
      assert tags[..1] == [tags[0]];
    }
  }

  /** Each tag of a request says what its name promises, once: the content and its type, the protocol, the service, the
      topic, the expiry and the bid. */
  lemma RequestTagsReadBack(c: JobRequestContent, bid: Option<U64>)
    ensures
      var tags := BaseTags(c) + BidTags(bid);
      && TagsNamed(tags, "i") == [["i", Canonical(c), "text"]]
      && OptionalScalarTag(tags, "protocol") == Success(Some("soul-society/1"))
      && OptionalScalarTag(tags, "service") == Success(Some(c.service.AsStr()))
      && OptionalScalarTag(tags, "t") == Success(Some("soul-society"))
      && OptionalScalarTag(tags, "expiration")
           == Success(match c.expiresAt case None => None case Some(t) => Some(Dec(t)))
      && OptionalScalarTag(tags, "bid") == Success(match bid case None => None case Some(b) => Some(Dec(b)))
  {
    hide Canonical, Dec, TagsNamed;
    var tags := BaseTags(c) + BidTags(bid);
    assert forall i :: 0 <= i < |tags| ==> tags[i] != [];
    TagAt(tags, 0, "i");
    TagAt(tags, 1, "protocol");
    TagAt(tags, 2, "service");
    TagAt(tags, 3, "t");
    if c.expiresAt.Some? { TagAt(tags, 4, "expiration"); } else { NoTagNamed(tags, "expiration"); }
    if bid.Some? { TagAt(tags, |tags| - 1, "bid"); } else { NoTagNamed(tags, "bid"); }
  }

  /** What an accepted request is, read off its event: identity, author, time, kind, content, and the tags that print
      them; its bid is the one its tag prints, or nothing. */
  lemma AcceptedSaysWhatItIs(nostr: Nostr, e: Event, now: U64)
    requires ParseRequest(nostr, e, now).Success?
    ensures
      var request := ParseRequest(nostr, e, now).value;
      && request.id == e.id && request.customerPubkey == e.body.pubkey && request.createdAt == e.body.createdAt
      && e.body.kind == request.service.RequestKind() && request.service == request.input.Service()
      && request.canonicalInput == e.body.content
      && ReadContent(e.body.content)
           == Some(JobRequestContent("soul-society/1", request.service, request.input, request.expiresAt))
      && TagsNamed(e.body.tags, "i") == [["i", e.body.content, "text"]]
      && OptionalScalarTag(e.body.tags, "protocol") == Success(Some("soul-society/1"))
      && OptionalScalarTag(e.body.tags, "service") == Success(Some(request.service.AsStr()))
      && (|| OptionalScalarTag(e.body.tags, "bid") == Success(Some(Dec(request.bidMsats)))
          || (OptionalScalarTag(e.body.tags, "bid") == Success(None) && request.bidMsats == 0))
  {
    hide ParseRequest, Canonical, ReadContent, BaseTags, BidTags, ReadBid, Serialize, OptionalScalarTag, TagsNamed, Dec;
    AcceptedIsEncoding(nostr, e, now);
    var c, bid :| Encodes(nostr, e, now, c, bid) && ParseRequest(nostr, e, now) == Success(RequestOf(e, c, bid));
    RequestTagsReadBack(c, bid);
    ContentRoundTrip(c);
  }
}
