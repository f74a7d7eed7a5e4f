/** The TypeScript SDK's validators on typed values, packages/soul-sdk/src/validation.ts and utils.ts, against the
    Rust ones. */
module TsMirror {
  import opened Wrappers
  import opened Hex
  import opened Felt
  import opened Decimal
  import opened Types
  import opened Json
  import opened Codec
  import opened Events
  import opened Wire
  import Cairo
  import TsText

  // ---- field elements ----------------------------------------------------

  /** `BigInt(value).toString(16)`. */
  function HexString(n: nat): (s: string)
    ensures s != []
  {
    if n < 16 then [Digit(n)] else HexString(n / 16) + [Digit(n % 16)]
  }

  function PadStart(s: string, width: nat): string
    decreases width - |s|
  {
    if |s| >= width then s else PadStart("0" + s, width)
  }

  /** `feltFromNumber` on a safe integer. */
  function FeltFromNumber(n: nat): string {
    "0x" + PadStart(HexString(n), 64)
  }

  lemma {:induction false} PadSnoc(s: string, width: nat, c: char)
    ensures PadStart(s + [c], width + 1) == PadStart(s, width) + [c]
    decreases width - |s|
  {
    if |s| < width {
      PadSnoc("0" + s, width, c);
      assert "0" + (s + [c]) == ("0" + s) + [c];
    }
  }

  lemma {:induction false} PaddedHexIsText(n: nat, width: nat)
    requires width > 0 && n < Pow16(width)
    ensures PadStart(HexString(n), width) == Text(n, width)
  {
    if n >= 16 {
      assert Pow16(1) == 16;
      PaddedHexIsText(n / 16, width - 1);
      PadSnoc(HexString(n / 16), width - 1, Digit(n % 16));
    } else if width == 1 {
      assert Text(n / 16, 0) == [];
    } else {
      PaddedHexIsText(0, width - 1);
      ZeroPadded(n, width);
    }
  }

  lemma {:induction false} ZeroPadded(n: nat, width: nat)
    requires width > 1 && n < 16
    ensures PadStart([Digit(n)], width) == PadStart(HexString(0), width - 1) + [Digit(n)]
  {
    assert "0" + [Digit(n)] == "0" + ([] + [Digit(n)]) == HexString(0) + [Digit(n)];
    PadSnoc(HexString(0), width - 1, Digit(n));
  }

  /** Both languages print one text for a number. */
  lemma FeltFromNumberIsFeltText(n: Felt)
    ensures FeltFromNumber(n) == FeltText(n)
  {
    PrimeFits();
    PaddedHexIsText(n, 64);
  }

  // ---- statements --------------------------------------------------------

  /** The checks of `parseStatement` on a statement whose felts are already canonical. */
  predicate StatementParses(st: ProofStatement) {
    && st.program == "soul-cairo-v1"
    && |st.publicInput| <= 32 + 4
    && |st.publicOutput| <= 32 + 8
    && st.output.Service() == st.service
    && match st.output
       case FibonacciOutput(result) =>
         |st.publicInput| == 1 && |st.publicOutput| == 1 && st.publicOutput[0] == result
       case HashVerifyOutput(valid) =>
         |st.publicInput| == 1 && |st.publicOutput| == 1
         && st.publicOutput[0] == FeltFromNumber(if valid then 1 else 0)
       case MerkleProofOutput(valid) =>
         |st.publicInput| == 3 && |st.publicOutput| == 1
         && st.publicOutput[0] == FeltFromNumber(if valid then 1 else 0)
  }

  /** `assertStatementBoundToRequest`. */
  predicate BoundToRequest(st: ProofStatement, request: JobRequestContent) {
    && st.service == request.service && st.output.Service() == request.service
    && match request.input
       case FibonacciInput(n) =>
         && st.output.FibonacciOutput?
         && st.publicInput == [FeltFromNumber(n)] && st.publicOutput == [st.output.result]
       case HashVerifyInput(hash, _) =>
         && st.output.HashVerifyOutput?
         && st.publicInput == [hash] && st.publicOutput == [FeltFromNumber(if st.output.valid then 1 else 0)]
       case MerkleProofInput(root, leaf, _, index) =>
         && st.output.MerkleProofOutput?
         && st.publicInput == [root, leaf, FeltFromNumber(index)]
         && st.publicOutput == [FeltFromNumber(if st.output.valid then 1 else 0)]
  }

  /** The provider's statement checks and the SDK's accept the same statements for a request. */
  lemma StatementChecksAgree(st: ProofStatement, request: JobRequestContent)
    requires request.service == request.input.Service()
    ensures st.Validate().Success? && StatementMatchesRequest(st, request.input)
       <==> StatementParses(st) && BoundToRequest(st, request)
  {
    hide FeltText, FeltFromNumber, IsFeltText;
    FeltFromNumberIsFeltText(0);
    FeltFromNumberIsFeltText(1);
    if request.input.FibonacciInput? {
      FeltFromNumberIsFeltText(request.input.n);
    } else if request.input.MerkleProofInput? {
      FeltFromNumberIsFeltText(request.input.index);
    }
    SingletonOutputs(st);
  }

  lemma SingletonOutputs(st: ProofStatement)
    ensures |st.publicOutput| == 1 ==> st.publicOutput == [st.publicOutput[0]]
  {
  }

  // ---- bids --------------------------------------------------------------

  /** `Number(text)` rounds to a double; it is exact up to 2^53 and monotone. */
  ghost predicate RoundsLikeDouble(round: nat -> nat) {
    && (forall n: nat :: n <= MAX_SAFE_INTEGER + 1 ==> round(n) == n)
    && (forall m: nat, n: nat :: m <= n ==> round(m) <= round(n))
  }

  /** The scalar of `readBid`: canonical digits, then the safe-integer test on the rounded number. */
  function TsBid(round: nat -> nat, text: string): Option<nat> {
    if IsCanonical(text) && round(DecValue(text)) <= MAX_SAFE_INTEGER then Some(round(DecValue(text))) else None
  }

  /** The Rust scalar: a lenient parse, the bound, and the comparison with the reprinted tag. */
  function RustBid(text: string): Option<nat> {
    match ParseU64(text)
    case None => None
    case Some(bid) => if bid <= MAX_SAFE_INTEGER && Dec(bid) == text then Some(bid) else None
  }

  /** Both accept the same bid texts with the same value: signs, leading zeros and roundings included. */
  lemma BidsAgree(round: nat -> nat, text: string)
    requires RoundsLikeDouble(round)
    ensures RustBid(text) == TsBid(round, text)
  {
    if IsCanonical(text) {
      DecOfValue(text);
      var n := DecValue(text);
      if n > MAX_SAFE_INTEGER {
        assert round(MAX_SAFE_INTEGER + 1) <= round(n);
      }
    } else if ParseU64(text).Some? {
      ValueOfDec(ParseU64(text).value);
    }
  }

  // ---- whole requests ----------------------------------------------------

  /** `validateJobInput` on typed fields; `2 ** length` is exact here. */
  predicate InputOk(input: JobInput) {
    match input
    case FibonacciInput(n) => n <= 363
    case HashVerifyInput(_, _) => true
    case MerkleProofInput(_, _, proof, index) =>
      && |proof| <= 32
      && index <= MAX_SAFE_INTEGER
      && index < if |proof| == 0 then 1 else Pow2(|proof|)
  }

  /** `parseRequestContent` on typed fields. */
  predicate ContentOk(c: JobRequestContent, createdAt: int, now: int) {
    && c.protocol == "soul-society/1"
    && InputOk(c.input)
    && c.service == c.input.Service()
    && (c.expiresAt.Some? ==>
          && c.expiresAt.value <= MAX_SAFE_INTEGER
          && now < c.expiresAt.value && createdAt <= c.expiresAt.value
          && c.expiresAt.value - createdAt <= 3600)
  }

  /** `readBid`; the outer `None` is a thrown error. */
  function TsReadBid(round: nat -> nat, tags: Tags): Option<Option<nat>> {
    var named := TagsNamed(tags, "bid");
    if |named| == 0 then Some(None)
    else if |named| != 1 || |named[0]| != 2 then None
    else
      var bid :- TsBid(round, named[0][1]);
      Some(Some(bid))
  }

  /** `JSON.stringify(tags)`. */
  function StringifyTags(tags: Tags): string {
    Print(Arr(TagItems(tags)))
  }

  function BidOption(bid: Option<nat>): Option<U64>
    requires bid.Some? ==> bid.value <= MAX_SAFE_INTEGER
  {
    match bid
    case None => None
    case Some(b) => Some(b)
  }

  /** `requestTags` of the SDK. */
  function SdkRequestTags(c: JobRequestContent, bid: Option<nat>): Tags {
    [["i", TsText.RequestText(c), "text"], ["protocol", "soul-society/1"],
     ["service", TsText.ServiceName(c.service)], ["t", "soul-society"]]
    + (match c.expiresAt
       case None => []
       case Some(t) => [["expiration", Dec(t)]])
    + match bid
      case None => []
      case Some(b) => [["bid", Dec(b)]]
  }

  /** The two languages build one tag vector. */
  lemma RequestTagsAgree(c: JobRequestContent, bid: Option<nat>)
    requires c.protocol == SOUL_WIRE_PROTOCOL && c.service == c.input.Service()
    requires bid.Some? ==> bid.value <= MAX_SAFE_INTEGER
    ensures RequestTags(c, BidOption(bid)) == Success(SdkRequestTags(c, bid))
    ensures BaseTags(c) + BidTags(BidOption(bid)) == SdkRequestTags(c, bid)
  {
    hide TsText.RequestText, Canonical;
    TsText.RequestTextsAgree(c);
    TsText.NamesAgree(c.service);
  }

  lemma OkContentIsNamed(c: JobRequestContent, createdAt: int, now: int)
    requires ContentOk(c, createdAt, now)
    ensures c.protocol == SOUL_WIRE_PROTOCOL && c.service == c.input.Service()
  {
  }

  lemma ValidContentIsNamed(c: JobRequestContent, createdAt: U64, now: U64)
    requires c.Validate(createdAt, now).Success?
    ensures c.protocol == SOUL_WIRE_PROTOCOL && c.service == c.input.Service()
  {
  }

  /** `validateRequestEvent` accepts: every check holds for the content the text is the canonical form of. */
  ghost predicate SdkAccepts(nostr: Nostr, round: nat -> nat, e: Event, now: int) {
    && nostr.Verify(e)
    && |TsText.Encode(e.body.content)| <= 16384
    && e.body.createdAt <= MAX_SAFE_INTEGER
    && e.body.createdAt <= now + 300
    && now - e.body.createdAt <= 600
    && exists c :: SdkAcceptsContent(round, e, now, c)
  }

  ghost predicate SdkAcceptsContent(round: nat -> nat, e: Event, now: int, c: JobRequestContent) {
    && e.body.content == TsText.RequestText(c)
    && ContentOk(c, e.body.createdAt, now)
    && e.body.kind == TsText.RequestKind(c.service)
    && var bid := TsReadBid(round, e.body.tags);
    && bid.Some? && (bid.value.Some? ==> bid.value.value <= MAX_SAFE_INTEGER)
    && StringifyTags(e.body.tags) == StringifyTags(SdkRequestTags(c, bid.value))
  }

  /** What the Rust code counts is the length of the UTF-8 form. */
  lemma {:induction false} LengthsAgree(s: string)
    ensures Utf8Length(s) == |TsText.Encode(s)|
  {
    if s != [] {
      LengthsAgree(s[1..]);
    }
  }

  lemma StringifyInjective(a: Tags, b: Tags)
    requires StringifyTags(a) == StringifyTags(b)
    ensures a == b
  {
    PrintInjective(Arr(TagItems(a)), Arr(TagItems(b)));
    assert |a| == |TagItems(a)| == |b|;
    forall i | 0 <= i < |a| ensures a[i] == b[i] {
      assert TagItems(a)[i] == TagItems(b)[i];
      StrItemsInjective(a[i], b[i]);
    }
  }

  lemma StrItemsInjective(x: seq<string>, y: seq<string>)
    requires StrItems(x) == StrItems(y)
    ensures x == y
  {
    assert |x| == |StrItems(x)| == |y|;
    forall k | 0 <= k < |x| ensures x[k] == y[k] {
      assert StrItems(x)[k] == StrItems(y)[k];
    }
  }

  lemma TsReadBidOfRequestTags(round: nat -> nat, c: JobRequestContent, bid: Option<U64>)
    requires RoundsLikeDouble(round) && (bid.None? || bid.value <= MAX_SAFE_INTEGER)
    ensures
      var read := TsReadBid(round, BaseTags(c) + BidTags(bid));
      && read.Some? && (read.value.Some? ==> read.value.value <= MAX_SAFE_INTEGER)
      && BidOption(read.value) == bid
  {
    TagsNamedConcat(BaseTags(c), BidTags(bid), "bid");
    NoTagNamed(BaseTags(c), "bid");
    if bid.Some? {
      assert TagsNamed(BidTags(bid), "bid") == BidTags(bid);
      ParseDec(bid.value);
      BidsAgree(round, Dec(bid.value));
    }
  }

  predicate SafeExpiry(expiresAt: Option<U64>) {
    expiresAt.Some? ==> expiresAt.value <= MAX_SAFE_INTEGER
  }

  lemma ContentChecksAgree(c: JobRequestContent, createdAt: U64, now: U64)
    ensures ContentOk(c, createdAt, now) <==> c.Validate(createdAt, now).Success? && SafeExpiry(c.expiresAt)
  {
    if c.input.MerkleProofInput? && |c.input.proof| <= MAX_MERKLE_DEPTH {
      Cairo.DepthFitsU64(|c.input.proof|);
    }
  }

  /** The SDK accepts exactly those request events of the provider whose two times are safe integers. */
  lemma RequestChecksAgree(nostr: Nostr, round: nat -> nat, e: Event, now: U64)
    requires RoundsLikeDouble(round)
    ensures SdkAccepts(nostr, round, e, now) <==>
      && ParseRequest(nostr, e, now).Success?
      && e.body.createdAt <= MAX_SAFE_INTEGER && SafeExpiry(ParseRequest(nostr, e, now).value.expiresAt)
  {
    hide ParseRequest, Canonical, BaseTags, BidTags, TsReadBid, StringifyTags, JobRequestContent.Validate, ContentOk;
    hide TsText.RequestText, SdkRequestTags, Utf8Length, TsText.Encode;
    LengthsAgree(e.body.content);
    if ParseRequest(nostr, e, now).Success? {
      AcceptedIsEncoding(nostr, e, now);
      var c, bid :| Encodes(nostr, e, now, c, bid) && ParseRequest(nostr, e, now) == Success(RequestOf(e, c, bid));
      ContentChecksAgree(c, e.body.createdAt, now);
      ValidContentIsNamed(c, e.body.createdAt, now);
      TsReadBidOfRequestTags(round, c, bid);
      RequestTagsAgree(c, TsReadBid(round, BaseTags(c) + BidTags(bid)).value);
      EncodedFits(nostr, e, now, c, bid);
      TsText.RequestTextsAgree(c);
      TsText.NamesAgree(c.service);
      assert SafeExpiry(c.expiresAt) ==> SdkAcceptsContent(round, e, now, c);
    }
    if SdkAccepts(nostr, round, e, now) {
      var c :| SdkAcceptsContent(round, e, now, c);
      ContentChecksAgree(c, e.body.createdAt, now);
      OkContentIsNamed(c, e.body.createdAt, now);
      var bid := TsReadBid(round, e.body.tags).value;
      RequestTagsAgree(c, bid);
      TsText.RequestTextsAgree(c);
      TsText.NamesAgree(c.service);
      StringifyInjective(e.body.tags, SdkRequestTags(c, bid));
      assert Encodes(nostr, e, now, c, BidOption(bid));
      EncodingIsAccepted(nostr, e, now, c, BidOption(bid));
    }
  }

  /** In particular they agree on every request made an hour or more before the end of the safe range. */
  lemma RequestChecksAgreeInRange(nostr: Nostr, round: nat -> nat, e: Event, now: U64)
    requires RoundsLikeDouble(round) && e.body.createdAt + MAX_REQUEST_TTL_SECS <= MAX_SAFE_INTEGER
    ensures SdkAccepts(nostr, round, e, now) <==> ParseRequest(nostr, e, now).Success?
  {
    hide ParseRequest, SdkAccepts;
    RequestChecksAgree(nostr, round, e, now);
    if ParseRequest(nostr, e, now).Success? {
      AcceptedIsEncoding(nostr, e, now);
    }
  }

  // ---- the request a job builds ------------------------------------------

  /** `buildRequestContent`. */
  function BuiltContent(input: JobInput, expiresAt: nat): JobRequestContent
    requires expiresAt < U64_LIMIT
  {
    JobRequestContent("soul-society/1", input.Service(), input, Some(expiresAt))
  }

  /** The template that `run` hands to the signer, filled in with the author. */
  function Template(pubkey: string, input: JobInput, createdAt: nat, expiresIn: nat, bid: nat): Unsigned
    requires createdAt + expiresIn <= MAX_SAFE_INTEGER
  {
    var c := BuiltContent(input, createdAt + expiresIn);
    Unsigned(pubkey, createdAt, TsText.RequestKind(c.service), SdkRequestTags(c, Some(bid)), TsText.RequestText(c))
  }

  /** `validateJobOptions`, as far as the request goes. */
  predicate OptionsOk(expiresIn: nat, bid: nat) {
    1 <= expiresIn <= 3600 && bid <= MAX_SAFE_INTEGER
  }

  predicate Timely(createdAt: int, expiresAt: int, now: int) {
    createdAt - 300 <= now <= createdAt + 600 && now < expiresAt
  }

  /** What a job builds from a validated input and validated options, once signed, is taken by its own validator and by
      the provider's exactly from five minutes before its creation until it expires or is ten minutes old: an expiry
      of up to an hour is allowed, but a request older than ten minutes is refused all the same. */
  lemma BuiltRequestIsAcceptedIff(
    nostr: Nostr, round: nat -> nat, e: Event, input: JobInput, createdAt: nat, expiresIn: nat, bid: nat, now: U64)
    requires RoundsLikeDouble(round) && InputOk(input) && OptionsOk(expiresIn, bid)
    requires createdAt + expiresIn <= MAX_SAFE_INTEGER
    requires e.body == Template(e.body.pubkey, input, createdAt, expiresIn, bid) && nostr.Verify(e)
    ensures SdkAccepts(nostr, round, e, now) <==> Timely(createdAt, createdAt + expiresIn, now)
    ensures ParseRequest(nostr, e, now).Success? <==> Timely(createdAt, createdAt + expiresIn, now)
    ensures ParseRequest(nostr, e, now).Success? ==>
      var request := ParseRequest(nostr, e, now).value;
      && request.input == input && request.expiresAt == Some(createdAt + expiresIn) && request.bidMsats == bid
  {
    var c := BuiltContent(input, createdAt + expiresIn);
    BuiltParses(nostr, e, c, bid, now);
    hide ParseRequest, SdkAccepts, SdkRequestTags, TsText.RequestText, BuiltContent;
    RequestChecksAgree(nostr, round, e, now);
  }

  lemma BuiltParses(nostr: Nostr, e: Event, c: JobRequestContent, bid: nat, now: U64)
    requires c.protocol == SOUL_WIRE_PROTOCOL && c.service == c.input.Service() && InputOk(c.input)
    requires c.expiresAt.Some? && bid <= MAX_SAFE_INTEGER && nostr.Verify(e)
    requires e.body.createdAt < c.expiresAt.value <= e.body.createdAt + 3600 && c.expiresAt.value <= MAX_SAFE_INTEGER
    requires e.body.kind == TsText.RequestKind(c.service) && e.body.content == TsText.RequestText(c)
    requires e.body.tags == SdkRequestTags(c, Some(bid))
    ensures ParseRequest(nostr, e, now) == Success(RequestOf(e, c, Some(bid)))
       <==> Timely(e.body.createdAt, c.expiresAt.value, now)
    ensures ParseRequest(nostr, e, now).Success?
       <==> Timely(e.body.createdAt, c.expiresAt.value, now)
  {
    hide ParseRequest, Canonical, BaseTags, BidTags, SdkRequestTags, TsText.RequestText, ContentOk;
    hide JobRequestContent.Validate;
    TsText.RequestTextsAgree(c);
    TsText.NamesAgree(c.service);
    RequestTagsAgree(c, Some(bid));
    ContentChecksAgree(c, e.body.createdAt, now);
    if Timely(e.body.createdAt, c.expiresAt.value, now) {
      assert ContentOk(c, e.body.createdAt, now) by { BuiltIsOk(c, e.body.createdAt, now); }
      EncodingIsAccepted(nostr, e, now, c, Some(bid));
    } else if ParseRequest(nostr, e, now).Success? {
      AcceptedIsEncoding(nostr, e, now);
      var d, b :| Encodes(nostr, e, now, d, b) && ParseRequest(nostr, e, now) == Success(RequestOf(e, d, b));
      ContentRoundTrip(c);
      ContentRoundTrip(d);
      assert c == d;
      StillOpen(c, e.body.createdAt, now);
      assert false;
    }
  }

  lemma BuiltIsOk(c: JobRequestContent, createdAt: nat, now: U64)
    requires c.protocol == SOUL_WIRE_PROTOCOL && c.service == c.input.Service() && InputOk(c.input)
    requires c.expiresAt.Some? && createdAt < c.expiresAt.value <= createdAt + 3600
    requires c.expiresAt.value <= MAX_SAFE_INTEGER && now < c.expiresAt.value
    ensures ContentOk(c, createdAt, now)
  {
  }

  lemma StillOpen(c: JobRequestContent, createdAt: U64, now: U64)
    requires c.Validate(createdAt, now).Success? && c.expiresAt.Some?
    ensures now < c.expiresAt.value
  {
  }

  lemma EncodedFits(nostr: Nostr, e: Event, now: U64, c: JobRequestContent, bid: Option<U64>)
    requires Encodes(nostr, e, now, c, bid)
    ensures Utf8Length(e.body.content) <= MAX_REQUEST_BYTES
  {
    hide Canonical;
    CanonicalFits(c);
  }
}
