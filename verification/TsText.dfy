/** The TypeScript SDK's texts, from its own literals: packages/soul-sdk/src/canonical.ts, the kinds and names of
    constants.ts and types.ts, and `JSON.stringify` as ECMAScript defines it. */
module TsText {
  import opened Wrappers
  import opened Felt
  import opened Decimal
  import opened Types
  import opened Json
  import Codec
  import ResultCodec
  import Hex

  // ---- JSON.stringify ----------------------------------------------------

  /** One character of `QuoteJSONString`. */
  function Quoted(c: char): string {
    match c
    case '\"' => "\\\""
    case '\\' => "\\\\"
    case '\U{8}' => "\\b"
    case '\t' => "\\t"
    case '\n' => "\\n"
    case '\U{c}' => "\\f"
    case '\r' => "\\r"
    case _ =>
      if c as int < 0x20 then "\\u00" + [Hex.Digit(c as int / 16), Hex.Digit(c as int % 16)] else [c]
  }

  function QuotedAll(s: string): string {
    if s == [] then "" else Quoted(s[0]) + QuotedAll(s[1..])
  }

  function Quote(s: string): string {
    "\"" + QuotedAll(s) + "\""
  }

  /** The partial texts of an array or object, joined by commas. */
  function Join(parts: seq<string>): string {
    if parts == [] then "" else if |parts| == 1 then parts[0] else parts[0] + "," + Join(parts[1..])
  }

  function Stringify(j: Json): string {
    match j
    case Null => "null"
    case Bool(b) => if b then "true" else "false"
    case Num(n) => Dec(n)
    case Str(s) => Quote(s)
    case Arr(items) => "[" + Join(ItemTexts(items)) + "]"
    case Obj(members) => "{" + Join(MemberTexts(members)) + "}"
  }

  function ItemTexts(items: seq<Json>): (texts: seq<string>)
    ensures |texts| == |items|
  {
    if items == [] then [] else [Stringify(items[0])] + ItemTexts(items[1..])
  }

  function MemberTexts(members: seq<Member>): (texts: seq<string>)
    ensures |texts| == |members|
  {
    if members == [] then []
    else [Quote(members[0].key) + ":" + Stringify(members[0].value)] + MemberTexts(members[1..])
  }

  /** The two printers agree on every value: same separators, same escapes. */
  lemma {:induction false} PrintersAgree(j: Json)
    ensures Stringify(j) == Print(j)
    decreases j, 0
  {
    match j {
      case Null =>
      case Bool(_) =>
      case Num(_) =>
      case Str(s) => QuotesAgree(s);
      case Arr(items) => ItemsAgree(items);
      case Obj(members) => MembersAgree(members);
    }
  }

  lemma {:induction false} QuotesAgree(s: string)
    ensures QuotedAll(s) == Escape(s)
  {
    if s != [] {
      QuotesAgree(s[1..]);
    }
  }

  lemma {:induction false} ItemsAgree(items: seq<Json>)
    ensures Join(ItemTexts(items)) == PrintItems(items)
    decreases items, 1
  {
    hide Stringify, Print;
    if items != [] {
      PrintersAgree(items[0]);
      ItemsAgree(items[1..]);
      assert ItemTexts(items)[1..] == ItemTexts(items[1..]);
    }
  }

  lemma {:induction false} MembersAgree(members: seq<Member>)
    ensures Join(MemberTexts(members)) == PrintMembers(members)
    decreases members, 1
  {
    hide Stringify, Print, Escape, QuotedAll;
    if members != [] {
      QuotesAgree(members[0].key);
      PrintersAgree(members[0].value);
      MembersAgree(members[1..]);
      MemberTextAgrees(members[0]);
      assert MemberTexts(members)[1..] == MemberTexts(members[1..]);
    }
  }

  lemma MemberTextAgrees(m: Member)
    requires QuotedAll(m.key) == Escape(m.key) && Stringify(m.value) == Print(m.value)
    ensures Quote(m.key) + ":" + Stringify(m.value) == PrintMember(m)
  {
    hide Stringify, Print, Escape, QuotedAll;
    assert "\"" + Escape(m.key) + "\"" + ":" == "\"" + Escape(m.key) + "\":";
  }

  // ---- UTF-8 -------------------------------------------------------------

  /** The octets of one character, section 3 of RFC 3629. */
  function Octets(c: char): (r: seq<int>)
    ensures 1 <= |r| <= 4
  {
    var n := c as int;
    if n < 0x80 then [n]
    else if n < 0x800 then [0xC0 + n / 64, Tail(n)]
    else if n < 0x10000 then [0xE0 + n / 4096, Tail(n / 64), Tail(n)]
    else [0xF0 + n / 262144, Tail(n / 4096), Tail(n / 64), Tail(n)]
  }

  function Tail(n: nat): int {
    0x80 + n % 64
  }

  /** `new TextEncoder().encode(value)`. */
  function Encode(s: string): seq<int> {
    if s == [] then [] else Octets(s[0]) + Encode(s[1..])
  }

  /** How many octets a first octet announces, and the bits it carries. */
  function Lead(b: int): Option<(nat, nat)> {
    if 0 <= b < 0x80 then Some((1, b))
    else if 0xC0 <= b < 0xE0 then Some((2, b - 0xC0))
    else if 0xE0 <= b < 0xF0 then Some((3, b - 0xE0))
    else if 0xF0 <= b < 0xF8 then Some((4, b - 0xF0))
    else None
  }

  function Gather(bits: nat, octets: seq<int>): Option<nat>
    decreases |octets|
  {
    if octets == [] then Some(bits)
    else if 0x80 <= octets[0] < 0xC0 then Gather(64 * bits + (octets[0] - 0x80), octets[1..])
    else None
  }

  function Decode(octets: seq<int>): Option<string> {
    if octets == [] then Some("")
    else
      var (length, bits) :- Lead(octets[0]);
      if length > |octets| then None
      else
        var n :- Gather(bits, octets[1..length]);
        if 0xD800 <= n < 0xE000 || n >= 0x110000 then None
        else
          var rest :- Decode(octets[length..]);
          Some([n as char] + rest)
  }

  lemma OctetsGather(c: char)
    ensures
      var octets := Octets(c);
      && Lead(octets[0]).Some? && Lead(octets[0]).value.0 == |octets|
      && Gather(Lead(octets[0]).value.1, octets[1..]) == Some(c as int)
  {
    var n, octets := c as int, Octets(c);
    if |octets| == 2 {
      assert octets[1..] == [Tail(n)] + [];
      GatherTail(n / 64, n, []);
    } else if |octets| == 3 {
      assert octets[1..] == [Tail(n / 64)] + ([Tail(n)] + []);
      GatherTail(n / 4096, n / 64, [Tail(n)] + []);
      GatherTail(n / 64, n, []);
    } else if |octets| == 4 {
      assert octets[1..] == [Tail(n / 4096)] + ([Tail(n / 64)] + ([Tail(n)] + []));
      GatherTail(n / 262144, n / 4096, [Tail(n / 64)] + ([Tail(n)] + []));
      GatherTail(n / 4096, n / 64, [Tail(n)] + []);
      GatherTail(n / 64, n, []);
    }
  }

  /** An octet that follows adds six bits. */
  lemma GatherTail(bits: nat, n: nat, rest: seq<int>)
    requires bits == n / 64
    ensures Gather(bits, [Tail(n)] + rest) == Gather(n, rest)
  {
    assert ([Tail(n)] + rest)[1..] == rest;
    assert 64 * (n / 64) + n % 64 == n;
  }

  /** Every text is read back from its octets. */
  lemma {:induction false} DecodeInvertsEncode(s: string)
    ensures Decode(Encode(s)) == Some(s)
  {
    if s != [] {
      var octets, rest := Octets(s[0]), Encode(s[1..]);
      DecodeInvertsEncode(s[1..]);
      OctetsGather(s[0]);
      assert (octets + rest)[0] == octets[0];
      assert (octets + rest)[1..|octets|] == octets[1..] && (octets + rest)[|octets|..] == rest;
      hide Octets, Gather, Lead;
      assert s == [s[0]] + s[1..];
    }
  }

  // ---- names and kinds ---------------------------------------------------

  function ServiceName(service: ServiceType): string {
    match service
    case Fibonacci => "fibonacci"
    case HashVerify => "hash_verify"
    case MerkleProof => "merkle_proof"
  }

  /** `getRequestKind`. */
  function RequestKind(service: ServiceType): int {
    match service
    case Fibonacci => 5601
    case HashVerify => 5602
    case MerkleProof => 5603
  }

  function CodeName(code: ErrorCode): string {
    match code
    case InvalidRequest => "invalid_request"
    case UnsupportedService => "unsupported_service"
    case ExpiredCode => "expired"
    case Duplicate => "duplicate"
    case Busy => "busy"
    case ProvingFailed => "proving_failed"
    case ArtifactUnavailable => "artifact_unavailable"
    case Internal => "internal"
  }

  lemma NamesAgree(service: ServiceType)
    ensures ServiceName(service) == service.AsStr()
    ensures RequestKind(service) == service.RequestKind() && RequestKind(service) + 1000 == service.ResultKind()
  {
  }

  // ---- canonical objects -------------------------------------------------

  function Felts(felts: seq<FeltHex>): (items: seq<Json>)
    ensures |items| == |felts|
  {
    seq(|felts|, i requires 0 <= i < |felts| => Str(felts[i]))
  }

  /** `canonicalizeInput`. */
  function InputObject(input: JobInput): Json {
    match input
    case FibonacciInput(n) => Obj([Member("type", Str("fibonacci")), Member("n", Num(n))])
    case HashVerifyInput(hash, preimage) =>
      Obj([Member("type", Str("hash_verify")), Member("hash", Str(hash)), Member("preimage", Str(preimage))])
    case MerkleProofInput(root, leaf, proof, index) =>
      Obj([Member("type", Str("merkle_proof")), Member("root", Str(root)), Member("leaf", Str(leaf)),
           Member("proof", Arr(Felts(proof))), Member("index", Num(index))])
  }

  /** `serializeRequestContent`. */
  function RequestText(c: JobRequestContent): string {
    Stringify(Obj(
      [Member("protocol", Str("soul-society/1")), Member("service", Str(ServiceName(c.input.Service()))),
       Member("input", InputObject(c.input))]
      + match c.expiresAt
        case None => []
        case Some(t) => [Member("expires_at", Num(t))]))
  }

  /** `canonicalizeOutput`. */
  function OutputObject(output: JobOutput): Json {
    match output
    case FibonacciOutput(result) => Obj([Member("type", Str("fibonacci")), Member("result", Str(result))])
    case HashVerifyOutput(valid) => Obj([Member("type", Str("hash_verify")), Member("valid", Bool(valid))])
    case MerkleProofOutput(valid) => Obj([Member("type", Str("merkle_proof")), Member("valid", Bool(valid))])
  }

  /** `canonicalizeStatement`. */
  function StatementObject(st: ProofStatement): Json {
    Obj([Member("service", Str(ServiceName(st.service))), Member("program", Str("soul-cairo-v1")),
         Member("public_input", Arr(Felts(st.publicInput))), Member("public_output", Arr(Felts(st.publicOutput))),
         Member("output", OutputObject(st.output))])
  }

  /** `canonicalizeProofDescriptor`. */
  function DescriptorObject(p: ProofDescriptor): Json {
    Obj([Member("format", Str("stwo-cairo-json-v1")),
         Member("media_type", Str("application/vnd.soul-society.stwo-proof+json")), Member("url", Str(p.url)),
         Member("sha256", Str(p.sha256)), Member("byte_size", Num(p.byteSize)),
         Member("program_hash", Str(p.programHash)), Member("channel", Str("blake2s"))])
  }

  function MetricsObject(m: JobMetrics): Json {
    Obj([Member("execution_ms", Num(m.executionMs)), Member("proving_ms", Num(m.provingMs)),
         Member("verification_ms", Num(m.verificationMs))])
  }

  /** `canonicalizeResult`. */
  function ResultObject(r: JobResultContent): Json {
    match r
    case ErrorResult(_, requestId, error) =>
      Obj([Member("status", Str("error")), Member("protocol", Str("soul-society/1")),
           Member("request_id", Str(requestId)),
           Member("error", Obj([Member("code", Str(CodeName(error.code))), Member("message", Str(error.message))]))])
    case SuccessResult(_, requestId, statement, proof, metrics) =>
      Obj([Member("status", Str("success")), Member("protocol", Str("soul-society/1")),
           Member("request_id", Str(requestId)), Member("statement", StatementObject(statement)),
           Member("proof", DescriptorObject(proof)), Member("metrics", MetricsObject(metrics))])
  }

  /** `serializeResult`. */
  function ResultText(r: JobResultContent): string {
    Stringify(ResultObject(r))
  }

  lemma FeltsAgree(felts: seq<FeltHex>)
    ensures Felts(felts) == Codec.FeltItems(felts)
  {
  }

  lemma InputsAgree(input: JobInput)
    ensures InputObject(input) == Obj(Codec.InputMembers(input))
  {
    if input.MerkleProofInput? {
      FeltsAgree(input.proof);
    }
  }

  /** The two languages print one text for every request content that names the protocol and its input's service. */
  lemma RequestTextsAgree(c: JobRequestContent)
    requires c.protocol == SOUL_WIRE_PROTOCOL && c.service == c.input.Service()
    ensures RequestText(c) == Codec.Canonical(c)
  {
    hide Stringify, Print, InputObject, Codec.InputMembers;
    InputsAgree(c.input);
    NamesAgree(c.service);
    PrintersAgree(Codec.ContentJson(c));
  }

  lemma StatementsAgree(st: ProofStatement)
    requires st.program == CAIRO_PROGRAM
    ensures StatementObject(st) == Obj(ResultCodec.StatementMembers(st))
  {
    FeltsAgree(st.publicInput);
    FeltsAgree(st.publicOutput);
    NamesAgree(st.service);
  }

  lemma DescriptorsAgree(p: ProofDescriptor)
    requires p.format == PROOF_FORMAT && p.mediaType == PROOF_MEDIA_TYPE && p.channel == PROOF_CHANNEL
    ensures DescriptorObject(p) == Obj(ResultCodec.ProofMembers(p))
  {
  }

  /** And one text for every result content with the constants of the protocol. */
  lemma ResultTextsAgree(r: JobResultContent)
    requires r.protocol == SOUL_WIRE_PROTOCOL
    requires r.SuccessResult? ==>
      && r.statement.program == CAIRO_PROGRAM
      && r.proof.format == PROOF_FORMAT && r.proof.mediaType == PROOF_MEDIA_TYPE && r.proof.channel == PROOF_CHANNEL
    ensures ResultText(r) == ResultCodec.CanonicalResult(r)
  {
    hide Stringify, Print, StatementObject, ResultCodec.StatementMembers, DescriptorObject, ResultCodec.ProofMembers;
    var members := ResultCodec.ResultMembers(r);
    if r.SuccessResult? {
      StatementsAgree(r.statement);
      DescriptorsAgree(r.proof);
      assert ResultObject(r).members == members;
    } else {
      assert ResultObject(r).members == members;
    }
    PrintersAgree(Obj(members));
  }
}
