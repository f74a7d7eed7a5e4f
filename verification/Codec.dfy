/** Typed Soul Wire values as JSON, in the field order and with the strictness of the serde derives of
    crates/soul-core/src/types.rs. */
module Codec {
  import opened Wrappers
  import opened Felt
  import opened Types
  import opened Json

  // ---- objects -----------------------------------------------------------

  predicate DistinctKeys(members: seq<Member>) {
    forall i, j :: 0 <= i < j < |members| ==> members[i].key != members[j].key
  }

  predicate OnlyKeys(members: seq<Member>, allowed: seq<string>) {
    forall i :: 0 <= i < |members| ==> members[i].key in allowed
  }

  function Get(members: seq<Member>, key: string): Option<Json> {
    if members == [] then None
    else if members[0].key == key then Some(members[0].value)
    else Get(members[1..], key)
  }

  lemma {:induction false} GetAt(members: seq<Member>, i: nat)
    requires DistinctKeys(members) && i < |members|
    ensures Get(members, members[i].key) == Some(members[i].value)
  {
    if i > 0 {
      GetAt(members[1..], i - 1);
    }
  }

  lemma {:induction false} GetAbsent(members: seq<Member>, key: string)
    requires forall i :: 0 <= i < |members| ==> members[i].key != key
    ensures Get(members, key) == None
  {
    if members != [] {
      GetAbsent(members[1..], key);
    }
  }

  /** A struct with `deny_unknown_fields`: an object whose members are known and occur once. */
  function Struct(j: Json, allowed: seq<string>): Option<seq<Member>> {
    if j.Obj? && OnlyKeys(j.members, allowed) && DistinctKeys(j.members) then Some(j.members) else None
  }

  function GetStr(members: seq<Member>, key: string): Option<string> {
    var v :- Get(members, key);
    if v.Str? then Some(v.s) else None
  }

  function GetU64(members: seq<Member>, key: string): Option<U64> {
    var v :- Get(members, key);
    if v.Num? && v.n < U64_LIMIT then Some(v.n) else None
  }

  function GetBool(members: seq<Member>, key: string): Option<bool> {
    var v :- Get(members, key);
    if v.Bool? then Some(v.b) else None
  }

  function GetFelt(members: seq<Member>, key: string): Option<FeltHex> {
    var s :- GetStr(members, key);
    Parse(s)
  }

  function FeltList(items: seq<Json>): (r: Option<seq<FeltHex>>) {
    if items == [] then Some([])
    else
      var _ :- Guard(items[0].Str?);
      var head :- Parse(items[0].s);
      var tail :- FeltList(items[1..]);
      Some([head] + tail)
  }

  function GetFelts(members: seq<Member>, key: string): Option<seq<FeltHex>> {
    var v :- Get(members, key);
    if v.Arr? then FeltList(v.items) else None
  }

  function FeltItems(felts: seq<FeltHex>): (r: seq<Json>)
    ensures |r| == |felts|
  {
    seq(|felts|, i requires 0 <= i < |felts| => Str(felts[i]))
  }

  lemma {:induction false} FeltListOfItems(felts: seq<FeltHex>)
    ensures FeltList(FeltItems(felts)) == Some(felts)
  {
    if felts != [] {
      FeltListOfItems(felts[1..]);
      assert FeltItems(felts)[1..] == FeltItems(felts[1..]);
      assert felts == [felts[0]] + felts[1..];
    }
  }

  function ServiceOfName(s: string): Option<ServiceType> {
    if s == Fibonacci.AsStr() then Some(Fibonacci)
    else if s == HashVerify.AsStr() then Some(HashVerify)
    else if s == MerkleProof.AsStr() then Some(MerkleProof)
    else None
  }

  function GetService(members: seq<Member>, key: string): Option<ServiceType> {
    var s :- GetStr(members, key);
    ServiceOfName(s)
  }

  lemma NamesAreDistinct(service: ServiceType)
    ensures ServiceOfName(service.AsStr()) == Some(service)
  {
  }

  // ---- requests ----------------------------------------------------------

  function InputMembers(input: JobInput): seq<Member> {
    [Member("type", Str(input.Service().AsStr()))] +
    match input
    case FibonacciInput(n) => [Member("n", Num(n))]
    case HashVerifyInput(hash, preimage) => [Member("hash", Str(hash)), Member("preimage", Str(preimage))]
    case MerkleProofInput(root, leaf, proof, index) =>
      [Member("root", Str(root)), Member("leaf", Str(leaf)), Member("proof", Arr(FeltItems(proof))),
       Member("index", Num(index))]
  }

  function ContentJson(c: JobRequestContent): Json {
    Obj([Member("protocol", Str(c.protocol)), Member("service", Str(c.service.AsStr())),
         Member("input", Obj(InputMembers(c.input)))] +
        if c.expiresAt.Some? then [Member("expires_at", Num(c.expiresAt.value))] else [])
  }

  function InputOfJson(j: Json): Option<JobInput> {
    var members :- Struct(j, if j.Obj? then AllowedInputKeys(j.members) else []);
    var service :- GetService(members, "type");
    InputOfMembers(service, members)
  }

  function InputOfMembers(service: ServiceType, members: seq<Member>): Option<JobInput> {
    match service
    case Fibonacci =>
      var n :- GetU64(members, "n");
      Some(FibonacciInput(n))
    case HashVerify =>
      var hash :- GetFelt(members, "hash");
      var preimage :- GetFelt(members, "preimage");
      Some(HashVerifyInput(hash, preimage))
    case MerkleProof =>
      var root :- GetFelt(members, "root");
      var leaf :- GetFelt(members, "leaf");
      var proof :- GetFelts(members, "proof");
      var index :- GetU64(members, "index");
      Some(MerkleProofInput(root, leaf, proof, index))
  }

  function AllowedInputKeys(members: seq<Member>): seq<string> {
    match GetService(members, "type")
    case Some(Fibonacci) => ["type", "n"]
    case Some(HashVerify) => ["type", "hash", "preimage"]
    case Some(MerkleProof) => ["type", "root", "leaf", "proof", "index"]
    case None => []
  }

  /** `expires_at` may be absent or null; the canonical text never contains null. */
  const CONTENT_KEYS := ["protocol", "service", "input", "expires_at"]

  function ContentOfJson(j: Json): Option<JobRequestContent> {
    var members :- Struct(j, CONTENT_KEYS);
    var protocol :- GetStr(members, "protocol");
    var service :- GetService(members, "service");
    var inputJson :- Get(members, "input");
    var input :- InputOfJson(inputJson);
    match Get(members, "expires_at")
    case None => Some(JobRequestContent(protocol, service, input, None))
    case Some(Null) => Some(JobRequestContent(protocol, service, input, None))
    case Some(_) =>
      var t :- GetU64(members, "expires_at");
      Some(JobRequestContent(protocol, service, input, Some(t)))
  }

  /** `serde_json::to_string` of the content: `canonical_json`. */
  function Canonical(c: JobRequestContent): string {
    Print(ContentJson(c))
  }

  /** `serde_json::from_str::<JobRequestContent>`. */
  function ReadContent(text: string): Option<JobRequestContent> {
    var j :- Read(text);
    ContentOfJson(j)
  }

  lemma InputMembersRoundTrip(input: JobInput)
    ensures InputOfMembers(input.Service(), InputMembers(input)) == Some(input)
  {
    hide IsFeltText, FeltItems;
    var members := InputMembers(input);
    GetAt(members, 1);
    match input {
      case FibonacciInput(n) =>
      case HashVerifyInput(hash, preimage) =>
        GetAt(members, 2);
      case MerkleProofInput(root, leaf, proof, index) =>
        GetAt(members, 2);
        GetAt(members, 3);
        GetAt(members, 4);
        FeltListOfItems(proof);
    }
  }

  lemma InputTypeIsRead(input: JobInput)
    ensures
      var members := InputMembers(input);
      && DistinctKeys(members) && OnlyKeys(members, AllowedInputKeys(members))
      && GetService(members, "type") == Some(input.Service())
  {
    hide InputOfMembers, FeltItems, IsFeltText;
    var members := InputMembers(input);
    NamesAreDistinct(input.Service());
    GetAt(members, 0);
    assert GetService(members, "type") == Some(input.Service());
  }

  lemma InputRoundTrip(input: JobInput)
    ensures InputOfJson(Obj(InputMembers(input))) == Some(input)
  {
    hide InputOfMembers, AllowedInputKeys, OnlyKeys, DistinctKeys;
    InputTypeIsRead(input);
    InputMembersRoundTrip(input);
  }

  lemma ContentKeys(c: JobRequestContent)
    ensures DistinctKeys(ContentJson(c).members) && OnlyKeys(ContentJson(c).members, CONTENT_KEYS)
  {
    hide InputMembers;
  }

  lemma ContentJsonRoundTrip(c: JobRequestContent)
    ensures ContentOfJson(ContentJson(c)) == Some(c)
  {
    hide InputMembers, InputOfJson;
    var members := ContentJson(c).members;
    ContentKeys(c);
    NamesAreDistinct(c.service);
    InputRoundTrip(c.input);
    if c.expiresAt.None? { GetAbsent(members, "expires_at"); }
    hide Get, DistinctKeys, OnlyKeys;
    GetAt(members, 0);
    GetAt(members, 1);
    GetAt(members, 2);
    if c.expiresAt.Some? { GetAt(members, 3); }
  }

  /** The request printer has the reader as left inverse, so no two texts mean one request. */
  lemma ContentRoundTrip(c: JobRequestContent)
    ensures ReadContent(Canonical(c)) == Some(c)
  {
    ReadInvertsPrint(ContentJson(c));
    ContentJsonRoundTrip(c);
  }
}
