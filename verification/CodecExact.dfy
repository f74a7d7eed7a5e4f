/** What the typed readers take, exactly: objects with the members of their struct, each once and in any order, as the
    serde derives of crates/soul-core/src/types.rs say, and nothing else. */
module CodecExact {
  import opened Wrappers
  import opened Felt
  import opened Types
  import opened Json
  import opened Codec
  import opened ResultCodec
  import JsonGrammar

  // ---- objects -----------------------------------------------------------

  ghost predicate SameMembers(a: seq<Member>, b: seq<Member>) {
    forall m :: m in a <==> m in b
  }

  /** An object with these members, once each, in any order. */
  ghost predicate Spells(j: Json, own: seq<Member>) {
    j.Obj? && DistinctKeys(j.members) && SameMembers(j.members, own)
  }

  lemma {:induction false} GetMeans(members: seq<Member>, key: string)
    ensures Get(members, key).Some? ==> Member(key, Get(members, key).value) in members
  {
    if members != [] && members[0].key != key {
      GetMeans(members[1..], key);
    }
  }

  /** What is found under a name does not depend on the order. */
  lemma SpelledGet(members: seq<Member>, own: seq<Member>, key: string)
    requires DistinctKeys(members) && DistinctKeys(own) && SameMembers(members, own)
    ensures Get(members, key) == Get(own, key)
  {
    GetMeans(members, key);
    GetMeans(own, key);
    if Get(own, key).Some? {
      var m := Member(key, Get(own, key).value);
      assert m in members;
      var i :| 0 <= i < |members| && members[i] == m;
      GetAt(members, i);
    } else if Get(members, key).Some? {
      var m := Member(key, Get(members, key).value);
      assert m in own;
      var i :| 0 <= i < |own| && own[i] == m;
      GetAt(own, i);
    }
  }

  ghost predicate Finds(members: seq<Member>, own: seq<Member>) {
    forall m :: m in own ==> Get(members, m.key) == Some(m.value)
  }

  /** An object in which all of a struct is found, and that names nothing else, is one of that struct. */
  lemma FoundIsAll(members: seq<Member>, own: seq<Member>)
    requires DistinctKeys(members) && Finds(members, own)
    requires forall m :: m in members ==> exists o :: o in own && o.key == m.key
    ensures SameMembers(members, own)
  {
    forall m | m in members ensures m in own {
      var i :| 0 <= i < |members| && members[i] == m;
      GetAt(members, i);
      var o :| o in own && o.key == m.key;
    }
    forall m | m in own ensures m in members {
      GetMeans(members, m.key);
    }
  }

  lemma KeysAreOwn(members: seq<Member>, keys: seq<string>, own: seq<Member>)
    requires OnlyKeys(members, keys) && |own| == |keys| && forall i :: 0 <= i < |own| ==> own[i].key == keys[i]
    ensures forall m :: m in members ==> exists o :: o in own && o.key == m.key
  {
    forall m | m in members ensures exists o :: o in own && o.key == m.key {
      var i :| 0 <= i < |members| && members[i] == m;
      var k :| 0 <= k < |keys| && keys[k] == members[i].key;
      assert own[k] in own;
    }
  }

  // ---- values ------------------------------------------------------------

  lemma {:induction false} FeltListExact(items: seq<Json>)
    ensures FeltList(items).Some? ==> items == FeltItems(FeltList(items).value)
  {
    if items != [] && FeltList(items).Some? {
      FeltListExact(items[1..]);
    }
  }

  lemma NamesAreExact(s: string)
    ensures ServiceOfName(s).Some? ==> s == ServiceOfName(s).value.AsStr()
    ensures ErrorOfName(s).Some? ==> s == ErrorName(ErrorOfName(s).value)
  {
  }

  // ---- flat structs ------------------------------------------------------

  /** `JobMetrics`. */
  lemma MetricsExact(j: Json, m: JobMetrics)
    ensures MetricsOfJson(j) == Some(m) <==> Spells(j, MetricsMembers(m))
  {
    var own := MetricsMembers(m);
    MetricsRoundTrip(m);
    if MetricsOfJson(j) == Some(m) {
      assert Finds(j.members, own);
      KeysAreOwn(j.members, ["execution_ms", "proving_ms", "verification_ms"], own);
      FoundIsAll(j.members, own);
    }
    if Spells(j, own) {
      assert DistinctKeys(own);
      SpelledGet(j.members, own, "execution_ms");
      SpelledGet(j.members, own, "proving_ms");
      SpelledGet(j.members, own, "verification_ms");
      SpelledKeys(j.members, own, ["execution_ms", "proving_ms", "verification_ms"]);
    }
  }

  lemma SpelledKeys(members: seq<Member>, own: seq<Member>, keys: seq<string>)
    requires SameMembers(members, own) && OnlyKeys(own, keys)
    ensures OnlyKeys(members, keys)
  {
    forall i | 0 <= i < |members| ensures members[i].key in keys {
      assert members[i] in own;
    }
  }

  /** `JobError`. */
  lemma ErrorExact(j: Json, e: JobError)
    ensures ErrorOfJson(j) == Some(e) <==> Spells(j, ErrorMembers(e))
  {
    var own := ErrorMembers(e);
    ErrorRoundTrip(e);
    if ErrorOfJson(j) == Some(e) {
      NamesAreExact(GetStr(j.members, "code").value);
      hide ErrorOfName, ErrorName;
      assert Finds(j.members, own);
      KeysAreOwn(j.members, ["code", "message"], own);
      FoundIsAll(j.members, own);
    }
    if Spells(j, own) {
      hide ErrorOfName, ErrorName;
      assert DistinctKeys(own);
      SpelledGet(j.members, own, "code");
      SpelledGet(j.members, own, "message");
      SpelledKeys(j.members, own, ["code", "message"]);
    }
  }

  lemma ProofFound(members: seq<Member>, p: ProofDescriptor)
    requires ProofOfJson(Obj(members)) == Some(p)
    ensures Finds(members, ProofMembers(p))
  {
    hide IsFeltText, DistinctKeys, OnlyKeys, Get;
  }

  lemma ProofDepends(members: seq<Member>, own: seq<Member>)
    requires DistinctKeys(members) && DistinctKeys(own) && OnlyKeys(members, PROOF_KEYS) && OnlyKeys(own, PROOF_KEYS)
    requires forall key :: key in PROOF_KEYS ==> Get(members, key) == Get(own, key)
    ensures ProofOfJson(Obj(members)) == ProofOfJson(Obj(own))
  {
    hide IsFeltText, DistinctKeys, OnlyKeys, Get;
    assert PROOF_KEYS[0] == "format" && PROOF_KEYS[1] == "media_type" && PROOF_KEYS[2] == "url";
    assert PROOF_KEYS[3] == "sha256" && PROOF_KEYS[4] == "byte_size" && PROOF_KEYS[5] == "program_hash";
    assert PROOF_KEYS[6] == "channel";
  }

  lemma ProofIsSpelled(j: Json, p: ProofDescriptor)
    requires ProofOfJson(j) == Some(p)
    ensures Spells(j, ProofMembers(p))
  {
    var own := ProofMembers(p);
    ProofIsStruct(j);
    ProofFound(j.members, p);
    hide ProofOfJson, DistinctKeys, OnlyKeys;
    assert forall i :: 0 <= i < 7 ==> own[i].key == PROOF_KEYS[i];
    hide ProofMembers;
    KeysAreOwn(j.members, PROOF_KEYS, own);
    FoundIsAll(j.members, own);
  }

  lemma ProofIsStruct(j: Json)
    requires ProofOfJson(j).Some?
    ensures j.Obj? && DistinctKeys(j.members) && OnlyKeys(j.members, PROOF_KEYS)
  {
    hide DistinctKeys, OnlyKeys, IsFeltText, Get;
  }

  /** `ProofDescriptor`. */
  lemma ProofExact(j: Json, p: ProofDescriptor)
    ensures ProofOfJson(j) == Some(p) <==> Spells(j, ProofMembers(p))
  {
    hide ProofOfJson, DistinctKeys, OnlyKeys, ProofMembers, SameMembers, Get;
    var own := ProofMembers(p);
    ProofRoundTrip(p);
    ProofKeys(p);
    if ProofOfJson(j) == Some(p) {
      ProofIsSpelled(j, p);
    }
    if Spells(j, own) {
      forall key | key in PROOF_KEYS ensures Get(j.members, key) == Get(own, key) {
        SpelledGet(j.members, own, key);
      }
      SpelledKeys(j.members, own, PROOF_KEYS);
      ProofDepends(j.members, own);
    }
  }

  // ---- tagged enums ------------------------------------------------------

  function InputKeys(service: ServiceType): seq<string> {
    match service
    case Fibonacci => ["type", "n"]
    case HashVerify => ["type", "hash", "preimage"]
    case MerkleProof => ["type", "root", "leaf", "proof", "index"]
  }

  lemma TypeFound(members: seq<Member>, input: JobInput)
    requires InputOfJson(Obj(members)) == Some(input)
    ensures Get(members, "type") == Some(Str(input.Service().AsStr()))
    ensures InputOfMembers(input.Service(), members) == Some(input)
    ensures DistinctKeys(members) && OnlyKeys(members, InputKeys(input.Service()))
  {
    hide IsFeltText, DistinctKeys, OnlyKeys, Get, FeltList, ServiceOfName;
    NamesAreExact(GetStr(members, "type").value);
  }

  lemma FeltFound(members: seq<Member>, key: string)
    ensures GetFelt(members, key).Some? ==> Get(members, key) == Some(Str(GetFelt(members, key).value))
  {
    hide IsFeltText, Get;
  }

  lemma FeltsFound(members: seq<Member>, key: string)
    ensures GetFelts(members, key).Some? ==> Get(members, key) == Some(Arr(FeltItems(GetFelts(members, key).value)))
  {
    hide IsFeltText, Get, FeltItems, FeltList;
    if GetFelts(members, key).Some? { FeltListExact(Get(members, key).value.items); }
  }

  lemma NumberFound(members: seq<Member>, key: string)
    ensures GetU64(members, key).Some? ==> Get(members, key) == Some(Num(GetU64(members, key).value))
  {
    hide Get;
  }

  lemma InputFound(members: seq<Member>, input: JobInput)
    requires InputOfMembers(input.Service(), members) == Some(input)
    requires Get(members, "type") == Some(Str(input.Service().AsStr()))
    ensures Finds(members, InputMembers(input))
  {
    hide GetFelt, GetFelts, GetU64, Get, FeltItems, IsFeltText, ServiceType.AsStr;
    NumberFound(members, "n");
    NumberFound(members, "index");
    FeltFound(members, "hash");
    FeltFound(members, "preimage");
    FeltFound(members, "root");
    FeltFound(members, "leaf");
    FeltsFound(members, "proof");
  }

  lemma InputDepends(members: seq<Member>, own: seq<Member>, service: ServiceType)
    requires GetService(members, "type") == GetService(own, "type") == Some(service)
    requires DistinctKeys(members) && OnlyKeys(members, InputKeys(service))
    requires DistinctKeys(own) && OnlyKeys(own, InputKeys(service))
    requires forall key :: key in InputKeys(service) ==> Get(members, key) == Get(own, key)
    ensures InputOfJson(Obj(members)) == InputOfJson(Obj(own))
  {
    hide IsFeltText, DistinctKeys, OnlyKeys, Get, FeltList, GetService;
    var keys := InputKeys(service);
    if service.Fibonacci? {
      assert keys[1] == "n";
    } else if service.HashVerify? {
      assert keys[1] == "hash" && keys[2] == "preimage";
    } else {
      assert keys[1] == "root" && keys[2] == "leaf" && keys[3] == "proof" && keys[4] == "index";
    }
  }

  lemma InputKeysAreOwn(input: JobInput)
    ensures
      var own, keys := InputMembers(input), InputKeys(input.Service());
      && |own| == |keys| && (forall i :: 0 <= i < |own| ==> own[i].key == keys[i])
      && DistinctKeys(own) && OnlyKeys(own, keys) && keys[0] == "type"
  {
    hide FeltItems;
  }

  /** `JobInput`, with no member of another service. */
  lemma InputExact(j: Json, input: JobInput)
    ensures InputOfJson(j) == Some(input) <==> Spells(j, InputMembers(input))
  {
    hide InputOfJson, InputMembers, InputKeys, Get, DistinctKeys, OnlyKeys, SameMembers, Finds, GetService, GetStr;
    var own, keys := InputMembers(input), InputKeys(input.Service());
    InputRoundTrip(input);
    InputKeysAreOwn(input);
    InputTypeIsRead(input);
    if InputOfJson(j) == Some(input) {
      InputIsObject(j);
      TypeFound(j.members, input);
      InputFound(j.members, input);
      KeysAreOwn(j.members, keys, own);
      FoundIsAll(j.members, own);
    }
    if Spells(j, own) {
      forall key | key in keys ensures Get(j.members, key) == Get(own, key) {
        SpelledGet(j.members, own, key);
      }
      SpelledKeys(j.members, own, keys);
      SameService(j.members, own);
      InputDepends(j.members, own, input.Service());
    }
  }

  lemma InputIsObject(j: Json)
    requires InputOfJson(j).Some?
    ensures j.Obj?
  {
  }

  lemma SameService(members: seq<Member>, own: seq<Member>)
    requires DistinctKeys(members) && DistinctKeys(own) && SameMembers(members, own)
    ensures GetService(members, "type") == GetService(own, "type")
  {
    SpelledGet(members, own, "type");
    hide Get;
  }

  function OutputKeys(service: ServiceType): seq<string> {
    match service
    case Fibonacci => ["type", "result"]
    case HashVerify => ["type", "valid"]
    case MerkleProof => ["type", "valid"]
  }

  lemma OutputFound(members: seq<Member>, output: JobOutput)
    requires OutputOfMembers(members) == Some(output)
    ensures Finds(members, OutputMembers(output)) && OnlyKeys(members, OutputKeys(output.Service()))
  {
    hide IsFeltText, Get, OnlyKeys, GetFelt, ServiceOfName;
    FeltFound(members, "result");
    NamesAreExact(GetStr(members, "type").value);
  }

  lemma OutputDepends(members: seq<Member>, own: seq<Member>, service: ServiceType)
    requires GetService(members, "type") == GetService(own, "type") == Some(service)
    requires OnlyKeys(members, OutputKeys(service)) && OnlyKeys(own, OutputKeys(service))
    requires forall key :: key in OutputKeys(service) ==> Get(members, key) == Get(own, key)
    ensures OutputOfMembers(members) == OutputOfMembers(own)
  {
    hide IsFeltText, Get, GetService, OnlyKeys;
    assert OutputKeys(service)[1] == if service.Fibonacci? then "result" else "valid";
  }

  lemma OutputKeysAreOwn(output: JobOutput)
    ensures
      var own, keys := OutputMembers(output), OutputKeys(output.Service());
      && |own| == |keys| && (forall i :: 0 <= i < |own| ==> own[i].key == keys[i])
      && DistinctKeys(own) && OnlyKeys(own, keys) && GetService(own, "type") == Some(output.Service())
  {
    NamesAreDistinct(output.Service());
    GetAt(OutputMembers(output), 0);
    hide Get;
  }

  /** `JobOutput`. */
  lemma OutputExact(j: Json, output: JobOutput)
    ensures j.Obj? && DistinctKeys(j.members) && OutputOfMembers(j.members) == Some(output)
       <==> Spells(j, OutputMembers(output))
  {
    hide OutputOfMembers, OutputMembers, OutputKeys, Get, DistinctKeys, OnlyKeys, SameMembers, Finds, GetService;
    var own, keys := OutputMembers(output), OutputKeys(output.Service());
    OutputRoundTrip(output);
    OutputKeysAreOwn(output);
    if j.Obj? && DistinctKeys(j.members) && OutputOfMembers(j.members) == Some(output) {
      OutputFound(j.members, output);
      KeysAreOwn(j.members, keys, own);
      FoundIsAll(j.members, own);
    }
    if Spells(j, own) {
      forall key | key in keys ensures Get(j.members, key) == Get(own, key) {
        SpelledGet(j.members, own, key);
      }
      SpelledKeys(j.members, own, keys);
      SameService(j.members, own);
      OutputDepends(j.members, own, output.Service());
    }
  }

  // ---- structs of structs ------------------------------------------------

  /** The members of a request content around its input; an expiry that is null is one that is not there. */
  function ContentMembers(c: JobRequestContent, input: Json, nullExpiry: bool): seq<Member> {
    [Member("protocol", Str(c.protocol)), Member("service", Str(c.service.AsStr())), Member("input", input)]
    + match c.expiresAt
      case Some(t) => [Member("expires_at", Num(t))]
      case None => if nullExpiry then [Member("expires_at", Null)] else []
  }

  ghost predicate SpellsContent(j: Json, c: JobRequestContent) {
    exists input, nullExpiry ::
      Spells(input, InputMembers(c.input)) && Spells(j, ContentMembers(c, input, nullExpiry))
  }

  lemma ContentKeysKnown(c: JobRequestContent, input: Json, nullExpiry: bool)
    ensures
      var own := ContentMembers(c, input, nullExpiry);
      && DistinctKeys(own) && OnlyKeys(own, CONTENT_KEYS)
      && Get(own, "protocol") == Some(Str(c.protocol)) && Get(own, "service") == Some(Str(c.service.AsStr()))
      && Get(own, "input") == Some(input)
      && Get(own, "expires_at") ==
           match c.expiresAt
           case Some(t) => Some(Num(t))
           case None => if nullExpiry then Some(Null) else None
  {
    var own := ContentMembers(c, input, nullExpiry);
    assert DistinctKeys(own);
    GetAt(own, 0);
    GetAt(own, 1);
    GetAt(own, 2);
    if |own| == 4 { GetAt(own, 3); } else { GetAbsent(own, "expires_at"); }
    hide Get;
  }

  lemma ContentIsSpelled(j: Json, c: JobRequestContent)
    requires ContentOfJson(j) == Some(c)
    ensures SpellsContent(j, c)
  {
    hide InputOfJson, InputMembers, Get, DistinctKeys, OnlyKeys, ServiceOfName, SameMembers;
    var members := j.members;
    NamesAreExact(GetStr(members, "service").value);
    var input := Get(members, "input").value;
    InputExact(input, c.input);
    var nullExpiry := Get(members, "expires_at") == Some(Null);
    var own := ContentMembers(c, input, nullExpiry);
    assert Finds(members, own);
    assert forall m :: m in members ==> exists o :: o in own && o.key == m.key by {
      NamedInContent(members, c, input, nullExpiry);
    }
    FoundIsAll(members, own);
    assert Spells(input, InputMembers(c.input)) && Spells(j, own);
  }

  lemma NamedInContent(members: seq<Member>, c: JobRequestContent, input: Json, nullExpiry: bool)
    requires OnlyKeys(members, CONTENT_KEYS) && DistinctKeys(members)
    requires c.expiresAt.None? && !nullExpiry ==> Get(members, "expires_at").None?
    ensures
      var own := ContentMembers(c, input, nullExpiry);
      forall m :: m in members ==> exists o :: o in own && o.key == m.key
  {
    var own := ContentMembers(c, input, nullExpiry);
    forall m | m in members ensures exists o :: o in own && o.key == m.key {
      var i :| 0 <= i < |members| && members[i] == m;
      GetAt(members, i);
      hide Get;
      assert m.key in CONTENT_KEYS;
      assert own[0] in own && own[1] in own && own[2] in own;
      if m.key == "expires_at" { assert own[3] in own; }
    }
  }

  /** `JobRequestContent`: exactly its members, in any order. */
  lemma ContentExact(j: Json, c: JobRequestContent)
    ensures ContentOfJson(j) == Some(c) <==> SpellsContent(j, c)
  {
    if ContentOfJson(j) == Some(c) {
      ContentIsSpelled(j, c);
    }
    if SpellsContent(j, c) {
      var input, nullExpiry :|
        Spells(input, InputMembers(c.input)) && Spells(j, ContentMembers(c, input, nullExpiry));
      SpelledIsContent(j, c, input, nullExpiry);
    }
  }

  lemma SpelledIsContent(j: Json, c: JobRequestContent, input: Json, nullExpiry: bool)
    requires Spells(input, InputMembers(c.input)) && Spells(j, ContentMembers(c, input, nullExpiry))
    ensures ContentOfJson(j) == Some(c)
  {
    hide InputOfJson, InputMembers, Get, DistinctKeys, OnlyKeys, SameMembers, ContentMembers, ServiceOfName;
    var own := ContentMembers(c, input, nullExpiry);
    ContentKeysKnown(c, input, nullExpiry);
    SpelledGet(j.members, own, "protocol");
    SpelledGet(j.members, own, "service");
    SpelledGet(j.members, own, "input");
    SpelledGet(j.members, own, "expires_at");
    SpelledKeys(j.members, own, CONTENT_KEYS);
    NamesAreDistinct(c.service);
    InputExact(input, c.input);
  }

  /** The request reader takes exactly the JSON texts of request contents, in any spelling and order of members. */
  lemma ReadContentExact(text: string, c: JobRequestContent)
    ensures ReadContent(text) == Some(c) <==> exists j :: JsonGrammar.Denotes(text, j) && SpellsContent(j, c)
  {
    hide ContentOfJson, SpellsContent, Read, JsonGrammar.Denotes;
    if ReadContent(text) == Some(c) {
      JsonGrammar.ReadIffDenotes(text, Read(text).value);
      ContentExact(Read(text).value, c);
    }
    if exists j :: JsonGrammar.Denotes(text, j) && SpellsContent(j, c) {
      var j :| JsonGrammar.Denotes(text, j) && SpellsContent(j, c);
      JsonGrammar.ReadIffDenotes(text, j);
      ContentExact(j, c);
    }
  }

  // ---- results -----------------------------------------------------------

  function StatementOwn(st: ProofStatement, output: Json): seq<Member> {
    [Member("service", Str(st.service.AsStr())), Member("program", Str(st.program)),
     Member("public_input", Arr(FeltItems(st.publicInput))), Member("public_output", Arr(FeltItems(st.publicOutput))),
     Member("output", output)]
  }

  ghost predicate SpellsStatement(j: Json, st: ProofStatement) {
    exists output :: Spells(output, OutputMembers(st.output)) && Spells(j, StatementOwn(st, output))
  }

  lemma StatementKeysKnown(st: ProofStatement, output: Json)
    ensures
      var own := StatementOwn(st, output);
      && DistinctKeys(own) && OnlyKeys(own, STATEMENT_KEYS)
      && |own| == |STATEMENT_KEYS| && (forall i :: 0 <= i < |own| ==> own[i].key == STATEMENT_KEYS[i])
      && Get(own, "service") == Some(own[0].value) && Get(own, "program") == Some(own[1].value)
      && Get(own, "public_input") == Some(own[2].value) && Get(own, "public_output") == Some(own[3].value)
      && Get(own, "output") == Some(output)
  {
    hide FeltItems;
    var own := StatementOwn(st, output);
    GetAt(own, 0);
    GetAt(own, 1);
    GetAt(own, 2);
    GetAt(own, 3);
    GetAt(own, 4);
    hide Get;
  }

  lemma StatementIsSpelled(j: Json, st: ProofStatement)
    requires StatementOfJson(j) == Some(st)
    ensures SpellsStatement(j, st)
  {
    hide OutputOfMembers, OutputMembers, Get, DistinctKeys, OnlyKeys, ServiceOfName, SameMembers, GetFelts, FeltItems;
    var members := j.members;
    NamesAreExact(GetStr(members, "service").value);
    FeltsFound(members, "public_input");
    FeltsFound(members, "public_output");
    var output := Get(members, "output").value;
    OutputExact(output, st.output);
    var own := StatementOwn(st, output);
    assert Finds(members, own);
    StatementKeysKnown(st, output);
    KeysAreOwn(members, STATEMENT_KEYS, own);
    FoundIsAll(members, own);
    assert Spells(output, OutputMembers(st.output)) && Spells(j, own);
  }

  lemma SpelledIsStatement(j: Json, st: ProofStatement, output: Json)
    requires Spells(output, OutputMembers(st.output)) && Spells(j, StatementOwn(st, output))
    ensures StatementOfJson(j) == Some(st)
  {
    hide OutputOfMembers, OutputMembers, Get, DistinctKeys, OnlyKeys, SameMembers, ServiceOfName, FeltList, FeltItems;
    var own := StatementOwn(st, output);
    StatementKeysKnown(st, output);
    SpelledGet(j.members, own, "service");
    SpelledGet(j.members, own, "program");
    SpelledGet(j.members, own, "public_input");
    SpelledGet(j.members, own, "public_output");
    SpelledGet(j.members, own, "output");
    SpelledKeys(j.members, own, STATEMENT_KEYS);
    NamesAreDistinct(st.service);
    FeltListOfItems(st.publicInput);
    FeltListOfItems(st.publicOutput);
    OutputExact(output, st.output);
  }

  /** `ProofStatement`. */
  lemma StatementExact(j: Json, st: ProofStatement)
    ensures StatementOfJson(j) == Some(st) <==> SpellsStatement(j, st)
  {
    hide StatementOfJson, Spells, StatementOwn, OutputMembers;
    if StatementOfJson(j) == Some(st) {
      StatementIsSpelled(j, st);
    }
    if SpellsStatement(j, st) {
      var output :| Spells(output, OutputMembers(st.output)) && Spells(j, StatementOwn(st, output));
      SpelledIsStatement(j, st, output);
    }
  }

  /** An object with these among its members, no name twice; the result enum tolerates others. */
  ghost predicate Has(members: seq<Member>, key: string, value: Json) {
    Get(members, key) == Some(value)
  }

  /** `JobResultContent`: tagged by its status. */
  ghost predicate SpellsResult(j: Json, r: JobResultContent) {
    && j.Obj? && DistinctKeys(j.members)
    && Has(j.members, "protocol", Str(r.protocol)) && Has(j.members, "request_id", Str(r.requestId))
    && match r
       case SuccessResult(_, _, statement, proof, metrics) =>
         && Has(j.members, "status", Str("success"))
         && (exists v :: Has(j.members, "statement", v) && SpellsStatement(v, statement))
         && (exists v :: Has(j.members, "proof", v) && Spells(v, ProofMembers(proof)))
         && (exists v :: Has(j.members, "metrics", v) && Spells(v, MetricsMembers(metrics)))
       case ErrorResult(_, _, error) =>
         && Has(j.members, "status", Str("error"))
         && (exists v :: Has(j.members, "error", v) && Spells(v, ErrorMembers(error)))
  }

  lemma ResultExact(j: Json, r: JobResultContent)
    ensures ResultOfJson(j) == Some(r) <==> SpellsResult(j, r)
  {
    hide StatementOfJson, ProofOfJson, MetricsOfJson, ErrorOfJson, Spells, SpellsStatement, Get, DistinctKeys;
    hide ProofMembers, MetricsMembers, ErrorMembers;
    if j.Obj? {
      var members := j.members;
      if r.SuccessResult? {
        if Get(members, "statement").Some? { StatementExact(Get(members, "statement").value, r.statement); }
        if Get(members, "proof").Some? { ProofExact(Get(members, "proof").value, r.proof); }
        if Get(members, "metrics").Some? { MetricsExact(Get(members, "metrics").value, r.metrics); }
      } else {
        if Get(members, "error").Some? { ErrorExact(Get(members, "error").value, r.error); }
      }
    }
  }

  /** The result reader takes exactly the JSON texts of results. */
  lemma ReadResultExact(text: string, r: JobResultContent)
    ensures ReadResult(text) == Some(r) <==> exists j :: JsonGrammar.Denotes(text, j) && SpellsResult(j, r)
  {
    hide ResultOfJson, SpellsResult, Read, JsonGrammar.Denotes;
    if ReadResult(text) == Some(r) {
      JsonGrammar.ReadIffDenotes(text, Read(text).value);
      ResultExact(Read(text).value, r);
    }
    if exists j :: JsonGrammar.Denotes(text, j) && SpellsResult(j, r) {
      var j :| JsonGrammar.Denotes(text, j) && SpellsResult(j, r);
      JsonGrammar.ReadIffDenotes(text, j);
      ResultExact(j, r);
    }
  }
}
