/** The signed request handler, apps/provider/src/nostr/handler.rs:23-100, when one delivery runs alone. Interleaved
    deliveries are the subject of Intake. */
module Handler {
  import opened Wrappers
  import opened Felt
  import opened Types
  import opened Fifo
  import opened Caches
  import opened ResultCodec
  import opened Events
  import opened Wire
  import opened Binding
  import opened Provider
  import EndToEnd

  datatype HandlingError = Wire(error: WireError) | ResultTooLarge | Signing

  class SignedJobHandler {
    const nostr: Nostr
    const services: Services
    const sign: (Unsigned) -> Option<Event>
    const pubkey: string
    const dedupe: RequestDeduplicator
    const completed: CompletedResults<Event>

    /** Signatures are good, and everything remembered was made for its id. */
    ghost predicate Valid()
      reads this, dedupe, completed
    {
      && SignsWell(nostr, sign)
      && (forall k :: 0 <= k < |completed.inserts| ==>
            MadeForId(nostr, services, pubkey, completed.inserts[k].0, completed.inserts[k].1))
      && dedupe.Valid() && completed.Valid() && dedupe.capacity == completed.capacity
    }

    /** The cached answer of an id, if it is retained. */
    ghost function Cached(id: string): Option<Event>
      reads this, completed
    {
      Find(Window(completed.inserts, completed.capacity), id)
    }

    ghost predicate Retained(id: string)
      reads this, dedupe
    {
      id in Window(dedupe.claims, dedupe.capacity)
    }

    constructor (nostr: Nostr, services: Services, sign: (Unsigned) -> Option<Event>, pubkey: string, capacity: nat)
      requires capacity > 0 && SignsWell(nostr, sign)
      ensures Valid() && fresh(dedupe) && fresh(completed)
      ensures dedupe.claims == [] && completed.inserts == [] && dedupe.capacity == capacity
      ensures this.nostr == nostr && this.services == services && this.sign == sign && this.pubkey == pubkey
    {
      this.nostr, this.services, this.sign, this.pubkey := nostr, services, sign, pubkey;
      dedupe := new RequestDeduplicator(capacity);
      completed := new CompletedResults(capacity);
    }

    /** Replay, ignore, or prove: a retained answer is returned as it is, a retained claim is ignored, and only a
        request retained by neither index is processed, claimed and, once its event is signed, remembered. */
    method HandleEvent(x: Event, now: U64, permit: bool, engine: EngineOutcome, at: U64)
      returns (r: Result<Option<Event>, HandlingError>)
      requires Valid() && WellFormed(x)
      modifies dedupe, completed
      ensures Valid()
      ensures r.Success? && r.value.Some? ==> MadeForId(nostr, services, pubkey, x.id, r.value.value)
      ensures
        var parsed := ParseRequest(nostr, x, now);
        if parsed.Failure? then
          r == Failure(Wire(parsed.error)) && dedupe.claims == old(dedupe.claims)
          && completed.inserts == old(completed.inserts)
        else if old(Cached(parsed.value.id)).Some? then
          r == Success(old(Cached(parsed.value.id))) && dedupe.claims == old(dedupe.claims)
          && completed.inserts == old(completed.inserts)
        else if old(Retained(parsed.value.id)) then
          r == Success(None) && dedupe.claims == old(dedupe.claims) && completed.inserts == old(completed.inserts)
        else
          var result := ResultFor(parsed.value, Process(services, parsed.value, permit, engine));
          && dedupe.claims == old(dedupe.claims) + [parsed.value.id]
          && if Utf8Length(CanonicalResult(result)) > MAX_RESULT_BYTES then
               r == Failure(HandlingError.ResultTooLarge) && completed.inserts == old(completed.inserts)
             else
               match sign(ResultBody(parsed.value, result, pubkey, at))
               case None => r == Failure(Signing) && completed.inserts == old(completed.inserts)
               case Some(e) =>
                 r == Success(Some(e)) && completed.inserts == old(completed.inserts) + [(parsed.value.id, e)]
    {
      hide ParseRequest, Process, ResultFor, CanonicalResult, Utf8Length, ResultBody, Window, Find, Nostr.Verify;
      hide MadeForId, WellFormed;
      var parsed := ParseRequest(nostr, x, now);
      if parsed.Failure? {
        return Failure(Wire(parsed.error));
      }
      var request := parsed.value;
      ParsedIsAuthentic(nostr, x, now);
      ghost var before := completed.inserts;
      var cached := completed.Lookup(request.id);
      if cached.Some? {
        FoundWasInserted(before, completed.capacity, request.id);
        return Success(cached);
      }
      NotCachedNotKept(before, completed.capacity, request.id);
      var claimed := dedupe.Claim(request.id);
      if !claimed {
        return Success(None);
      }
      var result := ResultFor(request, Process(services, request, permit, engine));
      if Utf8Length(CanonicalResult(result)) > MAX_RESULT_BYTES {
        return Failure(HandlingError.ResultTooLarge);
      }
      var signed := sign(ResultBody(request, result, pubkey, at));
      if signed.None? {
        return Failure(Signing);
      }
      FreshlyMade(nostr, services, sign, pubkey, x, now, permit, engine, at);
      completed.Insert(request.id, signed.value);
      return Success(signed);
    }
  }

  ghost predicate SignsWell(nostr: Nostr, sign: (Unsigned) -> Option<Event>) {
    forall body :: sign(body).Some? ==> sign(body).value.body == body && nostr.Verify(sign(body).value)
  }

  /** The event is what the handler makes of request event `x`. */
  ghost predicate MadeFor(
    nostr: Nostr, services: Services, pubkey: string, x: Event, seen: U64, permit: bool, engine: EngineOutcome, at: U64,
    e: Event)
  {
    && WellFormed(x) && ParseRequest(nostr, x, seen).Success?
    && var request := ParseRequest(nostr, x, seen).value;
       var result := ResultFor(request, Process(services, request, permit, engine));
       && Utf8Length(CanonicalResult(result)) <= MAX_RESULT_BYTES
       && e.body == ResultBody(request, result, pubkey, at) && nostr.Verify(e)
  }

  ghost predicate MadeForId(nostr: Nostr, services: Services, pubkey: string, id: string, e: Event) {
    exists x: Event, seen: U64, permit: bool, engine: EngineOutcome, at: U64 ::
      x.id == id && MadeFor(nostr, services, pubkey, x, seen, permit, engine, at, e)
  }

  lemma FreshlyMade(
    nostr: Nostr, services: Services, sign: (Unsigned) -> Option<Event>, pubkey: string, x: Event, seen: U64,
    permit: bool, engine: EngineOutcome, at: U64)
    requires SignsWell(nostr, sign) && WellFormed(x) && ParseRequest(nostr, x, seen).Success?
    requires
      var request := ParseRequest(nostr, x, seen).value;
      var result := ResultFor(request, Process(services, request, permit, engine));
      && Utf8Length(CanonicalResult(result)) <= MAX_RESULT_BYTES
      && sign(ResultBody(request, result, pubkey, at)).Some?
    ensures
      var request := ParseRequest(nostr, x, seen).value;
      var result := ResultFor(request, Process(services, request, permit, engine));
      MadeForId(nostr, services, pubkey, x.id, sign(ResultBody(request, result, pubkey, at)).value)
  {
    hide ParseRequest, Process, ResultFor, CanonicalResult, Utf8Length, ResultBody, WellFormed;
    var request := ParseRequest(nostr, x, seen).value;
    var result := ResultFor(request, Process(services, request, permit, engine));
    assert MadeFor(
      nostr, services, pubkey, x, seen, permit, engine, at, sign(ResultBody(request, result, pubkey, at)).value);
  }

  lemma FoundWasInserted(inserts: seq<(string, Event)>, capacity: nat, id: string)
    requires Find(Window(inserts, capacity), id).Some?
    ensures exists k :: 0 <= k < |inserts| && inserts[k] == (id, Find(Window(inserts, capacity), id).value)
  {
    var w := Window(inserts, capacity);
    var entry := (id, Find(w, id).value);
    var k :| 0 <= k < |w| && w[k] == entry;
    WindowAt(inserts, capacity, k);
  }

  lemma NotCachedNotKept(inserts: seq<(string, Event)>, capacity: nat, id: string)
    requires Find(Window(inserts, capacity), id) == None
    ensures id !in Window(Keys(inserts), capacity)
  {
    WindowOfKeys(inserts, capacity);
  }

  /** Every event the handler returns for a request, made now or replayed, is accepted for it by the Rust parser exactly
      in its window, unless two request bodies share an id. A replay may have been made for another signed copy of the
      request. */
  lemma ReturnedEventIsAcceptedIff(
    nostr: Nostr, services: Services, pubkey: string, x: Event, seen: U64, e: Event, now: U64)
    requires WellFormed(x) && ParseRequest(nostr, x, seen).Success?
    requires MadeForId(nostr, services, pubkey, x.id, e)
    ensures
      || (exists y: Event :: nostr.Verify(y) && nostr.IdCollision(x.body, y.body))
      || (ParseResult(nostr, services.urlAllowed, e, ParseRequest(nostr, x, seen).value, now).Success? <==>
            x.body.createdAt <= e.body.createdAt <= now + MAX_FUTURE_SKEW_SECS)
  {
    hide ParseRequest, ParseResult, Process, ResultFor, CanonicalResult, Utf8Length, WellFormed;
    var y: Event, first: U64, permit: bool, engine: EngineOutcome, at: U64 :|
      y.id == x.id && MadeFor(nostr, services, pubkey, y, first, permit, engine, at, e);
    ParsedIsAuthentic(nostr, x, seen);
    ParsedIsAuthentic(nostr, y, first);
    if x.body == y.body {
      ProviderOutputAcceptedIff(nostr, services, y, first, permit, engine, e, pubkey, at, now);
      ParsedShape(nostr, y, first);
      AcceptanceIgnoresSignature(nostr, services.urlAllowed, e, x, y, seen, first, now);
    } else {
      assert nostr.IdCollision(x.body, y.body);
    }
  }

  /** The SDK is stricter: what was made for signed copy `y` of a request is accepted for copy `x` exactly in the
      window, at a safe time, and when the copies carry one signature. */
  lemma ReplayIsAcceptedBySdkIff(
    nostr: Nostr, services: Services, pubkey: string, x: Event, seen: U64, y: Event, first: U64, permit: bool,
    engine: EngineOutcome, at: U64, e: Event, now: U64)
    requires WellFormed(x) && ParseRequest(nostr, x, seen).Success?
    requires y.id == x.id && MadeFor(nostr, services, pubkey, y, first, permit, engine, at, e)
    ensures
      || nostr.IdCollision(x.body, y.body)
      || (EndToEnd.SdkValidateResult(nostr, services.urlAllowed, e, ParseRequest(nostr, x, seen).value, now).Some? <==>
            x.body.createdAt <= at <= now + MAX_FUTURE_SKEW_SECS && at <= MAX_SAFE_INTEGER && x.sig == y.sig)
  {
    hide ParseRequest, ParseResult, Process, ResultFor, CanonicalResult, Utf8Length, WellFormed, Serialize, Deserialize;
    hide ParseEmbedded;
    ParsedIsAuthentic(nostr, x, seen);
    ParsedIsAuthentic(nostr, y, first);
    if x.body == y.body {
      var rx, ry := ParseRequest(nostr, x, seen).value, ParseRequest(nostr, y, first).value;
      ProviderOutputAcceptedIff(nostr, services, y, first, permit, engine, e, pubkey, at, now);
      ParsedShape(nostr, y, first);
      ParsedFromBody(nostr, x, y, seen, first);
      ParsedKeepsCopy(nostr, x, seen);
      AcceptanceIgnoresSignature(nostr, services.urlAllowed, e, x, y, seen, first, now);
      EndToEnd.AnswerIsBound(services, ry, permit, engine);
      EndToEnd.OwnCopyIsSame(nostr, x);
      EndToEnd.OwnCopyIsSame(nostr, y);
      assert EndToEnd.ContentOf(rx) == EndToEnd.ContentOf(ry);
      CarriesCopy(ry, ResultFor(ry, Process(services, ry, permit, engine)), pubkey, at);
      hide ResultBody, EndToEnd.ContentOf, Nostr.Verify;
      assert x == y <==> x.sig == y.sig;
    }
  }

  lemma CarriesCopy(request: JobRequest, result: JobResultContent, pubkey: string, at: U64)
    ensures
      var body := ResultBody(request, result, pubkey, at);
      body.tags != [] && body.tags[0] == ["request", request.serializedEvent] && body.createdAt == at
  {
  }

  /** Hence every event the handler returns for a request embeds some signed copy of it, and the SDK accepts it for the
      request exactly in the window, at a safe time, and when that copy's signature is the request's own. */
  lemma ReturnedEventIsAcceptedBySdkIff(
    nostr: Nostr, services: Services, pubkey: string, x: Event, seen: U64, e: Event, now: U64)
    requires WellFormed(x) && ParseRequest(nostr, x, seen).Success?
    requires MadeForId(nostr, services, pubkey, x.id, e)
    ensures exists y: Event ::
      && y.id == x.id && e.body.tags != [] && e.body.tags[0] == ["request", Serialize(y)]
      && (|| nostr.IdCollision(x.body, y.body)
          || (EndToEnd.SdkValidateResult(
                nostr, services.urlAllowed, e, ParseRequest(nostr, x, seen).value, now).Some? <==>
                x.body.createdAt <= e.body.createdAt <= now + MAX_FUTURE_SKEW_SECS
                && e.body.createdAt <= MAX_SAFE_INTEGER && x.sig == y.sig))
  {
    hide ParseRequest, ParseResult, Process, ResultFor, CanonicalResult, Utf8Length, WellFormed, Serialize;
    hide EndToEnd.SdkValidateResult, Nostr.Verify;
    var y: Event, first: U64, permit: bool, engine: EngineOutcome, at: U64 :|
      y.id == x.id && MadeFor(nostr, services, pubkey, y, first, permit, engine, at, e);
    ReplayIsAcceptedBySdkIff(nostr, services, pubkey, x, seen, y, first, permit, engine, at, e, now);
    var ry := ParseRequest(nostr, y, first).value;
    ParsedKeepsCopy(nostr, y, first);
    CarriesCopy(ry, ResultFor(ry, Process(services, ry, permit, engine)), pubkey, at);
  }
}
