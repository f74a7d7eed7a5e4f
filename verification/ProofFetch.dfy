/** The bounded proof download, packages/soul-sdk/src/proof.ts:56-174. The response and every answer of its body
    reader are inputs; so are URL policy and the digest. */
module ProofFetch {
  import opened Wrappers
  import opened Bytes
  import opened Types
  import opened ArtifactStore

  type Chunk = seq<Byte>

  /** One answer of the body reader: bytes, or a rejection (by the caller's abort, or for any other reason). */
  datatype Read = Data(chunk: Chunk) | Broken(byCaller: bool)

  /** `Number(header)`: a safe integer or something else. */
  datatype Length = Integer(value: int) | NotSafeInteger

  /** What cancelling the body's reader does, should it come to that. */
  datatype Cancelling = Closes | Rejects(byCaller: bool)

  datatype Response = Response(
    status: nat, url: string, mediaType: Option<string>, contentLength: Option<Length>, body: Option<seq<Read>>,
    cancelling: Cancelling)

  datatype Exchange = Rejected(byCaller: bool) | Answered(response: Response)

  datatype FetchError = ProofFetchFailed(retryable: bool) | ProofHashMismatch(retryable: bool)

  function Min(a: int, b: int): int {
    if a <= b then a else b
  }

  function Flat(chunks: seq<Chunk>): (bytes: seq<Byte>) {
    if chunks == [] then [] else Flat(chunks[..|chunks| - 1]) + chunks[|chunks| - 1]
  }

  // ---- specification -----------------------------------------------------

  /** The bytes of a body whose reads all succeed. */
  function Whole(answers: seq<Read>): Option<seq<Byte>> {
    if answers == [] then Some([])
    else
      match Whole(answers[..|answers| - 1])
      case None => None
      case Some(bytes) =>
        match answers[|answers| - 1]
        case Broken(_) => None
        case Data(chunk) => Some(bytes + chunk)
  }

  /** An overshoot is final, unless cancelling the reader itself fails. */
  function Overshoot(cancelling: Cancelling): FetchError {
    ProofFetchFailed(cancelling.Rejects? && !cancelling.byCaller)
  }

  /** The first thing that ends the reading of a body early, `got` bytes in: a rejected read, or one byte too many. */
  function Ended(answers: seq<Read>, got: nat, limit: int, cancelling: Cancelling): Option<FetchError> {
    if answers == [] then None
    else
      match answers[0]
      case Broken(byCaller) => Some(ProofFetchFailed(!byCaller))
      case Data(chunk) =>
        if got + |chunk| > limit then Some(Overshoot(cancelling))
        else Ended(answers[1..], got + |chunk|, limit, cancelling)
  }

  predicate Header(safeUrl: string -> bool, d: ProofDescriptor, response: Response) {
    && 200 <= response.status < 300
    && safeUrl(if response.url == "" then d.url else response.url)
    && response.mediaType == Some(PROOF_MEDIA_TYPE)
    && (response.contentLength.Some? ==>
          response.contentLength.value == Integer(d.byteSize) && d.byteSize <= MAX_PROOF_BYTES)
    && response.body.Some?
  }

  /** A download of exactly the described artifact. */
  predicate Delivers(
    sha256: Digest, safeUrl: string -> bool, d: ProofDescriptor, exchange: Exchange, bytes: seq<Byte>)
  {
    && safeUrl(d.url)
    && exchange.Answered?
    && Header(safeUrl, d, exchange.response)
    && Whole(exchange.response.body.value) == Some(bytes)
    && |bytes| == d.byteSize <= MAX_PROOF_BYTES
    && sha256(bytes) == d.sha256
  }

  // ---- the loops ---------------------------------------------------------

  /** The accumulation loop: bytes retained never exceed the declared size, nor 32 MiB, whatever the stream does. */
  method Accumulate(answers: seq<Read>, byteSize: nat, cancelling: Cancelling)
    returns (r: Result<seq<Chunk>, FetchError>, total: nat, ghost peak: nat)
    ensures peak <= Min(byteSize, MAX_PROOF_BYTES)
    ensures r.Success? ==> Whole(answers) == Some(Flat(r.value)) && |Flat(r.value)| == total == peak
    ensures r.Success? <==> Whole(answers).Some? && |Whole(answers).value| <= Min(byteSize, MAX_PROOF_BYTES)
    ensures Ended(answers, 0, Min(byteSize, MAX_PROOF_BYTES), cancelling)
         == if r.Success? then None else Some(r.error)
  {
    var chunks: seq<Chunk> := [];
    total, peak := 0, 0;
    var i := 0;
    ghost var limit := Min(byteSize, MAX_PROOF_BYTES);
    while i < |answers|
      invariant 0 <= i <= |answers|
      invariant Whole(answers[..i]) == Some(Flat(chunks)) && |Flat(chunks)| == total == peak
      invariant total <= limit
      invariant Ended(answers, 0, limit, cancelling) == Ended(answers[i..], total, limit, cancelling)
    {
      assert answers[..i + 1][..i] == answers[..i];
      assert answers[i..][0] == answers[i] && answers[i..][1..] == answers[i + 1..];
      match answers[i] {
        case Broken(byCaller) =>
          BrokenIsNotWhole(answers, i);
          return Failure(ProofFetchFailed(!byCaller)), total, peak;
        case Data(value) =>
          total := total + |value|;
          if total > MAX_PROOF_BYTES || total > byteSize {
            OvershootStays(answers, i + 1);
            match cancelling {
              case Rejects(byCaller) => return Failure(ProofFetchFailed(!byCaller)), total, peak;
              case Closes => return Failure(ProofFetchFailed(false)), total, peak;
            }
          }
          assert (chunks + [value])[..|chunks|] == chunks;
          chunks := chunks + [value];
          peak := total;
      }
      i := i + 1;
    }
    assert answers[..i] == answers;
    return Success(chunks), total, peak;
  }

  /** A body that ends early is broken somewhere or too long, and conversely. */
  lemma {:induction false} EndedIffUnfit(answers: seq<Read>, got: nat, limit: int, cancelling: Cancelling)
    requires got <= limit
    ensures Ended(answers, got, limit, cancelling).None? <==>
      Whole(answers).Some? && got + |Whole(answers).value| <= limit
  {
    if answers != [] {
      var rest := answers[1..];
      match answers[0] {
        case Broken(_) => BrokenIsNotWhole(answers, 0);
        case Data(chunk) =>
          WholeFromFront(answers);
          if got + |chunk| <= limit {
            EndedIffUnfit(rest, got + |chunk|, limit, cancelling);
          }
      }
    }
  }

  lemma {:induction false} WholeFromFront(answers: seq<Read>)
    requires answers != [] && answers[0].Data?
    ensures Whole(answers) ==
      if Whole(answers[1..]).None? then None else Some(answers[0].chunk + Whole(answers[1..]).value)
  {
    var n := |answers| - 1;
    if n == 0 {
      var chunk := answers[0].chunk;
      assert answers[..0] == [] && answers[1..] == [];
      assert [] + chunk == chunk + [];
    } else {
      WholeFromFront(answers[..n]);
      assert answers[..n][1..] == answers[1..][..n - 1];
      assert answers[1..][n - 1] == answers[n];
      var middle := Whole(answers[1..][..n - 1]);
      if middle.Some? && answers[n].Data? {
        assert (answers[0].chunk + middle.value) + answers[n].chunk
          == answers[0].chunk + (middle.value + answers[n].chunk);
      }
    }
  }

  lemma {:induction false} BrokenIsNotWhole(answers: seq<Read>, k: nat)
    requires k < |answers| && answers[k].Broken?
    ensures Whole(answers) == None
  {
    if k < |answers| - 1 { BrokenIsNotWhole(answers[..|answers| - 1], k); }
  }

  /** Later reads only lengthen the body. */
  lemma {:induction false} OvershootStays(answers: seq<Read>, k: nat)
    requires k <= |answers| && Whole(answers[..k]).Some?
    ensures Whole(answers).Some? ==> |Whole(answers).value| >= |Whole(answers[..k]).value|
  {
    if k < |answers| {
      var init := answers[..|answers| - 1];
      assert init[..k] == answers[..k];
      OvershootStays(init, k);
    } else {
      assert answers[..k] == answers;
    }
  }

  /** The copy loop: `bytes.set(chunk, offset)`. */
  method Assemble(chunks: seq<Chunk>, total: nat) returns (bytes: array<Byte>)
    requires |Flat(chunks)| == total
    ensures fresh(bytes) && bytes[..] == Flat(chunks)
  {
    bytes := new Byte[total];
    var offset := 0;
    var i := 0;
    while i < |chunks|
      invariant 0 <= i <= |chunks|
      invariant offset == |Flat(chunks[..i])| <= total
      invariant bytes[..offset] == Flat(chunks[..i])
    {
      assert chunks[..i + 1][..i] == chunks[..i];
      FlatGrows(chunks, i + 1);
      forall k | 0 <= k < |chunks[i]| {
        bytes[offset + k] := chunks[i][k];
      }
      assert bytes[..offset + |chunks[i]|] == Flat(chunks[..i]) + chunks[i];
      offset := offset + |chunks[i]|;
      i := i + 1;
    }
    assert chunks[..i] == chunks;
  }

  lemma {:induction false} FlatGrows(chunks: seq<Chunk>, k: nat)
    requires k <= |chunks|
    ensures |Flat(chunks[..k])| <= |Flat(chunks)|
  {
    if k < |chunks| {
      assert chunks[..|chunks| - 1][..k] == chunks[..k];
      FlatGrows(chunks[..|chunks| - 1], k);
    } else {
      assert chunks[..k] == chunks;
    }
  }

  /** `fetchProofArtifact` returns bytes exactly when the exchange delivers the described artifact, and then those.
      Every other outcome is an error whose retry flag is told: a digest mismatch and a short body are worth a retry; an
      oversized one is not; a fault is, unless the caller caused it. */
  method FetchProofArtifact(sha256: Digest, safeUrl: string -> bool, d: ProofDescriptor, exchange: Exchange)
    returns (r: Result<seq<Byte>, FetchError>, ghost peak: nat)
    ensures r.Success? ==> Delivers(sha256, safeUrl, d, exchange, r.value)
    ensures (exists bytes :: Delivers(sha256, safeUrl, d, exchange, bytes)) ==> r.Success?
    ensures peak <= Min(d.byteSize, MAX_PROOF_BYTES)
    ensures !safeUrl(d.url) ==> r == Failure(ProofFetchFailed(false))
    ensures safeUrl(d.url) && exchange.Rejected? ==> r == Failure(ProofFetchFailed(!exchange.byCaller))
    ensures safeUrl(d.url) && exchange.Answered? && !Header(safeUrl, d, exchange.response) ==>
      r == Failure(ProofFetchFailed(exchange.response.status in {408, 429} || exchange.response.status >= 500))
    ensures
      (safeUrl(d.url) && exchange.Answered? && Header(safeUrl, d, exchange.response)) ==>
        var response, limit := exchange.response, Min(d.byteSize, MAX_PROOF_BYTES);
        match Ended(response.body.value, 0, limit, response.cancelling)
        case Some(error) => r == Failure(error)
        case None =>
          Whole(response.body.value).Some?
          && var bytes := Whole(response.body.value).value;
             r == if |bytes| < d.byteSize then Failure(ProofFetchFailed(true))
                  else if sha256(bytes) != d.sha256 then Failure(ProofHashMismatch(true))
                  else Success(bytes)
  {
    peak := 0;
    if !safeUrl(d.url) {
      return Failure(ProofFetchFailed(false)), peak;
    }
    if exchange.Rejected? {
      return Failure(ProofFetchFailed(!exchange.byCaller)), peak;
    }
    var response := exchange.response;
    if !(200 <= response.status < 300) {
      var status := response.status;
      return Failure(ProofFetchFailed(status >= 500 || status == 408 || status == 429)), peak;
    }
    if !safeUrl(if response.url == "" then d.url else response.url) {
      return Failure(ProofFetchFailed(false)), peak;
    }
    if response.mediaType != Some(PROOF_MEDIA_TYPE) {
      return Failure(ProofFetchFailed(false)), peak;
    }
    if response.contentLength.Some? {
      var length := response.contentLength.value;
      if length.NotSafeInteger? || length.value < 0 || length.value > MAX_PROOF_BYTES || length.value != d.byteSize {
        return Failure(ProofFetchFailed(false)), peak;
      }
    }
    if response.body.None? {
      return Failure(ProofFetchFailed(false)), peak;
    }
    var chunks, total;
    chunks, total, peak := Accumulate(response.body.value, d.byteSize, response.cancelling);
    if chunks.Failure? {
      return Failure(chunks.error), peak;
    }
    if total != d.byteSize {
      return Failure(ProofFetchFailed(true)), peak;
    }
    var bytes := Assemble(chunks.value, total);
    if sha256(bytes[..]) != d.sha256 {
      forall k | 0 <= k < bytes.Length {
        bytes[k] := 0;
      }
      return Failure(ProofHashMismatch(true)), peak;
    }
    return Success(bytes[..]), peak;
  }

  // ---- store to fetch ----------------------------------------------------

  function Reads(chunks: seq<Chunk>): seq<Read> {
    seq(|chunks|, i requires 0 <= i < |chunks| => Data(chunks[i]))
  }

  lemma {:induction false} WholeOfChunks(chunks: seq<Chunk>)
    ensures Whole(Reads(chunks)) == Some(Flat(chunks))
  {
    if chunks != [] {
      var init := chunks[..|chunks| - 1];
      WholeOfChunks(init);
      assert Reads(chunks)[..|chunks| - 1] == Reads(init);
    }
  }

  /** Every way of splitting the stored bytes into chunks delivers them. */
  lemma EverySplitDelivers(
    sha256: Digest, safeUrl: string -> bool, d: ProofDescriptor, store: Store, proof: seq<Byte>,
    chunks: seq<Chunk>, response: Response)
    requires MemoryPut(sha256, store, proof).0 == Stored
    requires d.sha256 == sha256(proof) && d.byteSize == |proof| && safeUrl(d.url)
    requires Flat(chunks) == proof
    requires Header(safeUrl, d, response) && response.body == Some(Reads(chunks))
    ensures Delivers(sha256, safeUrl, d, Answered(response), proof)
    ensures forall other :: Delivers(sha256, safeUrl, d, Answered(response), other) ==> other == proof
  {
    WholeOfChunks(chunks);
  }
}
