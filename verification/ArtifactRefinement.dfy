/** The file store does, atomically and at one moment, what the in-memory store does: each put takes effect when it
    links its file, or agrees with what an earlier one left. */
module ArtifactRefinement {
  import opened Wrappers
  import opened Bytes
  import opened ArtifactStore
  import opened ArtifactSafety

  /** The step at which a put publishes its bytes. */
  predicate Publishes(sha256: Digest, s: State, step: Step)
    requires Enabled(s, step)
  {
    && step.PutStep? && s.puts[step.i].stage.Link?
    && Final(sha256(s.puts[step.i].proof)) !in s.links
  }

  lemma SamePublished(s: State, t: State)
    requires LinksOk(s) && LinksOk(t)
    requires forall p: Path :: p.Final? ==> (p in s.links <==> p in t.links)
    requires forall p :: p in s.links && p.Final? ==> ContentAt(t, p) == ContentAt(s, p)
    ensures Published(t) == Published(s)
  {
    assert forall key :: key in Published(s) <==> Final(key) in s.links;
    assert forall key :: key in Published(t) <==> Final(key) in t.links;
    forall key | key in Published(s)
      ensures Published(t)[key] == Published(s)[key]
    {
      assert Published(s)[key] == ContentAt(s, Final(key)) && Published(t)[key] == ContentAt(t, Final(key));
    }
  }

  lemma LinkPublishes(sha256: Digest, s: State, i: nat, chunk: nat, freshInode: nat)
    requires Inv(sha256, s) && Enabled(s, PutStep(i, chunk, freshInode))
    requires Publishes(sha256, s, PutStep(i, chunk, freshInode))
    ensures
      var t := PutNext(sha256, s, i, chunk, freshInode);
      var proof := s.puts[i].proof;
      && LinksOk(t)
      && Published(t) == Published(s)[sha256(proof) := proof]
      && sha256(proof) !in Published(s)
      && ValidSize(|proof|)
  {
    var t := PutNext(sha256, s, i, chunk, freshInode);
    var p := s.puts[i];
    var key := sha256(p.proof);
    assert PutOk(sha256, s, p);
    assert forall k :: k in Published(s) <==> Final(k) in s.links;
    assert forall k :: k in Published(t) <==> Final(k) in t.links;
    assert Published(t).Keys == Published(s)[key := p.proof].Keys;
    forall k | k in Published(t)
      ensures Published(t)[k] == Published(s)[key := p.proof][k]
    {
      assert Published(t)[k] == ContentAt(t, Final(k));
      if k != key { assert Published(s)[k] == ContentAt(s, Final(k)); }
    }
  }

  lemma OtherStepsKeepNames(sha256: Digest, s: State, step: Step, p: Path)
    requires Inv(sha256, s) && Enabled(s, step) && !Publishes(sha256, s, step) && p.Final?
    ensures p in s.links <==> p in Next(sha256, s, step).links
  {
    if step.PutStep? { assert PutOk(sha256, s, s.puts[step.i]); }
  }

  /** Refinement: every step either leaves the published map alone or is one accepted put of the in-memory store. */
  lemma StepRefines(sha256: Digest, s: State, step: Step)
    requires Inv(sha256, s) && Enabled(s, step)
    ensures LinksOk(Next(sha256, s, step))
    ensures
      if Publishes(sha256, s, step)
      then MemoryPut(sha256, Published(s), s.puts[step.i].proof) == (Stored, Published(Next(sha256, s, step)))
      else Published(Next(sha256, s, step)) == Published(s)
  {
    hide PutOk, GetOk, TempsDistinct;
    StepKeepsInv(sha256, s, step);
    if Publishes(sha256, s, step) {
      LinkPublishes(sha256, s, step.i, step.chunk, step.freshInode);
    } else {
      hide Next, Published;
      forall p: Path | p.Final?
        ensures p in s.links <==> p in Next(sha256, s, step).links
      {
        OtherStepsKeepNames(sha256, s, step, p);
      }
      SamePublished(s, Next(sha256, s, step));
    }
  }

  lemma PublishedAt(s: State, key: string)
    requires LinksOk(s)
    ensures key in Published(s) <==> Final(key) in s.links
    ensures key in Published(s) ==> Published(s)[key] == ContentAt(s, Final(key))
  {
  }

  lemma SameEntry(store: Store, key: string, bytes: seq<Byte>)
    requires key in store && store[key] == bytes
    ensures store[key := bytes] == store
  {
  }

  /** What a finished put has found out, by its result. */
  lemma DoneFacts(sha256: Digest, s: State, i: nat)
    requires Inv(sha256, s) && i < |s.puts| && s.puts[i].stage.Done?
    ensures LinksOk(s)
    ensures
      var proof, result := s.puts[i].proof, s.puts[i].stage.result;
      && (result == InvalidSize <==> !ValidSize(|proof|))
      && (result == Stored ==> Holds(s, sha256(proof), proof))
      && (result == CollisionOrCorruption ==>
            && Final(sha256(proof)) in s.links && ContentAt(s, Final(sha256(proof))) != proof
            && sha256(ContentAt(s, Final(sha256(proof)))) == sha256(proof))
  {
    assert PutOk(sha256, s, s.puts[i]);
  }

  /** The answer of a finished put is the in-memory store's answer, then and ever after; an I/O error aside. */
  lemma PutAnswersAsMemory(sha256: Digest, s: State, i: nat)
    requires Inv(sha256, s) && i < |s.puts| && s.puts[i].stage.Done? && s.puts[i].stage.result != IoError
    ensures MemoryPut(sha256, Published(s), s.puts[i].proof) == (s.puts[i].stage.result, Published(s))
  {
    hide Inv, Published;
    DoneFacts(sha256, s, i);
    var proof := s.puts[i].proof;
    PublishedAt(s, sha256(proof));
    if s.puts[i].stage.result == Stored { SameEntry(Published(s), sha256(proof), proof); }
  }

  /** Finished puts of equal bytes, however they raced, got one answer; I/O errors aside. */
  lemma EqualPutsAgree(sha256: Digest, s: State, i: nat, j: nat)
    requires Inv(sha256, s) && i < |s.puts| && j < |s.puts| && s.puts[i].proof == s.puts[j].proof
    requires s.puts[i].stage.Done? && s.puts[i].stage.result != IoError
    requires s.puts[j].stage.Done? && s.puts[j].stage.result != IoError
    ensures s.puts[i].stage.result == s.puts[j].stage.result
  {
    hide Inv, MemoryPut;
    PutAnswersAsMemory(sha256, s, i);
    PutAnswersAsMemory(sha256, s, j);
  }

  /** Racing puts are only ever refused over a real collision: two different artifacts of one digest. */
  lemma RefusalIsCollision(sha256: Digest, s: State, i: nat)
    requires Inv(sha256, s) && i < |s.puts| && s.puts[i].stage == Done(CollisionOrCorruption)
    ensures
      var proof := s.puts[i].proof;
      && ValidSize(|proof|) && sha256(proof) in Published(s)
      && Published(s)[sha256(proof)] != proof && sha256(Published(s)[sha256(proof)]) == sha256(proof)
  {
    hide Inv, Published;
    DoneFacts(sha256, s, i);
    PublishedAt(s, sha256(s.puts[i].proof));
  }

  /** A different artifact under a published digest never succeeds. */
  lemma CollidingPutNeverStores(
      sha256: Digest, run: seq<State>, steps: seq<Step>, j: nat, k: nat, i: nat, bytes: seq<Byte>)
    requires IsRun(sha256, run, steps) && j <= k <= |steps| && i < |run[k].puts|
    requires Holds(run[j], sha256(bytes), bytes)
    requires run[k].puts[i].proof != bytes && sha256(run[k].puts[i].proof) == sha256(bytes)
    ensures run[k].puts[i].stage != Done(Stored)
  {
    PublishedForever(sha256, run, steps, j, k, sha256(bytes), bytes);
    RunKeepsInv(sha256, run, steps, k);
    assert PutOk(sha256, run[k], run[k].puts[i]);
  }

  /** Without an injected fault a put ends in an I/O error only over a leftover temporary file of its own name. */
  lemma IoErrorNeedsLeftover(sha256: Digest, s: State, i: nat, chunk: nat, freshInode: nat)
    requires Inv(sha256, s) && Enabled(s, PutStep(i, chunk, freshInode))
    requires Outcome(s.puts[i].stage) != Some(IoError)
    requires Outcome(PutNext(sha256, s, i, chunk, freshInode).puts[i].stage) == Some(IoError)
    ensures s.puts[i].stage.Create?
    ensures Temp(sha256(s.puts[i].proof), s.puts[i].pid, Counter(s, s.puts[i].pid)) in s.links
  {
    assert PutOk(sha256, s, s.puts[i]);
  }

  // ---- without faults ----------------------------------------------------

  /** No temporary file bears a name that a running process has yet to use. */
  predicate NoLeftovers(s: State) {
    forall p :: p in s.links && p.Temp? ==> p.sequence < Counter(s, p.pid)
  }

  predicate NoIoError(s: State) {
    forall i :: 0 <= i < |s.puts| ==> Outcome(s.puts[i].stage) != Some(IoError)
  }

  /** No injected fault, and no process that ends over a temporary file of its own. */
  predicate Faultless(s: State, step: Step) {
    && !step.PutFails?
    && (step.Exit? ==> forall p :: p in s.links && p.Temp? ==> p.pid != step.pid)
  }

  lemma PutStepKeepsNames(sha256: Digest, s: State, i: nat, chunk: nat, freshInode: nat)
    requires Inv(sha256, s) && Enabled(s, PutStep(i, chunk, freshInode)) && NoLeftovers(s) && NoIoError(s)
    ensures
      var t := PutNext(sha256, s, i, chunk, freshInode);
      NoLeftovers(t) && NoIoError(t)
  {
    assert PutOk(sha256, s, s.puts[i]);
    if Outcome(PutNext(sha256, s, i, chunk, freshInode).puts[i].stage) == Some(IoError) {
      IoErrorNeedsLeftover(sha256, s, i, chunk, freshInode);
    }
    hide PutOk, GetOk, TempsDistinct, PublishedOk, Verdict;
  }

  lemma FaultlessStep(sha256: Digest, s: State, step: Step)
    requires Inv(sha256, s) && Enabled(s, step) && NoLeftovers(s) && NoIoError(s) && Faultless(s, step)
    ensures NoLeftovers(Next(sha256, s, step)) && NoIoError(Next(sha256, s, step))
  {
    if step.PutStep? {
      PutStepKeepsNames(sha256, s, step.i, step.chunk, step.freshInode);
    } else {
      assert Next(sha256, s, step).links == s.links;
      hide Inv, Hex.IsLowerHexOfLength;
    }
  }

  ghost predicate FaultlessRun(sha256: Digest, run: seq<State>, steps: seq<Step>) {
    && IsRun(sha256, run, steps)
    && NoLeftovers(run[0])
    && forall k :: 0 <= k < |steps| ==> Faultless(run[k], steps[k])
  }

  lemma {:induction false} FaultlessRunHasNoIoError(sha256: Digest, run: seq<State>, steps: seq<Step>, k: nat)
    requires FaultlessRun(sha256, run, steps) && k <= |steps|
    ensures NoLeftovers(run[k]) && NoIoError(run[k])
  {
    if k > 0 {
      FaultlessRunHasNoIoError(sha256, run, steps, k - 1);
      RunKeepsInv(sha256, run, steps, k - 1);
      hide Next, Inv, Enabled, NoLeftovers, NoIoError, Faultless;
      FaultlessStep(sha256, run[k - 1], steps[k - 1]);
    }
  }

  /** Without faults, a finished put has succeeded exactly when its bytes are the published ones of its digest, and
      whenever its size is legal and no other bytes are published there. Over other published bytes it has been refused,
      always; and a bad size is refused as such. */
  lemma FaultlessPutsSucceed(sha256: Digest, run: seq<State>, steps: seq<Step>, k: nat, i: nat)
    requires FaultlessRun(sha256, run, steps) && k <= |steps|
    requires i < |run[k].puts| && run[k].puts[i].stage.Done?
    ensures
      var proof := run[k].puts[i].proof;
      run[k].puts[i].stage == Done(Stored) <==> ValidSize(|proof|) && Holds(run[k], sha256(proof), proof)
    ensures
      var proof := run[k].puts[i].proof;
      ValidSize(|proof|) && (forall other :: Holds(run[k], sha256(proof), other) ==> other == proof) ==>
        run[k].puts[i].stage == Done(Stored)
    ensures
      var proof := run[k].puts[i].proof;
      run[k].puts[i].stage == Done(CollisionOrCorruption) <==>
        ValidSize(|proof|) && exists other :: other != proof && Holds(run[k], sha256(proof), other)
    ensures run[k].puts[i].stage == Done(InvalidSize) <==> !ValidSize(|run[k].puts[i].proof|)
  {
    hide Next, Enabled, NoLeftovers, Faultless;
    RunKeepsInv(sha256, run, steps, k);
    FaultlessRunHasNoIoError(sha256, run, steps, k);
    var s := run[k];
    assert Outcome(s.puts[i].stage) != Some(IoError);
    hide IsRun, FaultlessRun, Inv;
    DoneFacts(sha256, s, i);
    var proof := s.puts[i].proof;
    if s.puts[i].stage == Done(CollisionOrCorruption) {
      assert Holds(s, sha256(proof), ContentAt(s, Final(sha256(proof))));
    }
  }

  /** Racing puts of equal bytes of legal size all succeed, unless other bytes of the same digest are published. */
  lemma EqualPutsAllSucceed(sha256: Digest, run: seq<State>, steps: seq<Step>, k: nat, proof: seq<Byte>)
    requires FaultlessRun(sha256, run, steps) && k <= |steps| && ValidSize(|proof|)
    ensures
      || (forall i :: 0 <= i < |run[k].puts| && run[k].puts[i].stage.Done? && run[k].puts[i].proof == proof ==>
            run[k].puts[i].stage == Done(Stored))
      || exists other :: other != proof && Holds(run[k], sha256(proof), other)
  {
    hide Next, Enabled, NoLeftovers, Faultless, Holds;
    if forall other :: Holds(run[k], sha256(proof), other) ==> other == proof {
      forall i: nat | i < |run[k].puts| && run[k].puts[i].stage.Done? && run[k].puts[i].proof == proof
        ensures run[k].puts[i].stage == Done(Stored)
      {
        FaultlessPutsSucceed(sha256, run, steps, k, i);
      }
    }
  }

  // ---- reads --------------------------------------------------------------

  /** The state after which a get's answer is that of the in-memory store: the moment it looks. */
  lemma GetAnswersAsMemory(sha256: Digest, s: State, i: nat)
    requires Inv(sha256, s) && Enabled(s, GetStep(i))
    ensures
      var after := GetNext(sha256, s, i).gets[i].stage;
      var answer := MemoryGet(Published(s), s.gets[i].key);
      && (s.gets[i].stage.GetStat? && Hex.IsLowerHexOfLength(s.gets[i].key, 64) ==>
            (after == GotNothing <==> answer == None))
      && (s.gets[i].stage.GetBegin? ==> (after == GotNothing <==> !Hex.IsLowerHexOfLength(s.gets[i].key, 64)))
      && (s.gets[i].stage.GetRead? && Hex.IsLowerHexOfLength(s.gets[i].key, 64) ==>
            after.Got? && answer == Some(after.bytes))
      && !after.GetCorrupt?
  {
    var g := s.gets[i];
    assert GetOk(sha256, s, g) && PublishedOk(sha256, s);
    hide Inv, Published, TempsDistinct, PutOk;
    PublishedAt(s, g.key);
  }

  /** A get that has not failed, on its way to these bytes. */
  predicate Fetching(g: Get, key: string, bytes: seq<Byte>) {
    && g.key == key
    && (g.stage.GetBegin? || g.stage.GetStat? || g.stage.GetRead? || g.stage == Got(bytes) || g.stage.GetIoError?)
  }

  lemma StepFetching(sha256: Digest, s: State, step: Step, i: nat, key: string, bytes: seq<Byte>)
    requires Inv(sha256, s) && Enabled(s, step) && i < |s.gets|
    requires Holds(s, key, bytes) && Hex.IsLowerHexOfLength(key, 64) && Fetching(s.gets[i], key, bytes)
    ensures i < |Next(sha256, s, step).gets| && Fetching(Next(sha256, s, step).gets[i], key, bytes)
  {
    assert GetOk(sha256, s, s.gets[i]);
    hide PutOk, GetOk, TempsDistinct, Verdict;
  }

  lemma {:induction false} KeepsFetching(
      sha256: Digest, run: seq<State>, steps: seq<Step>, j: nat, k: nat, g: nat, key: string, bytes: seq<Byte>)
    requires IsRun(sha256, run, steps) && j <= k <= |steps|
    requires Holds(run[j], key, bytes) && Hex.IsLowerHexOfLength(key, 64)
    requires g < |run[j].gets| && Fetching(run[j].gets[g], key, bytes)
    ensures g < |run[k].gets| && Fetching(run[k].gets[g], key, bytes)
  {
    hide Next, Inv, Enabled, Holds, Fetching, Hex.IsLowerHexOfLength;
    if j < k {
      KeepsFetching(sha256, run, steps, j, k - 1, g, key, bytes);
      RunKeepsInv(sha256, run, steps, k - 1);
      PublishedForever(sha256, run, steps, j, k - 1, key, bytes);
      StepFetching(sha256, run[k - 1], steps[k - 1], g, key, bytes);
    }
  }

  /** A get on its way to these bytes, or there. */
  predicate Undisturbed(g: Get, key: string, bytes: seq<Byte>) {
    g.key == key && (g.stage.GetBegin? || g.stage.GetStat? || g.stage.GetRead? || g.stage == Got(bytes))
  }

  lemma StepUndisturbed(sha256: Digest, s: State, step: Step, i: nat, key: string, bytes: seq<Byte>)
    requires Inv(sha256, s) && Enabled(s, step) && i < |s.gets| && step != GetFails(i)
    requires Holds(s, key, bytes) && Hex.IsLowerHexOfLength(key, 64) && Undisturbed(s.gets[i], key, bytes)
    ensures i < |Next(sha256, s, step).gets| && Undisturbed(Next(sha256, s, step).gets[i], key, bytes)
  {
    assert GetOk(sha256, s, s.gets[i]);
    hide PutOk, GetOk, TempsDistinct, Verdict;
  }

  lemma {:induction false} KeepsUndisturbed(
      sha256: Digest, run: seq<State>, steps: seq<Step>, j: nat, k: nat, g: nat, key: string, bytes: seq<Byte>)
    requires IsRun(sha256, run, steps) && j <= k <= |steps| && GetFails(g) !in steps[j..k]
    requires Holds(run[j], key, bytes) && Hex.IsLowerHexOfLength(key, 64)
    requires g < |run[j].gets| && Undisturbed(run[j].gets[g], key, bytes)
    ensures g < |run[k].gets| && Undisturbed(run[k].gets[g], key, bytes)
  {
    hide Next, Inv, Enabled, Holds, Undisturbed, Hex.IsLowerHexOfLength;
    if j < k {
      assert steps[j..k] == steps[j..k - 1] + [steps[k - 1]];
      KeepsUndisturbed(sha256, run, steps, j, k - 1, g, key, bytes);
      RunKeepsInv(sha256, run, steps, k - 1);
      PublishedForever(sha256, run, steps, j, k - 1, key, bytes);
      var s, step := run[k - 1], steps[k - 1];
      assert LinksOk(s) && Enabled(s, step) && run[k] == Next(sha256, s, step);
      hide IsRun;
      StepUndisturbed(sha256, s, step, g, key, bytes);
    }
  }

  /** Read your writes: once a put has returned, every get of its digest that looks afterwards, begun before or after,
      returns exactly the bytes put, unless a fault strikes that very get; whatever strikes anything else. */
  lemma GetReturnsPut(sha256: Digest, run: seq<State>, steps: seq<Step>, j: nat, m: nat, k: nat, i: nat, g: nat)
    requires IsRun(sha256, run, steps) && j <= m <= k <= |steps| && GetFails(g) !in steps[m..k]
    requires i < |run[j].puts| && run[j].puts[i].stage == Done(Stored)
    requires g < |run[m].gets| && (run[m].gets[g].stage.GetBegin? || run[m].gets[g].stage.GetStat?)
    requires run[m].gets[g].key == sha256(run[j].puts[i].proof) && Hex.IsLowerHexOfLength(run[m].gets[g].key, 64)
    ensures g < |run[k].gets|
    ensures
      var stage := run[k].gets[g].stage;
      stage.GetBegin? || stage.GetStat? || stage.GetRead? || stage == Got(run[j].puts[i].proof)
  {
    hide Next, Enabled, Hex.IsLowerHexOfLength;
    var bytes := run[j].puts[i].proof;
    RunKeepsInv(sha256, run, steps, j);
    DoneFacts(sha256, run[j], i);
    hide Inv, Holds;
    PublishedForever(sha256, run, steps, j, m, sha256(bytes), bytes);
    KeepsUndisturbed(sha256, run, steps, m, k, g, sha256(bytes), bytes);
  }

  /** The version with faults: at worst the get ends in an I/O error of its own. */
  lemma GetAfterPut(sha256: Digest, run: seq<State>, steps: seq<Step>, j: nat, m: nat, k: nat, i: nat, g: nat)
    requires IsRun(sha256, run, steps) && j <= m <= k <= |steps|
    requires i < |run[j].puts| && run[j].puts[i].stage == Done(Stored)
    requires g < |run[m].gets| && (run[m].gets[g].stage.GetBegin? || run[m].gets[g].stage.GetStat?)
    requires run[m].gets[g].key == sha256(run[j].puts[i].proof) && Hex.IsLowerHexOfLength(run[m].gets[g].key, 64)
    ensures g < |run[k].gets| && Fetching(run[k].gets[g], run[m].gets[g].key, run[j].puts[i].proof)
  {
    hide Next, Enabled, Hex.IsLowerHexOfLength;
    var bytes := run[j].puts[i].proof;
    RunKeepsInv(sha256, run, steps, j);
    DoneFacts(sha256, run[j], i);
    hide Inv, Holds;
    PublishedForever(sha256, run, steps, j, m, sha256(bytes), bytes);
    KeepsFetching(sha256, run, steps, m, k, g, sha256(bytes), bytes);
  }

  /** A get begun at any point is still to look. */
  lemma NewGetIsToLook(sha256: Digest, run: seq<State>, steps: seq<Step>, m: nat, key: string)
    requires IsRun(sha256, run, steps) && m < |steps| && steps[m] == NewGet(key)
    ensures |run[m + 1].gets| == |run[m].gets| + 1 && run[m + 1].gets[|run[m].gets|] == Get(key, GetBegin)
  {
    assert run[m + 1] == Next(sha256, run[m], steps[m]);
  }
}
