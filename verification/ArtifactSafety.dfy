/** The file store refines the in-memory store, under any interleaving of any number of puts and gets, from any number
    of processes, any of which may stop at any point. */
module ArtifactSafety {
  import opened Wrappers
  import opened Bytes
  import opened ArtifactStore

  /** A digest-named file is complete: its bytes have a legal size and hash to its name. */
  predicate PublishedOk(sha256: Digest, s: State) {
    && LinksOk(s)
    && forall p :: p in s.links && p.Final? ==>
         ValidSize(|ContentAt(s, p)|) && sha256(ContentAt(s, p)) == p.key
  }

  /** The private inode of a put that has not linked yet. */
  function OwnInode(stage: PutStage): Option<nat> {
    match stage
    case Write(_, inode, _) => Some(inode)
    case Sync(_, inode) => Some(inode)
    case Link(_, inode) => Some(inode)
    case _ => None
  }

  function OwnTemp(stage: PutStage): Option<Path> {
    match stage
    case Write(temp, _, _) => Some(temp)
    case Sync(temp, _) => Some(temp)
    case Link(temp, _) => Some(temp)
    case StatExisting(temp) => Some(temp)
    case ReadExisting(temp) => Some(temp)
    case Remove(temp, _) => Some(temp)
    case _ => None
  }

  function WrittenPart(p: Put): seq<Byte> {
    match p.stage
    case Write(_, _, written) => if written <= |p.proof| then p.proof[..written] else p.proof
    case _ => p.proof
  }

  /** What is known of one put on its own. */
  predicate PutOk(sha256: Digest, s: State, p: Put)
    requires LinksOk(s)
  {
    var final := Final(sha256(p.proof));
    && (!p.stage.Begin? && !p.stage.Killed? && p.stage != Done(InvalidSize) ==> ValidSize(|p.proof|))
    && (p.stage == Done(InvalidSize) ==> !ValidSize(|p.proof|))
    && (p.stage.Write? ==> p.stage.written < |p.proof|)
    && (OwnTemp(p.stage).Some? ==>
          var temp := OwnTemp(p.stage).value;
          temp.Temp? && temp.pid == p.pid && temp.sequence < Counter(s, p.pid))
    && (OwnInode(p.stage).Some? ==>
          var inode := OwnInode(p.stage).value;
          && inode in s.inodes && s.inodes[inode] == WrittenPart(p)
          && OwnTemp(p.stage).value in s.links && s.links[OwnTemp(p.stage).value] == inode
          && forall q :: q in s.links && s.links[q] == inode ==> q == OwnTemp(p.stage).value)
    && (p.stage.Read? || p.stage.StatExisting? || p.stage.ReadExisting? ==> final in s.links)
    && (Outcome(p.stage) == Some(Stored) ==> final in s.links && ContentAt(s, final) == p.proof)
    && (Outcome(p.stage) == Some(CollisionOrCorruption) ==> final in s.links && ContentAt(s, final) != p.proof)
    && (p.stage.Remove? ==> p.stage.outcome != InvalidSize)
  }

  function Outcome(stage: PutStage): Option<PutResult> {
    match stage
    case Remove(_, outcome) => Some(outcome)
    case Done(result) => Some(result)
    case _ => None
  }

  /** Temporary names are never shared between puts that may still use them. */
  predicate TempsDistinct(s: State) {
    forall i, j :: 0 <= i < j < |s.puts| && OwnTemp(s.puts[i].stage).Some? ==>
      OwnTemp(s.puts[i].stage) != OwnTemp(s.puts[j].stage)
  }

  predicate GetOk(sha256: Digest, s: State, g: Get)
    requires LinksOk(s)
  {
    && (g.stage.GetRead? ==> Final(g.key) in s.links)
    && (g.stage.Got? ==> Final(g.key) in s.links && ContentAt(s, Final(g.key)) == g.stage.bytes)
    && !g.stage.GetCorrupt?
  }

  predicate Inv(sha256: Digest, s: State) {
    && PublishedOk(sha256, s)
    && TempsDistinct(s)
    && (forall i :: 0 <= i < |s.puts| ==> PutOk(sha256, s, s.puts[i]))
    && (forall i :: 0 <= i < |s.gets| ==> GetOk(sha256, s, s.gets[i]))
  }

  /** Any directory whose digest-named files are complete, stale temporary files included, before any operation. */
  predicate Initial(sha256: Digest, s: State) {
    PublishedOk(sha256, s) && s.puts == [] && s.gets == []
  }

  // ---- what a step does to the directory ---------------------------------

  /** Digest-named files persist with their content. */
  ghost predicate Extends(sha256: Digest, s: State, t: State)
    requires LinksOk(s)
  {
    && PublishedOk(sha256, t)
    && (forall p :: p in s.links && p.Final? ==> p in t.links && ContentAt(t, p) == ContentAt(s, p))
  }

  /** No process counts backwards; only a new process of an old id does. */
  ghost predicate CountersGrow(s: State, t: State) {
    forall pid :: Counter(s, pid) <= Counter(t, pid)
  }

  /** The private file of a put that has not linked yet is untouched. */
  predicate PrivateKept(s: State, t: State, p: Put)
    requires LinksOk(s) && LinksOk(t)
  {
    OwnInode(p.stage).Some? ==>
      var inode, temp := OwnInode(p.stage).value, OwnTemp(p.stage).value;
      && inode in s.inodes && inode in t.inodes && t.inodes[inode] == s.inodes[inode]
      && temp in t.links && t.links[temp] == inode
      && forall q :: q in t.links && t.links[q] == inode ==> q in s.links && s.links[q] == inode
  }

  /** A put may keep its temporary name, drop it, or take one that its process has never used. */
  predicate TempStep(s: State, p: Put, q: Put) {
    || OwnTemp(q.stage).None?
    || OwnTemp(q.stage) == OwnTemp(p.stage)
    || var temp := OwnTemp(q.stage).value;
       temp.Temp? && temp.pid == p.pid && temp.sequence >= Counter(s, p.pid)
  }

  ghost predicate SafePut(sha256: Digest, s: State, t: State, i: nat)
    requires LinksOk(s) && i < |s.puts|
  {
    && Extends(sha256, s, t)
    && CountersGrow(s, t)
    && t.gets == s.gets
    && |t.puts| == |s.puts|
    && (forall k :: 0 <= k < |s.puts| && k != i ==> t.puts[k] == s.puts[k])
    && t.puts[i].pid == s.puts[i].pid
    && PutOk(sha256, t, t.puts[i])
    && TempStep(s, s.puts[i], t.puts[i])
    && forall k :: 0 <= k < |s.puts| && k != i ==> PrivateKept(s, t, s.puts[k])
  }

  lemma PutOkFramed(sha256: Digest, s: State, t: State, p: Put)
    requires LinksOk(s) && Extends(sha256, s, t) && Counter(s, p.pid) <= Counter(t, p.pid)
    requires PutOk(sha256, s, p) && PrivateKept(s, t, p)
    ensures PutOk(sha256, t, p)
  {
  }

  lemma SafePutKeepsInv(sha256: Digest, s: State, t: State, i: nat)
    requires Inv(sha256, s) && i < |s.puts| && SafePut(sha256, s, t, i)
    ensures Inv(sha256, t)
  {
    forall k | 0 <= k < |t.puts|
      ensures PutOk(sha256, t, t.puts[k])
    {
      if k != i { PutOkFramed(sha256, s, t, s.puts[k]); }
    }
    hide PublishedOk, PrivateKept;
    forall a, b | 0 <= a < b < |t.puts| && OwnTemp(t.puts[a].stage).Some?
      ensures OwnTemp(t.puts[a].stage) != OwnTemp(t.puts[b].stage)
    {
      assert PutOk(sha256, s, s.puts[a]) && PutOk(sha256, s, s.puts[b]);
    }
  }

  /** Two puts that are still writing own different files. */
  lemma PrivateInodesDistinct(sha256: Digest, s: State, i: nat, j: nat)
    requires Inv(sha256, s) && i < |s.puts| && j < |s.puts| && i != j
    requires OwnInode(s.puts[i].stage).Some? && OwnInode(s.puts[j].stage).Some?
    ensures OwnInode(s.puts[i].stage) != OwnInode(s.puts[j].stage)
    ensures OwnTemp(s.puts[i].stage) != OwnTemp(s.puts[j].stage)
  {
    assert PutOk(sha256, s, s.puts[i]) && PutOk(sha256, s, s.puts[j]);
  }

  /** Moves that change no file. */
  lemma QuietMoveIsSafe(sha256: Digest, s: State, i: nat, stage: PutStage)
    requires Inv(sha256, s) && i < |s.puts|
    requires PutOk(sha256, s, s.puts[i].(stage := stage))
    requires OwnTemp(stage).None? || OwnTemp(stage) == OwnTemp(s.puts[i].stage)
    ensures SafePut(sha256, s, MovePut(s, i, stage), i)
  {
    var t := MovePut(s, i, stage);
    forall k | 0 <= k < |s.puts| && k != i
      ensures PrivateKept(s, t, s.puts[k])
    {
      assert PutOk(sha256, s, s.puts[k]);
    }
  }

  // ---- the steps of a put ------------------------------------------------

  lemma ReadingStepIsSafe(sha256: Digest, s: State, i: nat, chunk: nat, freshInode: nat)
    requires Inv(sha256, s) && Enabled(s, PutStep(i, chunk, freshInode))
    requires
      var stage := s.puts[i].stage;
      stage.Begin? || stage.Stat? || stage.Read? || stage.Sync? || stage.StatExisting? || stage.ReadExisting?
    ensures SafePut(sha256, s, PutNext(sha256, s, i, chunk, freshInode), i)
  {
    hide SafePut;
    var p := s.puts[i];
    assert PutOk(sha256, s, p);
    var t := PutNext(sha256, s, i, chunk, freshInode);
    var stage := t.puts[i].stage;
    assert t == MovePut(s, i, stage);
    assert PutOk(sha256, s, p.(stage := stage));
    QuietMoveIsSafe(sha256, s, i, stage);
  }

  /** A leftover file of the put's own temporary name: only the counter moves. */
  lemma CreateFailsSafely(sha256: Digest, s: State, i: nat, chunk: nat, freshInode: nat)
    requires Inv(sha256, s) && Enabled(s, PutStep(i, chunk, freshInode)) && s.puts[i].stage.Create?
    requires PutNext(sha256, s, i, chunk, freshInode).puts[i].stage.Remove?
    ensures SafePut(sha256, s, PutNext(sha256, s, i, chunk, freshInode), i)
  {
    var p := s.puts[i];
    assert PutOk(sha256, s, p);
    hide GetOk, TempsDistinct;
    var t := PutNext(sha256, s, i, chunk, freshInode);
    assert t.links == s.links && t.inodes == s.inodes;
    forall k | 0 <= k < |s.puts| && k != i
      ensures PrivateKept(s, t, s.puts[k])
    {
      assert PutOk(sha256, s, s.puts[k]);
    }
    assert PutOk(sha256, t, t.puts[i]);
  }

  lemma CreateSucceedsSafely(sha256: Digest, s: State, i: nat, chunk: nat, freshInode: nat)
    requires Inv(sha256, s) && Enabled(s, PutStep(i, chunk, freshInode)) && s.puts[i].stage.Create?
    requires !PutNext(sha256, s, i, chunk, freshInode).puts[i].stage.Remove?
    ensures SafePut(sha256, s, PutNext(sha256, s, i, chunk, freshInode), i)
  {
    assert PutOk(sha256, s, s.puts[i]);
    hide GetOk, TempsDistinct, Verdict;
    var t := PutNext(sha256, s, i, chunk, freshInode);
    forall k | 0 <= k < |s.puts| && k != i
      ensures PrivateKept(s, t, s.puts[k])
    {
      assert PutOk(sha256, s, s.puts[k]);
    }
    assert PublishedOk(sha256, t);
    assert PutOk(sha256, t, t.puts[i]);
  }

  lemma CreateIsSafe(sha256: Digest, s: State, i: nat, chunk: nat, freshInode: nat)
    requires Inv(sha256, s) && Enabled(s, PutStep(i, chunk, freshInode)) && s.puts[i].stage.Create?
    ensures SafePut(sha256, s, PutNext(sha256, s, i, chunk, freshInode), i)
  {
    assert LinksOk(s);
    hide SafePut, Inv;
    if PutNext(sha256, s, i, chunk, freshInode).puts[i].stage.Remove? {
      CreateFailsSafely(sha256, s, i, chunk, freshInode);
    } else {
      CreateSucceedsSafely(sha256, s, i, chunk, freshInode);
    }
  }

  lemma WriteIsSafe(sha256: Digest, s: State, i: nat, chunk: nat, freshInode: nat)
    requires Inv(sha256, s) && Enabled(s, PutStep(i, chunk, freshInode)) && s.puts[i].stage.Write?
    ensures SafePut(sha256, s, PutNext(sha256, s, i, chunk, freshInode), i)
  {
    var p := s.puts[i];
    assert PutOk(sha256, s, p);
    var t := PutNext(sha256, s, i, chunk, freshInode);
    var inode := p.stage.inode;
    forall q | q in s.links && q.Final?
      ensures ContentAt(t, q) == ContentAt(s, q)
    {
      assert s.links[q] != inode;
    }
    assert PublishedOk(sha256, t);
    forall k | 0 <= k < |s.puts| && k != i
      ensures PrivateKept(s, t, s.puts[k])
    {
      assert PutOk(sha256, s, s.puts[k]);
      if OwnInode(s.puts[k].stage).Some? { PrivateInodesDistinct(sha256, s, i, k); }
    }
    assert p.proof[..|p.proof|] == p.proof;
    assert PutOk(sha256, t, t.puts[i]);
  }

  lemma LinkIsSafe(sha256: Digest, s: State, i: nat, chunk: nat, freshInode: nat)
    requires Inv(sha256, s) && Enabled(s, PutStep(i, chunk, freshInode)) && s.puts[i].stage.Link?
    ensures SafePut(sha256, s, PutNext(sha256, s, i, chunk, freshInode), i)
  {
    var p := s.puts[i];
    assert PutOk(sha256, s, p);
    var t := PutNext(sha256, s, i, chunk, freshInode);
    var final := Final(sha256(p.proof));
    if final in s.links {
      QuietMoveIsSafe(sha256, s, i, StatExisting(p.stage.temp));
    } else {
      assert PublishedOk(sha256, t);
      forall k | 0 <= k < |s.puts| && k != i
        ensures PrivateKept(s, t, s.puts[k])
      {
        assert PutOk(sha256, s, s.puts[k]);
        if OwnInode(s.puts[k].stage).Some? { PrivateInodesDistinct(sha256, s, i, k); }
      }
      assert PutOk(sha256, t, t.puts[i]);
    }
  }

  lemma RemoveIsSafe(sha256: Digest, s: State, i: nat, chunk: nat, freshInode: nat)
    requires Inv(sha256, s) && Enabled(s, PutStep(i, chunk, freshInode)) && s.puts[i].stage.Remove?
    ensures SafePut(sha256, s, PutNext(sha256, s, i, chunk, freshInode), i)
  {
    var p := s.puts[i];
    assert PutOk(sha256, s, p);
    var t := PutNext(sha256, s, i, chunk, freshInode);
    var temp := p.stage.temp;
    assert PublishedOk(sha256, t);
    forall k | 0 <= k < |s.puts| && k != i
      ensures PrivateKept(s, t, s.puts[k])
    {
      assert PutOk(sha256, s, s.puts[k]);
      if OwnInode(s.puts[k].stage).Some? {
        assert OwnTemp(s.puts[k].stage) != Some(temp);
      }
    }
    assert PutOk(sha256, t, t.puts[i]);
  }

  lemma FailureIsSafe(sha256: Digest, s: State, i: nat)
    requires Inv(sha256, s) && Enabled(s, PutFails(i))
    ensures SafePut(sha256, s, Next(sha256, s, PutFails(i)), i)
  {
    assert PutOk(sha256, s, s.puts[i]);
    QuietMoveIsSafe(sha256, s, i, PutFailed(s.puts[i].stage));
  }

  lemma PutStepIsSafe(sha256: Digest, s: State, i: nat, chunk: nat, freshInode: nat)
    requires Inv(sha256, s) && Enabled(s, PutStep(i, chunk, freshInode))
    ensures SafePut(sha256, s, PutNext(sha256, s, i, chunk, freshInode), i)
  {
    hide SafePut, Inv, PutNext;
    match s.puts[i].stage
    case Create => CreateIsSafe(sha256, s, i, chunk, freshInode);
    case Write(_, _, _) => WriteIsSafe(sha256, s, i, chunk, freshInode);
    case Link(_, _) => LinkIsSafe(sha256, s, i, chunk, freshInode);
    case Remove(_, _) => RemoveIsSafe(sha256, s, i, chunk, freshInode);
    case _ => ReadingStepIsSafe(sha256, s, i, chunk, freshInode);
  }

  // ---- every step keeps the invariant ------------------------------------

  /** Steps that touch neither the directory nor an existing put. */
  lemma ReaderKeepsInv(sha256: Digest, s: State, t: State)
    requires Inv(sha256, s)
    requires t.links == s.links && t.inodes == s.inodes && t.counters == s.counters && t.puts == s.puts
    requires forall k :: 0 <= k < |t.gets| ==> GetOk(sha256, s, t.gets[k])
    ensures Inv(sha256, t) && Extends(sha256, s, t)
  {
    forall k | 0 <= k < |t.puts|
      ensures PutOk(sha256, t, t.puts[k])
    {
      assert PutOk(sha256, s, s.puts[k]);
    }
  }

  lemma GetStepIsSafe(sha256: Digest, s: State, i: nat)
    requires Inv(sha256, s) && Enabled(s, GetStep(i))
    ensures Inv(sha256, GetNext(sha256, s, i)) && Extends(sha256, s, GetNext(sha256, s, i))
  {
    hide PutOk, TempsDistinct, Extends;
    var t := GetNext(sha256, s, i);
    assert GetOk(sha256, s, s.gets[i]);
    assert GetOk(sha256, s, t.gets[i]);
    ReaderKeepsInv(sha256, s, t);
  }

  lemma NewPutIsSafe(sha256: Digest, s: State, pid: nat, proof: seq<Byte>)
    requires Inv(sha256, s)
    ensures
      var t := Next(sha256, s, NewPut(pid, proof));
      Inv(sha256, t) && Extends(sha256, s, t)
  {
    var t := Next(sha256, s, NewPut(pid, proof));
    forall k | 0 <= k < |t.puts|
      ensures PutOk(sha256, t, t.puts[k])
    {
      if k < |s.puts| { assert PutOk(sha256, s, s.puts[k]); }
    }
    forall k | 0 <= k < |t.gets|
      ensures GetOk(sha256, t, t.gets[k])
    {
      assert GetOk(sha256, s, s.gets[k]);
    }
  }

  /** Every step of every operation, failures included, keeps the invariant and every published file. */
  lemma StepKeepsInv(sha256: Digest, s: State, step: Step)
    requires Inv(sha256, s) && Enabled(s, step)
    ensures Inv(sha256, Next(sha256, s, step)) && Extends(sha256, s, Next(sha256, s, step))
  {
    assert LinksOk(s);
    hide PutNext, PutFailed, GetNext, PutOk, GetOk, TempsDistinct, PublishedOk, PrivateKept, TempStep;
    var t := Next(sha256, s, step);
    match step
    case NewPut(pid, proof) => NewPutIsSafe(sha256, s, pid, proof);
    case NewGet(key) => NewGetIsSafe(sha256, s, key);
    case PutStep(i, chunk, freshInode) =>
      PutStepIsSafe(sha256, s, i, chunk, freshInode);
      SafePutKeepsInv(sha256, s, t, i);
    case PutFails(i) =>
      FailureIsSafe(sha256, s, i);
      SafePutKeepsInv(sha256, s, t, i);
    case GetStep(i) => GetStepIsSafe(sha256, s, i);
    case GetFails(i) => GetFailsIsSafe(sha256, s, i);
    case Exit(pid) => ExitIsSafe(sha256, s, pid);
  }

  lemma NewGetIsSafe(sha256: Digest, s: State, key: string)
    requires Inv(sha256, s)
    ensures
      var t := Next(sha256, s, NewGet(key));
      Inv(sha256, t) && Extends(sha256, s, t)
  {
    hide PutOk, TempsDistinct, Extends;
    ReaderKeepsInv(sha256, s, Next(sha256, s, NewGet(key)));
  }

  lemma GetFailsIsSafe(sha256: Digest, s: State, i: nat)
    requires Inv(sha256, s) && Enabled(s, GetFails(i))
    ensures
      var t := Next(sha256, s, GetFails(i));
      Inv(sha256, t) && Extends(sha256, s, t)
  {
    hide PutOk, TempsDistinct, Extends;
    ReaderKeepsInv(sha256, s, Next(sha256, s, GetFails(i)));
  }

  lemma ExitIsSafe(sha256: Digest, s: State, pid: nat)
    requires Inv(sha256, s)
    ensures Inv(sha256, ExitNext(s, pid)) && Extends(sha256, s, ExitNext(s, pid))
  {
    var t := ExitNext(s, pid);
    forall k | 0 <= k < |t.puts|
      ensures PutOk(sha256, t, t.puts[k])
      ensures OwnTemp(t.puts[k].stage).None? || t.puts[k] == s.puts[k]
    {
      assert PutOk(sha256, s, s.puts[k]);
    }
    hide PutOk, PublishedOk;
    forall k | 0 <= k < |t.gets|
      ensures GetOk(sha256, t, t.gets[k])
    {
      assert GetOk(sha256, s, s.gets[k]);
    }
    assert TempsDistinct(t);
  }

  // ---- runs ---------------------------------------------------------------

  /** The states of a run, each but the first made by one step. */
  ghost predicate IsRun(sha256: Digest, run: seq<State>, steps: seq<Step>) {
    && |run| == |steps| + 1
    && Initial(sha256, run[0])
    && forall k :: 0 <= k < |steps| ==>
         LinksOk(run[k]) && Enabled(run[k], steps[k]) && run[k + 1] == Next(sha256, run[k], steps[k])
  }

  lemma {:induction false} RunKeepsInv(sha256: Digest, run: seq<State>, steps: seq<Step>, k: nat)
    requires IsRun(sha256, run, steps) && k <= |steps|
    ensures Inv(sha256, run[k])
  {
    if k > 0 {
      RunKeepsInv(sha256, run, steps, k - 1);
      hide Next, Inv, Enabled;
      StepKeepsInv(sha256, run[k - 1], steps[k - 1]);
    }
  }

  /** The digest-named file for `key` holds these bytes. */
  predicate Holds(s: State, key: string, bytes: seq<Byte>) {
    LinksOk(s) && Final(key) in s.links && ContentAt(s, Final(key)) == bytes
  }

  lemma StepHolds(sha256: Digest, s: State, step: Step, key: string, bytes: seq<Byte>)
    requires Inv(sha256, s) && Enabled(s, step) && Holds(s, key, bytes)
    ensures Holds(Next(sha256, s, step), key, bytes)
  {
    hide Next, PutOk, GetOk, TempsDistinct;
    StepKeepsInv(sha256, s, step);
  }

  lemma HeldIsPublished(sha256: Digest, s: State, key: string, bytes: seq<Byte>)
    requires Inv(sha256, s) && Holds(s, key, bytes)
    ensures ValidSize(|bytes|) && sha256(bytes) == key
  {
    hide PutOk, GetOk, TempsDistinct;
  }

  /** A digest-named file, once seen, is there with the same bytes at every later point of the run: never removed,
      never overwritten. And its bytes are of legal size and hash to its name. */
  lemma {:induction false} PublishedForever(
      sha256: Digest, run: seq<State>, steps: seq<Step>, j: nat, k: nat, key: string, bytes: seq<Byte>)
    requires IsRun(sha256, run, steps) && j <= k <= |steps| && Holds(run[j], key, bytes)
    ensures Holds(run[k], key, bytes) && ValidSize(|bytes|) && sha256(bytes) == key
  {
    hide Next, Inv, Enabled, Holds;
    if j < k {
      PublishedForever(sha256, run, steps, j, k - 1, key, bytes);
      RunKeepsInv(sha256, run, steps, k - 1);
      var s, step := run[k - 1], steps[k - 1];
      assert LinksOk(s) && Enabled(s, step) && run[k] == Next(sha256, s, step);
      hide IsRun;
      StepHolds(sha256, s, step, key, bytes);
    } else {
      RunKeepsInv(sha256, run, steps, k);
      hide IsRun;
      HeldIsPublished(sha256, run[k], key, bytes);
    }
  }
}
