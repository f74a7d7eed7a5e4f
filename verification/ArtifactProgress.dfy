/** Operations of the file store finish. One that runs alone, from any state of the directory and whatever else is
    suspended there, does exactly what the in-memory store does, and leaves no temporary name behind. */
module ArtifactProgress {
  import opened Wrappers
  import opened Bytes
  import opened ArtifactStore
  import opened ArtifactSafety
  import opened ArtifactRefinement

  // ---- every step is progress --------------------------------------------

  /** An upper bound on the steps that a put still takes, whatever the others do. */
  function Rank(p: Put): nat {
    match p.stage
    case Begin => |p.proof| + 12
    case Stat => |p.proof| + 11
    case Create => |p.proof| + 10
    case Write(_, _, written) => if written <= |p.proof| then |p.proof| - written + 6 else 6
    case Sync(_, _) => 5
    case Link(_, _) => 4
    case StatExisting(_) => 3
    case ReadExisting(_) => 2
    case Read => 1
    case Remove(_, _) => 1
    case Done(_) => 0
    case Killed => 0
  }

  /** Each step of a put, a failing one included, brings it nearer to its end, in any state. */
  lemma PutStepProgresses(sha256: Digest, s: State, step: Step)
    requires LinksOk(s) && Enabled(s, step) && (step.PutStep? || step.PutFails?)
    ensures |Next(sha256, s, step).puts| == |s.puts|
    ensures Rank(Next(sha256, s, step).puts[step.i]) < Rank(s.puts[step.i])
  {
    if step.PutStep? {
      hide Rank;
      if s.puts[step.i].stage.Write? || s.puts[step.i].stage.Create? {
        WritingProgresses(sha256, s, step);
      } else {
        hide Enabled, PutNext;
        EarlyProgresses(sha256, s, step.i, step.chunk, step.freshInode);
        LateProgresses(sha256, s, step.i, step.chunk, step.freshInode);
      }
    }
  }

  lemma WritingProgresses(sha256: Digest, s: State, step: Step)
    requires LinksOk(s) && Enabled(s, step) && step.PutStep?
    requires s.puts[step.i].stage.Write? || s.puts[step.i].stage.Create?
    ensures |Next(sha256, s, step).puts| == |s.puts|
    ensures Rank(Next(sha256, s, step).puts[step.i]) < Rank(s.puts[step.i])
  {
    hide Verdict, ValidSize, ContentAt;
  }

  lemma EarlyProgresses(sha256: Digest, s: State, i: nat, chunk: nat, freshInode: nat)
    requires LinksOk(s) && Enabled(s, PutStep(i, chunk, freshInode))
    requires !s.puts[i].stage.Write? && !s.puts[i].stage.Create?
    ensures
      var t, stage := PutNext(sha256, s, i, chunk, freshInode), s.puts[i].stage;
      stage.Begin? || stage.Stat? || stage.Read? || stage.Sync? ==>
        |t.puts| == |s.puts| && Rank(t.puts[i]) < Rank(s.puts[i])
  {
    hide Verdict, ValidSize, ContentAt, LinksOk;
  }

  lemma LateProgresses(sha256: Digest, s: State, i: nat, chunk: nat, freshInode: nat)
    requires LinksOk(s) && Enabled(s, PutStep(i, chunk, freshInode))
    requires !s.puts[i].stage.Write? && !s.puts[i].stage.Create?
    ensures
      var t, stage := PutNext(sha256, s, i, chunk, freshInode), s.puts[i].stage;
      !(stage.Begin? || stage.Stat? || stage.Read? || stage.Sync?) ==>
        |t.puts| == |s.puts| && Rank(t.puts[i]) < Rank(s.puts[i])
  {
    hide Verdict, ValidSize, ContentAt, LinksOk;
  }

  /** An unfinished put is never stuck: it waits for nobody. */
  lemma PutCanStep(s: State, i: nat, freshInode: nat)
    requires i < |s.puts| && !s.puts[i].stage.Done? && !s.puts[i].stage.Killed? && freshInode !in s.inodes
    requires s.puts[i].stage.Write? ==> s.puts[i].stage.written < |s.puts[i].proof|
    ensures exists chunk :: Enabled(s, PutStep(i, chunk, freshInode))
  {
    assert Enabled(s, PutStep(i, 1, freshInode));
  }

  // ---- a put alone -------------------------------------------------------

  function Temps(s: State): set<Path> {
    set p | p in s.links && p.Temp?
  }

  /** How far a put that runs alone since `s` has come at `t`. */
  ghost predicate AloneOk(sha256: Digest, s: State, t: State, i: nat)
    requires LinksOk(s)
  {
    && Inv(sha256, t) && i < |t.puts|
    && var proof, pid, stage := t.puts[i].proof, t.puts[i].pid, t.puts[i].stage;
    && var key, answer := sha256(proof), MemoryPut(sha256, Published(s), proof);
    match stage
    case Begin =>
      Published(t) == Published(s) && Temps(t) == Temps(s) && Temp(key, pid, Counter(t, pid)) !in t.links
    case Stat =>
      Published(t) == Published(s) && Temps(t) == Temps(s) && Temp(key, pid, Counter(t, pid)) !in t.links
    case Read => Published(t) == Published(s) && Temps(t) == Temps(s)
    case Create =>
      && Published(t) == Published(s) && key !in Published(s) && Temps(t) == Temps(s)
      && Temp(key, pid, Counter(t, pid)) !in t.links
    case Write(temp, _, _) => Unlinked(s, t, key, temp)
    case Sync(temp, _) => Unlinked(s, t, key, temp)
    case Link(temp, _) => Unlinked(s, t, key, temp)
    case Remove(temp, outcome) =>
      (outcome, Published(t)) == answer && temp !in Temps(s) && temp.Temp? && Temps(t) == Temps(s) + {temp}
    case Done(result) => (result, Published(t)) == answer && Temps(t) == Temps(s)
    case _ => false
  }

  ghost predicate Unlinked(s: State, t: State, key: string, temp: Path)
    requires LinksOk(s) && LinksOk(t)
  {
    && Published(t) == Published(s) && key !in Published(s)
    && temp.Temp? && temp !in Temps(s) && Temps(t) == Temps(s) + {temp}
  }

  lemma SameDirectory(t: State, u: State)
    requires LinksOk(t) && u.links == t.links && u.inodes == t.inodes
    ensures LinksOk(u) && Published(u) == Published(t) && Temps(u) == Temps(t)
  {
  }

  lemma AloneBegins(sha256: Digest, s: State, t: State, i: nat, chunk: nat, freshInode: nat)
    requires LinksOk(s) && AloneOk(sha256, s, t, i) && Enabled(t, PutStep(i, chunk, freshInode))
    requires t.puts[i].stage.Begin?
    ensures AloneOk(sha256, s, PutNext(sha256, t, i, chunk, freshInode), i)
  {
    hide Inv, Published, LinksOk, ContentAt, ValidSize, Verdict, Temps, Unlinked;
    FinalIsSized(sha256, t, "");
    var u := PutNext(sha256, t, i, chunk, freshInode);
    StepKeepsInv(sha256, t, PutStep(i, chunk, freshInode));
    SameDirectory(t, u);
  }

  lemma AloneStats(sha256: Digest, s: State, t: State, i: nat, chunk: nat, freshInode: nat)
    requires LinksOk(s) && AloneOk(sha256, s, t, i) && Enabled(t, PutStep(i, chunk, freshInode))
    requires t.puts[i].stage.Stat?
    ensures AloneOk(sha256, s, PutNext(sha256, t, i, chunk, freshInode), i)
  {
    hide Inv, Published, Temps, LinksOk, ContentAt, ValidSize, MemoryPut, Unlinked, Verdict;
    var key := sha256(t.puts[i].proof);
    FinalIsSized(sha256, t, key);
    var u := PutNext(sha256, t, i, chunk, freshInode);
    StepKeepsInv(sha256, t, PutStep(i, chunk, freshInode));
    SameDirectory(t, u);
    PublishedAt(t, key);
  }

  lemma FinalIsSized(sha256: Digest, t: State, key: string)
    requires Inv(sha256, t)
    ensures LinksOk(t)
    ensures Final(key) in t.links ==> ValidSize(|ContentAt(t, Final(key))|) && sha256(ContentAt(t, Final(key))) == key
  {
    hide PutOk, GetOk, TempsDistinct;
  }

  lemma AloneReads(sha256: Digest, s: State, t: State, i: nat, chunk: nat, freshInode: nat)
    requires LinksOk(s) && AloneOk(sha256, s, t, i) && Enabled(t, PutStep(i, chunk, freshInode))
    requires t.puts[i].stage.Read?
    ensures AloneOk(sha256, s, PutNext(sha256, t, i, chunk, freshInode), i)
  {
    var u, proof := PutNext(sha256, t, i, chunk, freshInode), t.puts[i].proof;
    var key := sha256(proof);
    StepKeepsInv(sha256, t, PutStep(i, chunk, freshInode));
    SameDirectory(t, u);
    PublishedAt(t, key);
    FinalIsSized(sha256, t, key);
    assert PutOk(sha256, t, t.puts[i]);
    hide Inv, Published, Temps, LinksOk, ContentAt, ValidSize;
    if Published(s)[key] == proof { SameEntry(Published(s), key, proof); }
  }

  /** The directory after one more step, by the refinement. */
  lemma AloneMoves(sha256: Digest, t: State, i: nat, chunk: nat, freshInode: nat)
    requires Inv(sha256, t) && Enabled(t, PutStep(i, chunk, freshInode))
    ensures LinksOk(t)
    ensures
      var step, u := PutStep(i, chunk, freshInode), PutNext(sha256, t, i, chunk, freshInode);
      && Inv(sha256, u) && |u.puts| == |t.puts|
      && if Publishes(sha256, t, step)
         then MemoryPut(sha256, Published(t), t.puts[i].proof) == (Stored, Published(u))
         else Published(u) == Published(t)
  {
    FinalIsSized(sha256, t, "");
    hide Inv, Published, MemoryPut, LinksOk, Enabled, PutNext;
    StepKeepsInv(sha256, t, PutStep(i, chunk, freshInode));
    StepRefines(sha256, t, PutStep(i, chunk, freshInode));
    PutStepProgresses(sha256, t, PutStep(i, chunk, freshInode));
  }

  lemma AddedTemp(t: State, u: State, temp: Path, inode: nat)
    requires u.links == t.links[temp := inode] && temp.Temp?
    ensures Temps(u) == Temps(t) + {temp}
  {
  }

  lemma AloneCreates(sha256: Digest, s: State, t: State, i: nat, chunk: nat, freshInode: nat)
    requires LinksOk(s) && AloneOk(sha256, s, t, i) && Enabled(t, PutStep(i, chunk, freshInode))
    requires t.puts[i].stage.Create?
    ensures AloneOk(sha256, s, PutNext(sha256, t, i, chunk, freshInode), i)
  {
    hide Inv, Published, LinksOk, MemoryPut, ContentAt, ValidSize, Verdict, Temps;
    FinalIsSized(sha256, t, "");
    var u := PutNext(sha256, t, i, chunk, freshInode);
    var temp := Temp(sha256(t.puts[i].proof), t.puts[i].pid, Counter(t, t.puts[i].pid));
    AloneMoves(sha256, t, i, chunk, freshInode);
    AddedTemp(t, u, temp, freshInode);
    NotATemp(s, t, temp);
    SizedAtCreate(sha256, t, i);
  }

  lemma NotATemp(s: State, t: State, temp: Path)
    requires Temps(t) == Temps(s) && temp !in t.links && temp.Temp?
    ensures temp !in Temps(s)
  {
    assert temp !in Temps(t);
  }

  lemma SizedAtCreate(sha256: Digest, t: State, i: nat)
    requires Inv(sha256, t) && i < |t.puts| && t.puts[i].stage.Create?
    ensures |t.puts[i].proof| > 0
  {
    assert PutOk(sha256, t, t.puts[i]);
  }

  lemma AloneWrites(sha256: Digest, s: State, t: State, i: nat, chunk: nat, freshInode: nat)
    requires LinksOk(s) && AloneOk(sha256, s, t, i) && Enabled(t, PutStep(i, chunk, freshInode))
    requires t.puts[i].stage.Write? || t.puts[i].stage.Sync?
    ensures AloneOk(sha256, s, PutNext(sha256, t, i, chunk, freshInode), i)
  {
    hide Inv, Published, LinksOk, MemoryPut, ContentAt, ValidSize, Verdict;
    FinalIsSized(sha256, t, "");
    var u := PutNext(sha256, t, i, chunk, freshInode);
    AloneMoves(sha256, t, i, chunk, freshInode);
    assert u.links == t.links;
    assert Temps(u) == Temps(t);
  }

  lemma LinkedTemp(sha256: Digest, t: State, i: nat)
    requires Inv(sha256, t) && i < |t.puts| && t.puts[i].stage.Link?
    ensures t.puts[i].stage.temp in t.links
  {
    assert PutOk(sha256, t, t.puts[i]);
  }

  lemma SameTemps(t: State, u: State, key: string, inode: nat)
    requires u.links == t.links[Final(key) := inode]
    ensures Temps(u) == Temps(t)
  {
  }

  lemma AloneLinks(sha256: Digest, s: State, t: State, i: nat, chunk: nat, freshInode: nat)
    requires LinksOk(s) && AloneOk(sha256, s, t, i) && Enabled(t, PutStep(i, chunk, freshInode))
    requires t.puts[i].stage.Link?
    ensures AloneOk(sha256, s, PutNext(sha256, t, i, chunk, freshInode), i)
  {
    hide Inv, Published, LinksOk, MemoryPut, ContentAt, ValidSize, Verdict, Temps;
    FinalIsSized(sha256, t, "");
    var u, key := PutNext(sha256, t, i, chunk, freshInode), sha256(t.puts[i].proof);
    AloneMoves(sha256, t, i, chunk, freshInode);
    PublishedAt(t, key);
    LinkedTemp(sha256, t, i);
    SameTemps(t, u, key, t.links[t.puts[i].stage.temp]);
  }

  lemma AloneRemoves(sha256: Digest, s: State, t: State, i: nat, chunk: nat, freshInode: nat)
    requires LinksOk(s) && AloneOk(sha256, s, t, i) && Enabled(t, PutStep(i, chunk, freshInode))
    requires t.puts[i].stage.Remove?
    ensures AloneOk(sha256, s, PutNext(sha256, t, i, chunk, freshInode), i)
  {
    hide Inv, Published, LinksOk, MemoryPut, ContentAt, ValidSize, Verdict;
    FinalIsSized(sha256, t, "");
    var u := PutNext(sha256, t, i, chunk, freshInode);
    AloneMoves(sha256, t, i, chunk, freshInode);
    assert Temps(u) == Temps(t) - {t.puts[i].stage.temp};
  }

  lemma AloneStep(sha256: Digest, s: State, t: State, i: nat, chunk: nat, freshInode: nat)
    requires LinksOk(s) && AloneOk(sha256, s, t, i) && Enabled(t, PutStep(i, chunk, freshInode))
    ensures AloneOk(sha256, s, PutNext(sha256, t, i, chunk, freshInode), i)
  {
    match t.puts[i].stage
    case Begin => AloneBegins(sha256, s, t, i, chunk, freshInode);
    case Stat => AloneStats(sha256, s, t, i, chunk, freshInode);
    case Read => AloneReads(sha256, s, t, i, chunk, freshInode);
    case Create => AloneCreates(sha256, s, t, i, chunk, freshInode);
    case Link(_, _) => AloneLinks(sha256, s, t, i, chunk, freshInode);
    case Remove(_, _) => AloneRemoves(sha256, s, t, i, chunk, freshInode);
    case _ => AloneWrites(sha256, s, t, i, chunk, freshInode);
  }

  lemma KeepsProof(sha256: Digest, t: State, i: nat, chunk: nat, freshInode: nat)
    requires LinksOk(t) && Enabled(t, PutStep(i, chunk, freshInode))
    ensures
      var u := PutNext(sha256, t, i, chunk, freshInode);
      i < |u.puts| && u.puts[i].proof == t.puts[i].proof
  {
    hide PutNext;
    LooksKeepProof(sha256, t, i, chunk, freshInode);
    WritesKeepProof(sha256, t, i, chunk, freshInode);
  }

  lemma LooksKeepProof(sha256: Digest, t: State, i: nat, chunk: nat, freshInode: nat)
    requires LinksOk(t) && Enabled(t, PutStep(i, chunk, freshInode))
    ensures
      var u, stage := PutNext(sha256, t, i, chunk, freshInode), t.puts[i].stage;
      stage.Begin? || stage.Stat? || stage.Read? || stage.StatExisting? || stage.ReadExisting? ==>
        i < |u.puts| && u.puts[i].proof == t.puts[i].proof
  {
    hide Verdict, ValidSize, ContentAt, LinksOk, Counter;
  }

  lemma WritesKeepProof(sha256: Digest, t: State, i: nat, chunk: nat, freshInode: nat)
    requires LinksOk(t) && Enabled(t, PutStep(i, chunk, freshInode))
    ensures
      var u, stage := PutNext(sha256, t, i, chunk, freshInode), t.puts[i].stage;
      !(stage.Begin? || stage.Stat? || stage.Read? || stage.StatExisting? || stage.ReadExisting?) ==>
        i < |u.puts| && u.puts[i].proof == t.puts[i].proof
  {
    hide Verdict, ValidSize, ContentAt, LinksOk, Counter;
  }

  lemma OnlyItsStage(sha256: Digest, t: State, i: nat, chunk: nat, freshInode: nat)
    requires Inv(sha256, t) && LinksOk(t) && Enabled(t, PutStep(i, chunk, freshInode))
    ensures
      var u := PutNext(sha256, t, i, chunk, freshInode);
      && |u.puts| == |t.puts| && u.gets == t.gets
      && u.puts[i].proof == t.puts[i].proof && u.puts[i].pid == t.puts[i].pid
      && forall k :: 0 <= k < |t.puts| && k != i ==> u.puts[k] == t.puts[k]
  {
    hide Inv, PutNext, Extends, CountersGrow, PutOk, TempStep, PrivateKept;
    PutStepIsSafe(sha256, t, i, chunk, freshInode);
    KeepsProof(sha256, t, i, chunk, freshInode);
  }

  lemma {:induction false} FreshNumber(used: set<nat>) returns (n: nat)
    ensures forall m :: m in used ==> m < n
  {
    n := 0;
    if used != {} {
      var m :| m in used;
      n := FreshNumber(used - {m});
      if n <= m { n := m + 1; }
      assert forall k :: k in used ==> k == m || k in used - {m};
    }
  }

  /** The state after a list of steps, when each is enabled in turn. */
  ghost function After(sha256: Digest, s: State, steps: seq<Step>): Option<State> {
    if steps == [] then Some(s)
    else
      match After(sha256, s, steps[..|steps| - 1])
      case None => None
      case Some(t) =>
        var step := steps[|steps| - 1];
        if LinksOk(t) && Enabled(t, step) then Some(Next(sha256, t, step)) else None
  }

  lemma AfterOneMore(sha256: Digest, s: State, steps: seq<Step>, t: State, step: Step)
    requires After(sha256, s, steps) == Some(t) && LinksOk(t) && Enabled(t, step)
    ensures After(sha256, s, steps + [step]) == Some(Next(sha256, t, step))
  {
    assert (steps + [step])[..|steps|] == steps;
  }

  lemma AfterFirst(sha256: Digest, s: State, step: Step)
    requires LinksOk(s) && Enabled(s, step)
    ensures After(sha256, s, [step]) == Some(Next(sha256, s, step))
  {
    assert [] + [step] == [step];
    AfterOneMore(sha256, s, [], s, step);
  }

  /** What is known of a put that runs alone, and of everything else. */
  ghost predicate Halfway(sha256: Digest, s: State, t: State, pid: nat, proof: seq<Byte>)
    requires LinksOk(s)
  {
    && AloneOk(sha256, s, t, |s.puts|) && |t.puts| == |s.puts| + 1 && t.gets == s.gets
    && (forall k :: 0 <= k < |s.puts| ==> t.puts[k] == s.puts[k])
    && t.puts[|s.puts|].proof == proof && t.puts[|s.puts|].pid == pid
  }

  lemma HalfwayStep(sha256: Digest, s: State, t: State, pid: nat, proof: seq<Byte>, freshInode: nat)
    requires LinksOk(s) && Halfway(sha256, s, t, pid, proof) && freshInode !in t.inodes
    requires |t.puts| > |s.puts| && !t.puts[|s.puts|].stage.Done?
    ensures LinksOk(t) && Enabled(t, PutStep(|s.puts|, 1, freshInode))
    ensures
      var u := Next(sha256, t, PutStep(|s.puts|, 1, freshInode));
      |u.puts| > |s.puts| && Halfway(sha256, s, u, pid, proof) && Rank(u.puts[|s.puts|]) < Rank(t.puts[|s.puts|])
  {
    var i := |s.puts|;
    assert PutOk(sha256, t, t.puts[i]);
    hide PutOk, GetOk, TempsDistinct, PublishedOk;
    assert Enabled(t, PutStep(i, 1, freshInode));
    hide Inv, PutNext, Rank, Enabled;
    OnlyItsStage(sha256, t, i, 1, freshInode);
    AloneStep(sha256, s, t, i, 1, freshInode);
    PutStepProgresses(sha256, t, PutStep(i, 1, freshInode));
  }

  lemma AloneAtBegin(sha256: Digest, s: State, t: State, i: nat)
    requires LinksOk(s) && Inv(sha256, t) && i < |t.puts| && t.puts[i].stage.Begin?
    requires LinksOk(t) && Published(t) == Published(s) && Temps(t) == Temps(s)
    requires Temp(sha256(t.puts[i].proof), t.puts[i].pid, Counter(t, t.puts[i].pid)) !in t.links
    ensures AloneOk(sha256, s, t, i)
  {
    hide Inv, LinksOk, Published, Temps, MemoryPut;
  }

  lemma HalfwayAtBegin(sha256: Digest, s: State, t: State, pid: nat, proof: seq<Byte>)
    requires LinksOk(s) && Inv(sha256, t) && t == s.(puts := s.puts + [Put(pid, proof, Begin)])
    requires Temp(sha256(proof), pid, Counter(s, pid)) !in s.links
    ensures Halfway(sha256, s, t, pid, proof)
  {
    hide Inv, Published, Temps, AloneOk;
    SameDirectory(s, t);
    AloneAtBegin(sha256, s, t, |s.puts|);
  }

  lemma HalfwayBegins(sha256: Digest, s: State, pid: nat, proof: seq<Byte>)
    requires Inv(sha256, s) && Temp(sha256(proof), pid, Counter(s, pid)) !in s.links
    ensures LinksOk(s) && |Next(sha256, s, NewPut(pid, proof)).puts| > |s.puts|
    ensures Halfway(sha256, s, Next(sha256, s, NewPut(pid, proof)), pid, proof)
  {
    hide Inv, LinksOk, Published, Temps, Enabled, Extends, Next, ContentAt, Counter, Halfway;
    FinalIsSized(sha256, s, "");
    NewPutIs(sha256, s, pid, proof);
    StepKeepsInv(sha256, s, NewPut(pid, proof));
    HalfwayAtBegin(sha256, s, Next(sha256, s, NewPut(pid, proof)), pid, proof);
  }

  lemma NewPutIs(sha256: Digest, s: State, pid: nat, proof: seq<Byte>)
    requires LinksOk(s)
    ensures Enabled(s, NewPut(pid, proof))
    ensures Next(sha256, s, NewPut(pid, proof)) == s.(puts := s.puts + [Put(pid, proof, Begin)])
  {
    hide PutNext, GetNext, ExitNext, PutFailed;
  }

  lemma AloneDone(sha256: Digest, s: State, t: State, i: nat)
    requires LinksOk(s) && AloneOk(sha256, s, t, i) && t.puts[i].stage.Done?
    ensures LinksOk(t)
    ensures (t.puts[i].stage.result, Published(t)) == MemoryPut(sha256, Published(s), t.puts[i].proof)
    ensures Temps(t) == Temps(s)
  {
    FinalIsSized(sha256, t, "");
    hide Inv, Published, Temps, MemoryPut, LinksOk, Unlinked;
  }

  lemma HalfwayDone(sha256: Digest, s: State, t: State, pid: nat, proof: seq<Byte>)
    requires LinksOk(s) && Halfway(sha256, s, t, pid, proof)
    requires |t.puts| > |s.puts| && t.puts[|s.puts|].stage.Done?
    ensures LinksOk(t)
    ensures
      var (result, store) := MemoryPut(sha256, Published(s), proof);
      && t.puts == s.puts + [Put(pid, proof, Done(result))] && t.gets == s.gets
      && Published(t) == store && Temps(t) == Temps(s)
  {
    hide AloneOk, Published, Temps, MemoryPut, LinksOk;
    AloneDone(sha256, s, t, |s.puts|);
    assert t.puts[|s.puts|] == Put(pid, proof, Done(MemoryPut(sha256, Published(s), proof).0));
  }

  /** A put that runs alone, from any state that any operations have left, finishes by its own steps; its answer is the
      in-memory store's, so is what is published afterwards, and nothing else is left behind or disturbed. The one
      condition is that no file bears the temporary name that its process is to use next. */
  lemma PutAlone(sha256: Digest, s: State, pid: nat, proof: seq<Byte>) returns (steps: seq<Step>, t: State)
    requires Inv(sha256, s) && Temp(sha256(proof), pid, Counter(s, pid)) !in s.links
    ensures LinksOk(s) && LinksOk(t)
    ensures After(sha256, s, steps) == Some(t) && steps != [] && steps[0] == NewPut(pid, proof)
    ensures forall k :: 1 <= k < |steps| ==> steps[k].PutStep? && steps[k].i == |s.puts|
    ensures
      var (result, store) := MemoryPut(sha256, Published(s), proof);
      && t.puts == s.puts + [Put(pid, proof, Done(result))] && t.gets == s.gets
      && Published(t) == store && Temps(t) == Temps(s)
  {
    hide Inv, LinksOk, Published, Temps, MemoryPut, Next, Enabled, Rank, Halfway, After, ContentAt;
    HalfwayBegins(sha256, s, pid, proof);
    NewPutIs(sha256, s, pid, proof);
    steps, t := [NewPut(pid, proof)], Next(sha256, s, NewPut(pid, proof));
    AfterFirst(sha256, s, NewPut(pid, proof));
    while !t.puts[|s.puts|].stage.Done?
      invariant |t.puts| > |s.puts| && Halfway(sha256, s, t, pid, proof) && After(sha256, s, steps) == Some(t)
      invariant steps != [] && steps[0] == NewPut(pid, proof)
      invariant forall k :: 1 <= k < |steps| ==> steps[k].PutStep? && steps[k].i == |s.puts|
      decreases Rank(t.puts[|s.puts|])
    {
      var freshInode := FreshNumber(t.inodes.Keys);
      var step := PutStep(|s.puts|, 1, freshInode);
      HalfwayStep(sha256, s, t, pid, proof, freshInode);
      AfterOneMore(sha256, s, steps, t, step);
      steps, t := steps + [step], Next(sha256, t, step);
    }
    HalfwayDone(sha256, s, t, pid, proof);
  }

  // ---- a get alone -------------------------------------------------------

  /** Where a get ends that the in-memory store answers so. */
  function Ended(answer: Option<seq<Byte>>): GetStage {
    match answer
    case None => GotNothing
    case Some(bytes) => Got(bytes)
  }

  lemma GetFacts(sha256: Digest, s: State, g: nat)
    requires Inv(sha256, s) && g < |s.gets|
    ensures LinksOk(s)
    ensures
      var key := s.gets[g].key;
      && (s.gets[g].stage.GetRead? ==> key in Published(s))
      && (Final(key) in s.links <==> key in Published(s))
      && (key in Published(s) ==>
            var bytes := Published(s)[key];
            ContentAt(s, Final(key)) == bytes && ValidSize(|bytes|) && sha256(bytes) == key)
  {
    assert GetOk(sha256, s, s.gets[g]);
    FinalIsSized(sha256, s, s.gets[g].key);
    hide Inv, Published, ValidSize;
    PublishedAt(s, s.gets[g].key);
  }

  /** Where a get is after one more step, on a directory with these files. */
  function NextGet(store: Store, key: string, stage: GetStage): GetStage {
    match stage
    case GetBegin => if Hex.IsLowerHexOfLength(key, 64) then GetStat else GotNothing
    case GetStat => if key in store then GetRead else GotNothing
    case GetRead => if key in store then Got(store[key]) else GotNothing
    case _ => stage
  }

  lemma GetAloneStep(sha256: Digest, s: State, g: nat)
    requires Inv(sha256, s) && g < |s.gets| && Enabled(s, GetStep(g)) && LinksOk(s)
    ensures GetNext(sha256, s, g) == MoveGet(s, g, NextGet(Published(s), s.gets[g].key, s.gets[g].stage))
  {
    hide Inv, Published, LinksOk, ContentAt, ValidSize, Hex.IsLowerHexOfLength;
    GetFacts(sha256, s, g);
  }

  lemma NewGetIs(sha256: Digest, s: State, key: string)
    requires LinksOk(s)
    ensures Enabled(s, NewGet(key))
    ensures Next(sha256, s, NewGet(key)) == s.(gets := s.gets + [Get(key, GetBegin)])
  {
    hide PutNext, GetNext, ExitNext, PutFailed;
  }

  /** The state in which the last get is at this stage. */
  function WithGet(s: State, key: string, stage: GetStage): State {
    s.(gets := s.gets + [Get(key, stage)])
  }

  lemma WithGetSteps(sha256: Digest, s: State, key: string, stage: GetStage)
    requires Inv(sha256, WithGet(s, key, stage)) && LinksOk(s)
    requires stage.GetBegin? || stage.GetStat? || stage.GetRead?
    ensures
      var t, next := WithGet(s, key, stage), NextGet(Published(s), key, stage);
      && LinksOk(t) && Enabled(t, GetStep(|s.gets|))
      && (stage.GetRead? ==> key in Published(s))
      && Next(sha256, t, GetStep(|s.gets|)) == WithGet(s, key, next)
      && Inv(sha256, WithGet(s, key, next))
  {
    hide Inv, Published, LinksOk, NextGet, GetNext, Extends;
    var t := WithGet(s, key, stage);
    assert t.gets[|s.gets|] == Get(key, stage);
    GetFacts(sha256, t, |s.gets|);
    SameStore(s, t);
    GetAloneStep(sha256, t, |s.gets|);
    StepKeepsInv(sha256, t, GetStep(|s.gets|));
    var next := NextGet(Published(s), key, stage);
    assert MoveGet(t, |s.gets|, next) == WithGet(s, key, next);
  }

  lemma SameStore(s: State, t: State)
    requires LinksOk(s) && t.links == s.links && t.inodes == s.inodes
    ensures LinksOk(t) && Published(t) == Published(s)
  {
  }

  /** At least how many steps it takes to get there. */
  function Taken(stage: GetStage): nat {
    if stage.GetBegin? then 1 else if stage.GetRead? then 3 else 2
  }

  /** A get that runs alone finishes within three steps of its own, and answers as the in-memory store does. */
  lemma GetAlone(sha256: Digest, s: State, key: string) returns (steps: seq<Step>)
    requires Inv(sha256, s)
    ensures LinksOk(s) && 2 <= |steps| <= 4 && steps[0] == NewGet(key)
    ensures forall k :: 1 <= k < |steps| ==> steps[k] == GetStep(|s.gets|)
    ensures After(sha256, s, steps) == Some(WithGet(s, key, Ended(MemoryGet(Published(s), key))))
  {
    FinalIsSized(sha256, s, key);
    hide Inv, LinksOk, Published, Next, Enabled, After, Hex.IsLowerHexOfLength;
    NewGetIs(sha256, s, key);
    AfterFirst(sha256, s, NewGet(key));
    StepKeepsInv(sha256, s, NewGet(key));
    steps := [NewGet(key)];
    var stage := GetBegin;
    while stage.GetBegin? || stage.GetStat? || stage.GetRead?
      invariant Inv(sha256, WithGet(s, key, stage)) && After(sha256, s, steps) == Some(WithGet(s, key, stage))
      invariant steps != [] && steps[0] == NewGet(key)
      invariant forall k :: 1 <= k < |steps| ==> steps[k] == GetStep(|s.gets|)
      invariant stage.GetBegin? || stage.GetStat? || stage.GetRead? || stage == Ended(MemoryGet(Published(s), key))
      invariant !stage.GetBegin? && !stage.GotNothing? ==> Hex.IsLowerHexOfLength(key, 64)
      invariant Taken(stage) <= |steps| <= 4 && (stage.GetBegin? || stage.GetStat? || stage.GetRead? ==> |steps| <= 3)
      invariant stage.GetBegin? ==> |steps| == 1
      invariant stage.GetStat? ==> |steps| == 2
      decreases 4 - |steps|
    {
      WithGetSteps(sha256, s, key, stage);
      AfterOneMore(sha256, s, steps, WithGet(s, key, stage), GetStep(|s.gets|));
      steps := steps + [GetStep(|s.gets|)];
      stage := NextGet(Published(s), key, stage);
    }
  }

  // ---- what may go wrong -------------------------------------------------

  /** A fault may strike a put at every system call, and a get at both of its own. */
  lemma FaultsMayStrike(s: State, i: nat)
    ensures Enabled(s, PutFails(i)) <==>
      i < |s.puts| && !s.puts[i].stage.Begin? && !s.puts[i].stage.Done? && !s.puts[i].stage.Killed?
    ensures Enabled(s, GetFails(i)) <==> i < |s.gets| && (s.gets[i].stage.GetStat? || s.gets[i].stage.GetRead?)
  {
  }

  /** A process may stop at any moment: its unfinished puts never move again, whatever they have left on the disk stays,
      and the next process of that number counts from zero. */
  lemma MayStopAnywhere(sha256: Digest, s: State, pid: nat)
    requires LinksOk(s)
    ensures Enabled(s, Exit(pid))
    ensures
      var t := Next(sha256, s, Exit(pid));
      && t.links == s.links && t.inodes == s.inodes && t.gets == s.gets && |t.puts| == |s.puts|
      && (forall i :: 0 <= i < |s.puts| ==>
            t.puts[i] ==
              if s.puts[i].pid == pid && !s.puts[i].stage.Done? then s.puts[i].(stage := Killed) else s.puts[i])
      && Counter(t, pid) == 0 && forall other :: other != pid ==> Counter(t, other) == Counter(s, other)
  {
  }

  // ---- damaged directories -----------------------------------------------

  // Nothing below supposes that the digest-named files are what they should be.

  /** A get never returns bytes that are not what was asked for: a file of bad size, or with another digest, is reported
      as damaged, whoever wrote it. */
  lemma GetNeverLies(sha256: Digest, s: State, g: nat)
    requires LinksOk(s) && Enabled(s, GetStep(g))
    ensures
      var after, key := GetNext(sha256, s, g).gets[g].stage, s.gets[g].key;
      && (after.Got? ==> 0 < |after.bytes| <= 33_554_432 && sha256(after.bytes) == key)
      && (Final(key) in s.links && !s.gets[g].stage.GetBegin? ==>
            var bytes := ContentAt(s, Final(key));
            if !(0 < |bytes| <= 33_554_432) then after == GetCorrupt
            else if s.gets[g].stage.GetStat? then after == GetRead
            else if sha256(bytes) == key then after == Got(bytes) else after == GetCorrupt)
  {
    hide Hex.IsLowerHexOfLength;
  }

  /** A put that finds its digest taken never calls bytes its own that are not: it has stored its artifact only if the
      file is that artifact. */
  lemma PutNeverBlesses(sha256: Digest, s: State, i: nat, chunk: nat, freshInode: nat)
    requires LinksOk(s) && Enabled(s, PutStep(i, chunk, freshInode))
    requires s.puts[i].stage.Read? || s.puts[i].stage.ReadExisting?
    ensures i < |PutNext(sha256, s, i, chunk, freshInode).puts|
    ensures
      var proof, after := s.puts[i].proof, PutNext(sha256, s, i, chunk, freshInode).puts[i].stage;
      Outcome(after) == Some(
        if Final(sha256(proof)) !in s.links then IoError
        else
          var bytes := ContentAt(s, Final(sha256(proof)));
          if !(0 < |bytes| <= 33_554_432) then InvalidSize
          else if bytes == proof then Stored else CollisionOrCorruption)
  {
    hide Counter;
  }

  /** And before it reads a file that is there, it refuses one of bad size. */
  lemma DamagedIsRefused(sha256: Digest, s: State, i: nat, chunk: nat, freshInode: nat)
    requires LinksOk(s) && Enabled(s, PutStep(i, chunk, freshInode))
    requires s.puts[i].stage.Stat? || s.puts[i].stage.StatExisting?
    requires Final(sha256(s.puts[i].proof)) in s.links
    ensures i < |PutNext(sha256, s, i, chunk, freshInode).puts|
    ensures
      var after := PutNext(sha256, s, i, chunk, freshInode).puts[i].stage;
      var size := |ContentAt(s, Final(sha256(s.puts[i].proof)))|;
      if 0 < size <= 33_554_432 then after.Read? || after.ReadExisting?
      else Outcome(after) == Some(CollisionOrCorruption)
  {
    hide Counter, Verdict;
  }

  /** A leftover of the very name that a put is to use next makes it fail, and only that put: the number is spent. */
  lemma LeftoverFailsPut(sha256: Digest, s: State, i: nat, chunk: nat, freshInode: nat)
    requires LinksOk(s) && Enabled(s, PutStep(i, chunk, freshInode)) && s.puts[i].stage.Create?
    requires Temp(sha256(s.puts[i].proof), s.puts[i].pid, Counter(s, s.puts[i].pid)) in s.links
    ensures
      var t, pid := PutNext(sha256, s, i, chunk, freshInode), s.puts[i].pid;
      var temp := Temp(sha256(s.puts[i].proof), pid, Counter(s, pid));
      && t.links == s.links && t.inodes == s.inodes && Counter(t, pid) == Counter(s, pid) + 1
      && t.puts == s.puts[i := s.puts[i].(stage := Remove(temp, IoError))]
  {
    hide LinksOk, ContentAt, Verdict, ValidSize;
  }
}
