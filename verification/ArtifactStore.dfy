/** The content-addressed proof store, apps/provider/src/artifacts.rs: the in-memory store as specification, and the
    file store as steps over a directory of hard links. `sha256` is any function. */
module ArtifactStore {
  import opened Wrappers
  import opened Bytes
  import opened Types

  type Digest = seq<Byte> -> string
  type Store = map<string, seq<Byte>>

  datatype PutResult = Stored | InvalidSize | CollisionOrCorruption | IoError

  predicate ValidSize(length: nat) {
    0 < length <= MAX_PROOF_BYTES
  }

  // ---- specification -----------------------------------------------------

  /** `MemoryProofArtifactStore::put`. */
  function MemoryPut(sha256: Digest, store: Store, proof: seq<Byte>): (PutResult, Store) {
    if !ValidSize(|proof|) then (InvalidSize, store)
    else
      var key := sha256(proof);
      if key in store && store[key] != proof then (CollisionOrCorruption, store)
      else (Stored, store[key := proof])
  }

  function MemoryGet(store: Store, key: string): Option<seq<Byte>> {
    if Hex.IsLowerHexOfLength(key, 64) && key in store then Some(store[key]) else None
  }

  class MemoryProofArtifactStore {
    var artifacts: Store

    constructor ()
      ensures artifacts == map[]
    {
      artifacts := map[];
    }

    method Put(sha256: Digest, proof: seq<Byte>) returns (r: PutResult)
      modifies this
      ensures (r, artifacts) == MemoryPut(sha256, old(artifacts), proof)
    {
      if !ValidSize(|proof|) {
        return InvalidSize;
      }
      var key := sha256(proof);
      if key in artifacts {
        if artifacts[key] != proof {
          return CollisionOrCorruption;
        }
        assert artifacts[key := proof] == artifacts;
      } else {
        artifacts := artifacts[key := proof];
      }
      return Stored;
    }

    method Get(key: string) returns (r: Option<seq<Byte>>)
      ensures r == MemoryGet(artifacts, key)
    {
      if !Hex.IsLowerHexOfLength(key, 64) {
        return None;
      }
      if key in artifacts {
        return Some(artifacts[key]);
      }
      return None;
    }
  }

  /** What is put can be got, and another artifact of the same digest is refused from then on. */
  lemma MemoryPutThenGet(sha256: Digest, store: Store, p: seq<Byte>, q: seq<Byte>)
    requires MemoryPut(sha256, store, p).0 == Stored && Hex.IsLowerHexOfLength(sha256(p), 64)
    ensures
      var after := MemoryPut(sha256, store, p).1;
      && MemoryGet(after, sha256(p)) == Some(p)
      && MemoryPut(sha256, after, p) == (Stored, after)
      && (sha256(q) == sha256(p) && q != p && ValidSize(|q|) ==>
            MemoryPut(sha256, after, q) == (CollisionOrCorruption, after))
  {
    var after := MemoryPut(sha256, store, p).1;
    assert after[sha256(p) := p] == after;
  }

  /** What the in-memory store answers, and that a refusal changes nothing. */
  lemma MemoryPutAnswers(sha256: Digest, store: Store, p: seq<Byte>)
    ensures
      var (result, after) := MemoryPut(sha256, store, p);
      && (result == InvalidSize <==> p == [] || |p| > 33_554_432)
      && (result == CollisionOrCorruption <==>
            0 < |p| <= 33_554_432 && sha256(p) in store && store[sha256(p)] != p)
      && result != IoError && (result != Stored ==> after == store)
      && (result == Stored ==> forall key ::
            && (key in after <==> key in store || key == sha256(p))
            && (key in after ==> after[key] == if key == sha256(p) then p else store[key]))
  {
  }

  // ---- the directory -----------------------------------------------------

  /** `<digest>.json`, or the hidden temporary name of one put. */
  datatype Path = Final(key: string) | Temp(key: string, pid: nat, sequence: nat)

  datatype PutStage =
    | Begin
    | Stat
    | Read
    | Create
    | Write(temp: Path, inode: nat, written: nat)
    | Sync(temp: Path, inode: nat)
    | Link(temp: Path, inode: nat)
    | StatExisting(temp: Path)
    | ReadExisting(temp: Path)
    | Remove(temp: Path, outcome: PutResult)
    | Done(result: PutResult)
    | Killed

  datatype Put = Put(pid: nat, proof: seq<Byte>, stage: PutStage)

  datatype GetStage = GetBegin | GetStat | GetRead | GotNothing | Got(bytes: seq<Byte>) | GetCorrupt | GetIoError

  datatype Get = Get(key: string, stage: GetStage)

  datatype State = State(
    links: map<Path, nat>, inodes: map<nat, seq<Byte>>, counters: map<nat, nat>, puts: seq<Put>, gets: seq<Get>)

  function Counter(s: State, pid: nat): nat {
    if pid in s.counters then s.counters[pid] else 0
  }

  /** What the digest-named files hold. */
  function Published(s: State): Store
    requires LinksOk(s)
  {
    map p | p in s.links && p.Final? :: p.key := s.inodes[s.links[p]]
  }

  predicate LinksOk(s: State) {
    forall p :: p in s.links ==> s.links[p] in s.inodes
  }

  function ContentAt(s: State, path: Path): seq<Byte>
    requires LinksOk(s) && path in s.links
  {
    s.inodes[s.links[path]]
  }

  // ---- steps -------------------------------------------------------------

  datatype Step =
    | NewPut(pid: nat, proof: seq<Byte>)
    | NewGet(key: string)
    | PutStep(i: nat, chunk: nat, freshInode: nat)
    | PutFails(i: nat)
    | GetStep(i: nat)
    | GetFails(i: nat)
    | Exit(pid: nat)

  /** A step of a put that can meet an I/O error. */
  predicate DoesIo(stage: PutStage) {
    !stage.Begin? && !stage.Done? && !stage.Killed?
  }

  predicate Enabled(s: State, step: Step) {
    match step
    case NewPut(_, _) => true
    case NewGet(_) => true
    case PutStep(i, chunk, freshInode) =>
      && i < |s.puts| && !s.puts[i].stage.Done? && !s.puts[i].stage.Killed?
      && freshInode !in s.inodes
      && (s.puts[i].stage.Write? ==>
            0 < chunk && s.puts[i].stage.written + chunk <= |s.puts[i].proof|)
    case PutFails(i) => i < |s.puts| && DoesIo(s.puts[i].stage)
    case GetStep(i) =>
      i < |s.gets| && (s.gets[i].stage.GetBegin? || s.gets[i].stage.GetStat? || s.gets[i].stage.GetRead?)
    case GetFails(i) => i < |s.gets| && (s.gets[i].stage.GetStat? || s.gets[i].stage.GetRead?)
    case Exit(_) => true
  }

  function MovePut(s: State, i: nat, stage: PutStage): State
    requires i < |s.puts|
  {
    s.(puts := s.puts[i := s.puts[i].(stage := stage)])
  }

  function MoveGet(s: State, i: nat, stage: GetStage): State
    requires i < |s.gets|
  {
    s.(gets := s.gets[i := s.gets[i].(stage := stage)])
  }

  /** The verdict of `get` on the bytes it read, compared with the bytes to store. */
  function Verdict(sha256: Digest, key: string, existing: seq<Byte>, proof: seq<Byte>): PutResult {
    if !ValidSize(|existing|) then InvalidSize
    else if sha256(existing) != key || existing != proof then CollisionOrCorruption
    else Stored
  }

  function PutNext(sha256: Digest, s: State, i: nat, chunk: nat, freshInode: nat): State
    requires LinksOk(s) && Enabled(s, PutStep(i, chunk, freshInode))
  {
    var p := s.puts[i];
    var key := sha256(p.proof);
    var final := Final(key);
    match p.stage
    case Begin =>
      MovePut(s, i, if ValidSize(|p.proof|) then Stat else Done(InvalidSize))
    case Stat =>
      if final !in s.links then MovePut(s, i, Create)
      else if !ValidSize(|ContentAt(s, final)|) then MovePut(s, i, Done(CollisionOrCorruption))
      else MovePut(s, i, Read)
    case Read =>
      if final !in s.links then MovePut(s, i, Done(IoError))
      else MovePut(s, i, Done(Verdict(sha256, key, ContentAt(s, final), p.proof)))
    case Create =>
      var sequence := Counter(s, p.pid);
      var temp := Temp(key, p.pid, sequence);
      var counted := s.(counters := s.counters[p.pid := sequence + 1]);
      if temp in s.links then MovePut(counted, i, Remove(temp, IoError))
      else
        MovePut(counted.(links := s.links[temp := freshInode], inodes := s.inodes[freshInode := []]), i,
                if |p.proof| == 0 then Sync(temp, freshInode) else Write(temp, freshInode, 0))
    case Write(temp, inode, written) =>
      var more := written + chunk;
      MovePut(s.(inodes := s.inodes[inode := p.proof[..more]]), i,
              if more == |p.proof| then Sync(temp, inode) else Write(temp, inode, more))
    case Sync(temp, inode) =>
      MovePut(s, i, Link(temp, inode))
    case Link(temp, _) =>
      if final in s.links then MovePut(s, i, StatExisting(temp))
      else if temp !in s.links then MovePut(s, i, Remove(temp, IoError))
      else MovePut(s.(links := s.links[final := s.links[temp]]), i, Remove(temp, Stored))
    case StatExisting(temp) =>
      if final !in s.links || !ValidSize(|ContentAt(s, final)|)
      then MovePut(s, i, Remove(temp, CollisionOrCorruption))
      else MovePut(s, i, ReadExisting(temp))
    case ReadExisting(temp) =>
      if final !in s.links then MovePut(s, i, Remove(temp, IoError))
      else MovePut(s, i, Remove(temp, Verdict(sha256, key, ContentAt(s, final), p.proof)))
    case Remove(temp, outcome) =>
      MovePut(s.(links := s.links - {temp}), i, Done(outcome))
    case _ => s
  }

  /** An I/O error ends a put; once the temporary file exists, its removal is still attempted. A failure of the
      removal itself is ignored and leaves the temporary name behind. */
  function PutFailed(stage: PutStage): PutStage {
    match stage
    case Write(temp, _, _) => Remove(temp, IoError)
    case Sync(temp, _) => Remove(temp, IoError)
    case Link(temp, _) => Remove(temp, IoError)
    case StatExisting(temp) => Remove(temp, IoError)
    case ReadExisting(temp) => Remove(temp, IoError)
    case Remove(_, outcome) => Done(outcome)
    case _ => Done(IoError)
  }

  function GetNext(sha256: Digest, s: State, i: nat): State
    requires LinksOk(s) && Enabled(s, GetStep(i))
  {
    var g := s.gets[i];
    var final := Final(g.key);
    if g.stage.GetBegin? then MoveGet(s, i, if Hex.IsLowerHexOfLength(g.key, 64) then GetStat else GotNothing)
    else if g.stage.GetStat? then
      if final !in s.links then MoveGet(s, i, GotNothing)
      else if !ValidSize(|ContentAt(s, final)|) then MoveGet(s, i, GetCorrupt)
      else MoveGet(s, i, GetRead)
    else if final !in s.links then MoveGet(s, i, GetIoError)
    else
      var bytes := ContentAt(s, final);
      MoveGet(s, i, if ValidSize(|bytes|) && sha256(bytes) == g.key then Got(bytes) else GetCorrupt)
  }

  /** A process ends, however it ends: its unfinished puts never return, and a later process of the same id counts its
      temporary names from zero again. */
  function ExitNext(s: State, pid: nat): State {
    s.(counters := s.counters - {pid},
       puts := seq(|s.puts|, i requires 0 <= i < |s.puts| =>
         if s.puts[i].pid == pid && !s.puts[i].stage.Done? then s.puts[i].(stage := Killed) else s.puts[i]))
  }

  function Next(sha256: Digest, s: State, step: Step): State
    requires LinksOk(s) && Enabled(s, step)
  {
    match step
    case NewPut(pid, proof) => s.(puts := s.puts + [Put(pid, proof, Begin)])
    case NewGet(key) => s.(gets := s.gets + [Get(key, GetBegin)])
    case PutStep(i, chunk, freshInode) => PutNext(sha256, s, i, chunk, freshInode)
    case PutFails(i) => MovePut(s, i, PutFailed(s.puts[i].stage))
    case GetStep(i) => GetNext(sha256, s, i)
    case GetFails(i) => MoveGet(s, i, GetIoError)
    case Exit(pid) => ExitNext(s, pid)
  }
}
