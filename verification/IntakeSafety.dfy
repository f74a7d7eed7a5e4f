/** What the intake machine guarantees over whole runs. */
module IntakeSafety {
  import opened Wrappers
  import opened Types
  import opened Fifo
  import opened Caches
  import opened Events
  import opened Intake

  /** An accepted request can be observed at most this far apart: the sum of the two acceptance limits. */
  const SPAN: int := MAX_REQUEST_AGE_SECS + MAX_FUTURE_SKEW_SECS

  /** The other requests claimed within one span. */
  function OthersIn(claims: seq<Claim>, id: string, start: int): set<string> {
    set k | 0 <= k < |claims| && claims[k].id != id && start <= claims[k].observed <= start + SPAN :: claims[k].id
  }

  /** Observation times do not decrease in claim order. */
  ghost predicate Monotone(claims: seq<Claim>) {
    forall i, j :: 0 <= i <= j < |claims| ==> claims[i].observed <= claims[j].observed
  }

  /** Fewer than `capacity` other requests are claimed in any span. */
  ghost predicate Sparse(c: Config, claims: seq<Claim>) {
    forall id, start :: |OthersIn(claims, id, start)| < c.capacity
  }

  lemma InOthers(claims: seq<Claim>, id: string, start: int, k: nat)
    requires k < |claims| && claims[k].id != id && start <= claims[k].observed <= start + SPAN
    ensures claims[k].id in OthersIn(claims, id, start)
  {
  }

  /** A second successful claim of an id needs `capacity` other requests claimed within one span of the first. */
  lemma SecondClaimNeedsEviction(c: Config, s: State, i: nat, j: nat)
    requires ClaimsOk(c, s) && Monotone(s.claims)
    requires i < j < |s.claims| && s.claims[i].id == s.claims[j].id
    ensures |OthersIn(s.claims, s.claims[i].id, s.claims[i].observed)| >= c.capacity
  {
    hide ClaimsOk, Fresh, Window, OthersIn, NoRepeats, Elements, Monotone;
    var id, start := s.claims[i].id, s.claims[i].observed;
    ClaimIdsFresh(c, s);
    RepeatNeedsEviction(ClaimIds(s.claims), c.capacity, i, j);
    var from: nat := j - c.capacity;
    var w := ClaimIds(s.claims)[from..j];
    SizeOfDistinct(w);
    forall k | 0 <= k < |w|
      ensures w[k] in OthersIn(s.claims, id, start)
    {
      Between(c, s, i, from + k, j);
      assert w[k] == s.claims[from + k].id;
      InOthers(s.claims, id, start, from + k);
    }
    hide ClaimIds;
    SequenceIn(w, OthersIn(s.claims, id, start));
    SmallerStringSet(Elements(w), OthersIn(s.claims, id, start));
  }

  lemma ClaimIdsFresh(c: Config, s: State)
    requires ClaimsOk(c, s)
    ensures Fresh(ClaimIds(s.claims), c.capacity)
  {
  }

  /** A claim between two claims of one request lies in the span of the first. */
  lemma Between(c: Config, s: State, i: nat, m: nat, j: nat)
    requires ClaimsOk(c, s) && Monotone(s.claims)
    requires i <= m <= j < |s.claims| && s.claims[i].id == s.claims[j].id
    ensures s.claims[i].observed <= s.claims[m].observed <= s.claims[i].observed + SPAN
  {
    WithinSpan(c, s, i, j);
    hide ClaimsOk;
  }

  lemma SequenceIn(w: seq<string>, a: set<string>)
    requires forall k :: 0 <= k < |w| ==> w[k] in a
    ensures Elements(w) <= a
  {
  }

  /** Two claims of one request lie within one span: it was in the acceptance window both times. */
  lemma WithinSpan(c: Config, s: State, i: nat, j: nat)
    requires ClaimsOk(c, s) && i < |s.claims| && j < |s.claims| && s.claims[i].id == s.claims[j].id
    ensures s.claims[j].observed <= s.claims[i].observed + SPAN
  {
    assert ClaimOk(c, s, s.claims[i]) && ClaimOk(c, s, s.claims[j]);
  }

  lemma SmallerStringSet(a: set<string>, b: set<string>)
    requires a <= b
    ensures |a| <= |b|
  {
    assert b == a + (b - a);
  }

  /** Whenever this id is claimed, fewer than `capacity` other requests are claimed in the span that starts there. */
  ghost predicate SparseFor(c: Config, claims: seq<Claim>, id: string) {
    forall k :: 0 <= k < |claims| && claims[k].id == id ==> |OthersIn(claims, id, claims[k].observed)| < c.capacity
  }

  /** Proved at most once per process: a request around which claims are sparse is never proved twice, whatever happens
      to other requests and at other times, and whatever the interleaving. */
  lemma ProvedAtMostOnce(c: Config, s: State, p: nat, q: nat)
    requires Reachable(c, s) && Monotone(s.claims)
    requires p < q < |s.proofs| && s.proofs[p] < |s.deliveries| && s.proofs[q] < |s.deliveries|
    requires SparseFor(c, s.claims, s.deliveries[s.proofs[p]].id)
    ensures s.deliveries[s.proofs[p]].id != s.deliveries[s.proofs[q]].id
  {
    hide Fresh, PermitsOk, ResultsOk, DeliveriesOk, Reachable, OthersIn;
    ReachableInv(c, s);
    var a, b := s.proofs[p], s.proofs[q];
    assert Claimed(s, a) && Claimed(s, b);
    var i :| 0 <= i < |s.claims| && s.claims[i].delivery == a;
    var j :| 0 <= j < |s.claims| && s.claims[j].delivery == b;
    assert ClaimOk(c, s, s.claims[i]) && ClaimOk(c, s, s.claims[j]);
    if s.deliveries[a].id == s.deliveries[b].id {
      SecondClaimNeedsEviction(c, s, if i < j then i else j, if i < j then j else i);
    }
  }

  /** In particular no request at all is proved twice when claims are sparse everywhere. */
  lemma AllProvedAtMostOnce(c: Config, s: State, p: nat, q: nat)
    requires Reachable(c, s) && Monotone(s.claims) && Sparse(c, s.claims)
    requires p < q < |s.proofs|
    ensures s.proofs[p] < |s.deliveries| && s.proofs[q] < |s.deliveries|
    ensures s.deliveries[s.proofs[p]].id != s.deliveries[s.proofs[q]].id
  {
    ReachableInv(c, s);
    assert ProofsOk(s);
    hide Inv, Reachable, OthersIn;
    ProvedAtMostOnce(c, s, p, q);
  }

  lemma ReachableInv(c: Config, s: State)
    requires Reachable(c, s)
    ensures Inv(c, s)
  {
    var steps :| Run(c, steps) == Some(s);
    InvHolds(c, steps);
  }

  // ---- both indexes must have lost it ------------------------------------

  /** Step `a` is the lookup of delivery `i`, and the completed index did not retain the id then. */
  ghost predicate MissedAt(c: Config, steps: seq<Step>, a: nat, i: nat, id: string) {
    && a < |steps| && steps[a] == Look(i) && Run(c, steps[..a]).Some?
    && Find(Window(Run(c, steps[..a]).value.inserts, c.capacity), id).None?
  }

  /** Step `b` is the claim of delivery `i`, and the dedupe index did not retain the id then. */
  ghost predicate ClaimedAt(c: Config, steps: seq<Step>, b: nat, i: nat, id: string) {
    && b < |steps| && steps[b] == TryClaim(i) && Run(c, steps[..b]).Some?
    && id !in Window(ClaimIds(Run(c, steps[..b]).value.claims), c.capacity)
  }

  /** The delivery missed the one index at its lookup and, at its later claim, the other. */
  ghost predicate MissedBoth(c: Config, steps: seq<Step>, i: nat, id: string) {
    exists a: nat, b: nat :: a < b && MissedAt(c, steps, a, i, id) && ClaimedAt(c, steps, b, i, id)
  }

  lemma MissedEarlier(c: Config, steps: seq<Step>, n: nat, i: nat, id: string)
    requires n <= |steps|
    ensures forall a: nat :: MissedAt(c, steps[..n], a, i, id) ==> MissedAt(c, steps, a, i, id)
    ensures forall b: nat :: ClaimedAt(c, steps[..n], b, i, id) ==> ClaimedAt(c, steps, b, i, id)
    ensures MissedBoth(c, steps[..n], i, id) ==> MissedBoth(c, steps, i, id)
  {
    hide Run, Find, Window, ClaimIds;
    assert forall k: nat :: k < n ==> steps[..n][..k] == steps[..k];
  }

  /** How far a delivery has come, and what it must have passed. */
  ghost predicate PastOk(c: Config, steps: seq<Step>, d: Delivery, i: nat) {
    && (d.stage.Claiming? ==> exists a: nat :: MissedAt(c, steps, a, i, d.id))
    && (HasClaimed(d.stage) ==> MissedBoth(c, steps, i, d.id))
  }

  /** What one step does to one delivery: nothing, unless it acts on it; only a missed lookup leads to the claim, and
      only a missed claim past it. */
  lemma StepOnDelivery(c: Config, s: State, step: Step, i: nat)
    requires Enabled(c, s, step) && i < |Next(c, s, step).deliveries|
    ensures
      var d' := Next(c, s, step).deliveries[i];
      if i >= |s.deliveries| then d'.stage.Looking?
      else
        var d := s.deliveries[i];
        && d'.id == d.id
        && (d'.stage.Claiming? && !d.stage.Claiming? ==>
              step == Look(i) && Find(Window(s.inserts, c.capacity), d.id).None?)
        && (HasClaimed(d'.stage) && !HasClaimed(d.stage) ==>
              step == TryClaim(i) && d.stage.Claiming? && d.id !in Window(ClaimIds(s.claims), c.capacity))
  {
    hide Find, Window, ClaimIds, Keys, InFlight;
  }

  /** In every run, a delivery that has claimed its request missed both indexes, in this order. */
  lemma {:induction false} ClaimingMissedBoth(c: Config, steps: seq<Step>, i: nat)
    requires Run(c, steps).Some? && i < |Run(c, steps).value.deliveries|
    ensures PastOk(c, steps, Run(c, steps).value.deliveries[i], i)
  {
    if steps != [] {
      var n := |steps| - 1;
      var s, step := Run(c, steps[..n]).value, steps[n];
      hide Next, Enabled, Find, Window, ClaimIds, HasClaimed, Run, MissedAt, ClaimedAt, MissedBoth;
      RunStep(c, steps);
      StepOnDelivery(c, s, step, i);
      if i < |s.deliveries| {
        ClaimingMissedBoth(c, steps[..n], i);
        MissedEarlier(c, steps, n, i, s.deliveries[i].id);
        LastStepMisses(c, steps, i, s.deliveries[i].id);
      } else {
        NotYetClaimed(Run(c, steps).value.deliveries[i].stage);
      }
    }
  }

  lemma NotYetClaimed(stage: Stage)
    requires stage.Looking?
    ensures !HasClaimed(stage)
  {
  }

  lemma RunStep(c: Config, steps: seq<Step>)
    requires steps != [] && Run(c, steps).Some?
    ensures
      var before := Run(c, steps[..|steps| - 1]);
      && before.Some? && Enabled(c, before.value, steps[|steps| - 1])
      && Run(c, steps).value == Next(c, before.value, steps[|steps| - 1])
  {
  }

  lemma LastStepMisses(c: Config, steps: seq<Step>, i: nat, id: string)
    requires steps != [] && Run(c, steps).Some? && Run(c, steps[..|steps| - 1]).Some?
    ensures
      var n := |steps| - 1;
      var s := Run(c, steps[..n]).value;
      && (steps[n] == Look(i) && Find(Window(s.inserts, c.capacity), id).None? ==> MissedAt(c, steps, n, i, id))
      && ((exists a: nat :: MissedAt(c, steps[..n], a, i, id)) ==>
            steps[n] == TryClaim(i) && id !in Window(ClaimIds(s.claims), c.capacity) ==> MissedBoth(c, steps, i, id))
  {
    hide Run, Find, Window, ClaimIds;
    var n: nat := |steps| - 1;
    var s := Run(c, steps[..n]).value;
    if steps[n] == TryClaim(i) && id !in Window(ClaimIds(s.claims), c.capacity)
       && exists a: nat :: MissedAt(c, steps[..n], a, i, id)
    {
      var a: nat :| MissedAt(c, steps[..n], a, i, id);
      MissedEarlier(c, steps, n, i, id);
      assert a < n && MissedAt(c, steps, a, i, id) && ClaimedAt(c, steps, n, i, id);
    }
  }

  /** A second proof of an id: both deliveries looked it up in vain in the completed index and later, at two different
      steps, claimed it in vain of the dedupe index. */
  lemma SecondProofMissedBoth(c: Config, steps: seq<Step>, p: nat, q: nat)
    requires Run(c, steps).Some?
    requires
      var s := Run(c, steps).value;
      && p < q < |s.proofs| && s.proofs[p] < |s.deliveries| && s.proofs[q] < |s.deliveries|
      && s.deliveries[s.proofs[p]].id == s.deliveries[s.proofs[q]].id
    ensures
      var s := Run(c, steps).value;
      var x, y, id := s.proofs[p], s.proofs[q], s.deliveries[s.proofs[q]].id;
      && x != y
      && exists a: nat, b: nat, a': nat, b': nat ::
           && a < b && MissedAt(c, steps, a, x, id) && ClaimedAt(c, steps, b, x, id)
           && a' < b' && MissedAt(c, steps, a', y, id) && ClaimedAt(c, steps, b', y, id)
           && b != b'
  {
    var s := Run(c, steps).value;
    var x, y, id := s.proofs[p], s.proofs[q], s.deliveries[s.proofs[q]].id;
    InvHolds(c, steps);
    assert ProofsOk(s);
    hide Run, Inv, MissedAt, ClaimedAt;
    ClaimingMissedBoth(c, steps, x);
    ClaimingMissedBoth(c, steps, y);
    var a: nat, b: nat :| a < b && MissedAt(c, steps, a, x, id) && ClaimedAt(c, steps, b, x, id);
    var a': nat, b': nat :| a' < b' && MissedAt(c, steps, a', y, id) && ClaimedAt(c, steps, b', y, id);
    ClaimStep(c, steps, b, x, id);
    ClaimStep(c, steps, b', y, id);
  }

  lemma ClaimStep(c: Config, steps: seq<Step>, b: nat, i: nat, id: string)
    requires ClaimedAt(c, steps, b, i, id)
    ensures b < |steps| && steps[b] == TryClaim(i)
  {
  }

  // ---- replays -----------------------------------------------------------

  /** The event a delivery returns to its relay, when it returns one. */
  function Output(d: Delivery): Option<Event> {
    match d.stage
    case Answered(event) => Some(event)
    case Replayed(event) => Some(event)
    case _ => None
  }

  ghost predicate ClaimedOnce(s: State, id: string) {
    forall j, k :: 0 <= j < |s.claims| && 0 <= k < |s.claims| && s.claims[j].id == id && s.claims[k].id == id ==> j == k
  }

  /** While an id has been claimed once, every event returned for it, first answer or replay, is the same event. */
  lemma RepliesAgree(c: Config, s: State, i: nat, j: nat)
    requires Reachable(c, s) && i < |s.deliveries| && j < |s.deliveries|
    requires s.deliveries[i].id == s.deliveries[j].id && ClaimedOnce(s, s.deliveries[i].id)
    requires Output(s.deliveries[i]).Some? && Output(s.deliveries[j]).Some?
    ensures Output(s.deliveries[i]) == Output(s.deliveries[j])
  {
    ReachableInv(c, s);
    var id := s.deliveries[i].id;
    var a := Origin(c, s, i);
    var b := Origin(c, s, j);
    assert Claimed(s, a) && Claimed(s, b);
    var x :| 0 <= x < |s.claims| && s.claims[x].delivery == a;
    var y :| 0 <= y < |s.claims| && s.claims[y].delivery == b;
    assert ClaimOk(c, s, s.claims[x]) && ClaimOk(c, s, s.claims[y]);
  }

  /** The delivery that produced an output. */
  lemma Origin(c: Config, s: State, i: nat) returns (a: nat)
    requires Inv(c, s) && i < |s.deliveries| && Output(s.deliveries[i]).Some?
    ensures a < |s.deliveries| && s.deliveries[a].id == s.deliveries[i].id
    ensures s.deliveries[a].stage == Answered(Output(s.deliveries[i]).value)
  {
    if s.deliveries[i].stage.Answered? {
      a := i;
    } else {
      assert AnsweredBy(s, s.deliveries[i].id, s.deliveries[i].stage.event);
      a :| 0 <= a < |s.deliveries| && s.deliveries[a].id == s.deliveries[i].id
           && s.deliveries[a].stage == Answered(s.deliveries[i].stage.event);
    }
  }

  lemma InsertsAfter(c: Config, s: State, step: Step)
    requires Enabled(c, s, step)
    ensures Next(c, s, step).inserts ==
      if step.Publish? && s.deliveries[step.i].id !in Window(Keys(s.inserts), c.capacity)
      then s.inserts + [(s.deliveries[step.i].id, step.event)] else s.inserts
  {
    hide Window, Keys, Find, ClaimIds;
  }

  /** No step changes a cached event: it is either still the same or evicted. */
  lemma CachedEventIsStable(c: Config, s: State, step: Step, id: string)
    requires Reachable(c, s) && Enabled(c, s, step)
    ensures
      var before := Find(Window(s.inserts, c.capacity), id);
      var after := Find(Window(Next(c, s, step).inserts, c.capacity), id);
      before.Some? && after.Some? ==> before == after
  {
    hide Window, Keys, Find, Fresh, Next, Reachable, ClaimsOk, DeliveriesOk, ProofsOk, PermitsOk;
    ReachableInv(c, s);
    InsertsAfter(c, s, step);
    if step.Publish? && s.deliveries[step.i].id !in Window(Keys(s.inserts), c.capacity) {
      RetainedResultIsStable(s.inserts, c.capacity, s.deliveries[step.i].id, step.event, id);
    }
  }

  // ---- replays -----------------------------------------------------------

  /** A delivery is replayed exactly when the completed index retains its id, with the retained event; otherwise it goes
      on to the claim. */
  lemma ReplayedIffRetained(c: Config, s: State, i: nat)
    requires At(s, i, Looking)
    ensures
      var t, id := Next(c, s, Look(i)), s.deliveries[i].id;
      && t == s.(deliveries := t.deliveries) && |t.deliveries| == |s.deliveries|
      && (if id in Window(Keys(s.inserts), c.capacity)
          then t.deliveries[i].stage.Replayed? && (id, t.deliveries[i].stage.event) in Window(s.inserts, c.capacity)
          else t.deliveries[i].stage == Claiming)
  {
    WindowOfKeys(s.inserts, c.capacity);
    var w, id := Window(s.inserts, c.capacity), s.deliveries[i].id;
    if id in Keys(w) {
      var k :| 0 <= k < |w| && Keys(w)[k] == id;
      assert w[k].0 == id;
    } else {
      FindAbsent(w, id);
    }
  }

  /** The completed index only grows at its end. */
  lemma {:induction false} InsertsGrow(c: Config, steps: seq<Step>, k: nat)
    requires k <= |steps| && Run(c, steps).Some?
    ensures Run(c, steps[..k]).Some? && Run(c, steps[..k]).value.inserts <= Run(c, steps).value.inserts
  {
    hide Next, Enabled, Run, Window, Keys;
    if k < |steps| {
      var n := |steps| - 1;
      RunStep(c, steps);
      InsertsAfter(c, Run(c, steps[..n]).value, steps[n]);
      InsertsGrow(c, steps[..n], k);
      assert steps[..n][..k] == steps[..k];
    } else {
      assert steps[..k] == steps;
    }
  }

  /** The first answer to an id is what every later delivery of that id gets, unproved, until as many other results as
      the index holds have been inserted after it: whatever happens in between. */
  lemma AnswerIsReplayed(c: Config, steps: seq<Step>, n: nat, i: nat, event: Event, j: nat)
    requires n < |steps| && steps[n] == Publish(i, event) && Run(c, steps).Some?
    requires Run(c, steps[..n]).Some? && At(Run(c, steps[..n]).value, i, Publishing)
    requires
      var s, u := Run(c, steps[..n]).value, Run(c, steps).value;
      && s.deliveries[i].id !in Window(Keys(s.inserts), c.capacity)
      && At(u, j, Looking) && u.deliveries[j].id == s.deliveries[i].id
      && |u.inserts| - |s.inserts| <= c.capacity
    ensures
      var u := Run(c, steps).value;
      Next(c, u, Look(j)) == u.(deliveries := u.deliveries[j := u.deliveries[j].(stage := Replayed(event))])
  {
    var s, u := Run(c, steps[..n]).value, Run(c, steps).value;
    var id, m := s.deliveries[i].id, |s.inserts|;
    InsertsGrow(c, steps, n + 1);
    assert steps[..n + 1][..n] == steps[..n];
    RunStep(c, steps[..n + 1]);
    hide Run, Next, Enabled, Keys, Find, Window, Fresh, ClaimsOk, DeliveriesOk, ProofsOk, PermitsOk;
    InsertsAfter(c, s, Publish(i, event));
    assert u.inserts[m] == (id, event);
    assert Reachable(c, u);
    ReachableInv(c, u);
    RetainedIsFound(u.inserts, c.capacity, m);
    LookFinds(c, u, j, event);
  }

  lemma RetainedIsFound(inserts: seq<(string, Event)>, capacity: nat, m: nat)
    requires Fresh(Keys(inserts), capacity) && m < |inserts| <= m + capacity
    ensures Find(Window(inserts, capacity), inserts[m].0) == Some(inserts[m].1)
  {
    var w := Window(inserts, capacity);
    assert w[m - (|inserts| - |w|)] == inserts[m];
    WindowOfKeys(inserts, capacity);
    WindowDistinct(Keys(inserts), capacity);
    hide Window, Keys, Find, Fresh;
    FindEntry(w, inserts[m]);
  }

  lemma LookFinds(c: Config, u: State, j: nat, event: Event)
    requires At(u, j, Looking) && Find(Window(u.inserts, c.capacity), u.deliveries[j].id) == Some(event)
    ensures
      Next(c, u, Look(j)) == u.(deliveries := u.deliveries[j := u.deliveries[j].(stage := Replayed(event))])
  {
    hide Window, Find;
  }

  // ---- what is let in, and what is not -----------------------------------

  /** A claimed delivery is proved if fewer than `provingSlots` deliveries are being proved, and is refused a proof
      exactly when that many are; nothing else decides. */
  lemma ProvedUnlessFull(c: Config, s: State, i: nat)
    requires Reachable(c, s) && At(s, i, Starting)
    ensures |AtProver(s)| <= c.provingSlots
    ensures
      var t := Next(c, s, TryStart(i));
      if |AtProver(s)| < c.provingSlots
      then t.deliveries[i].stage == Proving && t.proofs == s.proofs + [i]
      else t.deliveries[i].stage == Publishing && t.proofs == s.proofs
  {
    ReachableInv(c, s);
    assert PermitsOk(c, s);
    hide Inv, Reachable, AtProver, InFlight;
  }

  /** An authenticated request in its window is taken in exactly when fewer than 64 deliveries hold a slot. */
  lemma TakenInUnlessFull(c: Config, s: State, id: string, observed: int)
    requires Reachable(c, s) && Wire.InWindow(c.createdAt(id), observed)
    ensures Enabled(c, s, Deliver(id, observed)) <==> |InFlight(s)| < 64
    ensures |InFlight(s)| <= 64
  {
    ReachableInv(c, s);
    assert PermitsOk(c, s);
    hide Inv, Reachable, AtProver, InFlight;
  }

  // ---- every slot comes back ---------------------------------------------

  /** A delivery that was ignored or dropped has given its slot back. */
  ghost predicate GoneHoldNothing(s: State) {
    forall i :: 0 <= i < |s.deliveries| && (s.deliveries[i].stage.Ignored? || s.deliveries[i].stage.Dropped?) ==>
      !s.deliveries[i].holdsSlot
  }

  lemma StepGoneHoldNothing(c: Config, s: State, step: Step)
    requires GoneHoldNothing(s) && Enabled(c, s, step)
    ensures GoneHoldNothing(Next(c, s, step))
  {
    hide Window, Find, Keys, ClaimIds, InFlight;
  }

  lemma {:induction false} RunGoneHoldNothing(c: Config, steps: seq<Step>)
    requires Run(c, steps).Some?
    ensures GoneHoldNothing(Run(c, steps).value)
  {
    if steps != [] {
      RunStep(c, steps);
      RunGoneHoldNothing(c, steps[..|steps| - 1]);
      hide Run, Next, Enabled, GoneHoldNothing;
      StepGoneHoldNothing(c, Run(c, steps[..|steps| - 1]).value, steps[|steps| - 1]);
    }
  }

  /** How many of its own steps a delivery may still need to give its slot back. */
  function StepsLeft(d: Delivery): nat {
    match d.stage
    case Looking => 6
    case Claiming => 5
    case Starting => 4
    case Proving => 3
    case Publishing => 2
    case _ => 1
  }

  /** The step that a delivery takes next, whose answer is to be `event`. */
  function NextOf(d: Delivery, i: nat, event: Event): Step {
    match d.stage
    case Looking => Look(i)
    case Claiming => TryClaim(i)
    case Starting => TryStart(i)
    case Proving => FinishProof(i)
    case Publishing => Publish(i, event)
    case _ => Offered(i)
  }

  /** A delivery with a slot can always take its next step, which waits for no other delivery; it then needs fewer, or
      has given its slot back. */
  lemma SlotHolderMoves(c: Config, s: State, i: nat, event: Event)
    requires i < |s.deliveries| && s.deliveries[i].holdsSlot
    requires PermitsOk(c, s) && GoneHoldNothing(s)
    ensures
      var step := NextOf(s.deliveries[i], i, event);
      && Enabled(c, s, step)
      && var t := Next(c, s, step);
         && i < |t.deliveries| == |s.deliveries|
         && (forall k :: 0 <= k < |s.deliveries| && k != i ==> t.deliveries[k] == s.deliveries[k])
         && (if t.deliveries[i].holdsSlot
             then StepsLeft(t.deliveries[i]) < StepsLeft(s.deliveries[i]) && t.slots == s.slots
             else t.slots == s.slots - 1)
  {
    hide Window, Find, Keys, ClaimIds;
    SomeInFlight(s, i);
  }

  lemma SomeInFlight(s: State, i: nat)
    requires i < |s.deliveries| && s.deliveries[i].holdsSlot
    ensures |InFlight(s)| > 0
  {
    assert i in InFlight(s);
  }

  /** From every reachable state, each delivery that holds a slot can give it back by at most six steps of its own,
      whatever the others are doing: the intake never wedges. */
  lemma SlotComesBack(c: Config, steps: seq<Step>, s: State, i: nat, event: Event)
    returns (more: seq<Step>, t: State)
    requires Run(c, steps) == Some(s) && i < |s.deliveries| && s.deliveries[i].holdsSlot
    ensures |steps| < |more| <= |steps| + 6 && more[..|steps|] == steps && Run(c, more) == Some(t)
    ensures forall k :: |steps| <= k < |more| ==> !more[k].Deliver? && more[k].i == i
    ensures |t.deliveries| == |s.deliveries| && !t.deliveries[i].holdsSlot && t.slots == s.slots - 1
    ensures forall k :: 0 <= k < |s.deliveries| && k != i ==> t.deliveries[k] == s.deliveries[k]
  {
    more, t := steps, s;
    hide Run, Next, Enabled, Inv, PermitsOk, GoneHoldNothing;
    while t.deliveries[i].holdsSlot
      invariant Run(c, more) == Some(t) && |steps| <= |more| && more[..|steps|] == steps
      invariant |t.deliveries| == |s.deliveries|
      invariant t.slots == if t.deliveries[i].holdsSlot then s.slots else s.slots - 1
      invariant |more| + (if t.deliveries[i].holdsSlot then StepsLeft(t.deliveries[i]) else 0) <= |steps| + 6
      invariant t.deliveries[i].holdsSlot || |more| > |steps|
      invariant forall k :: |steps| <= k < |more| ==> !more[k].Deliver? && more[k].i == i
      invariant forall k :: 0 <= k < |s.deliveries| && k != i ==> t.deliveries[k] == s.deliveries[k]
      decreases t.deliveries[i].holdsSlot, StepsLeft(t.deliveries[i])
    {
      RunPermits(c, more);
      RunGoneHoldNothing(c, more);
      var step := NextOf(t.deliveries[i], i, event);
      SlotHolderMoves(c, t, i, event);
      Extend(c, more, t, step);
      more := more + [step];
      t := Next(c, t, step);
    }
  }

  lemma RunPermits(c: Config, steps: seq<Step>)
    requires Run(c, steps).Some?
    ensures PermitsOk(c, Run(c, steps).value)
  {
    InvHolds(c, steps);
    hide Run;
  }

  /** A delivery whose answer cannot be signed is dropped, and gives its slot back. */
  lemma AbandonedGivesBack(c: Config, s: State, i: nat)
    requires PermitsOk(c, s) && At(s, i, Publishing)
    ensures
      var t := Next(c, s, Abandon(i));
      && t.deliveries == s.deliveries[i := s.deliveries[i].(stage := Dropped, holdsSlot := false)]
      && t.slots == s.slots - 1 && t.claims == s.claims && t.inserts == s.inserts
  {
    SomeInFlight(s, i);
  }

  // ---- the bound is real -------------------------------------------------

  /** A dispatch slot and a proving permit are free. */
  predicate HasRoom(c: Config, s: State) {
    s.slots < MAX_INFLIGHT_EVENTS && s.permits < c.provingSlots
  }

  /** One delivery handled alone. */
  function Alone(n: nat, id: string, observed: int, event: Event): seq<Step> {
    [Deliver(id, observed), Look(n), TryClaim(n), TryStart(n), FinishProof(n), Publish(n, event), Offered(n)]
  }

  lemma Extend(c: Config, steps: seq<Step>, s: State, step: Step)
    requires Run(c, steps) == Some(s) && Enabled(c, s, step)
    ensures Run(c, steps + [step]) == Some(Next(c, s, step))
  {
    assert (steps + [step])[..|steps|] == steps;
  }

  /** From any state with room, whatever else is in flight, an id retained by neither index can be claimed and proved,
      however often it was before. */
  lemma UnretainedIsProved(c: Config, steps: seq<Step>, s: State, id: string, observed: int, event: Event)
    returns (more: seq<Step>, t: State)
    requires Run(c, steps) == Some(s) && HasRoom(c, s)
    requires Wire.InWindow(c.createdAt(id), observed)
    requires id !in Window(Keys(s.inserts), c.capacity) && id !in Window(ClaimIds(s.claims), c.capacity)
    ensures Run(c, more) == Some(t)
    ensures t.permits == s.permits && t.slots == s.slots
    ensures t.deliveries == s.deliveries + [Delivery(id, observed, Answered(event), false)]
    ensures t.proofs == s.proofs + [|s.deliveries|]
    ensures t.claims == s.claims + [Claim(id, observed, |s.deliveries|)]
    ensures t.inserts == s.inserts + [(id, event)]
  {
    var n := |s.deliveries|;
    WindowOfKeys(s.inserts, c.capacity);
    FindAbsent(Window(s.inserts, c.capacity), id);
    t := s;
    more := steps;
    var plan := Alone(n, id, observed, event);
    for k := 0 to |plan|
      invariant Run(c, more) == Some(t)
      invariant t == AloneAfter(s, id, observed, event, k)
    {
      AloneStep(c, s, id, observed, event, k);
      hide AloneAfter, Enabled, Next;
      Extend(c, more, t, plan[k]);
      more := more + [plan[k]];
      t := Next(c, t, plan[k]);
    }
  }

  /** The state `k` steps into one delivery handled alone. */
  function AloneAfter(s: State, id: string, observed: int, event: Event, k: nat): State {
    if k == 0 then s
    else
      State(
        s.deliveries + [Delivery(id, observed, StageAfter(k, event), k < 7)],
        if k >= 3 then s.claims + [Claim(id, observed, |s.deliveries|)] else s.claims,
        if k >= 4 then s.proofs + [|s.deliveries|] else s.proofs,
        if k >= 6 then s.inserts + [(id, event)] else s.inserts,
        if k == 4 then s.permits + 1 else s.permits,
        if k < 7 then s.slots + 1 else s.slots)
  }

  lemma AloneStep(c: Config, s: State, id: string, observed: int, event: Event, k: nat)
    requires HasRoom(c, s) && Wire.InWindow(c.createdAt(id), observed) && k < 7
    requires id !in Window(Keys(s.inserts), c.capacity) && id !in Window(ClaimIds(s.claims), c.capacity)
    requires Find(Window(s.inserts, c.capacity), id) == None
    ensures
      var t, step := AloneAfter(s, id, observed, event, k), Alone(|s.deliveries|, id, observed, event)[k];
      Enabled(c, t, step) && Next(c, t, step) == AloneAfter(s, id, observed, event, k + 1)
  {
    hide Window, Keys, ClaimIds, Find, InFlight;
    var t := AloneAfter(s, id, observed, event, k);
    var moved := Delivery(id, observed, StageAfter(k + 1, event), k + 1 < 7);
    assert k > 0 ==> t.deliveries[|s.deliveries| := moved] == s.deliveries + [moved];
  }

  function StageAfter(k: nat, event: Event): Stage {
    match k
    case 1 => Looking
    case 2 => Claiming
    case 3 => Starting
    case 4 => Proving
    case 5 => Publishing
    case _ => Answered(event)
  }

  /** One of many request ids. */
  function Name(k: nat): (id: string)
    ensures |id| == k
  {
    seq(k, i => 'a')
  }

  /** The claims and insertions of `Name(0)`, ..., `Name(k - 1)`, handled one after the other at time 0. */
  function NamedClaims(k: nat): (claims: seq<Claim>)
    ensures |claims| == k && forall i :: 0 <= i < k ==> claims[i] == Claim(Name(i), 0, i)
  {
    seq(k, i requires 0 <= i < k => Claim(Name(i), 0, i))
  }

  function NamedInserts(k: nat, event: Event): (inserts: seq<(string, Event)>)
    ensures |inserts| == k && forall i :: 0 <= i < k ==> inserts[i] == (Name(i), event)
  {
    seq(k, i requires 0 <= i < k => (Name(i), event))
  }

  ghost predicate Served(s: State, k: nat, event: Event) {
    && s.slots == 0 && s.permits == 0 && |s.deliveries| == k && |s.proofs| == k
    && (forall i :: 0 <= i < k ==> s.deliveries[i].id == Name(i) && s.proofs[i] == i)
    && s.claims == NamedClaims(k) && s.inserts == NamedInserts(k, event)
  }

  /** A name is outside both windows before its turn, and again once `capacity` others have had theirs. */
  lemma NameIsUnretained(s: State, k: nat, event: Event, j: nat, capacity: nat)
    requires Served(s, k, event) && (j == k || j + capacity < k)
    ensures Name(j) !in Window(Keys(s.inserts), capacity) && Name(j) !in Window(ClaimIds(s.claims), capacity)
  {
    var keys, ids := Keys(s.inserts), ClaimIds(s.claims);
    forall m | 0 <= m < |Window(keys, capacity)|
      ensures |Window(keys, capacity)[m]| != j && |Window(ids, capacity)[m]| != j
    {
      WindowAt(keys, capacity, m);
      WindowAt(ids, capacity, m);
    }
  }

  lemma {:induction false} ServesAll(c: Config, k: nat, event: Event) returns (steps: seq<Step>, s: State)
    requires c.provingSlots > 0 && forall id :: c.createdAt(id) == 0
    ensures Run(c, steps) == Some(s) && Served(s, k, event)
  {
    if k == 0 {
      return [], START;
    }
    var before, t := ServesAll(c, k - 1, event);
    NameIsUnretained(t, k - 1, event, k - 1, c.capacity);
    StartsQuiet(t, k - 1, event);
    hide Run, Window, Keys, ClaimIds, Served;
    assert Wire.InWindow(c.createdAt(Name(k - 1)), 0);
    steps, s := UnretainedIsProved(c, before, t, Name(k - 1), 0, event);
    ServedExtends(t, s, k - 1, event);
  }

  lemma StartsQuiet(s: State, k: nat, event: Event)
    requires Served(s, k, event)
    ensures s.slots == 0 && s.permits == 0 && |s.deliveries| == k
  {
  }

  lemma ServedExtends(t: State, s: State, k: nat, event: Event)
    requires Served(t, k, event) && s.slots == 0 && s.permits == 0
    requires s.deliveries == t.deliveries + [Delivery(Name(k), 0, Answered(event), false)]
    requires s.proofs == t.proofs + [k] && s.claims == t.claims + [Claim(Name(k), 0, k)]
    requires s.inserts == t.inserts + [(Name(k), event)]
    ensures Served(s, k + 1, event)
  {
    assert s.claims == NamedClaims(k + 1);
    assert s.inserts == NamedInserts(k + 1, event);
  }

  /** "A duplicate delivery cannot trigger a second proof" fails, at every capacity, as soon as `capacity` other
      requests have come between, and no sooner: here `capacity` others are claimed at one instant. So the bound is
      exact. */
  lemma EvictedIsProvedTwice(n: nat, event: Event)
    requires n > 0
    ensures exists c: Config, s: State ::
      && c.capacity == n && Reachable(c, s) && Monotone(s.claims)
      && |s.claims| == |s.proofs| == |s.deliveries| == n + 2
      && s.proofs[0] < n + 2 && s.proofs[n + 1] < n + 2
      && s.deliveries[s.proofs[0]].id == s.deliveries[s.proofs[n + 1]].id
      && |OthersIn(s.claims, s.deliveries[s.proofs[0]].id, 0)| == n
  {
    var c := Config(n, 1, (id: string) => 0);
    var before, t := ServesAll(c, n + 1, event);
    NameIsUnretained(t, n + 1, event, 0, n);
    hide Run, Window, Keys, ClaimIds;
    var steps, s := UnretainedIsProved(c, before, t, Name(0), 0, event);
    assert Reachable(c, s);
    CountsOthers(s.claims, n);
  }

  lemma CountsOthers(claims: seq<Claim>, n: nat)
    requires claims == NamedClaims(n + 1) + [Claim(Name(0), 0, n + 1)]
    ensures |OthersIn(claims, Name(0), 0)| == n
  {
    var names := seq(n, i requires 0 <= i < n => Name(i + 1));
    assert forall i :: 0 <= i < n ==> names[i] == Name(i + 1) && |names[i]| == i + 1;
    SizeOfDistinct(names);
    var others := OthersIn(claims, Name(0), 0);
    forall x | x in others
      ensures x in Elements(names)
    {
      var k :| 0 <= k < |claims| && claims[k].id != Name(0) && claims[k].id == x;
      assert x == names[k - 1];
    }
    forall x | x in Elements(names)
      ensures x in others
    {
      var i :| 0 <= i < n && names[i] == x;
      InOthers(claims, Name(0), 0, i + 1);
    }
    assert others == Elements(names);
  }
}
