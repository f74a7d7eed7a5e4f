/** Request intake as a concurrent step machine: apps/provider/src/nostr/handler.rs and the permits of processor.rs.

    Every critical section is one step, and any number of deliveries interleave. The lookup in the completed index
    and the claim are two steps. A delivery that fails to parse gives its slot back and leaves no trace, so it is
    not represented. */
module Intake {
  import opened Wrappers
  import opened Fifo
  import opened Caches
  import opened Events
  import opened Wire

  const MAX_INFLIGHT_EVENTS: nat := 64

  /** `createdAt` is a function of the id: event ids determine events. */
  datatype Config = Config(capacity: nat, provingSlots: nat, createdAt: string -> int)

  datatype Stage =
    | Looking
    | Claiming
    | Starting
    | Proving
    | Publishing
    | Replayed(event: Event)
    | Ignored
    | Answered(event: Event)
    | Dropped

  /** One delivery of an authenticated request, seen at `observed`. It keeps its dispatch slot until it has been ignored
      or dropped, or its answer has been offered to the relays. */
  datatype Delivery = Delivery(id: string, observed: int, stage: Stage, holdsSlot: bool)

  datatype Claim = Claim(id: string, observed: int, delivery: nat)

  datatype State = State(
    deliveries: seq<Delivery>,
    claims: seq<Claim>,              // successful claims, in order
    proofs: seq<nat>,                // the delivery behind each `prove_job` call, in order
    inserts: seq<(string, Event)>,   // effective insertions into the completed index, in order
    permits: nat,                    // proving permits taken
    slots: nat)                      // dispatch slots taken

  const START := State([], [], [], [], 0, 0)

  function ClaimIds(claims: seq<Claim>): (ids: seq<string>)
    ensures |ids| == |claims|
    ensures forall i :: 0 <= i < |claims| ==> ids[i] == claims[i].id
  {
    seq(|claims|, i requires 0 <= i < |claims| => claims[i].id)
  }

  predicate Active(d: Delivery) {
    d.stage.Looking? || d.stage.Claiming? || d.stage.Starting? || d.stage.Proving? || d.stage.Publishing?
  }

  function InFlight(s: State): set<nat> {
    set i: nat | i < |s.deliveries| && s.deliveries[i].holdsSlot
  }

  function AtProver(s: State): set<nat> {
    set i: nat | i < |s.deliveries| && s.deliveries[i].stage.Proving?
  }

  function Move(s: State, i: nat, stage: Stage): State
    requires i < |s.deliveries|
  {
    s.(deliveries := s.deliveries[i := s.deliveries[i].(stage := stage)])
  }

  /** The end of a delivery: its slot is given back. */
  function Leave(s: State, i: nat, stage: Stage): State
    requires i < |s.deliveries|
  {
    s.(deliveries := s.deliveries[i := s.deliveries[i].(stage := stage, holdsSlot := false)],
       slots := if s.slots > 0 then s.slots - 1 else 0)
  }

  // ---- steps -------------------------------------------------------------

  datatype Step =
    | Deliver(id: string, observed: int)
    | Look(i: nat)
    | TryClaim(i: nat)
    | TryStart(i: nat)
    | FinishProof(i: nat)
    | Publish(i: nat, event: Event)
    | Abandon(i: nat)
    | Offered(i: nat)

  /** Where a step applies to delivery `i`, at stage `stage`. */
  predicate At(s: State, i: nat, stage: Stage) {
    i < |s.deliveries| && s.deliveries[i].stage == stage
  }

  predicate Enabled(c: Config, s: State, step: Step) {
    match step
    case Deliver(id, observed) => s.slots < MAX_INFLIGHT_EVENTS && InWindow(c.createdAt(id), observed)
    case Look(i) => At(s, i, Looking)
    case TryClaim(i) => At(s, i, Claiming)
    case TryStart(i) => At(s, i, Starting)
    case FinishProof(i) => At(s, i, Proving)
    case Publish(i, _) => At(s, i, Publishing)
    case Abandon(i) => At(s, i, Publishing)
    case Offered(i) =>
      && i < |s.deliveries| && s.deliveries[i].holdsSlot
      && (s.deliveries[i].stage.Replayed? || s.deliveries[i].stage.Answered?)
  }

  function Next(c: Config, s: State, step: Step): State
    requires Enabled(c, s, step)
  {
    match step
    case Deliver(id, observed) =>
      s.(deliveries := s.deliveries + [Delivery(id, observed, Looking, true)], slots := s.slots + 1)
    case Look(i) =>
      (match Find(Window(s.inserts, c.capacity), s.deliveries[i].id)
       case Some(event) => Move(s, i, Replayed(event))
       case None => Move(s, i, Claiming))
    case TryClaim(i) =>
      var d := s.deliveries[i];
      if d.id in Window(ClaimIds(s.claims), c.capacity) then Leave(s, i, Ignored)
      else Move(s, i, Starting).(claims := s.claims + [Claim(d.id, d.observed, i)])
    case TryStart(i) =>
      if s.permits < c.provingSlots
      then Move(s, i, Proving).(permits := s.permits + 1, proofs := s.proofs + [i])
      else Move(s, i, Publishing)
    case FinishProof(i) =>
      Move(s, i, Publishing).(permits := if s.permits > 0 then s.permits - 1 else 0)
    case Publish(i, event) =>
      var id := s.deliveries[i].id;
      var stays := id in Window(Keys(s.inserts), c.capacity);
      Move(s, i, Answered(event)).(inserts := if stays then s.inserts else s.inserts + [(id, event)])
    case Abandon(i) =>
      Leave(s, i, Dropped)
    case Offered(i) =>
      Leave(s, i, s.deliveries[i].stage)
  }

  /** The state a list of steps leads to, when each is enabled in turn. */
  function Run(c: Config, steps: seq<Step>): Option<State> {
    if steps == [] then Some(START)
    else
      match Run(c, steps[..|steps| - 1])
      case None => None
      case Some(s) =>
        var step := steps[|steps| - 1];
        if Enabled(c, s, step) then Some(Next(c, s, step)) else None
  }

  ghost predicate Reachable(c: Config, s: State) {
    exists steps :: Run(c, steps) == Some(s)
  }

  // ---- what every step keeps ---------------------------------------------

  predicate HasClaimed(stage: Stage) {
    stage.Starting? || stage.Proving? || stage.Publishing? || stage.Answered? || stage.Dropped?
  }

  /** Claims are fresh, and are exactly those of the deliveries past the claim, one each. */
  ghost predicate ClaimsOk(c: Config, s: State) {
    && Fresh(ClaimIds(s.claims), c.capacity)
    && (forall k :: 0 <= k < |s.claims| ==> ClaimOk(c, s, s.claims[k]))
    && (forall j, k :: 0 <= j < k < |s.claims| ==> s.claims[j].delivery != s.claims[k].delivery)
    && (forall i :: 0 <= i < |s.deliveries| && HasClaimed(s.deliveries[i].stage) ==> Claimed(s, i))
  }

  ghost predicate ClaimOk(c: Config, s: State, claim: Claim) {
    && claim.delivery < |s.deliveries|
    && HasClaimed(s.deliveries[claim.delivery].stage)
    && s.deliveries[claim.delivery].id == claim.id
    && s.deliveries[claim.delivery].observed == claim.observed
    && InWindow(c.createdAt(claim.id), claim.observed)
  }

  ghost predicate Claimed(s: State, i: nat) {
    exists k :: 0 <= k < |s.claims| && s.claims[k].delivery == i
  }

  ghost predicate DeliveriesOk(c: Config, s: State) {
    forall i :: 0 <= i < |s.deliveries| ==> InWindow(c.createdAt(s.deliveries[i].id), s.deliveries[i].observed)
  }

  /** A delivery proves at most once, after its claim. */
  ghost predicate ProofsOk(s: State) {
    && NoRepeats(s.proofs)
    && forall p :: 0 <= p < |s.proofs| ==>
         && s.proofs[p] < |s.deliveries|
         && HasClaimed(s.deliveries[s.proofs[p]].stage) && !s.deliveries[s.proofs[p]].stage.Starting?
  }

  /** Everything in the completed index was the answer of some delivery of that id, and replays come from it. */
  ghost predicate ResultsOk(c: Config, s: State) {
    && Fresh(Keys(s.inserts), c.capacity)
    && (forall k :: 0 <= k < |s.inserts| ==> AnsweredBy(s, s.inserts[k].0, s.inserts[k].1))
    && (forall i :: 0 <= i < |s.deliveries| && s.deliveries[i].stage.Replayed? ==>
          AnsweredBy(s, s.deliveries[i].id, s.deliveries[i].stage.event))
  }

  ghost predicate AnsweredBy(s: State, id: string, event: Event) {
    exists i :: 0 <= i < |s.deliveries| && s.deliveries[i].id == id && s.deliveries[i].stage == Answered(event)
  }

  /** Nothing leaks: as many proving permits are taken as deliveries are proving, and as many dispatch slots as
      deliveries hold one; every delivery at work holds one; and the two bounds hold. */
  ghost predicate PermitsOk(c: Config, s: State) {
    && s.permits == |AtProver(s)| <= c.provingSlots
    && s.slots == |InFlight(s)| <= MAX_INFLIGHT_EVENTS
    && forall i :: 0 <= i < |s.deliveries| && Active(s.deliveries[i]) ==> s.deliveries[i].holdsSlot
  }

  ghost predicate Inv(c: Config, s: State) {
    ClaimsOk(c, s) && DeliveriesOk(c, s) && ProofsOk(s) && ResultsOk(c, s) && PermitsOk(c, s)
  }

  /** Steps that claim nothing only move deliveries forward. */
  predicate MovesOn(s: State, s': State) {
    && s'.claims == s.claims && |s.deliveries| <= |s'.deliveries|
    && (forall i :: 0 <= i < |s.deliveries| ==>
          && s'.deliveries[i].id == s.deliveries[i].id && s'.deliveries[i].observed == s.deliveries[i].observed
          && HasClaimed(s'.deliveries[i].stage) == HasClaimed(s.deliveries[i].stage))
    && (forall i :: |s.deliveries| <= i < |s'.deliveries| ==> !HasClaimed(s'.deliveries[i].stage))
  }

  lemma MovingKeepsClaims(c: Config, s: State, s': State)
    requires ClaimsOk(c, s) && MovesOn(s, s')
    ensures ClaimsOk(c, s')
  {
    forall k | 0 <= k < |s'.claims| ensures ClaimOk(c, s', s'.claims[k]) {
      assert ClaimOk(c, s, s.claims[k]);
    }
    forall i | 0 <= i < |s'.deliveries| && HasClaimed(s'.deliveries[i].stage) ensures Claimed(s', i) {
      assert Claimed(s, i);
      var k :| 0 <= k < |s.claims| && s.claims[k].delivery == i;
      assert s'.claims[k].delivery == i;
    }
  }

  lemma OtherStepsMoveOn(c: Config, s: State, step: Step)
    requires Enabled(c, s, step)
    requires !(step.TryClaim? && Next(c, s, step).claims != s.claims)
    ensures MovesOn(s, Next(c, s, step))
  {
    hide Window, Find;
  }

  /** What a successful claim changes. */
  predicate Claims(s: State, s': State, i: nat) {
    && i < |s.deliveries| && s.deliveries[i].stage.Claiming?
    && s'.deliveries == s.deliveries[i := s.deliveries[i].(stage := Starting)]
    && s'.claims == s.claims + [Claim(s.deliveries[i].id, s.deliveries[i].observed, i)]
  }

  lemma ClaimingKeepsClaims(c: Config, s: State, s': State, i: nat)
    requires ClaimsOk(c, s) && DeliveriesOk(c, s) && Claims(s, s', i)
    requires Fresh(ClaimIds(s'.claims), c.capacity)
    ensures ClaimsOk(c, s')
  {
    hide Fresh, InWindow;
    forall k | 0 <= k < |s'.claims| ensures ClaimOk(c, s', s'.claims[k]) {
      if k < |s.claims| { assert ClaimOk(c, s, s.claims[k]); }
    }
    forall j | 0 <= j < |s'.deliveries| && HasClaimed(s'.deliveries[j].stage) ensures Claimed(s', j) {
      if j == i {
        assert s'.claims[|s.claims|].delivery == i;
      } else {
        assert Claimed(s, j);
        var k :| 0 <= k < |s.claims| && s.claims[k].delivery == j;
        assert s'.claims[k].delivery == j;
      }
    }
  }

  lemma ClaimKeepsClaims(c: Config, s: State, i: nat)
    requires ClaimsOk(c, s) && DeliveriesOk(c, s) && Enabled(c, s, TryClaim(i))
    requires s.deliveries[i].id !in Window(ClaimIds(s.claims), c.capacity)
    ensures ClaimsOk(c, Next(c, s, TryClaim(i)))
  {
    var s' := Next(c, s, TryClaim(i));
    assert Claims(s, s', i);
    hide Next, DeliveriesOk, Window;
    FreshExtends(ClaimIds(s.claims), c.capacity, s.deliveries[i].id);
    assert ClaimIds(s'.claims) == ClaimIds(s.claims) + [s.deliveries[i].id];
    ClaimingKeepsClaims(c, s, s', i);
  }

  lemma ClaimsKept(c: Config, s: State, step: Step)
    requires ClaimsOk(c, s) && DeliveriesOk(c, s) && Enabled(c, s, step)
    ensures ClaimsOk(c, Next(c, s, step))
  {
    if step.TryClaim? && s.deliveries[step.i].id !in Window(ClaimIds(s.claims), c.capacity) {
      ClaimKeepsClaims(c, s, step.i);
    } else {
      assert Next(c, s, step).claims == s.claims;
      hide ClaimsOk, DeliveriesOk, Next, Window;
      OtherStepsMoveOn(c, s, step);
      MovingKeepsClaims(c, s, Next(c, s, step));
    }
  }

  lemma DeliveriesKept(c: Config, s: State, step: Step)
    requires DeliveriesOk(c, s) && Enabled(c, s, step)
    ensures DeliveriesOk(c, Next(c, s, step))
  {
    hide Window, Find;
  }

  lemma ProofsKept(c: Config, s: State, step: Step)
    requires ProofsOk(s) && Enabled(c, s, step)
    ensures ProofsOk(Next(c, s, step))
  {
    hide Window, Find;
  }

  lemma ResultsKept(c: Config, s: State, step: Step)
    requires ResultsOk(c, s) && Enabled(c, s, step)
    ensures ResultsOk(c, Next(c, s, step))
  {
    hide Fresh, Window, Find;
    var s' := Next(c, s, step);
    forall id, event | AnsweredBy(s, id, event) ensures AnsweredBy(s', id, event) {
      var i :| 0 <= i < |s.deliveries| && s.deliveries[i].id == id && s.deliveries[i].stage == Answered(event);
      assert s'.deliveries[i].id == id && s'.deliveries[i].stage == Answered(event);
    }
    if step.Publish? {
      assert s'.deliveries[step.i].stage == Answered(step.event);
      if |s'.inserts| > |s.inserts| {
        FreshExtends(Keys(s.inserts), c.capacity, s.deliveries[step.i].id);
        PushedKeys(s.inserts, s.deliveries[step.i].id, step.event);
      }
    } else if step.Look? && s'.deliveries[step.i].stage.Replayed? {
      RetainedWasInserted(s.inserts, c.capacity, s.deliveries[step.i].id);
    }
  }

  lemma RetainedWasInserted(inserts: seq<(string, Event)>, capacity: nat, id: string)
    requires Find(Window(inserts, capacity), id).Some?
    ensures (id, Find(Window(inserts, capacity), id).value) in inserts
  {
  }

  /** How a step that acts on one delivery changes the two sets that the semaphores count. */
  lemma MovedSets(s: State, t: State, i: nat)
    requires i < |s.deliveries| && |t.deliveries| == |s.deliveries|
    requires forall k :: 0 <= k < |s.deliveries| && k != i ==> t.deliveries[k] == s.deliveries[k]
    ensures AtProver(t) == if t.deliveries[i].stage.Proving? then AtProver(s) + {i} else AtProver(s) - {i}
    ensures InFlight(t) == if t.deliveries[i].holdsSlot then InFlight(s) + {i} else InFlight(s) - {i}
    ensures i in AtProver(s) <==> s.deliveries[i].stage.Proving?
    ensures i in InFlight(s) <==> s.deliveries[i].holdsSlot
  {
  }

  lemma OneFewer(a: set<nat>, i: nat)
    ensures |a - {i}| == if i in a then |a| - 1 else |a|
    ensures |a + {i}| == if i in a then |a| else |a| + 1
  {
    if i in a {
      assert a + {i} == a;
    } else {
      assert a - {i} == a;
    }
  }

  lemma DeliverKeepsPermits(c: Config, s: State, id: string, observed: int)
    requires PermitsOk(c, s) && Enabled(c, s, Deliver(id, observed))
    ensures PermitsOk(c, Next(c, s, Deliver(id, observed)))
  {
    var s' := Next(c, s, Deliver(id, observed));
    assert AtProver(s') == AtProver(s);
    assert InFlight(s') == InFlight(s) + {|s.deliveries|};
  }

  /** What a step on one delivery does to its stage, its slot and the two counters. */
  lemma StepCounts(c: Config, s: State, step: Step)
    requires Enabled(c, s, step) && !step.Deliver?
    ensures
      var t, i := Next(c, s, step), step.i;
      && i < |s.deliveries| && |t.deliveries| == |s.deliveries|
      && (forall k :: 0 <= k < |s.deliveries| && k != i ==> t.deliveries[k] == s.deliveries[k])
      && (Active(t.deliveries[i]) ==> Active(s.deliveries[i]))
      && (t.deliveries[i].holdsSlot ==> s.deliveries[i].holdsSlot)
      && (Active(t.deliveries[i]) ==> t.deliveries[i].holdsSlot == s.deliveries[i].holdsSlot)
      && (!t.deliveries[i].holdsSlot && s.deliveries[i].holdsSlot ==> t.slots == if s.slots > 0 then s.slots - 1 else 0)
      && (t.deliveries[i].holdsSlot ==> t.slots == s.slots)
      && (Active(s.deliveries[i]) || s.deliveries[i].holdsSlot)
      && (t.deliveries[i].stage.Proving? ==>
            !s.deliveries[i].stage.Proving? && s.permits < c.provingSlots && t.permits == s.permits + 1)
      && (!t.deliveries[i].stage.Proving? ==>
            t.permits == if s.deliveries[i].stage.Proving? && s.permits > 0 then s.permits - 1 else s.permits)
  {
    hide Window, Find, Keys, ClaimIds, InWindow;
  }

  lemma PermitsKept(c: Config, s: State, step: Step)
    requires PermitsOk(c, s) && Enabled(c, s, step)
    ensures PermitsOk(c, Next(c, s, step))
  {
    if step.Deliver? {
      DeliverKeepsPermits(c, s, step.id, step.observed);
    } else {
      StepCounts(c, s, step);
      hide Next, Enabled;
      OneDeliveryKeepsPermits(c, s, Next(c, s, step), step.i);
    }
  }

  lemma OneDeliveryKeepsPermits(c: Config, s: State, t: State, i: nat)
    requires PermitsOk(c, s) && i < |s.deliveries| && |t.deliveries| == |s.deliveries|
    requires forall k :: 0 <= k < |s.deliveries| && k != i ==> t.deliveries[k] == s.deliveries[k]
    requires Active(t.deliveries[i]) ==> s.deliveries[i].holdsSlot && t.deliveries[i].holdsSlot
    requires s.deliveries[i].holdsSlot
    requires t.slots == if t.deliveries[i].holdsSlot then s.slots else if s.slots > 0 then s.slots - 1 else 0
    requires t.deliveries[i].stage.Proving? ==>
      !s.deliveries[i].stage.Proving? && s.permits < c.provingSlots && t.permits == s.permits + 1
    requires !t.deliveries[i].stage.Proving? ==>
      t.permits == if s.deliveries[i].stage.Proving? && s.permits > 0 then s.permits - 1 else s.permits
    ensures PermitsOk(c, t)
  {
    MovedSets(s, t, i);
    hide AtProver, InFlight, Active;
    OneFewer(AtProver(s), i);
    OneFewer(InFlight(s), i);
  }

  /** All of it holds after every run. */
  lemma {:induction false} InvHolds(c: Config, steps: seq<Step>)
    requires Run(c, steps).Some?
    ensures Inv(c, Run(c, steps).value)
  {
    if steps == [] {
      assert InFlight(START) == {} && AtProver(START) == {};
    } else {
      var before, step := steps[..|steps| - 1], steps[|steps| - 1];
      InvHolds(c, before);
      hide ClaimsOk, DeliveriesOk, ProofsOk, ResultsOk, PermitsOk, Next;
      var s := Run(c, before).value;
      ClaimsKept(c, s, step);
      DeliveriesKept(c, s, step);
      ProofsKept(c, s, step);
      ResultsKept(c, s, step);
      PermitsKept(c, s, step);
    }
  }
}
