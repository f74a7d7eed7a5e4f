/** Waiting for a result, packages/soul-sdk/src/client.ts:305-368. The relay, the clock, the timer and the result
    validator are inputs. */
module Settlement {
  import opened Wrappers
  import opened Fifo
  import opened Events
  import opened Types

  const MAX_DEDUPE_ENTRIES: nat := 10000

  /** What can happen to a waiting job. */
  datatype Signal = Delivered(event: Event, now: nat) | TimedOut | Aborted

  datatype Verdict = Resolved(result: JobResultContent) | ResultTimeout | Cancelled

  datatype Judge = Judge(accepts: string -> bool, validate: (Event, nat) -> Option<JobResultContent>)

  // ---- history specification ---------------------------------------------

  /** The delivery is looked at: its author is allowlisted and its id is not in the bounded seen-window. */
  predicate Considered(judge: Judge, history: seq<Signal>, signal: Signal)
    decreases |history|, 1
  {
    && signal.Delivered?
    && judge.accepts(signal.event.body.pubkey)
    && signal.event.id !in Window(Ids(judge, history), MAX_DEDUPE_ENTRIES)
  }

  /** The ids looked at so far, oldest first. */
  function Ids(judge: Judge, history: seq<Signal>): seq<string>
    decreases |history|, 0
  {
    if history == [] then []
    else
      var before, last := history[..|history| - 1], history[|history| - 1];
      if Considered(judge, before, last) then Ids(judge, before) + [last.event.id] else Ids(judge, before)
  }

  /** What one signal would settle the job with. */
  function Settles(judge: Judge, history: seq<Signal>, signal: Signal): Option<Verdict> {
    match signal
    case TimedOut => Some(ResultTimeout)
    case Aborted => Some(Cancelled)
    case Delivered(event, now) =>
      if !Considered(judge, history, signal) then None
      else
        match judge.validate(event, now)
        case None => None
        case Some(result) => Some(Resolved(result))
  }

  /** The job is settled by the first signal that settles, and by no other. */
  ghost predicate SettledBy(judge: Judge, history: seq<Signal>, k: nat) {
    && k < |history|
    && Settles(judge, history[..k], history[k]).Some?
    && forall j :: 0 <= j < k ==> Settles(judge, history[..j], history[j]).None?
  }

  /** What a history has decided: nothing, or what its deciding signal says. */
  ghost predicate Decides(judge: Judge, history: seq<Signal>, settled: Option<Verdict>) {
    match settled
    case None => forall k :: 0 <= k < |history| ==> Settles(judge, history[..k], history[k]).None?
    case Some(_) => exists k: nat :: SettledBy(judge, history, k) && settled == Settles(judge, history[..k], history[k])
  }

  lemma {:induction false} IdsAreFresh(judge: Judge, history: seq<Signal>)
    ensures Fresh(Ids(judge, history), MAX_DEDUPE_ENTRIES)
  {
    if history != [] {
      var before, last := history[..|history| - 1], history[|history| - 1];
      IdsAreFresh(judge, before);
      if Considered(judge, before, last) {
        FreshExtends(Ids(judge, before), MAX_DEDUPE_ENTRIES, last.event.id);
      }
    }
  }

  // ---- the promise -------------------------------------------------------

  class ResultWait {
    const judge: Judge
    var seen: set<string>
    var seenOrder: seq<string>
    var settled: Option<Verdict>
    /** Everything that has happened, oldest first. */
    ghost var history: seq<Signal>

    ghost predicate Valid()
      reads this
    {
      && seenOrder == Window(Ids(judge, history), MAX_DEDUPE_ENTRIES)
      && seen == Elements(seenOrder)
      && Decides(judge, history, settled)
    }

    constructor (judge: Judge)
      ensures Valid() && this.judge == judge && history == [] && settled == None
    {
      this.judge := judge;
      seen, seenOrder, settled, history := {}, [], None, [];
    }

    /** `resolve` and `reject` after the first have no effect. */
    method Settle(verdict: Verdict)
      modifies this`settled
      ensures settled == if old(settled).Some? then old(settled) else Some(verdict)
    {
      if settled.None? {
        settled := Some(verdict);
      }
    }

    /** Shift out the oldest id when full, then add this one. */
    method Remember(id: string, ghost ids: seq<string>)
      requires Fresh(ids, MAX_DEDUPE_ENTRIES) && seenOrder == Window(ids, MAX_DEDUPE_ENTRIES)
      requires seen == Elements(seenOrder) && id !in seen
      modifies this`seen, this`seenOrder
      ensures seenOrder == Window(ids + [id], MAX_DEDUPE_ENTRIES) && seen == Elements(seenOrder)
      ensures |seen| == |seenOrder|
    {
      Inserted(seen, seenOrder, ids, id);
      hide Fresh, Elements, Window;
      if |seenOrder| == MAX_DEDUPE_ENTRIES {
        var oldest := seenOrder[0];
        seenOrder := seenOrder[1..];
        seen := seen - {oldest};
      }
      seen := seen + {id};
      seenOrder := seenOrder + [id];
    }

    /** One delivery. */
    method Deliver(event: Event, now: nat)
      requires Valid()
      modifies this
      ensures Valid() && history == old(history) + [Delivered(event, now)]
      ensures |seen| == |seenOrder| <= MAX_DEDUPE_ENTRIES
      ensures old(settled).Some? ==> settled == old(settled)
    {
      ghost var signal := Delivered(event, now);
      ghost var past, verdict, ids := history, settled, Ids(judge, history);
      DecidesExtends(judge, past, signal, verdict);
      IdsExtend(judge, past, signal);
      InIndex(seen, ids, event.id);
      hide Fresh, Elements, Decides, Settles, Ids, Window;
      history := history + [signal];
      if !judge.accepts(event.body.pubkey) || event.id in seen {
        return;
      }
      Remember(event.id, ids);
      var result := judge.validate(event, now);
      if result.Some? {
        Settle(Resolved(result.value));
      }
      DeliverySettles(judge, past, event, now);
    }

    /** The local timer, or the abort signal. */
    method Stop(signal: Signal)
      requires Valid() && !signal.Delivered?
      modifies this
      ensures Valid() && history == old(history) + [signal]
      ensures old(settled).Some? ==> settled == old(settled)
    {
      DecidesExtends(judge, history, signal, settled);
      IdsExtend(judge, history, signal);
      hide Decides, Ids;
      history := history + [signal];
      Settle(if signal.TimedOut? then ResultTimeout else Cancelled);
    }
  }

  lemma IdsExtend(judge: Judge, past: seq<Signal>, signal: Signal)
    ensures Ids(judge, past + [signal]) ==
      if Considered(judge, past, signal) then Ids(judge, past) + [signal.event.id] else Ids(judge, past)
    ensures Fresh(Ids(judge, past), MAX_DEDUPE_ENTRIES)
  {
    assert (past + [signal])[..|past|] == past;
    IdsAreFresh(judge, past);
  }

  lemma DeliverySettles(judge: Judge, past: seq<Signal>, event: Event, now: nat)
    requires Considered(judge, past, Delivered(event, now))
    ensures Settles(judge, past, Delivered(event, now)) ==
      match judge.validate(event, now)
      case None => None
      case Some(result) => Some(Resolved(result))
  {
  }

  lemma InIndex(index: set<string>, ids: seq<string>, id: string)
    requires index == Elements(Window(ids, MAX_DEDUPE_ENTRIES)) && Fresh(ids, MAX_DEDUPE_ENTRIES)
    ensures id in index <==> id in Window(ids, MAX_DEDUPE_ENTRIES)
    ensures |index| == |Window(ids, MAX_DEDUPE_ENTRIES)|
  {
    WindowIsQueued(index, ids, MAX_DEDUPE_ENTRIES);
    QueuedSize(index, Window(ids, MAX_DEDUPE_ENTRIES), ids, |ids| - |Window(ids, MAX_DEDUPE_ENTRIES)|);
  }

  /** Shift when full, then push: the window of the longer history. */
  lemma Inserted(seen: set<string>, order: seq<string>, ids: seq<string>, id: string)
    requires Fresh(ids, MAX_DEDUPE_ENTRIES) && order == Window(ids, MAX_DEDUPE_ENTRIES)
    requires seen == Elements(order) && id !in seen
    ensures
      var full := |order| == MAX_DEDUPE_ENTRIES;
      var order', seen' := if full then order[1..] else order, if full then seen - {order[0]} else seen;
      && order' + [id] == Window(ids + [id], MAX_DEDUPE_ENTRIES)
      && seen' + {id} == Elements(order' + [id])
      && |seen' + {id}| == |order' + [id]|
  {
    Pushed(seen, ids, MAX_DEDUPE_ENTRIES, id);
    hide Fresh, NoRepeats;
    var queue, longer, dropped: nat := order + [id], ids + [id], |ids| - |order|;
    if |order| == MAX_DEDUPE_ENTRIES {
      Shifted(seen, order, longer, dropped, id);
    } else {
      hide Queued;
      QueuedSize(seen + {id}, queue, longer, dropped);
      QueuedIsWindow(seen + {id}, queue, longer, dropped, MAX_DEDUPE_ENTRIES);
    }
  }

  lemma Shifted(seen: set<string>, order: seq<string>, longer: seq<string>, dropped: nat, id: string)
    requires seen == Elements(order) && id !in seen && |order| == MAX_DEDUPE_ENTRIES
    requires Queued(seen + {id}, order + [id], longer, dropped)
    ensures
      var queue, index := order[1..] + [id], seen - {order[0]} + {id};
      queue == Window(longer, MAX_DEDUPE_ENTRIES) && index == Elements(queue) && |index| == |queue|
  {
    var queue := order + [id];
    HeadEvicted(seen + {id}, queue, longer, dropped);
    assert order[0] in order;
    hide Queued, Elements;
    assert queue[1..] == order[1..] + [id];
    assert seen + {id} - {order[0]} == seen - {order[0]} + {id};
    QueuedSize(seen - {order[0]} + {id}, order[1..] + [id], longer, dropped + 1);
    QueuedIsWindow(seen - {order[0]} + {id}, order[1..] + [id], longer, dropped + 1, MAX_DEDUPE_ENTRIES);
  }

  /** One more signal either leaves an earlier decision standing or decides. */
  lemma DecidesExtends(judge: Judge, past: seq<Signal>, signal: Signal, settled: Option<Verdict>)
    requires Decides(judge, past, settled)
    ensures Decides(judge, past + [signal], if settled.Some? then settled else Settles(judge, past, signal))
  {
    var longer := past + [signal];
    hide Settles;
    assert longer[..|past|] == past;
    assert forall k :: 0 <= k <= |past| ==> longer[..k] == past[..k];
    if settled.Some? {
      var k: nat :| SettledBy(judge, past, k) && settled == Settles(judge, past[..k], past[k]);
      assert SettledBy(judge, longer, k);
    } else if Settles(judge, past, signal).Some? {
      assert SettledBy(judge, longer, |past|);
    }
  }

  /** The wait resolves at most once: what a history has decided, every longer history has decided, and nothing else. */
  lemma SettledOnce(
    judge: Judge, past: seq<Signal>, more: seq<Signal>, before: Option<Verdict>, after: Option<Verdict>)
    requires Decides(judge, past, before) && Decides(judge, past + more, after)
    ensures before.Some? ==> after == before
  {
    hide Settles;
    var longer := past + more;
    assert forall k :: 0 <= k <= |past| ==> longer[..k] == past[..k];
    if before.Some? {
      var j: nat :| SettledBy(judge, past, j) && before == Settles(judge, past[..j], past[j]);
      assert longer[j] == past[j] && SettledBy(judge, longer, j);
      if after.Some? {
        var k: nat :| SettledBy(judge, longer, k) && after == Settles(judge, longer[..k], longer[k]);
        assert k == j;
      }
    }
  }

  // ---- the seen-window ---------------------------------------------------

  lemma {:induction false} IdsPrefix(judge: Judge, history: seq<Signal>, j: nat)
    requires j <= |history|
    ensures |Ids(judge, history[..j])| <= |Ids(judge, history)|
    ensures Ids(judge, history)[..|Ids(judge, history[..j])|] == Ids(judge, history[..j])
    ensures |Ids(judge, history)| <= |Ids(judge, history[..j])| + |history| - j
  {
    if j < |history| {
      var before := history[..|history| - 1];
      IdsPrefix(judge, before, j);
      assert before[..j] == history[..j];
    } else {
      assert history[..j] == history;
    }
  }

  /** An event looked at once is not looked at again until 10,000 other ids have been: a result that arrives before the
      client's clock reaches its window is lost to this wait, even when the relay repeats it in time. */
  lemma RedeliveryIsIgnored(judge: Judge, history: seq<Signal>, j: nat, signal: Signal)
    requires j < |history| && Considered(judge, history[..j], history[j])
    requires signal.Delivered? && signal.event.id == history[j].event.id
    requires |Ids(judge, history)| - |Ids(judge, history[..j])| <= 10_000
    ensures !Considered(judge, history, signal) && Settles(judge, history, signal) == None
  {
    var at := |Ids(judge, history[..j])|;
    IdsPrefix(judge, history, j + 1);
    IdsPrefix(judge, history, j);
    assert history[..j + 1][..j] == history[..j];
    assert Ids(judge, history)[..at + 1] == Ids(judge, history[..j + 1]);
    assert Ids(judge, history)[at] == Ids(judge, history)[..at + 1][at] == signal.event.id;
    RecentIsRetained(Ids(judge, history), MAX_DEDUPE_ENTRIES, at);
  }

  /** The id is one of the last 10,000 looked at. */
  ghost predicate LookedAtRecently(ids: seq<string>, id: string) {
    exists i :: 0 <= i < |ids| && |ids| - 10_000 <= i && ids[i] == id
  }

  lemma WindowIsRecent(ids: seq<string>, id: string)
    ensures id in Window(ids, MAX_DEDUPE_ENTRIES) <==> LookedAtRecently(ids, id)
  {
    var w := Window(ids, MAX_DEDUPE_ENTRIES);
    if id in w {
      var i :| 0 <= i < |w| && w[i] == id;
      assert ids[i + (|ids| - |w|)] == id;
    }
    if LookedAtRecently(ids, id) {
      var i :| 0 <= i < |ids| && |ids| - 10_000 <= i && ids[i] == id;
      RecentIsRetained(ids, MAX_DEDUPE_ENTRIES, i);
    }
  }

  /** And it is looked at again exactly when its last look has been evicted. */
  lemma RedeliveryIsConsideredIff(judge: Judge, history: seq<Signal>, signal: Signal)
    requires signal.Delivered? && judge.accepts(signal.event.body.pubkey)
    ensures Considered(judge, history, signal) <==> !LookedAtRecently(Ids(judge, history), signal.event.id)
  {
    WindowIsRecent(Ids(judge, history), signal.event.id);
  }
}
