/** The history view of a bounded first-in-first-out index: it retains the last `capacity` insertions. */
module Fifo {
  function Window<T>(history: seq<T>, capacity: nat): (w: seq<T>)
    ensures |w| <= capacity && |w| <= |history|
  {
    if |history| <= capacity then history else history[|history| - capacity..]
  }

  ghost predicate NoRepeats<T>(s: seq<T>) {
    forall i, j :: 0 <= i < j < |s| ==> s[i] != s[j]
  }

  function Elements<T>(s: seq<T>): set<T> {
    set x | x in s
  }

  lemma {:induction false} SizeOfDistinct<T>(s: seq<T>)
    requires NoRepeats(s)
    ensures |Elements(s)| == |s|
  {
    if s == [] {
      assert Elements(s) == {};
    } else {
      var init, last := s[..|s| - 1], s[|s| - 1];
      SizeOfDistinct(init);
      assert s == init + [last];
      assert last !in init;
      assert Elements(s) == Elements(init) + {last};
    }
  }

  /** Every element was outside the window when it was appended. */
  ghost predicate Fresh<T>(history: seq<T>, capacity: nat) {
    forall j :: 0 <= j < |history| ==> history[j] !in Window(history[..j], capacity)
  }

  lemma FreshDiffers<T>(history: seq<T>, capacity: nat, a: nat, b: nat)
    requires Fresh(history, capacity) && a < b < |history| && b - a <= capacity
    ensures history[a] != history[b]
  {
    var w := Window(history[..b], capacity);
    assert history[b] !in w;
    assert history[a] == w[a - (b - |w|)];
  }

  /** In a history of successful claims, any `capacity + 1` consecutive ones are pairwise distinct. */
  lemma ConsecutiveClaimsDistinct<T>(history: seq<T>, capacity: nat, from: nat, to: nat)
    requires Fresh(history, capacity) && from <= to <= |history| && to - from <= capacity + 1
    ensures NoRepeats(history[from..to])
  {
    var part := history[from..to];
    forall i, j | 0 <= i < j < |part| ensures part[i] != part[j] {
      FreshDiffers(history, capacity, from + i, from + j);
    }
  }

  lemma WindowAt<T>(history: seq<T>, capacity: nat, k: nat)
    requires k < |Window(history, capacity)|
    ensures Window(history, capacity)[k] == history[k + (|history| - |Window(history, capacity)|)]
  {
  }

  lemma RecentIsRetained<T>(history: seq<T>, capacity: nat, i: nat)
    requires |history| - capacity <= i < |history|
    ensures history[i] in Window(history, capacity)
  {
    var w := Window(history, capacity);
    assert w[i - (|history| - |w|)] == history[i];
  }

  /** A repeated claim is separated from the earlier one by at least `capacity` distinct others. */
  lemma RepeatNeedsEviction<T>(history: seq<T>, capacity: nat, i: nat, j: nat)
    requires Fresh(history, capacity) && i < j < |history| && history[i] == history[j]
    ensures i < j - capacity
    ensures NoRepeats(history[j - capacity..j]) && history[i] !in history[j - capacity..j]
  {
    assert history[j] !in Window(history[..j], capacity);
    if j - capacity <= i {
      RecentIsRetained(history[..j], capacity, i);
    } else {
      ConsecutiveClaimsDistinct(history, capacity, j - capacity, j);
      assert history[j - capacity..j] == Window(history[..j], capacity);
    }
  }

  lemma WindowDistinct<T>(history: seq<T>, capacity: nat)
    requires Fresh(history, capacity)
    ensures NoRepeats(Window(history, capacity))
  {
    var w := Window(history, capacity);
    ConsecutiveClaimsDistinct(history, capacity, |history| - |w|, |history|);
    assert w == history[|history| - |w|..|history|];
  }

  lemma FreshExtends<T>(history: seq<T>, capacity: nat, x: T)
    requires Fresh(history, capacity) && x !in Window(history, capacity)
    ensures Fresh(history + [x], capacity)
  {
    var longer := history + [x];
    forall j | 0 <= j < |longer| ensures longer[j] !in Window(longer[..j], capacity) {
      if j < |history| {
        assert longer[..j] == history[..j];
      } else {
        assert longer[..j] == history;
      }
    }
  }

  /** A queue and its index set, after `dropped` elements of the history have been evicted. */
  ghost predicate Queued<T>(index: set<T>, queue: seq<T>, history: seq<T>, dropped: nat) {
    && dropped <= |history|
    && queue == history[dropped..]
    && NoRepeats(queue)
    && index == Elements(queue)
  }

  lemma QueuedSize<T>(index: set<T>, queue: seq<T>, history: seq<T>, dropped: nat)
    requires Queued(index, queue, history, dropped)
    ensures |index| == |queue| == |history| - dropped
  {
    SizeOfDistinct(queue);
  }

  lemma WindowIsQueued<T>(index: set<T>, history: seq<T>, capacity: nat)
    requires Fresh(history, capacity) && index == Elements(Window(history, capacity))
    ensures Queued(index, Window(history, capacity), history, |history| - |Window(history, capacity)|)
    ensures |Window(history, capacity)| == capacity || |Window(history, capacity)| == |history|
  {
    WindowDistinct(history, capacity);
  }

  lemma Pushed<T>(index: set<T>, history: seq<T>, capacity: nat, x: T)
    requires Fresh(history, capacity) && index == Elements(Window(history, capacity)) && x !in index
    ensures Fresh(history + [x], capacity)
    ensures
      var queue := Window(history, capacity);
      Queued(index + {x}, queue + [x], history + [x], |history| - |queue|)
  {
    var queue, longer := Window(history, capacity) + [x], history + [x];
    FreshExtends(history, capacity, x);
    ConsecutiveClaimsDistinct(longer, capacity, |longer| - |queue|, |longer|);
    assert queue == longer[|longer| - |queue|..|longer|];
  }

  /** Evicting the head removes exactly that element. */
  lemma HeadEvicted<T>(index: set<T>, queue: seq<T>, history: seq<T>, dropped: nat)
    requires Queued(index, queue, history, dropped) && queue != []
    ensures Queued(index - {queue[0]}, queue[1..], history, dropped + 1)
    ensures queue[0] in index && history[dropped] == queue[0]
    ensures forall k :: dropped < k < |history| ==> history[k] != queue[0]
  {
    assert queue == [queue[0]] + queue[1..];
    assert forall k :: dropped < k < |history| ==> history[k] == queue[k - dropped];
  }

  lemma QueuedIsWindow<T>(index: set<T>, queue: seq<T>, history: seq<T>, dropped: nat, capacity: nat)
    requires Queued(index, queue, history, dropped) && |queue| <= capacity
    requires |queue| >= capacity || dropped == 0
    ensures queue == Window(history, capacity) && index == Elements(queue)
  {
  }
}
