/** `synchronized_queue` as a monitor: any number of producers, blocking and non-blocking
    consumers, interleaved between the lock, wait, signal and unlock calls. */
module QueueMonitor {
  import opened Ledger

  /** Where a thread is. A thread at a `*Lock` point, or woken, still has to get the lock. */
  datatype PC<T> =
    | Outside
    | PushLock(item: T) | PushHeld(item: T) | PushSignal | PushUnlock
    | PopLock | PopCheck | Asleep | Woken | PopUnlock(item: T)
    | TryLock | TryCheck | TryUnlock(result: Option<T>)

  /** `pushed` and `popped` record all items that ever entered and left, in order. */
  datatype Monitor<T> = Monitor(
    queue: seq<T>, lock: Option<nat>, threads: seq<PC<T>>, pushed: seq<T>, popped: seq<T>)

  /** `t` is the thread that moves. */
  datatype Act<T> =
    | CallPush(t: nat, item: T) | CallPop(t: nat) | CallTry(t: nat)
    | Acquire(t: nat)
    | Insert(t: nat)
    | Signal(t: nat, wakes: set<nat>)
    | Check(t: nat)
    | Release(t: nat)
    | Spurious(t: nat)

  predicate Holding<T>(pc: PC<T>) {
    pc.PushHeld? || pc.PushSignal? || pc.PushUnlock? || pc.PopCheck? || pc.PopUnlock? || pc.TryCheck? || pc.TryUnlock?
  }

  predicate WantsLock<T>(pc: PC<T>) {
    pc.PushLock? || pc.PopLock? || pc.TryLock? || pc.Woken?
  }

  ghost function Sleepers<T>(threads: seq<PC<T>>): set<nat> {
    set t: nat | t < |threads| && threads[t].Asleep?
  }

  ghost function WokenOnes<T>(threads: seq<PC<T>>): set<nat> {
    set t: nat | t < |threads| && threads[t].Woken?
  }

  ghost predicate Can<T>(m: Monitor<T>, a: Act<T>) {
    && a.t < |m.threads|
    && var pc := m.threads[a.t];
       match a
       case CallPush(_, _) => pc.Outside?
       case CallPop(_) => pc.Outside?
       case CallTry(_) => pc.Outside?
       case Acquire(_) => m.lock.None? && WantsLock(pc)
       case Insert(_) => pc.PushHeld?
       // a signal wakes at least one sleeper if there is one
       case Signal(_, wakes) => pc.PushSignal? && wakes <= Sleepers(m.threads) && (Sleepers(m.threads) != {} ==> wakes != {})
       case Check(_) => pc.PopCheck? || pc.TryCheck?
       case Release(_) => pc.PushUnlock? || pc.PopUnlock? || pc.TryUnlock?
       case Spurious(_) => pc.Asleep?
  }

  function Locked<T>(pc: PC<T>): PC<T>
    requires WantsLock(pc)
  {
    match pc
    case PushLock(x) => PushHeld(x)
    case TryLock => TryCheck
    case _ => PopCheck
  }

  function Wake<T>(threads: seq<PC<T>>, wakes: set<nat>): (r: seq<PC<T>>)
    ensures |r| == |threads|
  {
    seq(|threads|, i requires 0 <= i < |threads| => if i in wakes then Woken else threads[i])
  }

  ghost function Do<T>(m: Monitor<T>, a: Act<T>): Monitor<T>
    requires Can(m, a)
  {
    var pc := m.threads[a.t];
    match a
    case CallPush(t, x) => m.(threads := m.threads[t := PushLock(x)])
    case CallPop(t) => m.(threads := m.threads[t := PopLock])
    case CallTry(t) => m.(threads := m.threads[t := TryLock])
    case Acquire(t) => m.(lock := Some(t), threads := m.threads[t := Locked(pc)])
    case Insert(t) =>
      m.(queue := m.queue + [pc.item], pushed := m.pushed + [pc.item], threads := m.threads[t := PushSignal])
    case Signal(t, wakes) => m.(threads := Wake(m.threads, wakes)[t := PushUnlock])
    case Check(t) =>
      if m.queue == [] then
        if pc.PopCheck? then m.(lock := None, threads := m.threads[t := Asleep])
        else m.(threads := m.threads[t := TryUnlock(None)])
      else
        var x := m.queue[0];
        m.(queue := m.queue[1..], popped := m.popped + [x],
           threads := m.threads[t := if pc.PopCheck? then PopUnlock(x) else TryUnlock(Some(x))])
    case Release(t) => m.(lock := None, threads := m.threads[t := Outside])
    case Spurious(t) => m.(threads := m.threads[t := Woken])
  }

  ghost predicate Runs<T>(m: Monitor<T>, acts: seq<Act<T>>)
    decreases |acts|
  {
    acts == [] || (Can(m, acts[0]) && Runs(Do(m, acts[0]), acts[1..]))
  }

  ghost function End<T>(m: Monitor<T>, acts: seq<Act<T>>): Monitor<T>
    requires Runs(m, acts)
    decreases |acts|
  {
    if acts == [] then m else End(Do(m, acts[0]), acts[1..])
  }

  ghost function Fresh<T>(size: nat): Monitor<T> {
    Monitor([], None, seq(size, _ => Outside), [], [])
  }

  // ----- invariants -----

  ghost predicate MutualExclusion<T>(m: Monitor<T>) {
    && (m.lock.Some? ==> m.lock.value < |m.threads|)
    && forall t :: 0 <= t < |m.threads| ==> (Holding(m.threads[t]) <==> m.lock == Some(t))
  }

  /** The lock holder is about to signal, or is itself a consumer about to look. */
  ghost function Credit<T>(m: Monitor<T>): nat {
    if m.lock.Some? && m.lock.value < |m.threads| &&
       (m.threads[m.lock.value].PushSignal? || m.threads[m.lock.value].PopCheck?) then 1 else 0
  }

  /** While anybody sleeps, every item in the queue has a consumer on its way. */
  ghost predicate Covered<T>(m: Monitor<T>) {
    Sleepers(m.threads) != {} ==> |m.queue| <= |WokenOnes(m.threads)| + Credit(m)
  }

  /** What a thread that is about to unlock gives its caller. */
  function Out<T>(pc: PC<T>): seq<T> {
    match pc
    case PopUnlock(x) => [x]
    case TryUnlock(Some(x)) => [x]
    case _ => []
  }

  /** A value about to be returned is the item that left last; "nothing" means an empty queue. */
  ghost predicate HandsOut<T>(m: Monitor<T>) {
    forall t :: 0 <= t < |m.threads| ==>
      && (Out(m.threads[t]) != [] ==> m.popped != [] && Out(m.threads[t]) == [m.popped[|m.popped| - 1]])
      && (m.threads[t] == TryUnlock(None) ==> m.queue == [])
  }

  ghost predicate MonitorInv<T>(m: Monitor<T>) {
    MutualExclusion(m) && m.pushed == m.popped + m.queue && Covered(m) && HandsOut(m)
  }

  lemma WokenUpdate<T>(threads: seq<PC<T>>, t: nat, pc: PC<T>)
    requires t < |threads|
    ensures var w, w' := WokenOnes(threads), WokenOnes(threads[t := pc]);
            |w'| == |w| - (if threads[t].Woken? then 1 else 0) + (if pc.Woken? then 1 else 0)
  {
    var w, w' := WokenOnes(threads), WokenOnes(threads[t := pc]);
    var others := w - {t};
    assert w' - {t} == others;
    assert w == if threads[t].Woken? then others + {t} else others;
    assert w' == if pc.Woken? then others + {t} else others;
  }

  lemma SleepersUpdate<T>(threads: seq<PC<T>>, t: nat, pc: PC<T>)
    requires t < |threads|
    ensures Sleepers(threads[t := pc]) ==
            if pc.Asleep? then Sleepers(threads) + {t} else Sleepers(threads) - {t}
  {
  }

  /** A signal turns the woken sleepers into consumers on their way. */
  lemma WakeCounts<T>(threads: seq<PC<T>>, wakes: set<nat>)
    requires wakes <= Sleepers(threads)
    ensures |WokenOnes(Wake(threads, wakes))| == |WokenOnes(threads)| + |wakes|
    ensures Sleepers(Wake(threads, wakes)) == Sleepers(threads) - wakes
  {
    assert WokenOnes(Wake(threads, wakes)) == WokenOnes(threads) + wakes;
    assert WokenOnes(threads) !! wakes;
  }

  lemma SignalCovers<T>(m: Monitor<T>, t: nat, wakes: set<nat>)
    requires MonitorInv(m) && Can(m, Signal(t, wakes))
    ensures Covered(Do(m, Signal(t, wakes)))
  {
    var woken := Wake(m.threads, wakes);
    WakeCounts(m.threads, wakes);
    WokenUpdate(woken, t, PushUnlock);
    SleepersUpdate(woken, t, PushUnlock);
    assert !woken[t].Woken?;
    assert m.lock == Some(t);
    if wakes != {} {
      assert |wakes| >= 1;
    }
  }

  lemma ActCovers<T>(m: Monitor<T>, a: Act<T>)
    requires MonitorInv(m) && Can(m, a) && !a.Signal?
    ensures Covered(Do(m, a))
  {
    var pc' := Do(m, a).threads[a.t];
    assert Do(m, a).threads == m.threads[a.t := pc'];
    WokenUpdate(m.threads, a.t, pc');
    SleepersUpdate(m.threads, a.t, pc');
  }

  lemma ActExcludes<T>(m: Monitor<T>, a: Act<T>)
    requires MonitorInv(m) && Can(m, a)
    ensures MutualExclusion(Do(m, a))
  {
  }

  /** Nobody else touches the queue between a check and the unlock that follows it. */
  lemma ActHandsOut<T>(m: Monitor<T>, a: Act<T>)
    requires MonitorInv(m) && Can(m, a)
    ensures HandsOut(Do(m, a))
  {
    var m' := Do(m, a);
    forall t | 0 <= t < |m'.threads|
      ensures Out(m'.threads[t]) != [] ==> m'.popped != [] && Out(m'.threads[t]) == [m'.popped[|m'.popped| - 1]]
      ensures m'.threads[t] == TryUnlock(None) ==> m'.queue == []
    {
      if t != a.t && Holding(m'.threads[t]) {
        assert m'.threads[t] == m.threads[t];
        assert m.lock == Some(t);
      }
    }
  }

  lemma ActKeeps<T>(m: Monitor<T>, a: Act<T>)
    requires MonitorInv(m) && Can(m, a)
    ensures MonitorInv(Do(m, a))
  {
    ActExcludes(m, a);
    ActHandsOut(m, a);
    if a.Signal? {
      SignalCovers(m, a.t, a.wakes);
    } else {
      ActCovers(m, a);
    }
    if a.Insert? {
      var x := m.threads[a.t].item;
      assert m.popped + (m.queue + [x]) == (m.popped + m.queue) + [x];
    }
    if a.Check? && m.queue != [] {
      assert m.queue == [m.queue[0]] + m.queue[1..];
      assert m.popped + m.queue == (m.popped + [m.queue[0]]) + m.queue[1..];
    }
  }

  lemma {:induction false} RunKeeps<T>(m: Monitor<T>, acts: seq<Act<T>>)
    requires MonitorInv(m) && Runs(m, acts)
    ensures MonitorInv(End(m, acts))
    decreases |acts|
  {
    if acts != [] {
      ActKeeps(m, acts[0]);
      RunKeeps(Do(m, acts[0]), acts[1..]);
    }
  }

  lemma FreshIsSound<T>(size: nat)
    ensures MonitorInv(Fresh<T>(size))
  {
    assert Sleepers(Fresh<T>(size).threads) == {};
  }

  /** In every interleaving: at most one thread is inside, the items pushed so far are the items
      popped so far, in order, followed by the contents, and a thread that is about to return `x`
      took `x` out last, or one that returns nothing stands before an empty queue. */
  lemma LinearizableFifo<T>(size: nat, acts: seq<Act<T>>)
    requires Runs(Fresh<T>(size), acts)
    ensures var m := End(Fresh<T>(size), acts);
            && m.pushed == m.popped + m.queue && MutualExclusion(m)
            && (forall t, x :: 0 <= t < |m.threads| && m.threads[t] in {PopUnlock(x), TryUnlock(Some(x))} ==>
                  m.popped != [] && x == m.popped[|m.popped| - 1])
            && (forall t :: 0 <= t < |m.threads| && m.threads[t] == TryUnlock(None) ==> m.queue == [])
  {
    FreshIsSound<T>(size);
    RunKeeps(Fresh<T>(size), acts);
    var m := End(Fresh<T>(size), acts);
    forall t, x | 0 <= t < |m.threads| && m.threads[t] in {PopUnlock(x), TryUnlock(Some(x))}
      ensures m.popped != [] && x == m.popped[|m.popped| - 1]
    {
      assert Out(m.threads[t]) == [x];
    }
  }

  // ----- what callers get back -----

  /** The value on its way out of the critical section, if there is one. */
  ghost function Held<T>(m: Monitor<T>): (r: seq<T>)
    ensures |r| <= 1
  {
    if m.lock.Some? && m.lock.value < |m.threads| then Out(m.threads[m.lock.value]) else []
  }

  /** All values that `pop` and `pop_nonblocking` have returned, in the order of their unlocks. */
  ghost function Returned<T>(m: Monitor<T>, acts: seq<Act<T>>): seq<T>
    requires Runs(m, acts)
    decreases |acts|
  {
    if acts == [] then []
    else (if acts[0].Release? then Out(m.threads[acts[0].t]) else []) + Returned(Do(m, acts[0]), acts[1..])
  }

  lemma ActReturns<T>(m: Monitor<T>, a: Act<T>, before: seq<T>)
    requires MonitorInv(m) && Can(m, a) && m.popped == before + Held(m)
    ensures Do(m, a).popped == before + (if a.Release? then Out(m.threads[a.t]) else []) + Held(Do(m, a))
  {
    var m' := Do(m, a);
    assert a.Signal? || a.Insert? || a.Check? || a.Release? ==> m.lock == Some(a.t);
    if a.Release? {
      assert Held(m) == Out(m.threads[a.t]) && Held(m') == [];
    } else if a.Check? {
      assert Held(m) == [];
    } else {
      assert Held(m') == Held(m);
    }
  }

  lemma {:induction false} RunReturns<T>(m: Monitor<T>, acts: seq<Act<T>>, before: seq<T>)
    requires MonitorInv(m) && Runs(m, acts) && m.popped == before + Held(m)
    ensures End(m, acts).popped == before + Returned(m, acts) + Held(End(m, acts))
    decreases |acts|
  {
    if acts != [] {
      var a := acts[0];
      var now := if a.Release? then Out(m.threads[a.t]) else [];
      ActKeeps(m, a);
      ActReturns(m, a, before);
      RunReturns(Do(m, a), acts[1..], before + now);
      Associate(before, now, Returned(Do(m, a), acts[1..]), Held(End(m, acts)));
    }
  }

  lemma Associate<T>(a: seq<T>, b: seq<T>, c: seq<T>, d: seq<T>)
    ensures (a + b) + c + d == a + (b + c) + d
  {
  }

  /** The callers get every pushed item once and in order: what went in is what has been returned,
      then at most one value on its way out, then the contents. */
  lemma CallersGetItemsInOrder<T>(size: nat, acts: seq<Act<T>>)
    requires Runs(Fresh<T>(size), acts)
    ensures var m := End(Fresh<T>(size), acts);
            m.pushed == Returned(Fresh<T>(size), acts) + Held(m) + m.queue
  {
    var m := Fresh<T>(size);
    FreshIsSound<T>(size);
    RunKeeps(m, acts);
    RunReturns(m, acts, []);
    assert [] + Returned(m, acts) + Held(End(m, acts)) == Returned(m, acts) + Held(End(m, acts));
  }

  // ----- what callers hand in -----

  /** The items that thread `t` has called `push` with. */
  function Called<T>(acts: seq<Act<T>>, t: nat): seq<T> {
    if acts == [] then []
    else (if acts[0].CallPush? && acts[0].t == t then [acts[0].item] else []) + Called(acts[1..], t)
  }

  /** What the steps of thread `t` have added to the end of the queue. */
  ghost function Added<T>(m: Monitor<T>, acts: seq<Act<T>>, t: nat): seq<T>
    requires Runs(m, acts)
    decreases |acts|
  {
    if acts == [] then []
    else
      var m' := Do(m, acts[0]);
      (if acts[0].t == t && |m'.queue| > |m.queue| then m'.queue[|m.queue|..] else []) + Added(m', acts[1..], t)
  }

  /** The item of a call that has not added it yet. */
  function Pending<T>(pc: PC<T>): seq<T> {
    match pc
    case PushLock(x) => [x]
    case PushHeld(x) => [x]
    case _ => []
  }

  lemma ActAdds<T>(m: Monitor<T>, a: Act<T>, t: nat)
    requires Can(m, a) && t < |m.threads|
    ensures var m' := Do(m, a);
            && |m'.threads| == |m.threads|
            && (a.Insert? <==> |m'.queue| > |m.queue|)
            && Pending(m.threads[t]) + (if a.CallPush? && a.t == t then [a.item] else [])
               == (if a.Insert? && a.t == t then m'.queue[|m.queue|..] else []) + Pending(m'.threads[t])
  {
    assert a.Signal? ==> forall u :: u in a.wakes ==> Pending(m.threads[u]) == [];
  }

  lemma {:induction false} RunAdds<T>(m: Monitor<T>, acts: seq<Act<T>>, t: nat)
    requires Runs(m, acts) && t < |m.threads|
    ensures |End(m, acts).threads| == |m.threads|
    ensures Pending(m.threads[t]) + Called(acts, t) == Added(m, acts, t) + Pending(End(m, acts).threads[t])
    decreases |acts|
  {
    if acts != [] {
      var a, rest := acts[0], acts[1..];
      var m' := Do(m, a);
      ActAdds(m, a, t);
      RunAdds(m', rest, t);
      Regroup(Pending(m.threads[t]), if a.CallPush? && a.t == t then [a.item] else [], Called(rest, t),
              if a.Insert? && a.t == t then m'.queue[|m.queue|..] else [], Pending(m'.threads[t]),
              Added(m', rest, t), Pending(End(m, acts).threads[t]));
    }
  }

  lemma Regroup<T>(p: seq<T>, c: seq<T>, calls: seq<T>, d: seq<T>, p': seq<T>, adds: seq<T>, q: seq<T>)
    requires p + c == d + p' && p' + calls == adds + q
    ensures p + (c + calls) == (d + adds) + q
  {
    assert p + (c + calls) == (d + p') + calls;
    assert d + (p' + calls) == (d + adds) + q;
  }

  /** Each producer's items enter the queue unchanged and in the order of its calls, all but at most
      the one whose call is still under way. */
  lemma ProducersAddInOrder<T>(size: nat, acts: seq<Act<T>>, t: nat)
    requires Runs(Fresh<T>(size), acts) && t < size
    ensures var m := End(Fresh<T>(size), acts);
            t < |m.threads| && Called(acts, t) == Added(Fresh<T>(size), acts, t) + Pending(m.threads[t])
  {
    RunAdds(Fresh<T>(size), acts, t);
  }

  // ----- which call a thread is in -----

  datatype Call = NoCall | InPush | InPop | InTry

  function CallAfter<T>(c: Call, a: Act<T>, t: nat): Call {
    if a.t != t then c
    else
      match a
      case CallPush(_, _) => InPush
      case CallPop(_) => InPop
      case CallTry(_) => InTry
      case Release(_) => NoCall
      case _ => c
  }

  function CallNow<T>(c: Call, acts: seq<Act<T>>, t: nat): Call
    decreases |acts|
  {
    if acts == [] then c else CallNow(CallAfter(c, acts[0], t), acts[1..], t)
  }

  predicate Fits<T>(c: Call, pc: PC<T>) {
    match c
    case NoCall => pc.Outside?
    case InPush => pc.PushLock? || pc.PushHeld? || pc.PushSignal? || pc.PushUnlock?
    case InPop => pc.PopLock? || pc.PopCheck? || pc.Asleep? || pc.Woken? || pc.PopUnlock?
    case InTry => pc.TryLock? || pc.TryCheck? || pc.TryUnlock?
  }

  lemma ActFits<T>(m: Monitor<T>, a: Act<T>, t: nat, c: Call)
    requires Can(m, a) && t < |m.threads| && Fits(c, m.threads[t])
    ensures |Do(m, a).threads| == |m.threads| && Fits(CallAfter(c, a, t), Do(m, a).threads[t])
  {
  }

  lemma {:induction false} RunFits<T>(m: Monitor<T>, acts: seq<Act<T>>, t: nat, c: Call)
    requires Runs(m, acts) && t < |m.threads| && Fits(c, m.threads[t])
    ensures |End(m, acts).threads| == |m.threads| && Fits(CallNow(c, acts, t), End(m, acts).threads[t])
    decreases |acts|
  {
    if acts != [] {
      ActFits(m, acts[0], t, c);
      RunFits(Do(m, acts[0]), acts[1..], t, CallAfter(c, acts[0], t));
    }
  }

  /** Only a blocking `pop` ever sleeps; `push` and `pop_nonblocking` never wait for an item, and only
      the two pops return a value. */
  lemma OnlyPopSleeps<T>(size: nat, acts: seq<Act<T>>, t: nat)
    requires Runs(Fresh<T>(size), acts) && t < size
    ensures t < |End(Fresh<T>(size), acts).threads| &&
            var pc := End(Fresh<T>(size), acts).threads[t];
            var call := CallNow(NoCall, acts, t);
            && (pc.Outside? <==> call == NoCall)
            && (pc.Asleep? || pc.Woken? || pc.PopUnlock? ==> call == InPop)
            && (pc.TryUnlock? ==> call == InTry)
            && (Pending(pc) != [] ==> call == InPush)
  {
    RunFits(Fresh<T>(size), acts, t, NoCall);
  }

  /** No lost wake-up: whenever the lock is free and a consumer sleeps, there are at least as
      many woken consumers still to run as there are items. */
  lemma NoLostWakeup<T>(size: nat, acts: seq<Act<T>>)
    requires Runs(Fresh<T>(size), acts)
    ensures var m := End(Fresh<T>(size), acts);
            m.lock.None? && Sleepers(m.threads) != {} ==> |m.queue| <= |WokenOnes(m.threads)|
  {
    FreshIsSound<T>(size);
    RunKeeps(Fresh<T>(size), acts);
  }

  /** A monitor in which every thread is outside or asleep holds no item that a sleeper waits for. */
  lemma SleepersWaitForNothing<T>(size: nat, acts: seq<Act<T>>, m: Monitor<T>)
    requires Runs(Fresh<T>(size), acts) && m == End(Fresh<T>(size), acts)
    requires forall t :: 0 <= t < |m.threads| ==> m.threads[t].Outside? || m.threads[t].Asleep?
    ensures Sleepers(m.threads) != {} ==> m.queue == []
  {
    FreshIsSound<T>(size);
    RunKeeps(Fresh<T>(size), acts);
    assert WokenOnes(m.threads) == {};
    assert forall t :: 0 <= t < |m.threads| ==> !Holding(m.threads[t]);
    assert m.lock.None?;
  }
}
