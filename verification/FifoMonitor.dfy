/** The bounded queue between threads: a list under a mutex with two condition variables. */
module FifoMonitor {
  import opened Options

  /** The queue itself.  Each method is one pass through the loop, from locking the mutex to
      leaving it or waiting. */
  class Fifo<T> {
    var q: seq<T>
    const max: nat

    constructor (limit: nat)
      ensures max == limit && q == []
    {
      max := limit;
      q := [];
    }

    method EnqPass(e: T) returns (pushed: bool)
      modifies this
      ensures pushed == HasSpace(old(q), max)
      ensures q == if pushed then old(q) + [e] else old(q)
      ensures HasBound(old(q), max) ==> HasBound(q, max)
    {
      pushed := max == 0 || |q| < max;
      if pushed {
        q := q + [e];
      }
    }

    /** `signals` says whether the producers are signalled. */
    method DeqPass() returns (r: Option<T>, signals: bool)
      modifies this
      ensures r.None? <==> old(q) == []
      ensures r.None? ==> q == old(q) && !signals
      ensures r.Some? ==> old(q) == [r.value] + q
      ensures r.Some? && HasBound(old(q), max) ==> HasBound(q, max) && signals == (max != 0)
    {
      if q == [] {
        return None, false;
      }
      r := Some(q[0]);
      q := q[1..];
      signals := max != 0 && |q| < max;
    }
  }

  predicate HasSpace<T>(q: seq<T>, max: nat) {
    max == 0 || |q| < max
  }

  predicate HasBound<T>(q: seq<T>, max: nat) {
    max != 0 ==> |q| <= max
  }

  // ----- threads around the queue -----

  /** Want: about to lock the mutex and look, for the first time or woken up.  Asleep: waiting on
      the condition variable. */
  datatype Status<T> =
    | Idle
    | WantEnq(item: T, blocking: bool)
    | AsleepEnq(item: T)
    | WantDeq
    | AsleepDeq

  /** `sent` and `got` record what has been put in and taken out so far, in order. */
  datatype State<T> = State(q: seq<T>, threads: map<nat, Status<T>>, sent: seq<T>, got: seq<T>)

  /** Pass names the thread that the signal, if one is sent, wakes up. */
  datatype Action<T> =
    | CallEnq(t: nat, item: T, blocking: bool)
    | CallDeq(t: nat)
    | Pass(t: nat, woken: Option<nat>)
    | Spurious(t: nat)

  function WantsDeq<T>(m: map<nat, Status<T>>): set<nat> {
    set t | t in m && m[t].WantDeq?
  }

  function WantsEnq<T>(m: map<nat, Status<T>>): set<nat> {
    set t | t in m && m[t].WantEnq?
  }

  function SleepsDeq<T>(m: map<nat, Status<T>>): set<nat> {
    set t | t in m && m[t].AsleepDeq?
  }

  function SleepsEnq<T>(m: map<nat, Status<T>>): set<nat> {
    set t | t in m && m[t].AsleepEnq?
  }

  /** A signal wakes one of the sleepers if there is any. */
  predicate Wakes(sleepers: set<nat>, woken: Option<nat>) {
    if sleepers == {} then woken.None? else woken.Some? && woken.value in sleepers
  }

  predicate Enabled<T>(s: State<T>, max: nat, a: Action<T>) {
    && a.t in s.threads
    && match a
       case CallEnq(t, _, _) => s.threads[t].Idle?
       case CallDeq(t) => s.threads[t].Idle?
       case Pass(t, woken) =>
         || (s.threads[t].WantEnq? && if HasSpace(s.q, max) then Wakes(SleepsDeq(s.threads), woken) else woken.None?)
         || (s.threads[t].WantDeq?
             && if s.q != [] && max != 0 && |s.q| - 1 < max then Wakes(SleepsEnq(s.threads), woken) else woken.None?)
       case Spurious(t) => s.threads[t].AsleepEnq? || s.threads[t].AsleepDeq?
  }

  function WakeUp<T>(m: map<nat, Status<T>>, woken: Option<nat>): map<nat, Status<T>>
    requires woken.Some? ==> woken.value in m
  {
    if woken.None? then m
    else match m[woken.value]
      case AsleepEnq(item) => m[woken.value := WantEnq(item, true)]
      case AsleepDeq => m[woken.value := WantDeq]
      case _ => m
  }

  function Step<T>(s: State<T>, max: nat, a: Action<T>): State<T>
    requires Enabled(s, max, a)
  {
    match a
    case CallEnq(t, item, blocking) => s.(threads := s.threads[t := WantEnq(item, blocking)])
    case CallDeq(t) => s.(threads := s.threads[t := WantDeq])
    case Spurious(t) => s.(threads := WakeUp(s.threads, Some(t)))
    case Pass(t, woken) =>
      match s.threads[t]
      case WantEnq(item, blocking) =>
        if HasSpace(s.q, max) then State(s.q + [item], WakeUp(s.threads[t := Idle], woken), s.sent + [item], s.got)
        else s.(threads := s.threads[t := if blocking then AsleepEnq(item) else Idle])
      case WantDeq =>
        if s.q == [] then s.(threads := s.threads[t := AsleepDeq])
        else State(s.q[1..], WakeUp(s.threads[t := Idle], woken), s.sent, s.got + [s.q[0]])
  }

  /** The queue object with its threads around it. */
  class Monitor<T> {
    const fifo: Fifo<T>
    var threads: map<nat, Status<T>>
    ghost var sent: seq<T>
    ghost var got: seq<T>

    constructor (fifo: Fifo<T>, threads: map<nat, Status<T>>)
      requires fifo.q == [] && forall t :: t in threads ==> threads[t].Idle?
      ensures this.fifo == fifo && Init(View())
    {
      this.fifo := fifo;
      this.threads := threads;
      sent, got := [], [];
    }

    ghost function View(): State<T>
      reads this, fifo
    {
      State(fifo.q, threads, sent, got)
    }

    method RunEnq(t: nat, woken: Option<nat>)
      requires Enabled(View(), fifo.max, Pass(t, woken)) && threads[t].WantEnq?
      modifies this, fifo
      ensures View() == Step(old(View()), fifo.max, Pass(t, woken))
    {
      var want := threads[t];
      var pushed := fifo.EnqPass(want.item);
      if pushed {
        threads := WakeUp(threads[t := Idle], woken);
        sent := sent + [want.item];
      } else {
        threads := threads[t := if want.blocking then AsleepEnq(want.item) else Idle];
      }
    }

    method RunDeq(t: nat, woken: Option<nat>)
      requires Enabled(View(), fifo.max, Pass(t, woken)) && threads[t].WantDeq? && HasBound(fifo.q, fifo.max)
      modifies this, fifo
      ensures View() == Step(old(View()), fifo.max, Pass(t, woken))
    {
      var taken, signals := fifo.DeqPass();
      assert woken.Some? ==> signals;
      if taken.Some? {
        assert old(fifo.q)[1..] == fifo.q;
        threads := WakeUp(threads[t := Idle], woken);
        got := got + [taken.value];
      } else {
        threads := threads[t := AsleepDeq];
      }
    }

    /** Any action on the object is the step of the state machine. */
    method Act(a: Action<T>)
      requires Enabled(View(), fifo.max, a) && HasBound(fifo.q, fifo.max)
      modifies this, fifo
      ensures View() == Step(old(View()), fifo.max, a) && HasBound(fifo.q, fifo.max)
    {
      match a
      case CallEnq(t, item, blocking) => threads := threads[t := WantEnq(item, blocking)];
      case CallDeq(t) => threads := threads[t := WantDeq];
      case Spurious(t) => threads := WakeUp(threads, Some(t));
      case Pass(t, woken) =>
        if threads[t].WantEnq? {
          RunEnq(t, woken);
        } else {
          RunDeq(t, woken);
        }
    }
  }

  ghost predicate Init<T>(s: State<T>) {
    s.q == [] && s.sent == [] && s.got == [] && forall t :: t in s.threads ==> s.threads[t].Idle?
  }

  ghost predicate Feasible<T>(s: State<T>, max: nat, run: seq<Action<T>>)
    decreases |run|
  {
    run != [] ==> Enabled(s, max, run[0]) && Feasible(Step(s, max, run[0]), max, run[1..])
  }

  function After<T>(s: State<T>, max: nat, run: seq<Action<T>>): State<T>
    requires Feasible(s, max, run)
    decreases |run|
  {
    if run == [] then s else After(Step(s, max, run[0]), max, run[1..])
  }

  // ----- the invariant -----

  /** Nothing lost, nothing reordered, and no more than fits. */
  ghost predicate InOrder<T>(s: State<T>, max: nat) {
    s.got + s.q == s.sent && HasBound(s.q, max)
  }

  /** While consumers sleep there is a consumer on its way for every item; while producers sleep
      there is a producer on its way for every free slot. */
  ghost predicate NoLostSignal<T>(s: State<T>, max: nat) {
    && (SleepsDeq(s.threads) != {} ==> |s.q| <= |WantsDeq(s.threads)|)
    && (SleepsEnq(s.threads) != {} ==> max != 0 && max - |s.q| <= |WantsEnq(s.threads)|)
  }

  ghost predicate Inv<T>(s: State<T>, max: nat) {
    InOrder(s, max) && NoLostSignal(s, max)
  }

  /** How the four groups change when one thread changes. */
  lemma Changed<T>(m: map<nat, Status<T>>, t: nat, x: Status<T>)
    requires t in m
    ensures var m' := m[t := x];
            && WantsDeq(m') == (if x.WantDeq? then WantsDeq(m) + {t} else WantsDeq(m) - {t})
            && WantsEnq(m') == (if x.WantEnq? then WantsEnq(m) + {t} else WantsEnq(m) - {t})
            && SleepsDeq(m') == (if x.AsleepDeq? then SleepsDeq(m) + {t} else SleepsDeq(m) - {t})
            && SleepsEnq(m') == (if x.AsleepEnq? then SleepsEnq(m) + {t} else SleepsEnq(m) - {t})
  {
  }

  lemma StepCalls<T>(s: State<T>, max: nat, a: Action<T>)
    requires Inv(s, max) && Enabled(s, max, a) && !a.Pass?
    ensures Inv(Step(s, max, a), max)
  {
    var x := Step(s, max, a).threads[a.t];
    Changed(s.threads, a.t, x);
  }

  lemma StepSleeps<T>(s: State<T>, max: nat, t: nat)
    requires Inv(s, max) && Enabled(s, max, Pass(t, None))
    requires (s.threads[t].WantEnq? && !HasSpace(s.q, max)) || (s.threads[t].WantDeq? && s.q == [])
    ensures Inv(Step(s, max, Pass(t, None)), max)
  {
    Changed(s.threads, t, Step(s, max, Pass(t, None)).threads[t]);
  }

  /** The groups after thread t has finished and another, if any, was woken from `sleepers`. */
  lemma Finished<T>(m: map<nat, Status<T>>, t: nat, woken: Option<nat>)
    requires t in m && (m[t].WantEnq? || m[t].WantDeq?)
    requires woken.Some? ==> woken.value in m && (m[woken.value].AsleepEnq? || m[woken.value].AsleepDeq?)
    ensures var m' := WakeUp(m[t := Idle], woken);
            var enq := woken.Some? && m[woken.value].AsleepEnq?;
            var deq := woken.Some? && m[woken.value].AsleepDeq?;
            && |WantsDeq(m')| == |WantsDeq(m)| - (if m[t].WantDeq? then 1 else 0) + (if deq then 1 else 0)
            && |WantsEnq(m')| == |WantsEnq(m)| - (if m[t].WantEnq? then 1 else 0) + (if enq then 1 else 0)
            && SleepsDeq(m') <= SleepsDeq(m) && SleepsEnq(m') <= SleepsEnq(m)
  {
    var m1 := m[t := Idle];
    Changed(m, t, Idle);
    if m[t].WantDeq? { assert t in WantsDeq(m); } else { assert t in WantsEnq(m); }
    if woken.Some? { Changed(m1, woken.value, WakeUp(m1, woken)[woken.value]); }
  }

  lemma StepEnq<T>(s: State<T>, max: nat, t: nat, woken: Option<nat>)
    requires Inv(s, max) && Enabled(s, max, Pass(t, woken)) && s.threads[t].WantEnq? && HasSpace(s.q, max)
    ensures Inv(Step(s, max, Pass(t, woken)), max)
  {
    Finished(s.threads, t, woken);
    Regroup(s.got, s.q, [s.threads[t].item]);
  }

  lemma StepDeq<T>(s: State<T>, max: nat, t: nat, woken: Option<nat>)
    requires Inv(s, max) && Enabled(s, max, Pass(t, woken)) && s.threads[t].WantDeq? && s.q != []
    ensures Inv(Step(s, max, Pass(t, woken)), max)
  {
    Finished(s.threads, t, woken);
    Regroup(s.got, [s.q[0]], s.q[1..]);
    assert [s.q[0]] + s.q[1..] == s.q;
  }

  lemma Regroup<T>(a: seq<T>, b: seq<T>, c: seq<T>)
    ensures a + (b + c) == a + b + c
  {
  }

  lemma StepInv<T>(s: State<T>, max: nat, a: Action<T>)
    requires Inv(s, max) && Enabled(s, max, a)
    ensures Inv(Step(s, max, a), max)
  {
    if !a.Pass? {
      StepCalls(s, max, a);
    } else if s.threads[a.t].WantEnq? {
      if HasSpace(s.q, max) { StepEnq(s, max, a.t, a.woken); } else { StepSleeps(s, max, a.t); }
    } else {
      if s.q != [] { StepDeq(s, max, a.t, a.woken); } else { StepSleeps(s, max, a.t); }
    }
  }

  lemma {:induction false} RunInv<T>(s: State<T>, max: nat, run: seq<Action<T>>)
    requires Inv(s, max) && Feasible(s, max, run)
    ensures Inv(After(s, max, run), max)
    decreases |run|
  {
    if run != [] {
      StepInv(s, max, run[0]);
      RunInv(Step(s, max, run[0]), max, run[1..]);
    }
  }

  /** Over every run: first in, first out, within the bound, and no signal lost. */
  lemma QueueSafe<T>(s: State<T>, max: nat, run: seq<Action<T>>)
    requires Init(s) && Feasible(s, max, run)
    ensures var s' := After(s, max, run);
            && s'.got + s'.q == s'.sent && (max != 0 ==> |s'.q| <= max)
            && (SleepsDeq(s'.threads) != {} ==> |s'.q| <= |WantsDeq(s'.threads)|)
            && (SleepsEnq(s'.threads) != {} ==> max != 0 && max - |s'.q| <= |WantsEnq(s'.threads)|)
  {
    RunInv(s, max, run);
  }

  /** Once no thread is on its way, a sleeping consumer means an empty queue and a sleeping
      producer a full one; so the two never sleep together. */
  lemma QuietQueue<T>(s: State<T>, max: nat, run: seq<Action<T>>)
    requires Init(s) && Feasible(s, max, run)
    requires WantsDeq(After(s, max, run).threads) == {} && WantsEnq(After(s, max, run).threads) == {}
    ensures var s' := After(s, max, run);
            && (SleepsDeq(s'.threads) != {} ==> s'.q == [])
            && (SleepsEnq(s'.threads) != {} ==> max != 0 && |s'.q| == max)
            && (SleepsDeq(s'.threads) == {} || SleepsEnq(s'.threads) == {})
  {
    RunInv(s, max, run);
  }
}
