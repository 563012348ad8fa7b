/**
 * The round-robin scheduler: the run list, waking of expired sleepers while it is
 * searched, and what becomes of a thread that stays ready.
 */
module Scheduler {
  import opened Options

  /** The scheduler's variables as one value; a wakeup time of 0 means none. */
  datatype State = State(
    list: seq<nat>,                // the run list, next candidate first
    runnable: set<nat>,
    wakeup: map<nat, nat>,
    exited: seq<nat>,
    unstarted: set<nat>,           // threads that have never run
    clock: nat)

  function WakeupOf(w: map<nat, nat>, t: nat): nat {
    if t in w then w[t] else 0
  }

  /** Thread `t` may run: it is runnable, or its sleep is over. */
  predicate Ready(s: State, t: nat) {
    t in s.runnable || 0 < WakeupOf(s.wakeup, t) <= s.clock
  }

  ghost predicate Distinct(l: seq<nat>) {
    forall i: nat, j: nat | i < j < |l| :: l[i] != l[j]
  }

  /** Every thread is on the run list once, or has exited. */
  ghost predicate Valid(s: State) {
    Distinct(s.list) && forall t: nat | t in s.exited :: t !in s.list
  }

  // ---------------------------------------------------------------------------
  // What the operations do
  // ---------------------------------------------------------------------------

  datatype Op =
    | Tick(span: nat)
    | Schedule
    | Wake(t: nat)
    | Block(t: nat)
    | Sleep(t: nat, span: nat)
    | Create(t: nat)
    | Exit(t: nat)

  /** The first ready thread from position `i` on, or the length of the list. */
  function FirstReady(s: State, i: nat): (k: nat)
    requires i <= |s.list|
    ensures i <= k <= |s.list|
    ensures k < |s.list| ==> Ready(s, s.list[k])
    ensures forall j: nat | i <= j < k :: !Ready(s, s.list[j])
    decreases |s.list| - i
  {
    if i == |s.list| || Ready(s, s.list[i]) then i else FirstReady(s, i + 1)
  }

  function Awake(s: State, t: nat): State {
    s.(runnable := s.runnable + {t}, wakeup := s.wakeup[t := 0])
  }

  function Without(l: seq<nat>, k: nat): seq<nat>
    requires k < |l|
  {
    l[..k] + l[k + 1..]
  }

  /**
   * Thread number `k` of the list is chosen: awake, and last in line from now on.
   * It continues in the call of the scheduler that it made itself, with its own
   * stack and its own idea of the previous thread, and frees all exited threads
   * there.  A thread that has never run begins elsewhere and frees none.
   */
  function Chosen(s: State, k: nat): State
    requires k < |s.list|
  {
    var t := s.list[k];
    var s1 := if t in s.runnable then s else Awake(s, t);
    s1.(list := Without(s.list, k) + [t],
        exited := if t in s.unstarted then s.exited else [],
        unstarted := s.unstarted - {t})
  }

  function IndexOf(l: seq<nat>, t: nat): (k: nat)
    ensures k <= |l| && (k < |l| ==> l[k] == t) && (t in l ==> k < |l|)
  {
    if |l| == 0 || l[0] == t then 0 else 1 + IndexOf(l[1..], t)
  }

  /** The state afterwards, and the thread that a call of the scheduler picks. */
  function Do(s: State, op: Op): (State, Option<nat>) {
    match op
    case Tick(span) => (s.(clock := s.clock + span), None)
    case Schedule =>
      var k := FirstReady(s, 0);
      if k == |s.list| then (s, None) else (Chosen(s, k), Some(s.list[k]))
    case Wake(t) => (Awake(s, t), None)
    case Block(t) => (s.(runnable := s.runnable - {t}, wakeup := s.wakeup[t := 0]), None)
    case Sleep(t, span) => (s.(runnable := s.runnable - {t}, wakeup := s.wakeup[t := s.clock + span]), None)
    case Create(t) =>
      if t in s.list || t in s.exited then (s, None)
      else (s.(list := s.list + [t], runnable := s.runnable + {t}, wakeup := s.wakeup[t := 0],
               unstarted := s.unstarted + {t}), None)
    case Exit(t) =>
      var k := IndexOf(s.list, t);
      if k == |s.list| then (s, None)
      else (s.(list := Without(s.list, k), runnable := s.runnable - {t}, exited := [t] + s.exited,
               unstarted := s.unstarted - {t}), None)
  }

  // ---------------------------------------------------------------------------
  // Positions
  // ---------------------------------------------------------------------------

  lemma {:induction false} IndexUnique(l: seq<nat>, t: nat, k: nat)
    requires k < |l| && l[k] == t && Distinct(l)
    ensures IndexOf(l, t) == k
  {
    if k > 0 {
      assert l[0] != l[k];
      IndexUnique(l[1..], t, k - 1);
    }
  }

  lemma WithoutAt(l: seq<nat>, k: nat, j: nat)
    requires k < |l| && j < |l| - 1
    ensures |Without(l, k)| == |l| - 1 && Without(l, k)[j] == l[if j < k then j else j + 1]
  {
  }

  lemma WithoutDistinct(l: seq<nat>, k: nat)
    requires k < |l| && Distinct(l)
    ensures Distinct(Without(l, k)) && l[k] !in Without(l, k)
    ensures forall t: nat | t in Without(l, k) :: t in l
  {
    hide Without;
    var r := Without(l, k);
    WithoutLength(l, k);
    forall i: nat, j: nat | i < j < |r|
      ensures r[i] != r[j]
    {
      WithoutAt(l, k, i);
      WithoutAt(l, k, j);
    }
    forall i: nat | i < |r|
      ensures r[i] != l[k] && r[i] in l
    {
      WithoutAt(l, k, i);
    }
  }

  lemma WithoutLength(l: seq<nat>, k: nat)
    requires k < |l|
    ensures |Without(l, k)| == |l| - 1
  {
  }

  /** Who stands before `t` in line moves `t` up by leaving; who stands behind does not. */
  lemma LeavesInLine(l: seq<nat>, k: nat, p: nat, tail: seq<nat>)
    requires k < |l| && p < |l| && p != k && Distinct(Without(l, k) + tail)
    ensures IndexOf(Without(l, k) + tail, l[p]) == (if p < k then p else p - 1) && l[p] in Without(l, k) + tail
  {
    var q := if p < k then p else p - 1;
    WithoutAt(l, k, q);
    IndexUnique(Without(l, k) + tail, l[p], q);
  }

  lemma MovedDistinct(l: seq<nat>, k: nat)
    requires k < |l| && Distinct(l)
    ensures Distinct(Without(l, k) + [l[k]]) && forall t: nat | t in Without(l, k) + [l[k]] :: t in l
  {
    hide Without;
    WithoutDistinct(l, k);
  }

  /** Every operation keeps threads apart; a thread that has exited is never picked. */
  lemma OpKeepsValid(s: State, op: Op)
    requires Valid(s)
    ensures Valid(Do(s, op).0)
    ensures Do(s, op).1.Some? ==> Do(s, op).1.value in s.list && Do(s, op).1.value !in s.exited
  {
    hide Without;
    match op {
      case Schedule =>
        var k := FirstReady(s, 0);
        if k < |s.list| {
          MovedDistinct(s.list, k);
        }
      case Exit(t) =>
        var k := IndexOf(s.list, t);
        if k < |s.list| {
          WithoutDistinct(s.list, k);
        }
      case _ =>
    }
  }

  // ---------------------------------------------------------------------------
  // Bounded waiting
  // ---------------------------------------------------------------------------

  /** The operation does not take `t` out of the race. */
  predicate Spares(op: Op, t: nat) {
    match op
    case Block(u) => u != t
    case Sleep(u, _) => u != t
    case Exit(u) => u != t
    case _ => true
  }

  /** Place of `t` in line. */
  function Place(s: State, t: nat): nat {
    IndexOf(s.list, t)
  }

  /** One operation: `t` stays ready and never falls back; a call of the scheduler picks it or moves it up. */
  lemma StepForward(s: State, op: Op, t: nat)
    requires Valid(s) && t in s.list && Ready(s, t) && Spares(op, t)
    ensures var r := Do(s, op);
            || r.1 == Some(t)
            || (t in r.0.list && Ready(r.0, t) && Place(r.0, t) <= Place(s, t) &&
              (op.Schedule? ==> Place(r.0, t) < Place(s, t)))
  {
    hide Without, FirstReady;
    OpKeepsValid(s, op);
    var r, p := Do(s, op).0, Place(s, t);
    match op {
      case Schedule =>
        var k := FirstReady(s, 0);
        assert s.list[p] == t && k <= p;
        if k != p {
          MovedDistinct(s.list, k);
          LeavesInLine(s.list, k, p, [s.list[k]]);
        }
      case Create(u) =>
        if u !in s.list && u !in s.exited {
          IndexUnique(r.list, t, p);
        }
      case Exit(u) =>
        var k := IndexOf(s.list, u);
        if k < |s.list| {
          assert Without(s.list, k) + [] == Without(s.list, k);
          LeavesInLine(s.list, k, p, []);
        }
      case _ =>
    }
  }

  /** `t` is picked by one of the first `n` calls of the scheduler in `ops`. */
  predicate PickedWithin(s: State, ops: seq<Op>, t: nat, n: nat)
    decreases |ops|
  {
    |ops| > 0 && n > 0 &&
    var r := Do(s, ops[0]);
    r.1 == Some(t) || PickedWithin(r.0, ops[1..], t, if ops[0].Schedule? then n - 1 else n)
  }

  function Schedules(ops: seq<Op>): nat {
    if |ops| == 0 then 0 else (if ops[0].Schedule? then 1 else 0) + Schedules(ops[1..])
  }

  lemma {:induction false} PickedSooner(s: State, ops: seq<Op>, t: nat, n: nat, m: nat)
    requires PickedWithin(s, ops, t, n) && n <= m
    ensures PickedWithin(s, ops, t, m)
    decreases |ops|
  {
    hide Do;
    var r := Do(s, ops[0]);
    if r.1 != Some(t) {
      var d := if ops[0].Schedule? then 1 else 0;
      PickedSooner(r.0, ops[1..], t, n - d, m - d);
    }
  }

  /**
   * Bounded waiting: a thread that is ready at place `p` of the run list, and that
   * nobody blocks, puts to sleep or ends, is picked within `p + 1` calls of the
   * scheduler, whatever else wakes, sleeps, is created or exits in between.
   */
  lemma {:induction false} BoundedWaiting(s: State, ops: seq<Op>, t: nat)
    requires Valid(s) && t in s.list && Ready(s, t)
    requires forall i: nat | i < |ops| :: Spares(ops[i], t)
    requires Schedules(ops) > Place(s, t)
    ensures PickedWithin(s, ops, t, Place(s, t) + 1)
    decreases |ops|
  {
    hide Do, Ready, Valid, Place;
    var r := Do(s, ops[0]);
    StepForward(s, ops[0], t);
    if r.1 != Some(t) {
      OpKeepsValid(s, ops[0]);
      BoundedWaiting(r.0, ops[1..], t);
      PickedSooner(r.0, ops[1..], t, Place(r.0, t) + 1, if ops[0].Schedule? then Place(s, t) else Place(s, t) + 1);
    }
  }

  // ---------------------------------------------------------------------------
  // The scheduler itself
  // ---------------------------------------------------------------------------

  /** Ten seconds, in nanoseconds. */
  const LONGEST_WAIT: nat := 10_000_000_000

  /** What happens while the domain is blocked: time passes, event handlers wake threads. */
  datatype Pause = Pause(span: nat, woken: seq<nat>)

  class RunQueue {
    var list: seq<nat>
    var runnable: set<nat>
    var wakeup: map<nat, nat>
    var exited: seq<nat>
    var unstarted: set<nat>
    var clock: nat

    ghost function View(): State
      reads this
    {
      State(list, runnable, wakeup, exited, unstarted, clock)
    }

    method WakeThread(t: nat)
      modifies this`runnable, this`wakeup
      ensures View() == Do(old(View()), Wake(t)).0
    {
      wakeup := wakeup[t := 0];
      runnable := runnable + {t};
    }

    /** Thread number `i` of the list goes to its end. */
    method MoveLast(i: nat)
      requires i < |list|
      modifies this`list
      ensures list == Without(old(list), i) + [old(list)[i]]
    {
      var t := list[i];
      list := list[..i] + list[i + 1..];
      list := list + [t];
    }

    /** Look at all threads in order; take the first one that may run and put it last. */
    method Scan() returns (next: Option<nat>, minWakeup: nat)
      modifies this`list, this`runnable, this`wakeup
      ensures var k := FirstReady(old(View()), 0);
              if k < |old(list)| then next == Some(old(list)[k]) &&
                View() == Chosen(old(View()), k).(exited := exited, unstarted := unstarted)
              else next == None && View() == old(View())
      ensures next.None? ==>
                && clock < minWakeup <= clock + LONGEST_WAIT
                && forall u: nat | u in list && WakeupOf(wakeup, u) != 0 :: minWakeup <= WakeupOf(wakeup, u)
    {
      hide Without;
      minWakeup := clock + LONGEST_WAIT;
      var i := 0;
      while i < |list|
        invariant i <= |list| && View() == old(View())
        invariant FirstReady(View(), 0) == FirstReady(View(), i)
        invariant clock < minWakeup <= clock + LONGEST_WAIT
        invariant forall j: nat | j < i && WakeupOf(wakeup, list[j]) != 0 :: minWakeup <= WakeupOf(wakeup, list[j])
      {
        var t := list[i];
        if t !in runnable && WakeupOf(wakeup, t) != 0 {
          if WakeupOf(wakeup, t) <= clock {
            WakeThread(t);
          } else if WakeupOf(wakeup, t) < minWakeup {
            minWakeup := WakeupOf(wakeup, t);
          }
        }
        if t in runnable {
          MoveLast(i);
          return Some(t), minWakeup;
        }
        i := i + 1;
      }
      next := None;
    }

    /**
     * Pick the next thread.  While nobody may run, the domain blocks and events are
     * handled, as `pauses` tells; no result means that nobody became ready.
     */
    method Pick(pauses: seq<Pause>) returns (next: Option<nat>)
      modifies this
      ensures (exists t: nat | t in old(list) :: Ready(old(View()), t)) ==>
                (View(), next) == Do(old(View()), Schedule)
      ensures next.Some? ==>
                && next.value in runnable && next.value !in unstarted
                && exited == (if next.value in old(unstarted) then old(exited) else [])
                && exists k: nat | k < |old(list)| ::
                     old(list)[k] == next.value && list == Without(old(list), k) + [next.value]
      ensures next.None? ==> list == old(list) && exited == old(exited)
    {
      hide Without;
      ghost var start := View();
      var n := 0;
      while true
        invariant n <= |pauses| && (n > 0 ==> forall t: nat | t in start.list :: !Ready(start, t))
        invariant n == 0 ==> View() == start
        invariant list == start.list && exited == start.exited && unstarted == start.unstarted
        decreases |pauses| - n
      {
        ghost var before := View();
        var min;
        next, min := Scan();
        if next.Some? {
          if next.value !in unstarted {
            exited := [];
          }
          unstarted := unstarted - {next.value};
          return;
        }
        assert n == 0 ==> forall t: nat | t in start.list :: !Ready(start, t) by {
          NobodyReady(before);
        }
        if n == |pauses| {
          return;
        }
        PassTime(pauses[n]);
        n := n + 1;
      }
    }

    method PassTime(p: Pause)
      modifies this`clock, this`runnable, this`wakeup
    {
      clock := clock + p.span;
      var k := 0;
      while k < |p.woken| {
        WakeThread(p.woken[k]);
        k := k + 1;
      }
    }
  }

  lemma NobodyReady(s: State)
    requires FirstReady(s, 0) == |s.list|
    ensures forall t: nat | t in s.list :: !Ready(s, t)
  {
  }
}
