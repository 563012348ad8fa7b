/**
 * Event-channel delivery as interleaved steps: notifications from the hypervisor,
 * unmasking by the guest, and the guest's callback, each broken at every access to
 * shared memory.
 *
 * A port is pending and unmasked until the callback clears it and runs its handler.
 * A selector bit per word of ports and one upcall flag lead the callback there.
 */
module EventChannels {
  const PORTS_PER_WORD: nat := 64

  function Word(p: nat): nat {
    p / PORTS_PER_WORD
  }

  /** Somebody in the middle of a notification or an unmask. */
  datatype Agent =
    | Idle
    | Sent(p: nat)         // has set the pending bit, will look at the mask bit
    | Opened(p: nat)       // has cleared the mask bit, will look at the pending bit
    | Selecting(w: nat)    // will test and set the selector bit
    | Kicking              // has set a selector bit, will raise the upcall flag

  datatype Callback =
    | Off
    | Entered                                          // has cleared the upcall flag
    | Words(l1: set<nat>)                              // has taken the selector bits
    | Inner(l1: set<nat>, w: nat)                      // at the head of the loop over word w
    | Loaded(l1: set<nat>, w: nat, snap: set<nat>)     // has read the pending bits of w
    | Handling(l1: set<nat>, w: nat, p: nat)           // has cleared port p, runs its handler

  datatype State = State(
    pending: set<nat>,
    mask: set<nat>,
    sel: set<nat>,
    upcall: bool,
    agents: seq<Agent>,
    cb: Callback,
    // history: effective notifications, handler runs, and bits cleared by unbinding
    sent: multiset<nat>,
    handled: multiset<nat>,
    dropped: multiset<nat>)

  datatype Action =
    | Send(k: nat, p: nat)
    | CheckMask(k: nat)
    | Unmask(k: nat, p: nat)
    | CheckPending(k: nat)
    | Select(k: nat)
    | Kick(k: nat)
    | Mask(p: nat)
    | Clear(p: nat)
    | Enter
    | Exchange
    | PickWord
    | Load
    | Test
    | Return
    | Leave

  // ---------------------------------------------------------------------------
  // The steps
  // ---------------------------------------------------------------------------

  function Least(s: set<nat>): (m: nat)
    requires s != {}
    ensures m in s && forall x: nat | x in s :: m <= x
  {
    LeastExists(s);
    var m: nat :| m in s && forall x: nat | x in s :: m <= x;
    m
  }

  lemma LeastExists(s: set<nat>)
    requires s != {}
    ensures exists m: nat :: m in s && forall x: nat | x in s :: m <= x
  {
    var a: nat :| a in s;
    var m := LeastFrom(s, 0, a);
  }

  lemma {:induction false} LeastFrom(s: set<nat>, n: nat, a: nat) returns (m: nat)
    requires a in s && n <= a && forall x: nat | x in s :: n <= x
    ensures m in s && forall x: nat | x in s :: m <= x
    decreases a - n
  {
    if n in s {
      m := n;
    } else {
      m := LeastFrom(s, n + 1, a);
    }
  }

  predicate Enabled(s: State, a: Action) {
    match a
    case Send(k, _) => k < |s.agents| && s.agents[k].Idle?
    case CheckMask(k) => k < |s.agents| && s.agents[k].Sent?
    case Unmask(k, _) => k < |s.agents| && s.agents[k].Idle?
    case CheckPending(k) => k < |s.agents| && s.agents[k].Opened?
    case Select(k) => k < |s.agents| && s.agents[k].Selecting?
    case Kick(k) => k < |s.agents| && s.agents[k].Kicking?
    case Mask(_) => true
    // Unbinding runs on the virtual CPU of the callback: in a handler, or while no callback is under way.
    case Clear(_) => !s.cb.Loaded?
    case Enter => s.cb.Off?
    case Exchange => s.cb.Entered?
    case PickWord => s.cb.Words? && s.cb.l1 != {}
    case Load => s.cb.Inner?
    case Test => s.cb.Loaded?
    case Return => s.cb.Handling?
    case Leave => s.cb.Words? && s.cb.l1 == {}
  }

  function Put(s: State, k: nat, g: Agent): State
    requires k < |s.agents|
  {
    s.(agents := s.agents[k := g])
  }

  function Apply(s: State, a: Action): State
    requires Enabled(s, a)
  {
    match a
    case Send(k, p) =>
      if p in s.pending then s
      else Put(s, k, Sent(p)).(pending := s.pending + {p}, sent := s.sent + multiset{p})
    case CheckMask(k) =>
      Put(s, k, if s.agents[k].p in s.mask then Idle else Selecting(Word(s.agents[k].p)))
    case Unmask(k, p) => Put(s, k, Opened(p)).(mask := s.mask - {p})
    case CheckPending(k) =>
      Put(s, k, if s.agents[k].p in s.pending then Selecting(Word(s.agents[k].p)) else Idle)
    case Select(k) =>
      if s.agents[k].w in s.sel then Put(s, k, Idle)
      else Put(s, k, Kicking).(sel := s.sel + {s.agents[k].w})
    case Kick(k) => Put(s, k, Idle).(upcall := true)
    case Mask(p) => s.(mask := s.mask + {p})
    case Clear(p) =>
      if p in s.pending then s.(pending := s.pending - {p}, dropped := s.dropped + multiset{p}) else s
    case Enter => s.(upcall := false, cb := Entered)
    case Exchange => s.(sel := {}, cb := Words(s.sel))
    case PickWord => s.(cb := Inner(s.cb.l1 - {Least(s.cb.l1)}, Least(s.cb.l1)))
    case Load => s.(cb := Loaded(s.cb.l1, s.cb.w, set p | p in s.pending && Word(p) == s.cb.w))
    case Test =>
      var active := s.cb.snap - s.mask;
      if active == {} then s.(cb := Words(s.cb.l1))
      else
        var p := Least(active);
        s.(cb := Handling(s.cb.l1, s.cb.w, p), handled := s.handled + multiset{p}, pending := s.pending - {p})
    case Return => s.(cb := Inner(s.cb.l1, s.cb.w))
    case Leave => s.(cb := Off)
  }

  // ---------------------------------------------------------------------------
  // No event is lost
  // ---------------------------------------------------------------------------

  /** An agent that will still make the callback look at port `p`. */
  predicate Minds(g: Agent, p: nat) {
    g == Sent(p) || g == Opened(p) || g == Selecting(Word(p))
  }

  ghost predicate Minded(agents: seq<Agent>, p: nat) {
    exists k: nat | k < |agents| :: Minds(agents[k], p)
  }

  /** The running callback will still look at port `p`. */
  predicate Ahead(cb: Callback, p: nat) {
    match cb
    case Off => false
    case Entered => false
    case Words(l1) => Word(p) in l1
    case Inner(l1, w) => Word(p) in l1 || Word(p) == w
    case Loaded(l1, w, snap) => Word(p) in l1 || (Word(p) == w && p in snap)
    case Handling(l1, w, _) => Word(p) in l1 || Word(p) == w
  }

  /** The callback will find its way to port `p`. */
  ghost predicate Reached(s: State, p: nat) {
    Word(p) in s.sel || Ahead(s.cb, p) || Minded(s.agents, p)
  }

  ghost predicate NoneLost(s: State) {
    forall p: nat | p in s.pending && p !in s.mask :: Reached(s, p)
  }

  ghost predicate Kicked(agents: seq<Agent>) {
    exists k: nat | k < |agents| :: agents[k].Kicking?
  }

  /** A selector bit has the upcall flag behind it, or somebody who will see to it. */
  ghost predicate Raised(s: State) {
    s.sel != {} ==> s.upcall || s.cb.Entered? || Kicked(s.agents)
  }

  /** Every effective notification is still pending, was handled, or was dropped by unbinding. */
  ghost predicate Counted(s: State) {
    && (s.cb.Loaded? ==> s.cb.snap <= s.pending)
    && forall p: nat :: s.sent[p] == s.handled[p] + s.dropped[p] + if p in s.pending then 1 else 0
  }

  ghost predicate Inv(s: State) {
    NoneLost(s) && Raised(s) && Counted(s)
  }

  lemma MindedKept(agents: seq<Agent>, k: nat, g: Agent, p: nat)
    requires k < |agents| && Minded(agents, p) && (Minds(agents[k], p) ==> Minds(g, p))
    ensures Minded(agents[k := g], p)
  {
    var j: nat :| j < |agents| && Minds(agents[j], p);
    assert Minds(agents[k := g][j], p);
  }

  lemma MindedNow(agents: seq<Agent>, k: nat, p: nat)
    requires k < |agents| && Minds(agents[k], p)
    ensures Minded(agents, p)
  {
  }

  lemma KickedKept(agents: seq<Agent>, k: nat, g: Agent)
    requires k < |agents| && Kicked(agents) && (agents[k].Kicking? ==> g.Kicking?)
    ensures Kicked(agents[k := g])
  {
    var j: nat :| j < |agents| && agents[j].Kicking?;
    assert agents[k := g][j].Kicking?;
  }

  lemma KickedNow(agents: seq<Agent>, k: nat)
    requires k < |agents| && agents[k].Kicking?
    ensures Kicked(agents)
  {
  }

  /** Agent steps, for one port. */
  lemma AgentReaches(s: State, a: Action, p: nat)
    requires Enabled(s, a) && (a.Send? || a.CheckMask? || a.Unmask? || a.CheckPending? || a.Select? || a.Kick?)
    requires p in s.pending && p !in s.mask ==> Reached(s, p)
    requires p in Apply(s, a).pending && p !in Apply(s, a).mask
    ensures Reached(Apply(s, a), p)
  {
    hide Minded;
    var s', k := Apply(s, a), a.k;
    if Minds(s'.agents[k], p) {
      MindedNow(s'.agents, k, p);
    } else if s'.agents != s.agents && Minded(s.agents, p) && !Minds(s.agents[k], p) {
      MindedKept(s.agents, k, s'.agents[k], p);
    }
  }

  lemma NoneLostKept(s: State, a: Action)
    requires Inv(s) && Enabled(s, a)
    ensures NoneLost(Apply(s, a))
  {
    hide Minded, Kicked, Raised;
    var s' := Apply(s, a);
    forall p: nat | p in s'.pending && p !in s'.mask
      ensures Reached(s', p)
    {
      if a.Send? || a.CheckMask? || a.Unmask? || a.CheckPending? || a.Select? || a.Kick? {
        AgentReaches(s, a, p);
      } else {
        assert p in s.pending;
        if a.Test? && p in s.cb.snap {
          assert p in s.cb.snap - s.mask;
        }
        assert a.Mask? || Reached(s, p);
      }
    }
  }

  lemma RaisedKept(s: State, a: Action)
    requires Inv(s) && Enabled(s, a)
    ensures Raised(Apply(s, a))
  {
    hide NoneLost, Counted, Kicked;
    var s' := Apply(s, a);
    if a.Send? || a.CheckMask? || a.Unmask? || a.CheckPending? || a.Select? || a.Kick? {
      if s'.agents[a.k].Kicking? {
        KickedNow(s'.agents, a.k);
      } else if s'.agents != s.agents && Kicked(s.agents) && !s.agents[a.k].Kicking? {
        KickedKept(s.agents, a.k, s'.agents[a.k]);
      }
    }
  }

  lemma CountedKept(s: State, a: Action)
    requires Inv(s) && Enabled(s, a)
    ensures Counted(Apply(s, a))
  {
    hide NoneLost, Raised;
  }

  lemma StepKeeps(s: State, a: Action)
    requires Inv(s) && Enabled(s, a)
    ensures Inv(Apply(s, a))
  {
    hide NoneLost, Raised, Counted;
    NoneLostKept(s, a);
    RaisedKept(s, a);
    CountedKept(s, a);
  }

  /** The actions lead from `s` to `s'`. */
  ghost predicate Path(s: State, actions: seq<Action>, s': State)
    decreases |actions|
  {
    if actions == [] then s == s' else Enabled(s, actions[0]) && Path(Apply(s, actions[0]), actions[1..], s')
  }

  ghost predicate Initial(s: State) {
    && s.pending == {} && s.sel == {} && !s.upcall && s.cb.Off?
    && (forall k: nat | k < |s.agents| :: s.agents[k].Idle?)
    && s.sent == s.handled == s.dropped == multiset{}
  }

  lemma {:induction false} AlwaysHolds(s: State, actions: seq<Action>, s': State)
    requires Inv(s) && Path(s, actions, s')
    ensures Inv(s')
    decreases |actions|
  {
    hide Inv, Apply, Enabled;
    if actions != [] {
      StepKeeps(s, actions[0]);
      AlwaysHolds(Apply(s, actions[0]), actions[1..], s');
    }
  }

  /** Nobody is in the middle of anything, and the callback has nothing to do. */
  ghost predicate Quiescent(s: State) {
    s.cb.Off? && !s.upcall && forall k: nat | k < |s.agents| :: s.agents[k].Idle?
  }

  /**
   * No lost event: whatever the interleaving was, once everything is quiet no
   * unmasked port is pending, and every notification of an unmasked port has had
   * its own handler run unless unbinding dropped it.
   */
  lemma NoLostEvent(s: State, actions: seq<Action>, s': State)
    requires Initial(s) && Path(s, actions, s') && Quiescent(s')
    ensures forall p: nat | p !in s'.mask :: p !in s'.pending && s'.sent[p] == s'.handled[p] + s'.dropped[p]
  {
    AlwaysHolds(s, actions, s');
  }

  // ---------------------------------------------------------------------------
  // Zeroing the selector and the flag, as the shutdown of all ports does
  // ---------------------------------------------------------------------------

  function Zeroed(s: State): State {
    s.(sel := {}, upcall := false)
  }

  /** With nobody in the middle of anything, zeroing loses no event exactly when no unmasked port is pending. */
  lemma ZeroedExactly(s: State)
    requires s.cb.Off? && forall k: nat | k < |s.agents| :: s.agents[k].Idle?
    ensures NoneLost(Zeroed(s)) <==> forall p: nat | p in s.pending :: p in s.mask
  {
    forall p: nat
      ensures !Reached(Zeroed(s), p)
    {
    }
  }

  /** A fresh machine with one agent and all ports open. */
  function Started(): State {
    State({}, {}, {}, false, [Idle], Off, multiset{}, multiset{}, multiset{})
  }

  /** Port 5 was notified; nobody has looked yet. */
  function Notified(): State {
    State({5}, {}, {0}, true, [Idle], Off, multiset{5}, multiset{}, multiset{})
  }

  /** A port that the shutdown skips and that is pending then loses its event. */
  lemma ZeroedLoses()
    ensures Initial(Started()) && exists actions: seq<Action> :: Path(Started(), actions, Notified())
    ensures Quiescent(Zeroed(Notified())) && 5 in Zeroed(Notified()).pending && 5 !in Zeroed(Notified()).mask
  {
    var s := Started();
    var s1 := s.(pending := {5}, agents := [Sent(5)], sent := multiset{5});
    var s2 := s1.(agents := [Selecting(0)]);
    var s3 := s2.(agents := [Kicking], sel := {0});
    var e := Notified();
    hide Path;
    OneStep(s3, Kick(0), e, [], e);
    assert [Kick(0)] + [] == [Kick(0)];
    OneStep(s2, Select(0), s3, [Kick(0)], e);
    assert [Select(0)] + [Kick(0)] == [Select(0), Kick(0)];
    OneStep(s1, CheckMask(0), s2, [Select(0), Kick(0)], e);
    assert [CheckMask(0)] + [Select(0), Kick(0)] == [CheckMask(0), Select(0), Kick(0)];
    OneStep(s, Send(0, 5), s1, [CheckMask(0), Select(0), Kick(0)], e);
  }

  lemma OneStep(s: State, a: Action, s1: State, rest: seq<Action>, s': State)
    requires Enabled(s, a) && Apply(s, a) == s1 && (if rest == [] then s1 == s' else Path(s1, rest, s'))
    ensures Path(s, [a] + rest, s')
  {
    hide Apply, Enabled;
    assert ([a] + rest)[1..] == rest;
  }
}
