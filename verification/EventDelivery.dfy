/**
 * The guest's side of event delivery as it runs: the callback's nested loops, the
 * loop that forces callbacks, unmasking, and the shutdown that unbinds all ports.
 *
 * Between any two accesses of the guest to the shared page, remote parties may take
 * steps of their own notifications; while handlers run, so may the handlers.  What
 * they do is a finite script of the steps of `EventChannels`.
 */
module EventDelivery {
  import opened EventChannels

  /** A step of a remote party; the guest itself is agent 0. */
  predicate Remote(a: Action) {
    (a.Send? || a.CheckMask? || a.Select? || a.Kick?) && a.k > 0
  }

  /** A step of somebody's notification or unmask. */
  predicate AgentAction(a: Action) {
    a.Send? || a.CheckMask? || a.Unmask? || a.CheckPending? || a.Select? || a.Kick?
  }

  /** The agent can take the step. */
  predicate Able(agents: seq<Agent>, a: Action)
    requires AgentAction(a)
  {
    a.k < |agents| &&
    match a
    case Send(k, _) => agents[k].Idle?
    case CheckMask(k) => agents[k].Sent?
    case Unmask(k, _) => agents[k].Idle?
    case CheckPending(k) => agents[k].Opened?
    case Select(k) => agents[k].Selecting?
    case Kick(k) => agents[k].Kicking?
  }

  /** Nobody but the guest is in the middle of anything. */
  ghost predicate Alone(agents: seq<Agent>) {
    forall k: nat | 0 < k < |agents| :: agents[k].Idle?
  }

  /** What remote steps may change: bits and the flag are raised, notifications are counted. */
  ghost predicate RaisedOnly(s: State, s': State) {
    && s.pending <= s'.pending && s.sel <= s'.sel && (s.upcall ==> s'.upcall)
    && s'.mask == s.mask && s'.cb == s.cb && s'.handled == s.handled && s'.dropped == s.dropped
    && |s'.agents| == |s.agents| && (|s.agents| > 0 ==> s'.agents[0] == s.agents[0])
  }

  lemma RemoteRaises(s: State, a: Action)
    requires Enabled(s, a) && Remote(a)
    ensures RaisedOnly(s, Apply(s, a))
  {
  }

  /** What a step of the guest's own unmask does. */
  ghost predicate OwnOnly(s: State, s': State, a: Action) {
    && s'.pending == s.pending && s'.cb == s.cb
    && s'.sent == s.sent && s'.handled == s.handled && s'.dropped == s.dropped
    && |s.agents| > 0 && |s'.agents| > 0 && s'.agents == s.agents[0 := s'.agents[0]]
    && s'.mask == (if a.Unmask? then s.mask - {a.p} else s.mask)
    && (a.Unmask? || a.CheckPending? ==> s'.sel == s.sel && s'.upcall == s.upcall)
    && (a.Unmask? ==> s'.agents[0].Opened?)
    && (a.CheckPending? ==> s'.agents[0].Idle? || s'.agents[0].Selecting?)
    && (a.Select? ==> s'.upcall == s.upcall && (s'.agents[0].Kicking? || (s'.agents[0].Idle? && s'.sel == s.sel)))
    && (a.Kick? ==> s'.agents[0].Idle? && s'.upcall)
  }

  lemma OwnStep(s: State, a: Action)
    requires Enabled(s, a) && (a.Unmask? || a.CheckPending? || a.Select? || a.Kick?) && a.k == 0
    ensures OwnOnly(s, Apply(s, a), a)
  {
  }

  class SharedInfo {
    var pending: set<nat>
    var mask: set<nat>
    var sel: set<nat>
    var upcall: bool
    var upcallMask: bool
    var bound: set<nat>
    var agents: seq<Agent>
    /** What happens at each of the next moments. */
    var script: seq<seq<Action>>
    /** How far the callback has got, and the history. */
    ghost var cb: Callback
    ghost var sent: multiset<nat>
    ghost var handled: multiset<nat>
    ghost var dropped: multiset<nat>

    ghost function View(): State
      reads this
    {
      State(pending, mask, sel, upcall, agents, cb, sent, handled, dropped)
    }

    /** No event is lost so far, and the guest itself is not in the middle of an unmask. */
    ghost predicate Valid()
      reads this
    {
      Inv(View()) && |agents| > 0 && agents[0].Idle?
    }

    ghost predicate NothingDue()
      reads this
    {
      forall p: nat | p in pending :: p in mask
    }

    // -------------------------------------------------------------------------
    // Steps of others
    // -------------------------------------------------------------------------

    method AgentStep(a: Action)
      requires Inv(View()) && AgentAction(a) && Able(agents, a)
      modifies this`pending, this`mask, this`sel, this`upcall, this`agents, this`sent
      ensures View() == Apply(old(View()), a) && Inv(View())
    {
      hide Inv;
      StepKeeps(View(), a);
      var k := a.k;
      match a {
        case Send(_, p) =>
          if p !in pending {
            pending := pending + {p};
            sent := sent + multiset{p};
            agents := agents[k := Sent(p)];
          }
        case CheckMask(_) =>
          agents := agents[k := if agents[k].p in mask then Idle else Selecting(Word(agents[k].p))];
        case Unmask(_, p) =>
          mask := mask - {p};
          agents := agents[k := Opened(p)];
        case CheckPending(_) =>
          agents := agents[k := if agents[k].p in pending then Selecting(Word(agents[k].p)) else Idle];
        case Select(_) =>
          if agents[k].w in sel {
            agents := agents[k := Idle];
          } else {
            sel := sel + {agents[k].w};
            agents := agents[k := Kicking];
          }
        case Kick(_) =>
          upcall := true;
          agents := agents[k := Idle];
      }
    }

    /** What remote parties do at this moment. */
    method Meanwhile()
      requires Inv(View())
      modifies this`pending, this`mask, this`sel, this`upcall, this`agents, this`sent, this`script
      ensures Inv(View()) && RaisedOnly(old(View()), View())
      ensures script == if old(script) == [] then [] else old(script)[1..]
      ensures old(script) == [] ==> View() == old(View())
    {
      hide Inv, Apply;
      if script == [] {
        return;
      }
      var now, i := script[0], 0;
      script := script[1..];
      while i < |now|
        invariant i <= |now| && Inv(View()) && RaisedOnly(old(View()), View()) && script == old(script)[1..]
      {
        if Remote(now[i]) && Able(agents, now[i]) {
          RemoteRaises(View(), now[i]);
          AgentStep(now[i]);
        }
        i := i + 1;
      }
    }

    // -------------------------------------------------------------------------
    // The guest
    // -------------------------------------------------------------------------

    method MaskEvtchn(p: nat)
      modifies this`mask
      ensures View() == Apply(old(View()), Mask(p)) && (old(Inv(View())) ==> Inv(View()))
      ensures mask == old(mask) + {p}
    {
      hide Inv;
      if Inv(View()) {
        StepKeeps(View(), Mask(p));
      }
      mask := mask + {p};
    }

    method ClearEvtchn(p: nat)
      requires !cb.Loaded?
      modifies this`pending, this`dropped
      ensures View() == Apply(old(View()), Clear(p)) && (old(Inv(View())) ==> Inv(View()))
      ensures pending == old(pending) - {p}
    {
      hide Inv;
      if Inv(View()) {
        StepKeeps(View(), Clear(p));
      }
      if p in pending {
        pending := pending - {p};
        dropped := dropped + multiset{p};
      }
    }

    /** The guest's own unmask, with what others do in between, up to the point where a callback would be forced. */
    method Resend(p: nat) returns (raised: bool)
      requires Valid()
      modifies this`pending, this`mask, this`sel, this`upcall, this`agents, this`sent, this`script
      ensures Valid() && |agents| == old(|agents|) && cb == old(cb) && handled == old(handled)
      ensures mask == old(mask) - {p} && old(pending) <= pending
      ensures |script| <= old(|script|)
      ensures raised ==> upcall
      ensures old(script) == [] ==>
                script == [] && agents == old(agents) && pending == old(pending) && sent == old(sent)
      ensures old(script) == [] && !raised ==> upcall == old(upcall) && sel == old(sel)
    {
      hide Inv, Apply;
      OwnStep(View(), Unmask(0, p));
      AgentStep(Unmask(0, p));
      Meanwhile();
      OwnStep(View(), CheckPending(0));
      AgentStep(CheckPending(0));
      Meanwhile();
      raised := false;
      if agents[0].Selecting? {
        raised := MarkWord();
      }
    }

    /** Test and set the selector bit; raise the flag if it was clear. */
    method MarkWord() returns (raised: bool)
      requires Inv(View()) && |agents| > 0 && agents[0].Selecting?
      modifies this`pending, this`mask, this`sel, this`upcall, this`agents, this`sent, this`script
      ensures Valid() && |agents| == old(|agents|) && mask == old(mask) && old(pending) <= pending
      ensures |script| <= old(|script|)
      ensures raised ==> upcall
      ensures old(script) == [] ==>
                script == [] && agents == old(agents)[0 := Idle] && pending == old(pending) && sent == old(sent)
      ensures old(script) == [] && !raised ==> upcall == old(upcall) && sel == old(sel)
    {
      hide Inv, Apply;
      OwnStep(View(), Select(0));
      AgentStep(Select(0));
      Meanwhile();
      raised := agents[0].Kicking?;
      if raised {
        OwnStep(View(), Kick(0));
        AgentStep(Kick(0));
        Meanwhile();
      }
    }

    /**
     * A handler's run: its port's bit is clear by now.  The handler may mask, unmask
     * and clear ports, and remote parties go on.
     */
    method RunHandler()
      requires Valid() && cb.Handling? && upcallMask
      modifies this`pending, this`mask, this`sel, this`upcall, this`agents, this`sent, this`dropped, this`script
      ensures Valid() && |agents| == old(|agents|)
      ensures if old(script) == [] then script == [] && View() == old(View()) else |script| < old(|script|)
    {
      hide Inv, Apply;
      if script == [] {
        return;
      }
      var now, i := script[0], 0;
      script := script[1..];
      while i < |now|
        invariant i <= |now| && Valid() && |agents| == old(|agents|) && cb == old(cb) && |script| < old(|script|)
      {
        HandlerStep(now[i]);
        i := i + 1;
      }
    }

    method HandlerStep(a: Action)
      requires Valid() && cb.Handling?
      modifies this`pending, this`mask, this`sel, this`upcall, this`agents, this`sent, this`dropped, this`script
      ensures Valid() && |agents| == old(|agents|) && |script| <= old(|script|)
    {
      hide Inv;
      if a.Mask? {
        MaskEvtchn(a.p);
      } else if a.Clear? {
        ClearEvtchn(a.p);
      } else if a.Unmask? {
        var raised := Resend(a.p);
      } else if Remote(a) && Able(agents, a) {
        RemoteRaises(View(), a);
        AgentStep(a);
      }
    }

    /** Clear the port, then call its handler: a notification in between is not lost. */
    method DoEvent(snap: set<nat>, p: nat)
      requires Valid() && upcallMask && cb.Loaded? && cb.snap == snap && snap - mask != {} && p == Least(snap - mask)
      modifies this`pending, this`mask, this`sel, this`upcall, this`agents, this`sent, this`handled, this`dropped,
               this`script, this`cb
      ensures Valid() && |agents| == old(|agents|) && cb == Inner(old(cb).l1, old(cb).w)
      ensures old(handled) + multiset{p} == handled
      ensures if old(script) == []
              then script == [] && agents == old(agents) && upcall == old(upcall) &&
                   pending == old(pending) - {p} < old(pending)
              else |script| < old(|script|)
    {
      hide Inv;
      TakePort(snap, p);
      RunHandler();
      Resume();
    }

    method TakePort(snap: set<nat>, p: nat)
      requires Valid() && cb.Loaded? && cb.snap == snap && snap - mask != {} && p == Least(snap - mask)
      modifies this`pending, this`handled, this`cb
      ensures Valid() && cb == Handling(old(cb).l1, old(cb).w, p)
      ensures handled == old(handled) + multiset{p} && p in old(pending) && pending == old(pending) - {p}
    {
      hide NoneLost, Raised;
      StepKeeps(View(), Test);
      pending := pending - {p};
      handled := handled + multiset{p};
      cb := Handling(cb.l1, cb.w, p);
    }

    method Resume()
      requires Valid() && cb.Handling?
      modifies this`cb
      ensures Valid() && cb == Inner(old(cb).l1, old(cb).w)
    {
      StepKeeps(View(), Return);
      cb := Inner(cb.l1, cb.w);
    }

    /** Read the pending bits of word `w`. */
    method LoadWord(w: nat) returns (snap: set<nat>)
      requires Valid() && cb.Inner? && cb.w == w
      modifies this`cb
      ensures Valid() && cb == Loaded(old(cb).l1, w, snap)
    {
      StepKeeps(View(), Load);
      snap := set p | p in pending && Word(p) == w;
      cb := Loaded(cb.l1, w, snap);
    }

    method LeaveWord(snap: set<nat>)
      requires Valid() && cb.Loaded? && cb.snap == snap && snap - mask == {}
      modifies this`cb
      ensures Valid() && cb == Words(old(cb).l1)
    {
      StepKeeps(View(), Test);
      cb := Words(cb.l1);
    }

    /** Handle the active ports of the word at hand, until there are none. */
    method ScanWord(w: nat, ghost l1: set<nat>)
      requires Valid() && upcallMask && cb == Inner(l1, w)
      modifies this`pending, this`mask, this`sel, this`upcall, this`agents, this`sent, this`handled, this`dropped,
               this`script, this`cb
      ensures Valid() && |agents| == old(|agents|) && cb == Words(l1) && old(handled) <= handled
      ensures if old(script) == [] then script == [] && agents == old(agents) && upcall == old(upcall)
              else |script| < old(|script|)
    {
      hide Inv;
      while true
        invariant Valid() && |agents| == old(|agents|) && cb == Inner(l1, w) && old(handled) <= handled
        invariant if old(script) == [] then script == [] && agents == old(agents) && upcall == old(upcall)
                  else |script| <= old(|script|)
        decreases |script|, pending
      {
        var snap := LoadWord(w);
        Meanwhile();
        if snap - mask == {} {
          LeaveWord(snap);
          return;
        }
        DoEvent(snap, Least(snap - mask));
      }
    }

    method Begin()
      requires Valid() && cb.Off?
      modifies this`upcall, this`cb
      ensures Valid() && cb == Entered && !upcall
    {
      StepKeeps(View(), Enter);
      upcall, cb := false, Entered;
    }

    method TakeSelector() returns (l1: set<nat>)
      requires Valid() && cb.Entered?
      modifies this`sel, this`cb
      ensures Valid() && cb == Words(l1) && l1 == old(sel)
    {
      StepKeeps(View(), Exchange);
      l1 := sel;
      sel, cb := {}, Words(l1);
    }

    method NextWord(l1: set<nat>) returns (w: nat)
      requires Valid() && cb == Words(l1) && l1 != {}
      modifies this`cb
      ensures Valid() && cb == Inner(l1 - {w}, w) && w in l1
    {
      StepKeeps(View(), PickWord);
      w := Least(l1);
      cb := Inner(l1 - {w}, w);
    }

    method Finish()
      requires Valid() && cb == Words({})
      modifies this`cb
      ensures Valid() && cb.Off?
    {
      StepKeeps(View(), Leave);
      cb := Off;
    }

    /** One callback: no event is lost on the way; if nothing else happened meanwhile, the flag is down afterwards. */
    method DoHypervisorCallback()
      requires Valid() && upcallMask && cb.Off?
      modifies this`pending, this`mask, this`sel, this`upcall, this`agents, this`sent, this`handled, this`dropped,
               this`script, this`cb
      ensures Valid() && |agents| == old(|agents|) && cb.Off? && old(handled) <= handled
      ensures if old(script) == [] then script == [] && agents == old(agents) && !upcall else |script| < old(|script|)
    {
      hide Inv, Apply;
      Begin();
      Meanwhile();
      var l1 := TakeSelector();
      while l1 != {}
        invariant Valid() && |agents| == old(|agents|) && cb == Words(l1) && old(handled) <= handled
        invariant if old(script) == [] then script == [] && agents == old(agents) && !upcall
                  else |script| < old(|script|)
        decreases l1
      {
        var w := NextWord(l1);
        l1 := l1 - {w};
        ScanWord(w, l1);
      }
      Finish();
    }

    /**
     * Call back until the flag is down.  At that moment, `at`, every port still due is
     * one that a remote party under way will see to; afterwards remote parties may
     * raise more.  If nothing else happens, no unmasked port is pending.
     */
    method ForceEvtchnCallback() returns (ghost at: State)
      requires Valid() && cb.Off?
      modifies this
      ensures Valid() && cb.Off? && |agents| == old(|agents|) && upcallMask == old(upcallMask) && bound == old(bound)
      ensures old(handled) <= handled && RaisedOnly(at, View())
      ensures !at.upcall && Inv(at) && forall p: nat | p in at.pending && p !in at.mask ::
                Minded(at.agents, p) || Kicked(at.agents)
      ensures old(script) == [] && Alone(old(agents)) ==> !upcall && NothingDue()
    {
      hide Inv;
      var save := upcallMask;
      while upcall
        invariant Valid() && cb.Off? && |agents| == old(|agents|) && upcallMask == save && bound == old(bound)
        invariant old(handled) <= handled
        invariant old(script) == [] ==> script == [] && agents == old(agents)
        decreases |script|, upcall
      {
        upcallMask := true;
        DoHypervisorCallback();
        upcallMask := save;
      }
      at := View();
      SettledDue(at);
      Meanwhile();
    }

    /** Unmask a port; an event that waited is delivered at once unless callbacks are held off. */
    method UnmaskEvtchn(p: nat)
      requires Valid() && cb.Off?
      modifies this
      ensures Valid() && cb.Off? && upcallMask == old(upcallMask) && old(handled) <= handled
      ensures old(script) == [] && Alone(old(agents)) && !old(upcall) && !upcallMask ==> !upcall && NothingDue()
    {
      hide Inv;
      var raised := Resend(p);
      if raised && !upcallMask {
        ghost var at := ForceEvtchnCallback();
      } else {
        Quiet(View());
      }
    }

    /**
     * Shutting down: all bound ports below `n` but the two in use for console and
     * store are masked and cleared, then the selector and the flag are zeroed.  No
     * event is lost if and only if every port that was due is one of those unbound,
     * or a party under way will see to it.
     */
    method UnbindAllPorts(n: nat, keep: set<nat>)
      requires Inv(View()) && cb.Off?
      modifies this`pending, this`mask, this`sel, this`upcall, this`bound, this`dropped
      ensures sel == {} && !upcall
      ensures NoneLost(View()) <==> forall p: nat | p in old(pending) && p !in old(mask) ::
                (p < n && p !in keep && p in old(bound)) || Minded(agents, p)
      ensures forall p: nat :: p in pending <==> p in old(pending) && !(p < n && p !in keep && p in old(bound))
    {
      hide Inv, Minded, Apply;
      var i := 0;
      while i < n
        invariant i <= n
        invariant forall p: nat :: p in bound <==> p in old(bound) && !(p < i && p !in keep)
        invariant forall p: nat :: p in mask <==> p in old(mask) || (p < i && p !in keep && p in old(bound))
        invariant forall p: nat :: p in pending <==> p in old(pending) && !(p < i && p !in keep && p in old(bound))
      {
        if i !in keep && i in bound {
          bound := bound - {i};
          MaskEvtchn(i);
          ClearEvtchn(i);
        }
        i := i + 1;
      }
      upcall := false;
      sel := {};
      ghost var s := View();
      assert forall p: nat :: Reached(s, p) <==> Minded(agents, p);
    }
  }

  lemma Quiet(s: State)
    requires Inv(s) && s.cb.Off? && |s.agents| > 0 && s.agents[0].Idle?
    ensures !s.upcall && Alone(s.agents) ==> forall p: nat | p in s.pending :: p in s.mask
  {
  }

  /** With the flag down and no callback under way, due ports are in the care of parties under way. */
  lemma SettledDue(s: State)
    requires Inv(s) && s.cb.Off? && !s.upcall
    ensures forall p: nat | p in s.pending && p !in s.mask :: Minded(s.agents, p) || Kicked(s.agents)
  {
    hide Minded, Kicked;
  }
}
