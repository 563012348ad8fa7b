/**
 * The shared ring of the split file-system driver, as interleaved steps of the
 * frontend's threads, its event handler and the backend.
 *
 * A thread takes a semaphore token, reserves an index by compare-and-swap, fills
 * the slot and commits indices in order.  The backend consumes requests, answers
 * some at once and others when their I/O completes, and reuses the slots of
 * consumed requests for responses.  The handler takes responses and gives the
 * tokens back.  Indices are unbounded here; see `WindowsAgree` for 32 bits.
 */
module FsRing {
  import opened Division
  import opened Options

  /** How the backend treats a request. */
  datatype Kind = Immediate | Deferred | Unknown

  datatype Request = Request(id: nat, kind: Kind)

  datatype Phase =
    | Idle
    | Downed                             // holds a token
    | Looked(idx: nat)                   // read req_prod_pvt, about to compare and swap
    | Reserved(idx: nat)
    | Filled(idx: nat, request: Request)

  datatype Handler = Quiet | Taking(cons: nat, rp: nat)

  datatype Slot = Empty | Req(request: Request) | Rsp(id: nat)

  datatype State = State(
    n: nat,                              // ring entries
    // the frontend
    sem: nat,
    threads: seq<Phase>,
    reqProdPvt: nat,
    rspCons: nat,
    handler: Handler,
    // shared
    reqProd: nat,
    rspProd: nat,
    slots: seq<Slot>,
    // the backend
    seen: nat,                           // the req_prod it last looked at
    reqCons: nat,
    rspProdPvt: nat,
    table: seq<Option<Request>>,         // requests whose I/O is under way
    freelist: seq<nat>,                  // linked through itself, entry 0 is the head
    // history
    free: seq<nat>,                      // the ids on the free list
    log: seq<Request>,                   // committed requests by index
    answers: seq<nat>)                   // answered ids by index

  // ---------------------------------------------------------------------------
  // Positions in the ring
  // ---------------------------------------------------------------------------

  /** The slot of index `i`: `i` modulo the ring size. */
  function Pos(i: nat, n: nat): (p: nat)
    requires n > 0
    ensures p < n
  {
    Rem(i, n)
  }

  /** Different indices of one window have different slots. */
  lemma {:induction false} WindowApart(a: nat, b: nat, n: nat)
    requires n > 0 && a < b < a + n
    ensures Pos(a, n) != Pos(b, n)
  {
    if a >= n {
      WindowApart(a - n, b - n, n);
    } else if b >= n {
      assert Rem(b, n) == Rem(b - n, n) == b - n;
    }
  }

  /** Inside a window of less than 2^32 indices, 32-bit indices are equal exactly when the full ones are. */
  lemma WindowsAgree(a: nat, b: nat, n: nat)
    requires n < 0x1_0000_0000 && a <= b <= a + n
    ensures a % 0x1_0000_0000 == b % 0x1_0000_0000 <==> a == b
  {
  }

  // ---------------------------------------------------------------------------
  // The free list that lives in an array of links
  // ---------------------------------------------------------------------------

  /** `links` chains the ids `free`, starting from entry 0. */
  ghost predicate Chained(links: seq<nat>, free: seq<nat>) {
    && (forall j: nat | j < |free| :: free[j] + 1 < |links|)
    && (forall i: nat, j: nat | i < j < |free| :: free[i] != free[j])
    && |links| > 0 && (free != [] ==> links[0] == free[0])
    && (forall j: nat | j + 1 < |free| :: links[free[j] + 1] == free[j + 1])
  }

  method AddId(links: array<nat>, id: nat, ghost free: seq<nat>)
    requires id + 1 < links.Length && Chained(links[..], free) && id !in free
    modifies links
    ensures Chained(links[..], [id] + free) && links[..] == Added(old(links[..]), id)
  {
    ghost var was := links[..];
    links[id + 1] := links[0];
    links[0] := id;
    AddedChained(was, id, free);
    assert links[..] == Added(was, id);
  }

  method GetId(links: array<nat>, ghost free: seq<nat>) returns (id: nat)
    requires Chained(links[..], free) && free != []
    modifies links
    ensures id == free[0] && Chained(links[..], free[1..]) && links[..] == Taken(old(links[..]))
  {
    ghost var was := links[..];
    id := links[0];
    links[0] := links[id + 1];
    TakenChained(was, free);
    assert links[..] == Taken(was);
  }

  /** The backend's free list at the start: all ids, the last one added first. */
  method AllocateRequestArray(n: nat) returns (links: array<nat>, ghost free: seq<nat>)
    ensures fresh(links) && links.Length == n + 1
    ensures Chained(links[..], free) && |free| == n && forall id: nat :: id in free <==> id < n
  {
    links := new nat[n + 1](_ => 0);
    free := [];
    var i := 0;
    while i < n
      invariant i <= n && links.Length == n + 1
      invariant Chained(links[..], free) && |free| == i && forall id: nat :: id in free <==> id < i
    {
      AddId(links, i, free);
      free := [i] + free;
      i := i + 1;
    }
  }

  function Added(links: seq<nat>, id: nat): seq<nat>
    requires id + 1 < |links|
  {
    links[id + 1 := links[0]][0 := id]
  }

  function Taken(links: seq<nat>): seq<nat>
    requires |links| > 0 && links[0] + 1 < |links|
  {
    links[0 := links[links[0] + 1]]
  }

  lemma AddedChained(links: seq<nat>, id: nat, free: seq<nat>)
    requires id + 1 < |links| && Chained(links, free) && id !in free
    ensures Chained(Added(links, id), [id] + free)
  {
    var free' := [id] + free;
    forall j: nat | j + 1 < |free'|
      ensures Added(links, id)[free'[j] + 1] == free'[j + 1]
    {
      if j > 0 {
        assert free'[j] == free[j - 1] && free'[j + 1] == free[j];
        assert free[j - 1] in free;
      }
    }
  }

  lemma TakenChained(links: seq<nat>, free: seq<nat>)
    requires Chained(links, free) && free != []
    ensures links[0] + 1 < |links| && Chained(Taken(links), free[1..])
  {
    assert |free| > 1 ==> links[free[0] + 1] == free[1];
    forall j: nat | j + 1 < |free[1..]|
      ensures Taken(links)[free[1..][j] + 1] == free[1..][j + 1]
    {
      assert links[free[j + 1] + 1] == free[j + 2];
    }
  }

  // ---------------------------------------------------------------------------
  // The steps
  // ---------------------------------------------------------------------------

  datatype Action =
    | Down(t: nat)
    | Look(t: nat)
    | Swap(t: nat)
    | Fill(t: nat, r: Request)
    | Commit(t: nat)
    | HandlerStart
    | HandlerTake
    | HandlerDone
    | BackLook
    | BackIgnore
    | BackAnswer
    | BackDefer
    | BackComplete(id: nat)
    | BackPush

  /** Responses up to here have been copied out of the ring. */
  function Copied(s: State): nat {
    if s.handler.Taking? then s.handler.cons else s.rspCons
  }

  predicate Sized(s: State) {
    s.n > 0 && |s.slots| == s.n && |s.table| == s.n && |s.freelist| == s.n + 1
  }

  /** The backend has a request of kind `k` in front of it. */
  predicate Facing(s: State, k: Kind)
    requires Sized(s)
  {
    s.reqCons != s.seen && s.slots[Pos(s.reqCons, s.n)].Req? && s.slots[Pos(s.reqCons, s.n)].request.kind == k
  }

  predicate Enabled(s: State, a: Action)
    requires Sized(s)
  {
    match a
    case Down(t) => t < |s.threads| && s.threads[t].Idle? && s.sem > 0
    case Look(t) => t < |s.threads| && s.threads[t].Downed?
    case Swap(t) => t < |s.threads| && s.threads[t].Looked?
    case Fill(t, _) => t < |s.threads| && s.threads[t].Reserved?
    case Commit(t) => t < |s.threads| && s.threads[t].Filled?
    case HandlerStart => s.handler.Quiet?
    case HandlerTake => s.handler.Taking? && s.handler.cons != s.handler.rp
    case HandlerDone => s.handler.Taking? && s.handler.cons == s.handler.rp
    case BackLook => true
    case BackIgnore => Facing(s, Unknown)
    case BackAnswer => Facing(s, Immediate)
    case BackDefer => Facing(s, Deferred) && s.freelist[0] < s.n && s.free != []
    case BackComplete(id) => id < s.n && s.table[id].Some?
    case BackPush => true
  }

  function Respond(s: State, id: nat): State
    requires Sized(s)
  {
    s.(slots := s.slots[Pos(s.rspProdPvt, s.n) := Rsp(id)], rspProdPvt := s.rspProdPvt + 1, answers := s.answers + [id])
  }

  function Apply(s: State, a: Action): State
    requires Sized(s) && Enabled(s, a)
  {
    match a
    case Down(t) => s.(sem := s.sem - 1, threads := s.threads[t := Downed])
    case Look(t) => s.(threads := s.threads[t := Looked(s.reqProdPvt)])
    case Swap(t) =>
      var idx := s.threads[t].idx;
      if s.reqProdPvt != idx then s.(threads := s.threads[t := Downed])
      else s.(reqProdPvt := idx + 1, threads := s.threads[t := Reserved(idx)])
    case Fill(t, r) =>
      var idx := s.threads[t].idx;
      s.(slots := s.slots[Pos(idx, s.n) := Req(r)], threads := s.threads[t := Filled(idx, r)])
    case Commit(t) =>
      if s.reqProd != s.threads[t].idx then s
      else s.(reqProd := s.reqProd + 1, log := s.log + [s.threads[t].request], threads := s.threads[t := Idle])
    case HandlerStart => s.(handler := Taking(s.rspCons, s.rspProd))
    case HandlerTake => s.(handler := Taking(s.handler.cons + 1, s.handler.rp), sem := s.sem + 1)
    case HandlerDone => s.(rspCons := s.handler.rp, handler := Quiet)
    case BackLook => s.(seen := s.reqProd)
    case BackIgnore => s.(reqCons := s.reqCons + 1)
    case BackAnswer => Respond(s, s.slots[Pos(s.reqCons, s.n)].request.id).(reqCons := s.reqCons + 1)
    case BackDefer =>
      var id := s.freelist[0];
      s.(table := s.table[id := Some(s.slots[Pos(s.reqCons, s.n)].request)], freelist := Taken(s.freelist),
         free := s.free[1..], reqCons := s.reqCons + 1)
    case BackComplete(id) =>
      Respond(s, s.table[id].value.id).(table := s.table[id := None], freelist := Added(s.freelist, id),
        free := [id] + s.free)
    case BackPush => s.(rspProd := s.rspProdPvt)
  }

  // ---------------------------------------------------------------------------
  // What every step keeps
  // ---------------------------------------------------------------------------

  /** The indices are in order, and all live ones lie in one window of `n`. */
  predicate Ordered(s: State) {
    && s.rspCons <= Copied(s) <= s.rspProd <= s.rspProdPvt <= s.reqCons <= s.seen <= s.reqProd <= s.reqProdPvt
    && s.reqProdPvt <= Copied(s) + s.n
    && (s.handler.Taking? ==> Copied(s) <= s.handler.rp <= s.rspProd)
  }

  function Waits(p: Phase): nat {
    if p.Downed? || p.Looked? then 1 else 0
  }

  /** Threads among the first `k` that hold a token but no index. */
  function Waiting(ts: seq<Phase>, k: nat): nat
    requires k <= |ts|
  {
    if k == 0 then 0 else Waiting(ts, k - 1) + Waits(ts[k - 1])
  }

  /** Tokens: in the semaphore, with waiting threads, or standing for a live index. */
  predicate Tokens(s: State) {
    s.sem + Waiting(s.threads, |s.threads|) + s.reqProdPvt == s.n + Copied(s)
  }

  predicate Owns(p: Phase, i: nat) {
    (p.Reserved? || p.Filled?) && p.idx == i
  }

  ghost predicate HasOwner(ts: seq<Phase>, i: nat) {
    exists t: nat | t < |ts| :: Owns(ts[t], i)
  }

  /** Reserved and uncommitted indices have exactly one owner each. */
  ghost predicate Owned(s: State) {
    && (forall t: nat | t < |s.threads| && (s.threads[t].Reserved? || s.threads[t].Filled?) ::
          s.reqProd <= s.threads[t].idx < s.reqProdPvt)
    && (forall t: nat, u: nat | t < u < |s.threads| && (s.threads[t].Reserved? || s.threads[t].Filled?) ::
          !Owns(s.threads[u], s.threads[t].idx))
    && (forall i: nat | s.reqProd <= i < s.reqProdPvt :: HasOwner(s.threads, i))
    && (forall t: nat | t < |s.threads| && s.threads[t].Looked? :: s.threads[t].idx <= s.reqProdPvt)
  }

  /** Unread requests and untaken responses are intact in their slots. */
  ghost predicate Intact(s: State)
    requires Sized(s)
  {
    && |s.log| == s.reqProd && |s.answers| == s.rspProdPvt
    && (forall i: nat | s.reqCons <= i < s.reqProd :: s.slots[Pos(i, s.n)] == Req(s.log[i]))
    && (forall i: nat | Copied(s) <= i < s.rspProdPvt :: s.slots[Pos(i, s.n)] == Rsp(s.answers[i]))
    && (forall t: nat | t < |s.threads| && s.threads[t].Filled? ::
          s.slots[Pos(s.threads[t].idx, s.n)] == Req(s.threads[t].request))
  }

  /** How many of the first `k` requests have id `x` and are recognised. */
  function Asked(log: seq<Request>, k: nat, x: nat): nat
    requires k <= |log|
  {
    if k == 0 then 0 else Asked(log, k - 1, x) + (if !log[k - 1].kind.Unknown? && log[k - 1].id == x then 1 else 0)
  }

  /** How many of the first `k` answers are for id `x`. */
  function Answered(answers: seq<nat>, k: nat, x: nat): nat
    requires k <= |answers|
  {
    if k == 0 then 0 else Answered(answers, k - 1, x) + (if answers[k - 1] == x then 1 else 0)
  }

  function IsFor(o: Option<Request>, x: nat): nat {
    if o.Some? && o.value.id == x then 1 else 0
  }

  /** How many requests with id `x` are under way among the first `k` of the table. */
  function Underway(table: seq<Option<Request>>, k: nat, x: nat): nat
    requires k <= |table|
  {
    if k == 0 then 0 else Underway(table, k - 1, x) + IsFor(table[k - 1], x)
  }

  /** How many requests are under way at all. */
  function Busy(table: seq<Option<Request>>, k: nat): nat
    requires k <= |table|
  {
    if k == 0 then 0 else Busy(table, k - 1) + (if table[k - 1].Some? then 1 else 0)
  }

  /** Every recognised request is answered once or under way; free and busy ids fill the table. */
  ghost predicate Accounted(s: State)
    requires Sized(s)
  {
    && Chained(s.freelist, s.free)
    && (forall id: nat | id < s.n :: s.table[id].None? <==> id in s.free)
    && |s.free| + Busy(s.table, s.n) == s.n
    && s.rspProdPvt + Busy(s.table, s.n) <= s.reqCons <= |s.log|
    && forall x: nat :: Asked(s.log, s.reqCons, x) == Answered(s.answers, |s.answers|, x) + Underway(s.table, s.n, x)
  }

  ghost predicate Inv(s: State) {
    Sized(s) && Ordered(s) && Tokens(s) && Owned(s) && Intact(s) && Accounted(s)
  }

  // ---- tokens -----------------------------------------------------------------

  lemma {:induction false} WaitingUpdate(ts: seq<Phase>, t: nat, p: Phase, k: nat)
    requires t < |ts| && k <= |ts|
    ensures Waiting(ts[t := p], k) + (if t < k then Waits(ts[t]) else 0) ==
            Waiting(ts, k) + (if t < k then Waits(p) else 0)
  {
    if k > 0 { WaitingUpdate(ts, t, p, k - 1); }
  }

  lemma {:induction false} WaitingAtLeast(ts: seq<Phase>, t: nat, k: nat)
    requires t < k <= |ts|
    ensures Waiting(ts, k) >= Waits(ts[t])
  {
    if t < k - 1 { WaitingAtLeast(ts, t, k - 1); }
  }

  lemma TokensKept(s: State, a: Action)
    requires Inv(s) && Enabled(s, a)
    ensures Tokens(Apply(s, a))
  {
    hide Accounted, Intact, Owned;
    if a.Down? || a.Look? || a.Swap? || a.Fill? || a.Commit? {
      var p := Apply(s, a).threads[a.t];
      assert Apply(s, a).threads == s.threads[a.t := p];
      WaitingUpdate(s.threads, a.t, p, |s.threads|);
    }
  }

  // ---- the order of the indices ---------------------------------------------------

  lemma {:induction false} BusyAtLeast(table: seq<Option<Request>>, id: nat, k: nat)
    requires id < k <= |table| && table[id].Some?
    ensures Busy(table, k) >= 1
  {
    if id < k - 1 { BusyAtLeast(table, id, k - 1); }
  }

  lemma OrderedKept(s: State, a: Action)
    requires Inv(s) && Enabled(s, a)
    ensures Ordered(Apply(s, a))
  {
    match a {
      case Swap(t) => WaitingAtLeast(s.threads, t, |s.threads|);
      case BackComplete(id) =>
        BusyAtLeast(s.table, id, s.n);
      case _ =>
    }
  }

  // ---- owners ---------------------------------------------------------------------

  lemma OwnerKept(ts: seq<Phase>, t: nat, p: Phase, i: nat)
    requires t < |ts| && HasOwner(ts, i) && (Owns(ts[t], i) ==> Owns(p, i))
    ensures HasOwner(ts[t := p], i)
  {
    var u: nat :| u < |ts| && Owns(ts[u], i);
    assert Owns(ts[t := p][u], i);
  }

  lemma OwnedKept(s: State, a: Action)
    requires Inv(s) && Enabled(s, a)
    ensures Owned(Apply(s, a))
  {
    hide Accounted, Intact, Tokens, HasOwner;
    var s' := Apply(s, a);
    if a.Down? || a.Look? || a.Swap? || a.Fill? || a.Commit? {
      forall i: nat | s'.reqProd <= i < s'.reqProdPvt
        ensures HasOwner(s'.threads, i)
      {
        if a.Swap? && i == s.reqProdPvt {
          NewOwner(s'.threads, a.t, i);
        } else if s'.threads != s.threads {
          OwnerKept(s.threads, a.t, s'.threads[a.t], i);
        }
      }
    }
  }

  lemma NewOwner(ts: seq<Phase>, t: nat, i: nat)
    requires t < |ts| && Owns(ts[t], i)
    ensures HasOwner(ts, i)
  {
  }

  // ---- contents of the slots --------------------------------------------------------

  lemma WindowsApart(s: State, a: nat, b: nat)
    requires Sized(s) && Ordered(s) && Copied(s) <= a < Copied(s) + s.n && Copied(s) <= b < Copied(s) + s.n && a != b
    ensures Pos(a, s.n) != Pos(b, s.n)
  {
    if a < b { WindowApart(a, b, s.n); } else { WindowApart(b, a, s.n); }
  }

  lemma FillIntact(s: State, t: nat, r: Request)
    requires Inv(s) && Enabled(s, Fill(t, r))
    ensures Intact(Apply(s, Fill(t, r)))
  {
    hide Accounted, Tokens;
    var idx := s.threads[t].idx;
    forall i: nat | Copied(s) <= i < s.reqProd
      ensures Pos(i, s.n) != Pos(idx, s.n)
    {
      WindowsApart(s, i, idx);
    }
    forall u: nat | u < |s.threads| && u != t && s.threads[u].Filled?
      ensures Pos(s.threads[u].idx, s.n) != Pos(idx, s.n)
    {
      assert u < t ==> !Owns(s.threads[t], s.threads[u].idx);
      assert t < u ==> !Owns(s.threads[u], s.threads[t].idx);
      WindowsApart(s, s.threads[u].idx, idx);
    }
  }

  /** Answering into slot `rspProdPvt` once the request there has been consumed. */
  lemma RespondIntact(s: State, id: nat, consumed: nat)
    requires Inv(s) && s.reqCons <= consumed <= s.reqProd && s.rspProdPvt < consumed
    ensures Intact(Respond(s, id).(reqCons := consumed))
  {
    hide Accounted, Tokens;
    var p := s.rspProdPvt;
    forall i: nat | consumed <= i < s.reqProd || Copied(s) <= i < p
      ensures Pos(i, s.n) != Pos(p, s.n)
    {
      WindowsApart(s, i, p);
    }
    forall u: nat | u < |s.threads| && s.threads[u].Filled?
      ensures Pos(s.threads[u].idx, s.n) != Pos(p, s.n)
    {
      WindowsApart(s, s.threads[u].idx, p);
    }
  }

  lemma CommitIntact(s: State, t: nat)
    requires Inv(s) && Enabled(s, Commit(t))
    ensures Intact(Apply(s, Commit(t)))
  {
    hide Accounted, Tokens, Owned, Pos;
  }

  /** Steps that leave the slots and both histories alone. */
  lemma QuietIntact(s: State, s': State)
    requires Sized(s) && Sized(s') && Intact(s) && s'.slots == s.slots && s'.n == s.n && s'.log == s.log &&
             s'.answers == s.answers
    requires s'.reqProd == s.reqProd && s'.rspProdPvt == s.rspProdPvt && s'.reqCons >= s.reqCons &&
             Copied(s') >= Copied(s)
    requires forall t: nat | t < |s'.threads| && s'.threads[t].Filled? ::
               t < |s.threads| && s'.threads[t] == s.threads[t]
    ensures Intact(s')
  {
    hide Pos;
  }

  lemma IntactKept(s: State, a: Action)
    requires Inv(s) && Enabled(s, a)
    ensures Intact(Apply(s, a))
  {
    hide Accounted, Tokens, Owned, Intact, Pos;
    match a {
      case Commit(t) => CommitIntact(s, t);
      case Fill(t, r) => FillIntact(s, t, r);
      case BackAnswer => RespondIntact(s, s.slots[Pos(s.reqCons, s.n)].request.id, s.reqCons + 1);
      case BackComplete(id) =>
        OrderedKept(s, a);
        RespondIntact(s, s.table[id].value.id, s.reqCons);
        QuietIntact(Respond(s, s.table[id].value.id).(reqCons := s.reqCons), Apply(s, a));
      case _ => QuietIntact(s, Apply(s, a));
    }
  }

  // ---- requests, answers and the table ---------------------------------------------

  lemma {:induction false} AskedPrefix(log: seq<Request>, r: Request, k: nat, x: nat)
    requires k <= |log|
    ensures Asked(log + [r], k, x) == Asked(log, k, x)
  {
    if k > 0 { AskedPrefix(log, r, k - 1, x); }
  }

  lemma {:induction false} AnsweredPrefix(answers: seq<nat>, id: nat, k: nat, x: nat)
    requires k <= |answers|
    ensures Answered(answers + [id], k, x) == Answered(answers, k, x)
  {
    if k > 0 { AnsweredPrefix(answers, id, k - 1, x); }
  }

  lemma OneMoreAnswer(answers: seq<nat>, id: nat, x: nat)
    ensures Answered(answers + [id], |answers| + 1, x) == Answered(answers, |answers|, x) + (if id == x then 1 else 0)
  {
    AnsweredPrefix(answers, id, |answers|, x);
  }

  lemma {:induction false} TableUpdate(table: seq<Option<Request>>, id: nat, o: Option<Request>, k: nat, x: nat)
    requires id < |table| && k <= |table|
    ensures Underway(table[id := o], k, x) + (if id < k then IsFor(table[id], x) else 0)
         == Underway(table, k, x) + (if id < k then IsFor(o, x) else 0)
    ensures Busy(table[id := o], k) + (if id < k && table[id].Some? then 1 else 0)
         == Busy(table, k) + (if id < k && o.Some? then 1 else 0)
  {
    if k > 0 { TableUpdate(table, id, o, k - 1, x); }
  }

  /** When the backend has a request in front of it, its free list is not empty. */
  lemma FreeIdExists(s: State)
    requires Inv(s) && s.reqCons < s.seen
    ensures s.free != [] && s.freelist[0] == s.free[0] && s.free[0] < s.n
    ensures s.slots[Pos(s.reqCons, s.n)] == Req(s.log[s.reqCons])
  {
  }

  lemma RestMembers(free: seq<nat>, x: nat)
    requires free != [] && forall i: nat, j: nat | i < j < |free| :: free[i] != free[j]
    ensures x in free[1..] <==> x in free && x != free[0]
  {
    if x in free && x != free[0] {
      var j: nat :| j < |free| && free[j] == x;
      assert free[1..][j - 1] == x;
    }
  }

  lemma DeferAccounted(s: State)
    requires Inv(s) && Enabled(s, BackDefer)
    ensures Accounted(Apply(s, BackDefer))
  {
    FreeIdExists(s);
    TakenChained(s.freelist, s.free);
    hide Tokens, Owned, Pos;
    var s', id, r := Apply(s, BackDefer), s.free[0], s.log[s.reqCons];
    TableUpdate(s.table, id, Some(r), s.n, 0);
    forall x: nat
      ensures Asked(s'.log, s'.reqCons, x) == Answered(s'.answers, |s'.answers|, x) + Underway(s'.table, s.n, x)
    {
      TableUpdate(s.table, id, Some(r), s.n, x);
    }
    forall x: nat | x < s.n
      ensures s'.table[x].None? <==> x in s'.free
    {
      RestMembers(s.free, x);
    }
  }

  lemma CompleteAccounted(s: State, id: nat)
    requires Inv(s) && Enabled(s, BackComplete(id))
    ensures Accounted(Apply(s, BackComplete(id)))
  {
    AddedChained(s.freelist, id, s.free);
    hide Tokens, Owned, Pos;
    var s' := Apply(s, BackComplete(id));
    TableUpdate(s.table, id, None, s.n, 0);
    forall x: nat
      ensures Asked(s'.log, s'.reqCons, x) == Answered(s'.answers, |s'.answers|, x) + Underway(s'.table, s.n, x)
    {
      TableUpdate(s.table, id, None, s.n, x);
      OneMoreAnswer(s.answers, s.table[id].value.id, x);
    }
  }

  lemma AnswerAccounted(s: State)
    requires Inv(s) && Enabled(s, BackAnswer)
    ensures Accounted(Apply(s, BackAnswer))
  {
    hide Tokens, Owned, Pos;
    FreeIdExists(s);
    var s' := Apply(s, BackAnswer);
    forall x: nat
      ensures Asked(s'.log, s'.reqCons, x) == Answered(s'.answers, |s'.answers|, x) + Underway(s'.table, s.n, x)
    {
      OneMoreAnswer(s.answers, s.log[s.reqCons].id, x);
    }
  }

  lemma CommitAccounted(s: State, t: nat)
    requires Inv(s) && Enabled(s, Commit(t))
    ensures Accounted(Apply(s, Commit(t)))
  {
    hide Tokens, Owned, Pos, Chained;
    forall x: nat
      ensures Asked(s.log + [s.threads[t].request], s.reqCons, x) == Asked(s.log, s.reqCons, x)
    {
      AskedPrefix(s.log, s.threads[t].request, s.reqCons, x);
    }
  }

  lemma IgnoreAccounted(s: State)
    requires Inv(s) && Enabled(s, BackIgnore)
    ensures Accounted(Apply(s, BackIgnore))
  {
    hide Tokens, Owned, Pos, Chained;
    FreeIdExists(s);
  }

  lemma AccountedKept(s: State, a: Action)
    requires Inv(s) && Enabled(s, a)
    ensures Accounted(Apply(s, a))
  {
    hide Tokens, Owned, Pos, Chained, Intact, Asked, Answered, Underway, Busy;
    match a {
      case Commit(t) => CommitAccounted(s, t);
      case BackIgnore => IgnoreAccounted(s);
      case BackAnswer => AnswerAccounted(s);
      case BackDefer => DeferAccounted(s);
      case BackComplete(id) => CompleteAccounted(s, id);
      case _ =>
    }
  }

  // ---------------------------------------------------------------------------
  // Runs
  // ---------------------------------------------------------------------------

  /** Every step keeps the invariant. */
  lemma StepKeeps(s: State, a: Action)
    requires Inv(s) && Enabled(s, a)
    ensures Inv(Apply(s, a))
  {
    hide Ordered, Tokens, Owned, Intact, Accounted;
    OrderedKept(s, a);
    TokensKept(s, a);
    OwnedKept(s, a);
    IntactKept(s, a);
    AccountedKept(s, a);
  }

  /** The actions lead from `s` to `s'`. */
  predicate Path(s: State, actions: seq<Action>, s': State)
    decreases |actions|
  {
    if actions == [] then s == s'
    else Sized(s) && Enabled(s, actions[0]) && Path(Apply(s, actions[0]), actions[1..], s')
  }

  /** Nothing has happened yet: all tokens are in the semaphore and all ids are free. */
  ghost predicate Initial(s: State) {
    && Sized(s) && s.sem == s.n && s.handler.Quiet?
    && (forall t: nat | t < |s.threads| :: s.threads[t].Idle?)
    && s.reqProdPvt == s.rspCons == s.reqProd == s.rspProd == s.seen == s.reqCons == s.rspProdPvt == 0
    && (forall id: nat | id < s.n :: s.table[id].None? && id in s.free)
    && Chained(s.freelist, s.free) && |s.free| == s.n && s.log == [] && s.answers == []
  }

  /** A ring of any size, with any number of threads, as both ends set it up. */
  method Mount(n: nat, threads: nat) returns (links: seq<nat>, ghost s: State)
    requires n > 0
    ensures Initial(s) && s.n == n && |s.threads| == threads && s.freelist == links
  {
    var a, free := AllocateRequestArray(n);
    links := a[..];
    s := State(n, n, seq(threads, _ => Idle), 0, 0, Quiet, 0, 0, seq(n, _ => Empty), 0, 0, 0,
               seq(n, _ => None), links, free, [], []);
  }

  lemma {:induction false} NobodyWaits(ts: seq<Phase>, k: nat)
    requires k <= |ts| && forall t: nat | t < |ts| :: ts[t].Idle?
    ensures Waiting(ts, k) == 0
  {
    if k > 0 { NobodyWaits(ts, k - 1); }
  }

  lemma {:induction false} NothingUnderway(table: seq<Option<Request>>, k: nat, x: nat)
    requires k <= |table| && forall i: nat | i < k :: table[i].None?
    ensures Underway(table, k, x) == 0 && Busy(table, k) == 0
  {
    if k > 0 { NothingUnderway(table, k - 1, x); }
  }

  lemma InitialHolds(s: State)
    requires Initial(s)
    ensures Inv(s)
  {
    NobodyWaits(s.threads, |s.threads|);
    NothingUnderway(s.table, s.n, 0);
    forall x: nat
      ensures Underway(s.table, s.n, x) == 0
    {
      NothingUnderway(s.table, s.n, x);
    }
  }

  lemma {:induction false} PathKeeps(s: State, actions: seq<Action>, s': State)
    requires Inv(s) && Path(s, actions, s')
    ensures Inv(s')
    decreases |actions|
  {
    hide Ordered, Tokens, Owned, Intact, Accounted, Apply, Enabled;
    if actions != [] {
      StepKeeps(s, actions[0]);
      PathKeeps(Apply(s, actions[0]), actions[1..], s');
    }
  }

  /** In every interleaving, every state that is reached satisfies the invariant. */
  lemma AlwaysHolds(s: State, actions: seq<Action>, s': State)
    requires Initial(s) && Path(s, actions, s')
    ensures Inv(s')
  {
    InitialHolds(s);
    PathKeeps(s, actions, s');
  }

  // ---------------------------------------------------------------------------
  // The assertion in reserve_fsif_request
  // ---------------------------------------------------------------------------

  /** Free requests as the frontend computes them for index `idx`. */
  function FreeRequests(s: State, idx: nat): int {
    s.n - (idx - s.rspCons)
  }

  /** While the handler is not running, a thread that holds a token finds a free request, even with a stale index. */
  lemma AssertHolds(s: State, t: nat)
    requires Inv(s) && t < |s.threads| && s.threads[t].Looked? && s.handler.Quiet?
    ensures FreeRequests(s, s.threads[t].idx) > 0
  {
    WaitingAtLeast(s.threads, t, |s.threads|);
  }

  /** Tokens that the running handler has given back before it moved rsp_cons. */
  function Ahead(s: State): nat
    requires Ordered(s)
  {
    Copied(s) - s.rspCons
  }

  /**
   * In general, for the index that a thread has looked at, which may be stale by
   * now, the assertion holds unless the tokens given back ahead of rsp_cons are
   * exactly as many as those not yet turned into indices and the indices reserved
   * since the thread looked.
   */
  lemma AssertExactly(s: State, t: nat)
    requires Inv(s) && t < |s.threads| && s.threads[t].Looked?
    ensures FreeRequests(s, s.threads[t].idx) != 0 <==>
            s.sem + Waiting(s.threads, |s.threads|) + (s.reqProdPvt - s.threads[t].idx) != Ahead(s)
  {
  }

  /**
   * A ring of one entry.  One request was answered, and the running handler has
   * given its token back but not moved rsp_cons; the second thread took the token.
   */
  function Overtaken(): State {
    State(1, 0, [Idle, Looked(1)], 1, 0, Taking(1, 1), 1, 1, [Rsp(0)], 1, 1, 1, [None], [0, 0], [0],
          [Request(0, Immediate)], [0])
  }

  /** A fresh ring of one entry with two threads. */
  function Fresh(): State {
    State(1, 1, [Idle, Idle], 0, 0, Quiet, 0, 0, [Empty], 0, 0, 0, [None], [0, 0], [0], [], [])
  }

  /** The first thread's request is in the ring. */
  function Asking(): State {
    var r := Request(0, Immediate);
    State(1, 0, [Filled(0, r), Idle], 1, 0, Quiet, 0, 0, [Req(r)], 0, 0, 0, [None], [0, 0], [0], [], [])
  }

  /** The request is answered. */
  function Answering(): State {
    var r := Request(0, Immediate);
    State(1, 0, [Idle, Idle], 1, 0, Quiet, 1, 1, [Rsp(0)], 1, 1, 1, [None], [0, 0], [0], [r], [0])
  }

  lemma {:induction false} PathJoin(s: State, a: seq<Action>, m: State, b: seq<Action>, s': State)
    requires Path(s, a, m) && Path(m, b, s')
    ensures Path(s, a + b, s')
    decreases |a|
  {
    hide Apply, Enabled;
    if a == [] {
      assert a + b == b;
    } else {
      assert (a + b)[1..] == a[1..] + b;
      PathJoin(Apply(s, a[0]), a[1..], m, b, s');
    }
  }

  lemma OneStep(s: State, a: Action, s': State)
    requires Sized(s) && Enabled(s, a) && Apply(s, a) == s'
    ensures Path(s, [a], s')
  {
    assert Path(s', [], s');
  }

  lemma PathOf3(s: State, a: Action, s1: State, b: Action, s2: State, c: Action, s3: State)
    requires Path(s, [a], s1) && Path(s1, [b], s2) && Path(s2, [c], s3)
    ensures Path(s, [a, b, c], s3)
  {
    hide Path;
    PathJoin(s, [a], s1, [b], s2);
    PathJoin(s, [a] + [b], s2, [c], s3);
    assert [a] + [b] + [c] == [a, b, c];
  }

  lemma Asks()
    ensures Path(Fresh(), [Down(0), Look(0), Swap(0)] + [Fill(0, Request(0, Immediate))], Asking())
  {
    var s, r := Fresh(), Request(0, Immediate);
    var s1 := s.(sem := 0, threads := [Downed, Idle]);
    var s2 := s1.(threads := [Looked(0), Idle]);
    var s3 := s2.(reqProdPvt := 1, threads := [Reserved(0), Idle]);
    OneStep(s, Down(0), s1);
    OneStep(s1, Look(0), s2);
    OneStep(s2, Swap(0), s3);
    PathOf3(s, Down(0), s1, Look(0), s2, Swap(0), s3);
    OneStep(s3, Fill(0, r), Asking());
    PathJoin(s, [Down(0), Look(0), Swap(0)], s3, [Fill(0, r)], Asking());
  }

  lemma Answers()
    ensures Path(Asking(), [Commit(0), BackLook, BackAnswer] + [BackPush], Answering())
  {
    var s, r := Asking(), Request(0, Immediate);
    var s1 := s.(reqProd := 1, log := [r], threads := [Idle, Idle]);
    var s2 := s1.(seen := 1);
    var s3 := s2.(slots := [Rsp(0)], rspProdPvt := 1, answers := [0], reqCons := 1);
    OneStep(s, Commit(0), s1);
    OneStep(s1, BackLook, s2);
    OneStep(s2, BackAnswer, s3);
    PathOf3(s, Commit(0), s1, BackLook, s2, BackAnswer, s3);
    OneStep(s3, BackPush, Answering());
    PathJoin(s, [Commit(0), BackLook, BackAnswer], s3, [BackPush], Answering());
  }

  lemma Overtakes()
    ensures Path(Answering(), [HandlerStart, HandlerTake, Down(1)] + [Look(1)], Overtaken())
  {
    var s := Answering();
    var s1 := s.(handler := Taking(0, 1));
    var s2 := s1.(handler := Taking(1, 1), sem := 1);
    var s3 := s2.(sem := 0, threads := [Idle, Downed]);
    OneStep(s, HandlerStart, s1);
    OneStep(s1, HandlerTake, s2);
    OneStep(s2, Down(1), s3);
    PathOf3(s, HandlerStart, s1, HandlerTake, s2, Down(1), s3);
    OneStep(s3, Look(1), Overtaken());
    PathJoin(s, [HandlerStart, HandlerTake, Down(1)], s3, [Look(1)], Overtaken());
  }

  /** Were threads to run in the middle of the handler, the assertion could fail. */
  lemma AssertCanFail()
    ensures Initial(Fresh()) && Overtaken().threads[1].Looked?
    ensures exists actions: seq<Action> :: Path(Fresh(), actions, Overtaken())
    ensures FreeRequests(Overtaken(), Overtaken().threads[1].idx) == 0
  {
    hide Path;
    var a, b, c := [Down(0), Look(0), Swap(0)] + [Fill(0, Request(0, Immediate))],
                   [Commit(0), BackLook, BackAnswer] + [BackPush],
                   [HandlerStart, HandlerTake, Down(1)] + [Look(1)];
    Asks();
    Answers();
    Overtakes();
    PathJoin(Fresh(), a, Asking(), b, Answering());
    PathJoin(Fresh(), a + b, Answering(), c, Overtaken());
  }
}
