/** The process-local limiter on concurrent agent invocations.

    Coroutines interleave only at suspension points, so a run of the program is a sequence of
    code segments, each from one suspension point to the next: a caller enters, a caller whose
    future is done resumes, a caller leaves the body, or some caller is cancelled while it waits.
    The class runs the segments statement by statement; `Step` says what each segment does as a
    whole; the theorems are about every sequence of segments. */
module Limiter {
  import opened Wrappers

  /** One call of `acquire`. */
  type Id = nat

  /** The future a caller waits on, and whether the caller was cancelled after it was granted. */
  datatype Fut = Pending | Granted | Cancelled | GrantedThenCancelled

  datatype Waiter = Waiter(id: Id, fut: Fut)

  predicate HoldsPermit(w: Waiter) {
    w.fut.Granted? || w.fut.GrantedThenCancelled?
  }

  // ---------------------------------------------------------------- the semaphore

  /** The free permits and the queue of the semaphore. */
  datatype Pool = Pool(value: nat, waiters: seq<Waiter>)

  /** How many queued callers already own a permit. */
  function Grants(ws: seq<Waiter>): nat {
    if ws == [] then 0 else (if HoldsPermit(ws[0]) then 1 else 0) + Grants(ws[1..])
  }

  lemma {:induction false} GrantsConcat(a: seq<Waiter>, b: seq<Waiter>)
    ensures Grants(a + b) == Grants(a) + Grants(b)
  {
    if a == [] {
      assert a + b == b;
    } else {
      GrantsConcat(a[1..], b);
      assert (a + b)[1..] == a[1..] + b;
    }
  }

  lemma GrantsAround(ws: seq<Waiter>, i: nat)
    requires i < |ws|
    ensures Grants(ws) == Grants(ws[..i]) + Grants([ws[i]]) + Grants(ws[i + 1..])
  {
    assert ws == ws[..i] + ([ws[i]] + ws[i + 1..]);
    GrantsConcat(ws[..i], [ws[i]] + ws[i + 1..]);
    GrantsConcat([ws[i]], ws[i + 1..]);
  }

  lemma GrantsUpdate(ws: seq<Waiter>, i: nat, w: Waiter)
    requires i < |ws|
    ensures Grants(ws[i := w]) == Grants(ws) - Grants([ws[i]]) + Grants([w])
  {
    GrantsAround(ws, i);
    GrantsAround(ws[i := w], i);
    assert ws[i := w][..i] == ws[..i] && ws[i := w][i + 1..] == ws[i + 1..];
  }

  /** The position of the first caller that still waits for a permit. */
  function FirstPending(ws: seq<Waiter>): (i: nat)
    ensures i <= |ws|
    ensures i < |ws| ==> ws[i].fut.Pending?
    ensures forall k :: 0 <= k < i ==> !ws[k].fut.Pending?
  {
    if ws == [] || ws[0].fut.Pending? then 0 else 1 + FirstPending(ws[1..])
  }

  /** `Semaphore._wake_up_next`: a free permit goes to the first caller that still waits. */
  function WakeNext(p: Pool): Pool
    requires p.value > 0
  {
    var i := FirstPending(p.waiters);
    if i < |p.waiters| then Pool(p.value - 1, p.waiters[i := p.waiters[i].(fut := Granted)]) else p
  }

  /** Waking callers until the permits or the callers run out. */
  function WakeAll(p: Pool): Pool
    decreases p.value
  {
    if p.value > 0 && FirstPending(p.waiters) < |p.waiters| then WakeAll(WakeNext(p)) else p
  }

  function Position(ws: seq<Waiter>, id: Id): (i: nat)
    ensures i <= |ws|
    ensures i < |ws| ==> ws[i].id == id
    ensures forall k :: 0 <= k < i ==> ws[k].id != id
  {
    if ws == [] || ws[0].id == id then 0 else 1 + Position(ws[1..], id)
  }

  function Without(ws: seq<Waiter>, i: nat): seq<Waiter>
    requires i < |ws|
  {
    ws[..i] + ws[i + 1..]
  }

  // ---------------------------------------------------------------- the limiter at its suspension points

  /** The limiter between two segments: `inBody` are the callers inside the guarded body. */
  datatype State = State(max: nat, active: int, queued: int, pool: Pool, inBody: set<Id>, seen: set<Id>)

  datatype Event = Enter(id: Id) | Resume(id: Id) | Leave(id: Id) | Cancel(id: Id)

  function Init(max: nat): State {
    State(max, 0, 0, Pool(max, []), {}, {})
  }

  predicate Waiting(s: State, id: Id) {
    Position(s.pool.waiters, id) < |s.pool.waiters|
  }

  function FutOf(s: State, id: Id): Fut
    requires Waiting(s, id)
  {
    s.pool.waiters[Position(s.pool.waiters, id)].fut
  }

  predicate Enabled(s: State, e: Event) {
    match e
    case Enter(id) => id !in s.seen
    case Resume(id) => Waiting(s, id) && !FutOf(s, id).Pending?
    case Leave(id) => id in s.inBody
    case Cancel(id) => Waiting(s, id)
  }

  /** `Semaphore.locked` is false: a permit is free and nobody who was not cancelled waits. */
  predicate FreeToTake(p: Pool) {
    p.value > 0 && forall k :: 0 <= k < |p.waiters| ==> p.waiters[k].fut.Cancelled?
  }

  function AfterCancel(f: Fut): Fut {
    match f
    case Pending => Cancelled
    case Granted => GrantedThenCancelled
    case Cancelled => Cancelled
    case GrantedThenCancelled => GrantedThenCancelled
  }

  /** The pool after a queued caller comes back from its wait: its place is gone, a permit it may
      no longer use is returned, and free permits go to those who still wait. */
  function PoolAfterWait(p: Pool, i: nat): Pool
    requires i < |p.waiters|
  {
    WakeAll(Pool(if p.waiters[i].fut.GrantedThenCancelled? then p.value + 1 else p.value, Without(p.waiters, i)))
  }

  /** What a segment does to the limiter. */
  function Step(s: State, e: Event): State
    requires Enabled(s, e)
  {
    match e
    case Enter(id) =>
      if FreeToTake(s.pool) then
        s.(active := s.active + 1, pool := s.pool.(value := s.pool.value - 1), inBody := s.inBody + {id}, seen := s.seen + {id})
      else
        s.(queued := s.queued + 1, pool := s.pool.(waiters := s.pool.waiters + [Waiter(id, Pending)]), seen := s.seen + {id})
    case Resume(id) =>
      var i := Position(s.pool.waiters, id);
      var t := s.(queued := s.queued - 1, pool := PoolAfterWait(s.pool, i));
      if s.pool.waiters[i].fut.Granted? then t.(active := s.active + 1, inBody := s.inBody + {id}) else t
    case Leave(id) =>
      s.(active := s.active - 1, pool := WakeNext(s.pool.(value := s.pool.value + 1)), inBody := s.inBody - {id})
    case Cancel(id) =>
      var i := Position(s.pool.waiters, id);
      s.(pool := s.pool.(waiters := s.pool.waiters[i := s.pool.waiters[i].(fut := AfterCancel(s.pool.waiters[i].fut))]))
  }

  // ---------------------------------------------------------------- what every segment keeps

  /** What holds at every suspension point. */
  ghost predicate Inv(s: State) {
    && s.active == |s.inBody|
    && s.queued == |s.pool.waiters|
    && s.active + s.pool.value + Grants(s.pool.waiters) == s.max
    && PoolInv(s.pool)
    && s.inBody <= s.seen
    && (forall k :: 0 <= k < |s.pool.waiters| ==> s.pool.waiters[k].id in s.seen - s.inBody)
  }

  /** Permits go out in queue order, and a permit is idle while somebody still waits only if a
      granted caller has yet to come back (and will pass the permit on). */
  ghost predicate PoolInv(p: Pool) {
    && Distinct(p.waiters) && InTurn(p.waiters)
    && (p.value > 0 && !NobodyPending(p.waiters) ==> Grants(p.waiters) > 0)
  }

  ghost predicate Distinct(ws: seq<Waiter>) {
    forall i, j :: 0 <= i < j < |ws| ==> ws[i].id != ws[j].id
  }

  ghost predicate InTurn(ws: seq<Waiter>) {
    forall i, j :: 0 <= i < j < |ws| && HoldsPermit(ws[j]) ==> !ws[i].fut.Pending?
  }

  ghost predicate NobodyPending(ws: seq<Waiter>) {
    forall k :: 0 <= k < |ws| ==> !ws[k].fut.Pending?
  }

  /** The same callers in the same order, and nobody waits again who did not. */
  ghost predicate SameQueue(ws: seq<Waiter>, ws': seq<Waiter>) {
    |ws| == |ws'|
    && forall k :: 0 <= k < |ws| ==> ws'[k].id == ws[k].id && (ws'[k].fut.Pending? ==> ws[k].fut.Pending?)
  }

  /** The same callers in the same order, some of those who waited now granted. */
  ghost predicate Woken(ws: seq<Waiter>, ws': seq<Waiter>) {
    |ws| == |ws'|
    && forall k :: 0 <= k < |ws| ==> ws'[k].id == ws[k].id && (ws'[k].fut == ws[k].fut || (ws[k].fut.Pending? && ws'[k].fut.Granted?))
  }

  lemma GrantsPositive(ws: seq<Waiter>, k: nat)
    requires k < |ws| && HoldsPermit(ws[k])
    ensures Grants(ws) > 0
  {
    GrantsAround(ws, k);
  }

  lemma {:induction false} NoGrants(ws: seq<Waiter>)
    requires Grants(ws) == 0
    ensures forall k :: 0 <= k < |ws| ==> !HoldsPermit(ws[k])
  {
    forall k | 0 <= k < |ws| ensures !HoldsPermit(ws[k]) {
      GrantsAround(ws, k);
    }
  }

  lemma WakeNextKeeps(p: Pool)
    requires p.value > 0 && Distinct(p.waiters) && InTurn(p.waiters)
    ensures var q := WakeNext(p);
      && q.value + Grants(q.waiters) == p.value + Grants(p.waiters)
      && SameQueue(p.waiters, q.waiters) && Distinct(q.waiters) && InTurn(q.waiters) && Woken(p.waiters, q.waiters)
      && (q.value == p.value ==> NobodyPending(q.waiters)) && q.value <= p.value
  {
    var i := FirstPending(p.waiters);
    if i < |p.waiters| {
      GrantsUpdate(p.waiters, i, p.waiters[i].(fut := Granted));
    }
  }

  lemma {:induction false} WakeAllKeeps(p: Pool)
    requires Distinct(p.waiters) && InTurn(p.waiters)
    ensures var q := WakeAll(p);
      && q.value + Grants(q.waiters) == p.value + Grants(p.waiters)
      && SameQueue(p.waiters, q.waiters) && Distinct(q.waiters) && InTurn(q.waiters) && Woken(p.waiters, q.waiters)
      && (q.value > 0 ==> NobodyPending(q.waiters))
    decreases p.value
  {
    if p.value > 0 && FirstPending(p.waiters) < |p.waiters| {
      WakeNextKeeps(p);
      WakeAllKeeps(WakeNext(p));
    }
  }

  lemma WithoutAt(ws: seq<Waiter>, i: nat)
    requires i < |ws|
    ensures |Without(ws, i)| == |ws| - 1
    ensures forall k :: 0 <= k < |ws| - 1 ==> Without(ws, i)[k] == ws[if k < i then k else k + 1]
  {
  }

  lemma WithoutKeeps(ws: seq<Waiter>, i: nat)
    requires i < |ws| && Distinct(ws) && InTurn(ws)
    ensures Distinct(Without(ws, i)) && InTurn(Without(ws, i))
    ensures Grants(Without(ws, i)) == Grants(ws) - Grants([ws[i]])
  {
    GrantsAround(ws, i);
    GrantsConcat(ws[..i], ws[i + 1..]);
    WithoutAt(ws, i);
    var rest := Without(ws, i);
    forall a, b | 0 <= a < b < |rest|
      ensures rest[a].id != rest[b].id && (HoldsPermit(rest[b]) ==> !rest[a].fut.Pending?)
    {
      var a', b' := if a < i then a else a + 1, if b < i then b else b + 1;
      assert rest[a] == ws[a'] && rest[b] == ws[b'];
    }
  }

  lemma AfterWaitKeeps(p: Pool, i: nat)
    requires i < |p.waiters| && Distinct(p.waiters) && InTurn(p.waiters) && !p.waiters[i].fut.Pending?
    ensures var q := PoolAfterWait(p, i);
      && SameQueue(Without(p.waiters, i), q.waiters) && Distinct(q.waiters) && InTurn(q.waiters)
      && Woken(Without(p.waiters, i), q.waiters)
      && (q.value > 0 ==> NobodyPending(q.waiters))
      && q.value + Grants(q.waiters) == p.value + Grants(p.waiters) - (if p.waiters[i].fut.Granted? then 1 else 0)
  {
    WithoutKeeps(p.waiters, i);
    WakeAllKeeps(Pool(if p.waiters[i].fut.GrantedThenCancelled? then p.value + 1 else p.value, Without(p.waiters, i)));
  }

  lemma JoinKeeps(p: Pool, id: Id)
    requires PoolInv(p) && !FreeToTake(p) && forall k :: 0 <= k < |p.waiters| ==> p.waiters[k].id != id
    ensures PoolInv(p.(waiters := p.waiters + [Waiter(id, Pending)]))
    ensures Grants(p.waiters + [Waiter(id, Pending)]) == Grants(p.waiters)
  {
    GrantsConcat(p.waiters, [Waiter(id, Pending)]);
    if p.value > 0 {
      var k :| 0 <= k < |p.waiters| && !p.waiters[k].fut.Cancelled?;
      if HoldsPermit(p.waiters[k]) {
        GrantsPositive(p.waiters, k);
      }
    }
  }

  lemma CancelKeeps(p: Pool, i: nat)
    requires PoolInv(p) && i < |p.waiters|
    ensures var q := p.(waiters := p.waiters[i := p.waiters[i].(fut := AfterCancel(p.waiters[i].fut))]);
      PoolInv(q) && Grants(q.waiters) == Grants(p.waiters) && SameQueue(p.waiters, q.waiters)
  {
    GrantsUpdate(p.waiters, i, p.waiters[i].(fut := AfterCancel(p.waiters[i].fut)));
  }

  lemma LeaveKeeps(p: Pool)
    requires PoolInv(p)
    ensures PoolInv(WakeNext(p.(value := p.value + 1)))
    ensures var q := WakeNext(p.(value := p.value + 1));
      && q.value + Grants(q.waiters) == p.value + Grants(p.waiters) + 1
      && SameQueue(p.waiters, q.waiters) && Woken(p.waiters, q.waiters)
  {
    WakeNextKeeps(p.(value := p.value + 1));
  }

  lemma ResumeKeeps(s: State, id: Id)
    requires Inv(s) && Enabled(s, Resume(id))
    ensures Inv(Step(s, Resume(id)))
  {
    var ws := s.pool.waiters;
    var i := Position(ws, id);
    AfterWaitKeeps(s.pool, i);
    WithoutAt(ws, i);
    assert ws[i].id in s.seen - s.inBody;
    var q := PoolAfterWait(s.pool, i);
    forall k | 0 <= k < |q.waiters| ensures q.waiters[k].id in s.seen - s.inBody && q.waiters[k].id != id {
      var k' := if k < i then k else k + 1;
      assert q.waiters[k].id == ws[k'].id;
    }
  }

  /** Every segment keeps the invariant. */
  lemma StepKeeps(s: State, e: Event)
    requires Inv(s) && Enabled(s, e)
    ensures Inv(Step(s, e))
  {
    match e
    case Enter(id) =>
      if !FreeToTake(s.pool) {
        JoinKeeps(s.pool, id);
      }
    case Resume(id) =>
      ResumeKeeps(s, id);
    case Leave(id) =>
      LeaveKeeps(s.pool);
    case Cancel(id) =>
      CancelKeeps(s.pool, Position(s.pool.waiters, id));
  }

  // ---------------------------------------------------------------- every run

  /** A run is any sequence of enabled segments. */
  ghost predicate IsRun(s: State, events: seq<Event>)
    decreases |events|, 0
  {
    events == [] || (IsRun(s, events[..|events| - 1]) && Enabled(After(s, events[..|events| - 1]), events[|events| - 1]))
  }

  ghost function After(s: State, events: seq<Event>): State
    requires IsRun(s, events)
    decreases |events|, 1
  {
    if events == [] then s else Step(After(s, events[..|events| - 1]), events[|events| - 1])
  }

  lemma {:induction false} RunKeeps(s: State, events: seq<Event>)
    requires Inv(s) && IsRun(s, events)
    ensures Inv(After(s, events)) && After(s, events).max == s.max && s.seen <= After(s, events).seen
  {
    if events != [] {
      RunKeeps(s, events[..|events| - 1]);
      StepKeeps(After(s, events[..|events| - 1]), events[|events| - 1]);
    }
  }

  /** At every suspension point of every run: `active` counts the callers in the body and never
      exceeds the maximum, `queued` counts the callers waiting, and active callers, free permits
      and permits on their way to a waiting caller add up to the maximum. */
  lemma CountersAreExact(max: nat, events: seq<Event>)
    requires IsRun(Init(max), events)
    ensures var s := After(Init(max), events);
      && s.active == |s.inBody| <= max
      && s.queued == |s.pool.waiters|
      && s.active + s.pool.value + Grants(s.pool.waiters) == max
      && (s.active + s.pool.value == max <==> forall k :: 0 <= k < |s.pool.waiters| ==> !HoldsPermit(s.pool.waiters[k]))
  {
    RunKeeps(Init(max), events);
    var ws := After(Init(max), events).pool.waiters;
    if Grants(ws) == 0 {
      NoGrants(ws);
    } else if forall k :: 0 <= k < |ws| ==> !HoldsPermit(ws[k]) {
      NoHolders(ws);
    }
  }

  lemma {:induction false} NoHolders(ws: seq<Waiter>)
    requires forall k :: 0 <= k < |ws| ==> !HoldsPermit(ws[k])
    ensures Grants(ws) == 0
  {
    if ws != [] {
      NoHolders(ws[1..]);
    }
  }

  /** When every caller is done, both counters are zero and every permit is back. */
  lemma AllDone(max: nat, events: seq<Event>)
    requires IsRun(Init(max), events)
    requires After(Init(max), events).inBody == {} && After(Init(max), events).pool.waiters == []
    ensures var s := After(Init(max), events); s.active == 0 && s.queued == 0 && s.pool.value == max
  {
    RunKeeps(Init(max), events);
  }

  /** No wakeup is lost: whenever a caller still waits for a permit and no granted caller has yet
      to come back, the body is full. */
  lemma NoLostWakeup(max: nat, events: seq<Event>, k: nat)
    requires IsRun(Init(max), events)
    requires k < |After(Init(max), events).pool.waiters| && After(Init(max), events).pool.waiters[k].fut.Pending?
    ensures var s := After(Init(max), events);
      s.active == max || exists j :: 0 <= j < |s.pool.waiters| && HoldsPermit(s.pool.waiters[j])
  {
    RunKeeps(Init(max), events);
    var ws := After(Init(max), events).pool.waiters;
    if forall j :: 0 <= j < |ws| ==> !HoldsPermit(ws[j]) {
      NoHolders(ws);
    }
  }

  // ---------------------------------------------------------------- no caller is stuck

  function Load(s: State): nat {
    2 * |s.pool.waiters| + |s.inBody|
  }

  /** A caller that can move without anyone entering or being cancelled. */
  lemma SomebodyMoves(s: State) returns (e: Event)
    requires Inv(s) && s.max >= 1 && Load(s) > 0
    ensures (e.Resume? || e.Leave?) && Enabled(s, e)
    ensures Load(Step(s, e)) < Load(s)
  {
    var ws := s.pool.waiters;
    if k :| 0 <= k < |ws| && !ws[k].fut.Pending? {
      e := Resume(ws[k].id);
      AfterWaitKeeps(s.pool, Position(ws, ws[k].id));
    } else {
      if s.inBody == {} {
        NoHolders(ws);
        assert false;
      }
      var id :| id in s.inBody;
      e := Leave(id);
      LeaveKeeps(s.pool);
    }
  }

  /** From every state a run can reach, letting callers resume and leave, in some order, empties
      the limiter: nobody can be left waiting for good. */
  lemma {:induction false} CanDrain(s: State) returns (events: seq<Event>)
    requires Inv(s) && s.max >= 1
    ensures IsRun(s, events) && (forall e :: e in events ==> e.Resume? || e.Leave?)
    ensures After(s, events).inBody == {} && After(s, events).pool.waiters == []
    decreases Load(s)
  {
    if Load(s) == 0 {
      events := [];
    } else {
      var e := SomebodyMoves(s);
      StepKeeps(s, e);
      var rest := CanDrain(Step(s, e));
      RunFrom(s, e, rest);
      events := [e] + rest;
    }
  }

  lemma {:induction false} RunFrom(s: State, e: Event, rest: seq<Event>)
    requires Enabled(s, e) && IsRun(Step(s, e), rest)
    ensures IsRun(s, [e] + rest) && After(s, [e] + rest) == After(Step(s, e), rest)
  {
    var all := [e] + rest;
    if rest == [] {
      assert all == [e] && all[..0] == [];
      assert IsRun(s, all[..0]);
    } else {
      var n := |rest| - 1;
      RunFrom(s, e, rest[..n]);
      assert all[..n + 1] == [e] + rest[..n];
      assert all[n + 1] == rest[n];
    }
  }

  // ---------------------------------------------------------------- first come, first served

  predicate StillPending(s: State, id: Id) {
    Waiting(s, id) && FutOf(s, id).Pending?
  }

  /** The caller got a permit: it owns one on its way, or it is in the body. */
  predicate Served(s: State, id: Id) {
    id in s.inBody || (Waiting(s, id) && HoldsPermit(Waiter(id, FutOf(s, id))))
  }

  /** While x waits for a permit, y has none and, if still queued, queues behind it. */
  ghost predicate Behind(s: State, x: Id, y: Id) {
    && x in s.seen && y != x
    && (StillPending(s, x) ==>
         !Served(s, y) && (Waiting(s, y) ==> Position(s.pool.waiters, x) < Position(s.pool.waiters, y)))
  }

  lemma PositionIs(ws: seq<Waiter>, i: nat)
    requires i < |ws| && Distinct(ws)
    ensures Position(ws, ws[i].id) == i
  {
  }

  lemma PositionSame(ws: seq<Waiter>, ws': seq<Waiter>, id: Id)
    requires SameQueue(ws, ws')
    ensures Position(ws', id) == Position(ws, id)
  {
  }

  lemma PositionWithout(ws: seq<Waiter>, i: nat, id: Id)
    requires i < |ws| && Distinct(ws)
    ensures var p, q := Position(ws, id), Position(Without(ws, i), id);
      if id == ws[i].id then q == |ws| - 1 else if p < i then q == p else q == p - 1
  {
    WithoutAt(ws, i);
    var p, q := Position(ws, id), Position(Without(ws, i), id);
    if p < |ws| && p != i {
      assert Without(ws, i)[if p < i then p else p - 1].id == id;
    }
    if q < |ws| - 1 {
      PositionIs(ws, if q < i then q else q + 1);
    }
  }

  /** One segment: who was queued behind x stays behind x. */
  lemma BehindStep(s: State, e: Event, x: Id, y: Id)
    requires Inv(s) && Enabled(s, e) && Behind(s, x, y)
    ensures Behind(Step(s, e), x, y)
  {
    StepKeeps(s, e);
    hide Inv;
    match e
    case Enter(id) =>
      BehindEnter(s, id, x, y);
    case Resume(id) =>
      BehindResume(s, id, x, y);
    case Leave(id) =>
      LeaveKeeps(s.pool);
      BehindSame(s, Step(s, e), x, y);
    case Cancel(id) =>
      CancelKeeps(s.pool, Position(s.pool.waiters, id));
      BehindSame(s, Step(s, e), x, y);
  }

  /** A caller that arrives while x waits joins the queue behind it. */
  lemma BehindEnter(s: State, id: Id, x: Id, y: Id)
    requires Inv(s) && Enabled(s, Enter(id)) && Behind(s, x, y)
    ensures Behind(Step(s, Enter(id)), x, y)
  {
    var ws := s.pool.waiters;
    if !FreeToTake(s.pool) {
      PositionJoined(ws, Waiter(id, Pending), x);
      PositionJoined(ws, Waiter(id, Pending), y);
    }
  }

  lemma {:induction false} PositionJoined(ws: seq<Waiter>, w: Waiter, id: Id)
    ensures var p, q := Position(ws, id), Position(ws + [w], id);
      if p < |ws| then q == p else q == if w.id == id then |ws| else |ws| + 1
  {
    if ws != [] {
      assert (ws + [w])[1..] == ws[1..] + [w];
      PositionJoined(ws[1..], w, id);
    } else {
      assert ws + [w] == [w] && [w][1..] == [];
    }
  }

  lemma BehindSame(s: State, t: State, x: Id, y: Id)
    requires Inv(t) && Behind(s, x, y) && SameQueue(s.pool.waiters, t.pool.waiters) && t.inBody <= s.inBody && t.seen == s.seen
    ensures Behind(t, x, y)
  {
    PositionSame(s.pool.waiters, t.pool.waiters, x);
    PositionSame(s.pool.waiters, t.pool.waiters, y);
  }

  /** What the future of a waiter is, once another has left the queue. */
  lemma FutureAfter(ws: seq<Waiter>, i: nat, ws': seq<Waiter>, q: nat)
    requires i < |ws| && SameQueue(Without(ws, i), ws') && q < |ws'|
    ensures |ws'| == |ws| - 1
    ensures ws'[q].fut.Pending? ==> ws[if q < i then q else q + 1].fut.Pending?
  {
    WithoutAt(ws, i);
  }

  /** Where it stands, and that its future is no other than before. */
  lemma StandsAfter(ws: seq<Waiter>, i: nat, ws': seq<Waiter>, id: Id)
    requires i < |ws| && Distinct(ws) && SameQueue(Without(ws, i), ws')
    ensures |ws'| == |ws| - 1
    ensures var p, q := Position(ws, id), Position(ws', id);
      && (id == ws[i].id ==> q == |ws'|) && (id != ws[i].id ==> q == if p < i then p else p - 1)
      && (q < |ws'| ==> p < |ws| && p != i && (ws'[q].fut.Pending? ==> ws[p].fut.Pending?))
  {
    PositionSame(Without(ws, i), ws', id);
    PositionWithout(ws, i, id);
    assert |Without(ws, i)| == |ws| - 1 == |ws'|;
    hide Position, Without, Distinct, SameQueue;
    var p, q := Position(ws, id), Position(ws', id);
    if q < |ws'| {
      FutureAfter(ws, i, ws', q);
      assert p != i;
    }
  }

  lemma BehindResume(s: State, id: Id, x: Id, y: Id)
    requires Inv(s) && Enabled(s, Resume(id)) && Behind(s, x, y) && Inv(Step(s, Resume(id)))
    ensures Behind(Step(s, Resume(id)), x, y)
  {
    var i := Position(s.pool.waiters, id);
    var t := Step(s, Resume(id));
    AfterWaitKeeps(s.pool, i);
    StandsAfter(s.pool.waiters, i, t.pool.waiters, x);
    StandsAfter(s.pool.waiters, i, t.pool.waiters, y);
    hide Position, Without, PoolAfterWait, Grants, SameQueue, Distinct;
  }

  lemma {:induction false} BehindRun(s: State, events: seq<Event>, x: Id, y: Id)
    requires Inv(s) && IsRun(s, events) && Behind(s, x, y)
    ensures Behind(After(s, events), x, y)
  {
    if events != [] {
      var before := events[..|events| - 1];
      BehindRun(s, before, x, y);
      RunKeeps(s, before);
      BehindStep(After(s, before), events[|events| - 1], x, y);
    }
  }

  /** Nobody is overtaken: once y queues behind x, y is not served while x still waits for a
      permit, however the run goes on. */
  lemma NoOvertaking(max: nat, events: seq<Event>, x: Id, y: Id, more: seq<Event>)
    requires IsRun(Init(max), events) && IsRun(After(Init(max), events), more)
    requires var s := After(Init(max), events);
      Waiting(s, x) && Waiting(s, y) && Position(s.pool.waiters, x) < Position(s.pool.waiters, y)
    ensures var t := After(After(Init(max), events), more); StillPending(t, x) ==> !Served(t, y)
  {
    RunKeeps(Init(max), events);
    BehindRun(After(Init(max), events), more, x, y);
  }

  /** Nor by anyone who comes later: who calls while x waits for a permit is not served before x. */
  lemma NoBarging(max: nat, events: seq<Event>, x: Id, y: Id, more: seq<Event>)
    requires IsRun(Init(max), events) && IsRun(After(Init(max), events), more)
    requires Waiting(After(Init(max), events), x) && y !in After(Init(max), events).seen
    ensures var t := After(After(Init(max), events), more); StillPending(t, x) ==> !Served(t, y)
  {
    RunKeeps(Init(max), events);
    BehindRun(After(Init(max), events), more, x, y);
  }

  // ---------------------------------------------------------------- what becomes of a caller

  /** A caller that was not cancelled waits, owns a permit, is in the body or has left it; one that
      was cancelled while it waited is on its way out, or out. */
  ghost predicate OnCourse(s: State, x: Id, entered: bool, cancelled: bool, left: bool) {
    && (entered <==> x in s.seen)
    && (Waiting(s, x) ==> x !in s.inBody && (cancelled <==> FutOf(s, x).Cancelled? || FutOf(s, x).GrantedThenCancelled?))
    && (cancelled || left ==> x !in s.inBody)
    && (left ==> !Waiting(s, x))
    && (entered && !cancelled && !left ==> x in s.inBody || Waiting(s, x))
  }

  lemma CourseEnter(s: State, id: Id, x: Id, entered: bool, cancelled: bool, left: bool)
    requires Inv(s) && Enabled(s, Enter(id)) && OnCourse(s, x, entered, cancelled, left) && (cancelled || left ==> entered)
    ensures OnCourse(Step(s, Enter(id)), x, entered || id == x, cancelled, left)
  {
    if !FreeToTake(s.pool) {
      PositionJoined(s.pool.waiters, Waiter(id, Pending), x);
    }
  }

  /** Waking changes no place, and no future but that of a caller still waiting. */
  lemma CourseWoken(s: State, t: State, x: Id, entered: bool, cancelled: bool, left: bool)
    requires OnCourse(s, x, entered, cancelled, left) && Woken(s.pool.waiters, t.pool.waiters)
    requires t.inBody == s.inBody && t.seen == s.seen
    ensures OnCourse(t, x, entered, cancelled, left)
  {
    PositionSame(s.pool.waiters, t.pool.waiters, x);
  }

  lemma CourseLeave(s: State, id: Id, x: Id, entered: bool, cancelled: bool, left: bool)
    requires Inv(s) && Enabled(s, Leave(id)) && OnCourse(s, x, entered, cancelled, left)
    ensures OnCourse(Step(s, Leave(id)), x, entered, cancelled, left || id == x)
  {
    LeaveKeeps(s.pool);
    hide Grants;
    CourseWoken(s, Step(s, Leave(id)).(inBody := s.inBody), x, entered, cancelled, left);
  }

  lemma CourseCancel(s: State, id: Id, x: Id, entered: bool, cancelled: bool, left: bool)
    requires Inv(s) && Enabled(s, Cancel(id)) && OnCourse(s, x, entered, cancelled, left)
    ensures OnCourse(Step(s, Cancel(id)), x, entered, cancelled || id == x, left)
  {
    CancelKeeps(s.pool, Position(s.pool.waiters, id));
    PositionSame(s.pool.waiters, Step(s, Cancel(id)).pool.waiters, x);
  }

  /** Where it stands once another has left the queue, and with which future. */
  lemma FutureOf(ws: seq<Waiter>, i: nat, ws': seq<Waiter>, x: Id)
    requires i < |ws| && Distinct(ws) && Woken(Without(ws, i), ws')
    ensures |ws'| == |ws| - 1
    ensures Position(ws', x) < |ws'| <==> Position(ws, x) < |ws| && ws[i].id != x
    ensures Position(ws', x) < |ws'| ==>
              var f, f' := ws[Position(ws, x)].fut, ws'[Position(ws', x)].fut; f' == f || (f.Pending? && f'.Granted?)
  {
    var rest := Without(ws, i);
    WithoutAt(ws, i);
    PositionSame(rest, ws', x);
    PositionWithout(ws, i, x);
    hide Without, Distinct;
    var p, q := Position(ws, x), Position(rest, x);
    if q < |rest| {
      assert rest[q] == ws[p];
    }
    hide Position;
  }

  lemma CourseResume(s: State, id: Id, x: Id, entered: bool, cancelled: bool, left: bool)
    requires Inv(s) && Enabled(s, Resume(id)) && OnCourse(s, x, entered, cancelled, left)
    ensures OnCourse(Step(s, Resume(id)), x, entered, cancelled, left)
  {
    var i := Position(s.pool.waiters, id);
    AfterWaitKeeps(s.pool, i);
    FutureOf(s.pool.waiters, i, PoolAfterWait(s.pool, i).waiters, x);
    hide Grants, PoolAfterWait, Without, Woken;
  }

  lemma CourseStep(s: State, e: Event, x: Id, entered: bool, cancelled: bool, left: bool)
    requires Inv(s) && Enabled(s, e) && OnCourse(s, x, entered, cancelled, left) && (cancelled || left ==> entered)
    ensures OnCourse(Step(s, e), x, entered || e == Enter(x), cancelled || e == Cancel(x), left || e == Leave(x))
    ensures cancelled || e == Cancel(x) || left || e == Leave(x) ==> entered || e == Enter(x)
  {
    match e
    case Enter(id) => CourseEnter(s, id, x, entered, cancelled, left);
    case Resume(id) => CourseResume(s, id, x, entered, cancelled, left);
    case Leave(id) => CourseLeave(s, id, x, entered, cancelled, left);
    case Cancel(id) => CourseCancel(s, id, x, entered, cancelled, left);
  }

  lemma {:induction false} CourseRun(max: nat, events: seq<Event>, x: Id)
    requires IsRun(Init(max), events)
    ensures OnCourse(After(Init(max), events), x, Enter(x) in events, Cancel(x) in events, Leave(x) in events)
    ensures Cancel(x) in events || Leave(x) in events ==> Enter(x) in events
  {
    if events != [] {
      var n := |events| - 1;
      CourseRun(max, events[..n], x);
      RunKeeps(Init(max), events[..n]);
      assert events == events[..n] + [events[n]];
      CourseStep(After(Init(max), events[..n]), events[n], x,
                 Enter(x) in events[..n], Cancel(x) in events[..n], Leave(x) in events[..n]);
    }
  }

  /** Nobody is turned away: who calls and is not cancelled while it waits is in the body until it
      leaves, or still queued for it with no other future than a grant. And who is cancelled while
      it waits never comes into the body. */
  lemma EveryCallerIsServed(max: nat, events: seq<Event>, x: Id)
    requires IsRun(Init(max), events)
    ensures var s := After(Init(max), events);
      && (Enter(x) in events && Cancel(x) !in events && Leave(x) !in events ==>
           x in s.inBody || (Waiting(s, x) && (FutOf(s, x).Pending? || FutOf(s, x).Granted?)))
      && (Cancel(x) in events ==> x !in s.inBody && !StillPending(s, x))
      && (x in s.inBody ==> Enter(x) in events && Cancel(x) !in events && Leave(x) !in events)
  {
    CourseRun(max, events, x);
    RunKeeps(Init(max), events);
  }

  // ---------------------------------------------------------------- the code, segment by segment

  /** The event loop library's semaphore: a value and a queue of futures. */
  class Semaphore {
    var value: nat
    var waiters: seq<Waiter>

    constructor (value: nat)
      ensures Contents() == Pool(value, [])
    {
      this.value, this.waiters := value, [];
    }

    function Contents(): Pool
      reads this
    {
      Pool(value, waiters)
    }

    /** Whether some queued caller was not cancelled. */
    method SomebodyQueued() returns (queued: bool)
      ensures queued <==> exists k :: 0 <= k < |waiters| && !waiters[k].fut.Cancelled?
    {
      for k := 0 to |waiters|
        invariant forall j :: 0 <= j < k ==> waiters[j].fut.Cancelled?
      {
        if !waiters[k].fut.Cancelled? {
          return true;
        }
      }
      queued := false;
    }

    /** `acquire` up to its suspension point: takes a permit at once or queues a new future. */
    method TryAcquire(id: Id) returns (acquired: bool)
      modifies this
      ensures acquired <==> old(value) > 0 && forall k :: 0 <= k < |old(waiters)| ==> old(waiters)[k].fut.Cancelled?
      ensures acquired ==> value == old(value) - 1 && waiters == old(waiters)
      ensures !acquired ==> value == old(value) && waiters == old(waiters) + [Waiter(id, Pending)]
    {
      var queued := SomebodyQueued();
      acquired := value > 0 && !queued;
      if acquired {
        value := value - 1;
      } else {
        waiters := waiters + [Waiter(id, Pending)];
      }
    }

    method WakeUpNext() returns (woke: bool)
      requires value > 0
      modifies this
      ensures Contents() == WakeNext(old(Contents()))
      ensures woke <==> old(FirstPending(waiters) < |waiters|)
    {
      for i := 0 to |waiters|
        invariant forall k :: 0 <= k < i ==> !waiters[k].fut.Pending?
        invariant value == old(value) && waiters == old(waiters)
      {
        if waiters[i].fut.Pending? {
          value := value - 1;
          waiters := waiters[i := waiters[i].(fut := Granted)];
          return true;
        }
      }
      woke := false;
    }

    /** `acquire` from its suspension point on. */
    method FinishAcquire(id: Id) returns (acquired: bool)
      requires Position(waiters, id) < |waiters|
      modifies this
      ensures acquired <==> old(waiters[Position(waiters, id)].fut.Granted?)
      ensures Contents() == PoolAfterWait(old(Contents()), old(Position(waiters, id)))
    {
      var i := Position(waiters, id);
      var fut := waiters[i].fut;
      waiters := Without(waiters, i);
      acquired := fut.Granted?;
      if fut.GrantedThenCancelled? {
        value := value + 1;
      }
      ghost var start := Contents();
      var more := true;
      while value > 0 && more
        invariant WakeAll(Contents()) == WakeAll(start)
        invariant !more ==> Contents() == WakeAll(start)
        decreases value, more
      {
        more := WakeUpNext();
      }
    }

    method Release()
      modifies this
      ensures Contents() == WakeNext(Pool(old(value) + 1, old(waiters)))
    {
      value := value + 1;
      var _ := WakeUpNext();
    }

    /** A queued caller's task is cancelled. */
    method CancelWait(id: Id)
      requires Position(waiters, id) < |waiters|
      modifies this
      ensures value == old(value)
      ensures var i := old(Position(waiters, id)); waiters == old(waiters[i := waiters[i].(fut := AfterCancel(waiters[i].fut))])
    {
      var i := Position(waiters, id);
      waiters := waiters[i := waiters[i].(fut := AfterCancel(waiters[i].fut))];
    }
  }

  class AgentConcurrencyLimiter {
    const maxActive: nat
    const semaphore: Semaphore
    var locked: bool
    var active: int
    var queued: int
    ghost var inBody: set<Id>
    ghost var seen: set<Id>

    constructor (maxActive: nat)
      ensures Valid() && fresh(semaphore) && Now() == Init(maxActive)
    {
      this.maxActive := maxActive;
      semaphore := new Semaphore(maxActive);
      locked, active, queued := false, 0, 0;
      inBody, seen := {}, {};
    }

    ghost function Now(): State
      reads this, semaphore
    {
      State(maxActive, active, queued, semaphore.Contents(), inBody, seen)
    }

    /** Between segments the lock is free, so no segment ever has to wait for it. */
    ghost predicate Valid()
      reads this, semaphore
    {
      !locked && Inv(Now())
    }

    /** Entering the lock would suspend the caller if it were taken. */
    method Lock()
      requires !locked
      modifies this`locked
      ensures locked
    {
      locked := true;
    }

    method Unlock()
      requires locked
      modifies this`locked
      ensures !locked
    {
      locked := false;
    }

    /** From the call of `acquire` to the wait for the semaphore, or straight into the body. */
    method EnterSegment(id: Id)
      requires Valid() && Enabled(Now(), Enter(id))
      modifies this, semaphore
      ensures Valid() && Now() == Step(old(Now()), Enter(id))
    {
      StepKeeps(Now(), Enter(id));
      seen := seen + {id};
      Lock();
      queued := queued + 1;
      Unlock();
      var acquired := semaphore.TryAcquire(id);
      if acquired {
        Admit(id);
      }
    }

    /** The caller has its permit: it is counted as active and enters the body. */
    method Admit(id: Id)
      requires !locked
      modifies this`locked, this`queued, this`active, this`inBody
      ensures !locked && queued == old(queued) - 1 && active == old(active) + 1 && inBody == old(inBody) + {id}
    {
      Lock();
      queued := queued - 1;
      active := active + 1;
      Unlock();
      inBody := inBody + {id};
    }

    /** A waiting caller comes back: into the body with its permit, or out with a cancellation. */
    method ResumeSegment(id: Id)
      requires Valid() && Enabled(Now(), Resume(id))
      modifies this, semaphore
      ensures Valid() && Now() == Step(old(Now()), Resume(id))
    {
      StepKeeps(Now(), Resume(id));
      var acquired := semaphore.FinishAcquire(id);
      if acquired {
        Admit(id);
      } else {
        Lock();
        queued := queued - 1;
        Unlock();
      }
    }

    /** The body ends, normally or with any exception. */
    method LeaveSegment(id: Id)
      requires Valid() && Enabled(Now(), Leave(id))
      modifies this, semaphore
      ensures Valid() && Now() == Step(old(Now()), Leave(id))
    {
      StepKeeps(Now(), Leave(id));
      inBody := inBody - {id};
      Lock();
      active := active - 1;
      Unlock();
      semaphore.Release();
    }

    /** A waiting caller is cancelled by other code. */
    method CancelSegment(id: Id)
      requires Valid() && Enabled(Now(), Cancel(id))
      modifies semaphore
      ensures Valid() && Now() == Step(old(Now()), Cancel(id))
    {
      StepKeeps(Now(), Cancel(id));
      semaphore.CancelWait(id);
    }
  }

  /** The constructor's check of the configured maximum. */
  method NewLimiter(maxActive: int) returns (limiter: Option<AgentConcurrencyLimiter>)
    ensures limiter.None? <==> maxActive < 1
    ensures limiter.Some? ==> fresh(limiter.value) && limiter.value.Valid() && limiter.value.Now() == Init(maxActive)
  {
    if maxActive < 1 {
      return None;
    }
    var made := new AgentConcurrencyLimiter(maxActive);
    limiter := Some(made);
  }
}
