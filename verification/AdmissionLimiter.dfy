/** The single-slot image admission limiter: one active caller, two FIFO waiters,
    and grants that can race a waiter's own cancellation. */
module AdmissionLimiter {

  const MAXIMUM_QUEUED := 2

  // Acquire calls are numbered in the order in which they take the mutex.
  type Ticket = nat

  datatype Entry = Admitted | Queued | Full

  /** The mutex-protected fields, with `closed` standing for the ready channels already closed. */
  datatype Core = Core(active: bool, queue: seq<Ticket>, closed: set<Ticket>)

  /** Where one Acquire call stands in its own program. */
  datatype Phase = Waiting | Holding | Released | Rejected | Left

  /** `grants` is a history variable: the tickets that were handed the slot, oldest first. */
  datatype State = State(core: Core, phases: seq<Phase>, grants: seq<Ticket>)

  datatype Event =
    | Acquire            // a new caller runs the first critical section
    | Observe(t: Ticket) // the select picks the closed ready channel
    | Expire(t: Ticket)  // the select picks the caller's cancellation or its five-second budget
    | Release(t: Ticket) // the returned release function runs, any number of times

  // ---------------------------------------------------------------- critical sections

  function Admit(c: Core, t: Ticket): (Core, Entry) {
    if !c.active then (c.(active := true), Admitted)
    else if |c.queue| >= MAXIMUM_QUEUED then (c, Full)
    else (c.(queue := c.queue + [t]), Queued)
  }

  function Advance(c: Core): Core {
    if c.queue == [] then c.(active := false)
    else c.(queue := c.queue[1..], closed := c.closed + {c.queue[0]})
  }

  function Without(q: seq<Ticket>, t: Ticket): (r: seq<Ticket>)
    ensures t !in q ==> r == q
    ensures |r| <= |q|
    ensures forall x: Ticket :: x in r ==> x in q
  {
    if q == [] then [] else if q[0] == t then q[1..] else [q[0]] + Without(q[1..], t)
  }

  function Withdraw(c: Core, t: Ticket): Core {
    if t in c.queue then c.(queue := Without(c.queue, t)) else Advance(c)
  }

  // ---------------------------------------------------------------- interleavings

  function HandOver(s: State, after: Core): State {
    s.(core := after, grants := if s.core.queue == [] then s.grants else s.grants + [s.core.queue[0]])
  }

  /** One event; an event its caller cannot perform at that point changes nothing. */
  function Step(s: State, e: Event): State {
    match e
    case Acquire =>
      var t := |s.phases|;
      var (core, entry) := Admit(s.core, t);
      State(core,
            s.phases + [match entry case Admitted => Holding case Queued => Waiting case Full => Rejected],
            if entry == Admitted then s.grants + [t] else s.grants)
    case Observe(t) =>
      if t < |s.phases| && s.phases[t] == Waiting && t in s.core.closed
      then s.(phases := s.phases[t := Holding]) else s
    case Expire(t) =>
      if t < |s.phases| && s.phases[t] == Waiting then
        var left := s.(phases := s.phases[t := Left]);
        if t in s.core.queue then left.(core := Withdraw(s.core, t)) else HandOver(left, Withdraw(s.core, t))
      else s
    case Release(t) =>
      if t < |s.phases| && s.phases[t] == Holding
      then HandOver(s.(phases := s.phases[t := Released]), Advance(s.core)) else s
  }

  const Idle: State := State(Core(false, [], {}), [], [])

  function Run(es: seq<Event>): State {
    if es == [] then Idle else Step(Run(es[..|es| - 1]), es[|es| - 1])
  }

  // ---------------------------------------------------------------- what every run keeps

  /** A ticket owns the slot while it holds it, or while its grant is still in flight. */
  ghost predicate Owns(s: State, t: Ticket) {
    t < |s.phases| && (s.phases[t] == Holding || (s.phases[t] == Waiting && t in s.core.closed))
  }

  ghost predicate Increasing(q: seq<Ticket>) {
    forall i, j :: 0 <= i < j < |q| ==> q[i] < q[j]
  }

  ghost predicate Finished(p: Phase) { p.Released? || p.Rejected? || p.Left? }

  ghost predicate Consistent(s: State) {
    && (forall t: Ticket :: t in s.core.queue <==> t < |s.phases| && s.phases[t] == Waiting && t !in s.core.closed)
    && (forall t: Ticket :: t in s.core.closed ==> t < |s.phases|)
    && (forall t: Ticket, u: Ticket :: Owns(s, t) && Owns(s, u) ==> t == u)
    && (s.core.active <==> exists t: Ticket :: Owns(s, t))
    && |s.core.queue| <= MAXIMUM_QUEUED
    && (s.core.queue != [] ==> s.core.active)
    && Increasing(s.core.queue)
  }

  /** First come, first served: the slot passes in arrival order, and whoever was passed over had left. */
  ghost predicate Fair(s: State) {
    && Increasing(s.grants)
    && (forall g: Ticket :: g in s.grants ==> g < |s.phases| && g !in s.core.queue && s.phases[g] != Rejected)
    && (forall g: Ticket, q: Ticket :: g in s.grants && q in s.core.queue ==> g < q)
    && (forall t: Ticket :: Owns(s, t) ==> t in s.grants)
    && (forall t: Ticket :: t < |s.phases| && t !in s.grants && t !in s.core.queue ==> s.phases[t] == Rejected || s.phases[t] == Left)
  }

  lemma {:induction false} WithoutKeepsOrder(q: seq<Ticket>, t: Ticket)
    requires Increasing(q)
    ensures Increasing(Without(q, t))
    ensures forall x: Ticket :: x in Without(q, t) <==> x in q && x != t
  {
    if q != [] {
      TailOfIncreasing(q);
      if q[0] != t {
        WithoutKeepsOrder(q[1..], t);
        PrependToIncreasing(q[0], Without(q[1..], t));
      }
    }
  }

  lemma PrependToIncreasing(t: Ticket, q: seq<Ticket>)
    requires Increasing(q) && forall x: Ticket :: x in q ==> t < x
    ensures Increasing([t] + q)
  {
    assert forall i :: 0 < i <= |q| ==> ([t] + q)[i] == q[i - 1] && q[i - 1] in q;
  }

  lemma {:induction false} StepKeepsConsistent(s: State, e: Event)
    requires Consistent(s)
    ensures Consistent(Step(s, e))
  {
    var r := Step(s, e);
    match e
    case Acquire =>
      var t := |s.phases|;
      assert forall u: Ticket :: u < t ==> r.phases[u] == s.phases[u] && (Owns(r, u) <==> Owns(s, u));
      assert Owns(r, t) <==> !s.core.active;
      assert forall i :: 0 <= i < |s.core.queue| ==> s.core.queue[i] in s.core.queue;
    case Observe(t) =>
      assert forall u: Ticket :: Owns(r, u) <==> Owns(s, u);
    case Expire(t) =>
      if r != s {
        if t in s.core.queue {
          WithoutKeepsOrder(s.core.queue, t);
          assert forall u: Ticket :: Owns(r, u) <==> Owns(s, u);
        } else {
          AdvanceMovesOwnership(s, t, Left);
        }
      }
    case Release(t) =>
      if r != s { AdvanceMovesOwnership(s, t, Released); }
  }

  /** Advancing while `t` gives its ownership up makes the head of the queue the only owner. */
  lemma AdvanceMovesOwnership(s: State, t: Ticket, p: Phase)
    requires Consistent(s) && t < |s.phases| && p in {Left, Released}
    requires Owns(s, t)
    ensures var r := HandOver(s.(phases := s.phases[t := p]), Advance(s.core));
            && Consistent(r)
            && (forall u: Ticket :: Owns(r, u) <==> s.core.queue != [] && u == s.core.queue[0])
  {
    var r := HandOver(s.(phases := s.phases[t := p]), Advance(s.core));
    var q := s.core.queue;
    if q == [] {
      assert forall u: Ticket :: Owns(r, u) ==> Owns(s, u) && u != t;
    } else {
      assert q == [q[0]] + q[1..];
      assert q[0] in q && q[0] != t;
      assert forall u: Ticket :: Owns(r, u) ==> u == q[0] || (Owns(s, u) && u != t);
      assert Owns(r, q[0]);
      TailOfIncreasing(q);
    }
  }

  lemma TailOfIncreasing(q: seq<Ticket>)
    requires q != [] && Increasing(q)
    ensures Increasing(q[1..])
    ensures forall u: Ticket :: u in q[1..] <==> u in q && u != q[0]
    ensures forall u: Ticket :: u in q[1..] ==> q[0] < u
  {
    assert q == [q[0]] + q[1..];
    assert forall i :: 0 <= i < |q[1..]| ==> q[1..][i] == q[i + 1] > q[0];
  }

  lemma AppendToIncreasing(q: seq<Ticket>, x: Ticket)
    requires Increasing(q) && forall u: Ticket :: u in q ==> u < x
    ensures Increasing(q + [x])
    ensures forall u: Ticket :: u in q + [x] <==> u in q || u == x
  {
    assert forall i :: 0 <= i < |q| ==> q[i] in q;
  }

  lemma {:induction false} StepKeepsFair(s: State, e: Event)
    requires Consistent(s) && Fair(s)
    ensures Fair(Step(s, e))
  {
    var r := Step(s, e);
    match e
    case Acquire =>
      AppendToIncreasing(s.grants, |s.phases|);
      AppendToIncreasing(s.core.queue, |s.phases|);
      assert forall u: Ticket :: u < |s.phases| ==> r.phases[u] == s.phases[u];
    case Observe(t) =>
      assert forall u: Ticket :: Owns(r, u) <==> Owns(s, u);
    case Expire(t) =>
      if r != s {
        if t in s.core.queue {
          WithoutKeepsOrder(s.core.queue, t);
          assert forall u: Ticket :: Owns(r, u) <==> Owns(s, u);
        } else {
          HandOverIsFair(s, t, Left);
        }
      }
    case Release(t) =>
      if r != s { HandOverIsFair(s, t, Released); }
  }

  lemma HandOverIsFair(s: State, t: Ticket, p: Phase)
    requires Fair(s) && Increasing(s.core.queue)
    requires forall u: Ticket :: u in s.core.queue ==> u < |s.phases| && s.phases[u] == Waiting
    requires t < |s.phases| && t in s.grants && p in {Left, Released}
    ensures Fair(HandOver(s.(phases := s.phases[t := p]), Advance(s.core)))
  {
    var r := HandOver(s.(phases := s.phases[t := p]), Advance(s.core));
    var q := s.core.queue;
    assert forall u: Ticket :: u < |s.phases| && u != t ==> r.phases[u] == s.phases[u];
    if q != [] {
      assert forall u: Ticket :: Owns(r, u) ==> Owns(s, u) || u == q[0];
      PassingOnIsFair(s, r, t);
    }
  }

  /** The head of the queue is granted the slot. */
  lemma PassingOnIsFair(s: State, r: State, t: Ticket)
    requires Fair(s) && Increasing(s.core.queue) && s.core.queue != []
    requires forall u: Ticket :: u in s.core.queue ==> u < |s.phases| && s.phases[u] == Waiting
    requires r.grants == s.grants + [s.core.queue[0]] && r.core.queue == s.core.queue[1..]
    requires |r.phases| == |s.phases| && t < |s.phases| && t in s.grants && r.phases[t] in {Left, Released}
    requires forall u: Ticket :: u < |s.phases| && u != t ==> r.phases[u] == s.phases[u]
    requires forall u: Ticket :: Owns(r, u) ==> Owns(s, u) || u == s.core.queue[0]
    ensures Fair(r)
  {
    var q := s.core.queue;
    TailOfIncreasing(q);
    assert q[0] in q;
    AppendToIncreasing(s.grants, q[0]);
  }

  /** Safety and fairness of every interleaving. */
  lemma {:induction false} EveryRunIsSafe(es: seq<Event>)
    ensures Consistent(Run(es)) && Fair(Run(es))
  {
    if es != [] {
      var before := es[..|es| - 1];
      EveryRunIsSafe(before);
      StepKeepsConsistent(Run(before), es[|es| - 1]);
      StepKeepsFair(Run(before), es[|es| - 1]);
    }
  }

  /** `active` means exactly one owner, and its absence means none; the slot is never lost or duplicated.
      At most two callers wait. */
  lemma ActiveMeansOneOwner(es: seq<Event>)
    ensures |Run(es).core.queue| <= MAXIMUM_QUEUED
    ensures var s := Run(es);
            if s.core.active
            then exists o: Ticket :: Owns(s, o) && forall t: Ticket :: Owns(s, t) ==> t == o
            else s.core.queue == [] && forall t: Ticket :: !Owns(s, t)
  {
    EveryRunIsSafe(es);
    var s := Run(es);
    if s.core.active {
      var o: Ticket :| Owns(s, o);
      assert forall t: Ticket :: Owns(s, t) ==> t == o;
    }
  }

  /** Among two callers that both got the slot, the earlier arrival got it first. */
  lemma GrantsFollowArrival(es: seq<Event>, first: Ticket, second: Ticket)
    requires first < second < |Run(es).phases| && second in Run(es).grants
    ensures var s := Run(es);
            || s.phases[first] == Rejected || s.phases[first] == Left
            || exists i, j :: 0 <= i < j < |s.grants| && s.grants[i] == first && s.grants[j] == second
  {
    EveryRunIsSafe(es);
    var s := Run(es);
    if first in s.grants {
      var i :| 0 <= i < |s.grants| && s.grants[i] == first;
      var j :| 0 <= j < |s.grants| && s.grants[j] == second;
      assert i < j;
    } else {
      assert first !in s.core.queue;
    }
  }

  /** No capacity leaks: when every caller is done, the limiter is back to its initial fields. */
  lemma AllFinishedIsIdle(es: seq<Event>)
    requires forall t: Ticket :: t < |Run(es).phases| ==> Finished(Run(es).phases[t])
    ensures !Run(es).core.active && Run(es).core.queue == []
  {
    EveryRunIsSafe(es);
    if Run(es).core.queue != [] { QueueHeadWaits(Run(es)); }
  }

  lemma QueueHeadWaits(s: State)
    requires Consistent(s) && s.core.queue != []
    ensures exists t: Ticket :: t < |s.phases| && s.phases[t] == Waiting
  {
    assert s.core.queue[0] in s.core.queue;
  }

  /** Calling a release function again has no effect, in every reachable state. */
  lemma ReleaseIsIdempotent(es: seq<Event>, t: Ticket)
    ensures Run(es + [Release(t), Release(t)]) == Run(es + [Release(t)])
  {
    var once := es + [Release(t)];
    var twice := es + [Release(t), Release(t)];
    assert twice[..|twice| - 1] == once && once[..|once| - 1] == es;
  }

  // ---------------------------------------------------------------- the limiter object

  /** The release function handed to one admitted caller, guarded by its own sync.Once. */
  class ReleaseHandle {
    var fired: bool
    const limiter: Limiter

    constructor (limiter: Limiter)
      ensures !fired && this.limiter == limiter
    {
      this.limiter := limiter;
      fired := false;
    }

    method Call()
      modifies this, limiter
      ensures fired
      ensures limiter.View() == if old(fired) then old(limiter.View()) else Advance(old(limiter.View()))
    {
      if !fired {
        fired := true;
        limiter.AdvanceQueue();
      }
    }
  }

  class Limiter {
    var active: bool
    var queue: seq<Ticket>
    var closed: set<Ticket>

    ghost function View(): Core
      reads this
    {
      Core(active, queue, closed)
    }

    constructor ()
      ensures View() == Idle.core
    {
      active, queue, closed := false, [], {};
    }

    // Acquire up to the select: the caller's first critical section.
    method Enter(ready: Ticket) returns (entry: Entry, release: ReleaseHandle?)
      modifies this
      ensures (View(), entry) == Admit(old(View()), ready)
      ensures entry == Admitted <==> release != null
      ensures release != null ==> fresh(release) && !release.fired && release.limiter == this
    {
      release := null;
      if !active {
        active := true;
        release := new ReleaseHandle(this);
        return Admitted, release;
      }
      if |queue| >= MAXIMUM_QUEUED {
        return Full, null;
      }
      queue := queue + [ready];
      entry := Queued;
    }

    // Acquire after the budget ended: the second critical section of a waiter.
    method Abandon(ready: Ticket)
      modifies this
      ensures View() == Withdraw(old(View()), ready)
    {
      var found := false;
      var index := 0;
      while index < |queue| && !found
        invariant 0 <= index <= |queue|
        invariant active == old(active) && closed == old(closed)
        invariant !found ==> queue == old(queue) && ready !in queue[..index]
        invariant found ==> ready in old(queue) && queue == Without(old(queue), ready)
        decreases !found, |queue| - index
      {
        if queue[index] == ready {
          WithoutAt(queue, index);
          queue := queue[..index] + queue[index + 1..];
          found := true;
        } else {
          index := index + 1;
        }
      }
      // Not queued any more: the slot was granted in the meantime, and goes to the next waiter.
      if !found {
        AdvanceQueue();
      }
    }

    method AdvanceQueue()
      modifies this
      ensures View() == Advance(old(View()))
    {
      if |queue| == 0 {
        active := false;
        return;
      }
      var ready := queue[0];
      queue := queue[1..];
      closed := closed + {ready};
    }
  }

  lemma {:induction false} WithoutAt(q: seq<Ticket>, i: nat)
    requires i < |q| && q[i] !in q[..i]
    ensures Without(q, q[i]) == q[..i] + q[i + 1..]
  {
    if i > 0 {
      assert q[1..][..i - 1] == q[..i][1..];
      assert q[0] in q[..i];
      WithoutAt(q[1..], i - 1);
      assert q[1..][i - 1 + 1..] == q[i + 1..];
      assert q[..i] == [q[0]] + q[1..][..i - 1];
    }
  }
}
