/** What each caller of the image limiter is told and when it gets the slot, told from arrivals and grants alone. */
module AdmissionAnswers {
  import opened AdmissionLimiter

  /** The caller waits and has not been granted the slot. */
  predicate Waits(s: State, t: Ticket) { t < |s.phases| && s.phases[t] == Waiting && t !in s.grants }

  /** The caller was granted the slot and has not given it up. */
  predicate Has(s: State, t: Ticket) { t < |s.phases| && t in s.grants && (s.phases[t] == Holding || s.phases[t] == Waiting) }

  predicate Taken(s: State) { exists t :: t in s.grants && Has(s, t) }

  function Waiters(s: State): set<Ticket> { set t: Ticket | t < |s.phases| && Waits(s, t) }

  /** The longest waiting caller. */
  ghost predicate Next(s: State, t: Ticket) { Waits(s, t) && forall u: Ticket :: Waits(s, u) ==> t <= u }

  lemma FieldsAreHistory(s: State, t: Ticket)
    requires Consistent(s) && Fair(s)
    ensures (t in s.core.queue <==> Waits(s, t)) && (Owns(s, t) <==> Has(s, t))
  {
  }

  lemma SlotIsTaken(s: State)
    requires Consistent(s) && Fair(s)
    ensures s.core.active <==> Taken(s)
  {
    forall t: Ticket ensures Owns(s, t) <==> Has(s, t) { FieldsAreHistory(s, t); }
    if s.core.active {
      var t: Ticket :| Owns(s, t);
      assert t in s.grants && Has(s, t);
    }
  }

  function Members(q: seq<Ticket>): set<Ticket> { set t | t in q }

  lemma HeadAndTail(q: seq<Ticket>)
    requires q != []
    ensures Members(q) == {q[0]} + Members(q[1..])
  {
    assert q == [q[0]] + q[1..];
  }

  lemma {:induction false} AsManyInQueue(q: seq<Ticket>)
    requires Increasing(q)
    ensures |Members(q)| == |q|
  {
    if q != [] {
      TailOfIncreasing(q);
      HeadAndTail(q);
      AsManyInQueue(q[1..]);
      assert q[0] !in Members(q[1..]);
    }
  }

  lemma QueueIsWaiters(s: State)
    requires Consistent(s) && Fair(s)
    ensures |Waiters(s)| == |s.core.queue|
    ensures forall t: Ticket :: Next(s, t) <==> s.core.queue != [] && t == s.core.queue[0]
  {
    var q := s.core.queue;
    forall t: Ticket ensures t in q <==> Waits(s, t) { FieldsAreHistory(s, t); }
    AsManyInQueue(q);
    assert Members(q) == Waiters(s);
    if q != [] { assert q[0] in q; }
  }

  /** How each caller's standing moves. A newcomer gets a free slot, waits beside at most one other, and is rejected else. */
  lemma CallersAreAnswered(s: State, e: Event, t: Ticket)
    requires Consistent(s) && Fair(s) && t < |Step(s, e).phases|
    ensures var phase := Step(s, e).phases[t];
      if t == |s.phases| then e == Acquire && phase == if !Taken(s) then Holding else if |Waiters(s)| < 2 then Waiting else Rejected
      else if e == Observe(t) && Has(s, t) then phase == Holding
      else if e == Expire(t) && s.phases[t] == Waiting then phase == Left
      else if e == Release(t) && s.phases[t] == Holding then phase == Released
      else phase == s.phases[t]
  {
    FieldsAreHistory(s, t);
    SlotIsTaken(s);
    QueueIsWaiters(s);
  }

  /** A holder releases the slot, or a caller that was granted it has left in the same moment. */
  predicate Frees(s: State, e: Event) {
    || (e.Release? && e.t < |s.phases| && s.phases[e.t] == Holding)
    || (e.Expire? && Has(s, e.t) && s.phases[e.t] == Waiting)
  }

  /** The slot is granted to a newcomer that finds it free, and to the longest waiting caller when it is freed; never otherwise. */
  lemma GrantsAreExact(s: State, e: Event)
    requires Consistent(s) && Fair(s)
    ensures var grants := Step(s, e).grants;
      && (e.Acquire? && !Taken(s) ==> grants == s.grants + [|s.phases|])
      && (forall t: Ticket :: Frees(s, e) && Next(s, t) ==> grants == s.grants + [t])
      && (!(e.Acquire? && !Taken(s)) && !(Frees(s, e) && exists t: Ticket :: Next(s, t)) ==> grants == s.grants)
  {
    SlotIsTaken(s);
    QueueIsWaiters(s);
    if e.Expire? { FieldsAreHistory(s, e.t); }
    if s.core.queue != [] { assert Next(s, s.core.queue[0]); }
  }

  /** Whoever takes part in a run is answered so: every reachable state is covered. */
  lemma EveryCallerIsAnswered(es: seq<Event>)
    ensures var s, r := Run(es), Run(es + [Acquire]);
      r.phases == s.phases + [if !Taken(s) then Holding else if |Waiters(s)| < 2 then Waiting else Rejected]
  {
    EveryRunIsSafe(es);
    assert (es + [Acquire])[..|es|] == es;
    CallersAreAnswered(Run(es), Acquire, |Run(es).phases|);
  }
}
