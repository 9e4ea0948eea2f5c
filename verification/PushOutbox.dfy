/** The leased push outbox: any number of workers claim, re-authorise, send and
    commit deliveries, and may crash or lose an acknowledgement at any point. */
module PushOutbox {
  import opened Common

  const RETENTION := 7 * 24 * 3600

  /** Worker settings; times are in seconds. */
  datatype Config = Config(maximumAttempts: nat, leaseDuration: nat, firstDelay: nat, maximumDelay: nat) {
    ghost predicate Valid() { 1 <= maximumAttempts && firstDelay <= maximumDelay }
  }

  // A delivery belongs to one notification and one subscription.
  datatype Key = Key(notification: nat, subscription: nat)

  type Lease = nat
  type Worker = nat

  datatype Status = Pending | Sending | Sent | Cancelled | Failed

  predicate Terminal(s: Status) { s.Sent? || s.Cancelled? || s.Failed? }

  datatype Row = Row(status: Status, attempts: nat, due: int, lease: Option<Lease>, expires: int)

  /** What the worker learns from one Send: a definite HTTP status, or nothing. */
  datatype Answer = Code(code: int) | Unknown

  /** The local variables of one DeliverPush call, per program point. */
  datatype Program =
    | Idle
    | Started(now: int)
    | Purged(now: int)
    | Looping(now: int)
    | Claimed(now: int, key: Key, lease: Lease, attempts: nat)
    | Cleared(now: int, key: Key, lease: Lease, attempts: nat)
    | Finishing(now: int, key: Key, lease: Lease, attempts: nat, answer: Option<Answer>)

  /** `claims` and `sends` are history variables: the key claimed under each lease
      (leases are numbered as they are issued) and every Send that was made. */
  datatype State = State(clock: int, rows: map<Key, Row>, created: set<Key>, workers: map<Worker, Program>,
                         claims: seq<Key>, sends: seq<(Lease, Answer)>)

  datatype Event =
    | Tick(seconds: nat)
    | Enqueue(k: Key, due: int)
    | Remove(k: Key)              // a cascade from the subscription or the notification
    | Start(w: Worker)
    | Purge(w: Worker)
    | Sweep(w: Worker)
    | Claim(w: Worker, k: Key)    // SKIP LOCKED lets any due row be the next one
    | Authorise(w: Worker, allowed: bool)
    | Send(w: Worker, answer: Answer)
    | Commit(w: Worker, owned: bool) // whether the subscription is still the claimed member's
    | Stop(w: Worker)             // normal return, error return, or crash

  // ---------------------------------------------------------------- retry delays

  function Pow2(k: nat): nat { if k == 0 then 1 else 2 * Pow2(k - 1) }

  function Delay(first: nat, maximum: nat, attempts: nat): nat {
    if attempts == 0 then first
    else
      var previous := Delay(first, maximum, attempts - 1);
      if previous >= maximum / 2 then maximum else previous * 2
  }

  lemma {:induction false} DelayIsCapped(first: nat, maximum: nat, attempts: nat)
    requires first <= maximum
    ensures Minimum(first * Pow2(attempts), maximum) <= Delay(first, maximum, attempts) <= maximum
  {
    if attempts > 0 {
      DelayIsCapped(first, maximum, attempts - 1);
      assert first * Pow2(attempts) == 2 * (first * Pow2(attempts - 1));
    }
  }

  lemma TwiceAsMuch(first: nat, k: nat)
    ensures first * Pow2(k + 1) == 2 * (first * Pow2(k))
  {
  }

  /** It doubles with each attempt while half of the maximum is not reached, and is the maximum from then on. */
  lemma {:induction false} DelayDoubles(first: nat, maximum: nat, attempts: nat)
    requires first <= maximum
    ensures Delay(first, maximum, attempts) ==
      if attempts == 0 || first * Pow2(attempts - 1) < maximum / 2 then first * Pow2(attempts) else maximum
  {
    if attempts > 0 {
      DelayDoubles(first, maximum, attempts - 1);
      TwiceAsMuch(first, attempts - 1);
      if attempts > 1 { TwiceAsMuch(first, attempts - 2); }
    }
  }

  lemma {:induction false} DelayGrows(first: nat, maximum: nat, fewer: nat, more: nat)
    requires first <= maximum && fewer <= more
    ensures Delay(first, maximum, fewer) <= Delay(first, maximum, more)
  {
    if fewer < more {
      DelayGrows(first, maximum, fewer, more - 1);
      DelayIsCapped(first, maximum, more - 1);
    }
  }

  method RetryDelay(first: nat, maximum: nat, attempts: nat) returns (delay: nat)
    requires first <= maximum
    ensures delay == Delay(first, maximum, attempts)
  {
    delay := first;
    var i := 0;
    while i < attempts
      invariant 0 <= i <= attempts
      invariant delay == Delay(first, maximum, i)
    {
      if delay >= maximum / 2 {
        delay := maximum;
        DelaySaturates(first, maximum, i + 1, attempts);
        break;
      }
      delay := delay * 2;
      i := i + 1;
    }
  }

  lemma {:induction false} DelaySaturates(first: nat, maximum: nat, at: nat, later: nat)
    requires at <= later && Delay(first, maximum, at) == maximum
    ensures Delay(first, maximum, later) == maximum
  {
    if at < later { DelaySaturates(first, maximum, at, later - 1); }
  }

  // ---------------------------------------------------------------- statements

  predicate Retryable(code: int) { code == 429 || code >= 500 }

  function WithoutOld(rows: map<Key, Row>, now: int): map<Key, Row> {
    map k | k in rows && rows[k].due >= now - RETENTION :: rows[k]
  }

  function WithExpiredFailed(rows: map<Key, Row>, now: int): map<Key, Row> {
    map k | k in rows ::
      if rows[k].status == Sending && rows[k].expires <= now
      then rows[k].(status := Failed, lease := None) else rows[k]
  }

  function WithoutSubscription(rows: map<Key, Row>, subscription: nat): map<Key, Row> {
    map k | k in rows && k.subscription != subscription :: rows[k]
  }

  /** The status and due time written after an attempt; None deletes the whole subscription,
      unless another member has taken it over. */
  function Verdict(c: Config, p: Program): Option<(Status, int)>
    requires p.Finishing?
  {
    match p.answer
    case None => Some((Cancelled, p.now))
    case Some(Unknown) => Some((Failed, p.now))
    case Some(Code(code)) =>
      if 200 <= code < 300 then Some((Sent, p.now))
      else if code == 404 || code == 410 then None
      else if Retryable(code) && p.attempts + 1 < c.maximumAttempts
      then Some((Pending, p.now + Delay(c.firstDelay, c.maximumDelay, p.attempts)))
      else Some((Failed, p.now))
  }

  /** The fenced update: it touches the row only under the worker's own, still live lease. */
  predicate Fenced(rows: map<Key, Row>, k: Key, lease: Lease, clock: int) {
    k in rows && rows[k].lease == Some(lease) && rows[k].expires > clock
  }

  // ---------------------------------------------------------------- interleavings

  function At(s: State, w: Worker): Program { if w in s.workers then s.workers[w] else Idle }

  function Goto(s: State, w: Worker, p: Program): State { s.(workers := s.workers[w := p]) }

  /** One event; an event that is not possible at that point changes nothing. */
  function Step(c: Config, s: State, e: Event): State {
    match e
    case Tick(seconds) => s.(clock := s.clock + seconds)
    case Enqueue(k, due) =>
      if k in s.created then s
      else s.(created := s.created + {k}, rows := s.rows[k := Row(Pending, 0, due, None, 0)])
    case Remove(k) => s.(rows := s.rows - {k})
    case Start(w) => if At(s, w).Idle? then Goto(s, w, Started(s.clock)) else s
    case Purge(w) =>
      var p := At(s, w);
      if p.Started? then Goto(s.(rows := WithoutOld(s.rows, p.now)), w, Purged(p.now)) else s
    case Sweep(w) =>
      var p := At(s, w);
      if p.Purged? then Goto(s.(rows := WithExpiredFailed(s.rows, p.now)), w, Looping(p.now)) else s
    case Claim(w, k) => StepClaim(c, s, w, k)
    case Authorise(w, allowed) =>
      var p := At(s, w);
      if !p.Claimed? then s
      else if allowed then Goto(s, w, Cleared(p.now, p.key, p.lease, p.attempts))
      else Goto(s, w, Finishing(p.now, p.key, p.lease, p.attempts, None))
    case Send(w, answer) =>
      var p := At(s, w);
      if !p.Cleared? then s
      else Goto(s.(sends := s.sends + [(p.lease, answer)]), w,
                Finishing(p.now, p.key, p.lease, p.attempts, Some(answer)))
    case Commit(w, owned) => StepCommit(c, s, w, owned)
    case Stop(w) => Goto(s, w, Idle)
  }

  function StepClaim(c: Config, s: State, w: Worker, k: Key): State {
    var p := At(s, w);
    if p.Looping? && k in s.rows && s.rows[k].status == Pending && s.rows[k].due <= p.now then
      var lease := |s.claims|;
      var row := s.rows[k];
      var claimed := row.(status := Sending, attempts := row.attempts + 1, lease := Some(lease),
                          expires := p.now + c.leaseDuration);
      Goto(s.(rows := s.rows[k := claimed], claims := s.claims + [k]), w, Claimed(p.now, k, lease, row.attempts))
    else s
  }

  function StepCommit(c: Config, s: State, w: Worker, owned: bool): State {
    var p := At(s, w);
    if !p.Finishing? then s
    else
      var next := Goto(s, w, Looping(p.now));
      match Verdict(c, p)
      case None => if owned then next.(rows := WithoutSubscription(s.rows, p.key.subscription)) else next
      case Some((status, due)) =>
        if Fenced(s.rows, p.key, p.lease, s.clock)
        then next.(rows := s.rows[p.key := s.rows[p.key].(status := status, due := due, lease := None)])
        else next
  }

  const Empty: State := State(0, map[], {}, map[], [], [])

  function RunFrom(c: Config, s: State, es: seq<Event>): State {
    if es == [] then s else Step(c, RunFrom(c, s, es[..|es| - 1]), es[|es| - 1])
  }

  // ---------------------------------------------------------------- what every run keeps

  function Count(claims: seq<Key>, k: Key): nat {
    if claims == [] then 0 else Count(claims[..|claims| - 1], k) + if claims[|claims| - 1] == k then 1 else 0
  }

  predicate Busy(p: Program) { p.Claimed? || p.Cleared? || p.Finishing? }

  /** The provider definitely refused this lease's one Send with 429 or 5xx. */
  ghost predicate RefusedForNow(sends: seq<(Lease, Answer)>, l: Lease) {
    exists i :: 0 <= i < |sends| && sends[i].0 == l && sends[i].1.Code? && Retryable(sends[i].1.code)
  }

  ghost predicate SentUnder(sends: seq<(Lease, Answer)>, l: Lease) { exists i :: 0 <= i < |sends| && sends[i].0 == l }

  ghost predicate RowsConsistent(c: Config, s: State) {
    && s.rows.Keys <= s.created
    && (forall k: Key :: k in s.rows ==> s.rows[k].attempts == Count(s.claims, k) <= c.maximumAttempts)
    && (forall k: Key :: k in s.rows && s.rows[k].status == Pending ==>
          s.rows[k].attempts < c.maximumAttempts && s.rows[k].lease == None)
    && (forall k: Key :: k in s.rows && s.rows[k].lease.Some? ==>
          s.rows[k].lease.value < |s.claims| && s.rows[k].status == Sending)
  }

  ghost predicate ClaimsConsistent(c: Config, s: State) {
    && (forall l :: 0 <= l < |s.claims| ==> s.claims[l] in s.created)
    && (forall k: Key :: k in s.created && k !in s.rows ==> Count(s.claims, k) <= c.maximumAttempts)
  }

  /** Every earlier claim of a row was answered with a retryable status; for a pending row, all of them. */
  ghost predicate ReplaysJustified(s: State) {
    && (forall k, l :: k in s.rows && 0 <= l < |s.claims| && s.claims[l] == k && s.rows[k].status == Pending
          ==> RefusedForNow(s.sends, l))
    && (forall k, l :: k in s.rows && 0 <= l < |s.claims| && s.claims[l] == k && s.rows[k].lease.Some? && l != s.rows[k].lease.value
          ==> RefusedForNow(s.sends, l))
    && (forall l, m :: 0 <= l < m < |s.claims| && s.claims[l] == s.claims[m] ==> RefusedForNow(s.sends, l))
  }

  ghost predicate WorkersConsistent(s: State) {
    && (forall w: Worker :: Busy(At(s, w)) ==> At(s, w).lease < |s.claims| && s.claims[At(s, w).lease] == At(s, w).key)
    && (forall v: Worker, w: Worker :: Busy(At(s, v)) && Busy(At(s, w)) && At(s, v).lease == At(s, w).lease ==> v == w)
    && (forall w: Worker :: At(s, w).Claimed? || At(s, w).Cleared? ==> !SentUnder(s.sends, At(s, w).lease))
    && (forall w: Worker :: At(s, w).Finishing? && At(s, w).answer == None ==> !SentUnder(s.sends, At(s, w).lease))
    && (forall w: Worker :: At(s, w).Finishing? && At(s, w).answer.Some? ==> (At(s, w).lease, At(s, w).answer.value) in s.sends)
    && (forall w: Worker :: Busy(At(s, w)) && At(s, w).key in s.rows && s.rows[At(s, w).key].lease == Some(At(s, w).lease) ==>
          s.rows[At(s, w).key].attempts == At(s, w).attempts + 1)
  }

  ghost predicate SendsConsistent(s: State) {
    && (forall i :: 0 <= i < |s.sends| ==> s.sends[i].0 < |s.claims|)
    && (forall i, j :: 0 <= i < j < |s.sends| ==> s.sends[i].0 != s.sends[j].0)
  }

  ghost predicate Inv(c: Config, s: State) {
    RowsConsistent(c, s) && ClaimsConsistent(c, s) && ReplaysJustified(s) && WorkersConsistent(s) && SendsConsistent(s)
  }

  lemma {:induction false} CountAppend(claims: seq<Key>, k: Key, x: Key)
    ensures Count(claims + [x], k) == Count(claims, k) + if x == k then 1 else 0
  {
    assert (claims + [x])[..|claims|] == claims;
  }

  /** Rows only vanish or become terminal without a lease; everything else is untouched. */
  ghost predicate OnlyRetires(before: State, after: State) {
    && after.created == before.created && after.claims == before.claims && after.sends == before.sends
    && after.rows.Keys <= before.rows.Keys
    && (forall k: Key :: k in after.rows && after.rows[k] != before.rows[k] ==>
          && after.rows[k].attempts == before.rows[k].attempts
          && after.rows[k].lease == None && Terminal(after.rows[k].status))
    && (forall w: Worker :: Busy(At(after, w)) ==> At(after, w) == At(before, w))
  }

  lemma RetiringKeepsInv(c: Config, before: State, after: State)
    requires Inv(c, before) && OnlyRetires(before, after)
    ensures Inv(c, after)
  {
    assert forall k: Key :: k in before.rows ==> Count(before.claims, k) <= c.maximumAttempts;
  }

  lemma EnqueueKeepsInv(c: Config, s: State, k: Key, due: int)
    requires c.Valid() && Inv(c, s)
    ensures Inv(c, Step(c, s, Enqueue(k, due)))
  {
    if k !in s.created {
      NeverClaimed(s.claims, k);
      var r := Step(c, s, Enqueue(k, due));
      assert forall w: Worker :: At(r, w) == At(s, w);
    }
  }

  lemma {:induction false} NeverClaimed(claims: seq<Key>, k: Key)
    requires forall l :: 0 <= l < |claims| ==> claims[l] != k
    ensures Count(claims, k) == 0
  {
    if claims != [] { NeverClaimed(claims[..|claims| - 1], k); }
  }

  lemma ClaimKeepsInv(c: Config, s: State, w: Worker, k: Key)
    requires Inv(c, s)
    ensures Inv(c, StepClaim(c, s, w, k))
  {
    var r := StepClaim(c, s, w, k);
    if r != s {
      ClaimKeepsRows(c, s, w, k);
      ClaimKeepsReplays(c, s, w, k);
      ClaimKeepsWorkers(c, s, w, k);
    }
  }

  lemma ClaimKeepsRows(c: Config, s: State, w: Worker, k: Key)
    requires RowsConsistent(c, s) && ClaimsConsistent(c, s) && StepClaim(c, s, w, k) != s
    ensures RowsConsistent(c, StepClaim(c, s, w, k)) && ClaimsConsistent(c, StepClaim(c, s, w, k))
  {
    var r := StepClaim(c, s, w, k);
    assert r.claims == s.claims + [k];
    forall k': Key ensures Count(r.claims, k') == Count(s.claims, k') + if k' == k then 1 else 0 {
      CountAppend(s.claims, k', k);
    }
  }

  lemma ClaimKeepsReplays(c: Config, s: State, w: Worker, k: Key)
    requires RowsConsistent(c, s) && ReplaysJustified(s) && StepClaim(c, s, w, k) != s
    ensures ReplaysJustified(StepClaim(c, s, w, k))
  {
    var r := StepClaim(c, s, w, k);
    assert r.claims == s.claims + [k] && r.sends == s.sends;
    assert forall l: Lease :: l < |s.claims| && s.claims[l] == k ==> RefusedForNow(s.sends, l);
  }

  lemma ClaimKeepsWorkers(c: Config, s: State, w: Worker, k: Key)
    requires RowsConsistent(c, s) && WorkersConsistent(s) && SendsConsistent(s) && StepClaim(c, s, w, k) != s
    ensures WorkersConsistent(StepClaim(c, s, w, k)) && SendsConsistent(StepClaim(c, s, w, k))
  {
    var r := StepClaim(c, s, w, k);
    assert r.claims == s.claims + [k] && r.sends == s.sends;
    assert forall v: Worker :: v != w ==> At(r, v) == At(s, v);
  }

  lemma SendKeepsInv(c: Config, s: State, w: Worker, answer: Answer)
    requires Inv(c, s)
    ensures Inv(c, Step(c, s, Send(w, answer)))
  {
    if At(s, w).Cleared? {
      SendKeepsReplays(c, s, w, answer);
      SendKeepsWorkers(c, s, w, answer);
      SendKeepsSends(c, s, w, answer);
    }
  }

  lemma SendKeepsReplays(c: Config, s: State, w: Worker, answer: Answer)
    requires RowsConsistent(c, s) && ReplaysJustified(s) && At(s, w).Cleared?
    ensures var r := Step(c, s, Send(w, answer)); RowsConsistent(c, r) && ReplaysJustified(r)
  {
    var r := Step(c, s, Send(w, answer));
    forall l: Lease | RefusedForNow(s.sends, l) ensures RefusedForNow(r.sends, l) {
      var i :| 0 <= i < |s.sends| && s.sends[i].0 == l && s.sends[i].1.Code? && Retryable(s.sends[i].1.code);
      assert r.sends[i] == s.sends[i];
    }
  }

  lemma SendKeepsWorkers(c: Config, s: State, w: Worker, answer: Answer)
    requires WorkersConsistent(s) && At(s, w).Cleared?
    ensures WorkersConsistent(Step(c, s, Send(w, answer)))
  {
    var r := Step(c, s, Send(w, answer));
    assert forall v: Worker :: v != w ==> At(r, v) == At(s, v);
    assert r.sends[|s.sends|] == (At(s, w).lease, answer);
    forall l: Lease | l != At(s, w).lease && SentUnder(r.sends, l) ensures SentUnder(s.sends, l) {
      var i :| 0 <= i < |r.sends| && r.sends[i].0 == l;
      assert s.sends[i].0 == l;
    }
  }

  lemma SendKeepsSends(c: Config, s: State, w: Worker, answer: Answer)
    requires WorkersConsistent(s) && SendsConsistent(s) && At(s, w).Cleared?
    ensures SendsConsistent(Step(c, s, Send(w, answer)))
  {
    assert forall i :: 0 <= i < |s.sends| && s.sends[i].0 == At(s, w).lease ==> SentUnder(s.sends, At(s, w).lease);
  }

  lemma CommitKeepsInv(c: Config, s: State, w: Worker, owned: bool)
    requires Inv(c, s)
    ensures Inv(c, StepCommit(c, s, w, owned))
  {
    var r := StepCommit(c, s, w, owned);
    var p := At(s, w);
    if p.Finishing? && Verdict(c, p).Some? && Verdict(c, p).value.0.Pending? && Fenced(s.rows, p.key, p.lease, s.clock) {
      ReturnToPendingKeepsInv(c, s, w, owned);
    } else {
      RetiringKeepsInv(c, s, r);
    }
  }

  lemma ReturnKeepsReplays(c: Config, s: State, w: Worker, owned: bool)
    requires Inv(c, s)
    requires At(s, w).Finishing? && Verdict(c, At(s, w)).Some? && Verdict(c, At(s, w)).value.0.Pending?
    requires Fenced(s.rows, At(s, w).key, At(s, w).lease, s.clock)
    ensures ReplaysJustified(StepCommit(c, s, w, owned))
  {
    var r := StepCommit(c, s, w, owned);
    var p := At(s, w);
    assert RefusedForNow(s.sends, p.lease);
    assert forall l: Lease :: l < |s.claims| && s.claims[l] == p.key ==> RefusedForNow(s.sends, l);
    assert r.claims == s.claims && r.sends == s.sends;
  }

  lemma ReturnKeepsWorkers(c: Config, s: State, w: Worker, owned: bool)
    requires Inv(c, s)
    requires At(s, w).Finishing? && Verdict(c, At(s, w)).Some? && Verdict(c, At(s, w)).value.0.Pending?
    requires Fenced(s.rows, At(s, w).key, At(s, w).lease, s.clock)
    ensures WorkersConsistent(StepCommit(c, s, w, owned))
  {
    var r := StepCommit(c, s, w, owned);
    assert forall v: Worker :: v != w ==> At(r, v) == At(s, v);
    assert r.claims == s.claims && r.sends == s.sends && r.created == s.created && r.rows.Keys == s.rows.Keys;
  }

  lemma ReturnKeepsRows(c: Config, s: State, w: Worker, owned: bool)
    requires Inv(c, s)
    requires At(s, w).Finishing? && Verdict(c, At(s, w)).Some? && Verdict(c, At(s, w)).value.0.Pending?
    requires Fenced(s.rows, At(s, w).key, At(s, w).lease, s.clock)
    ensures RowsConsistent(c, StepCommit(c, s, w, owned))
  {
  }

  lemma ReturnToPendingKeepsInv(c: Config, s: State, w: Worker, owned: bool)
    requires Inv(c, s)
    requires At(s, w).Finishing? && Verdict(c, At(s, w)).Some? && Verdict(c, At(s, w)).value.0.Pending?
    requires Fenced(s.rows, At(s, w).key, At(s, w).lease, s.clock)
    ensures Inv(c, StepCommit(c, s, w, owned))
  {
    ReturnKeepsReplays(c, s, w, owned);
    ReturnKeepsWorkers(c, s, w, owned);
    ReturnKeepsRows(c, s, w, owned);
    var r := StepCommit(c, s, w, owned);
    assert r.claims == s.claims && r.sends == s.sends;
  }

  lemma {:induction false} StepKeepsInv(c: Config, s: State, e: Event)
    requires c.Valid() && Inv(c, s)
    ensures Inv(c, Step(c, s, e))
  {
    match e
    case Enqueue(k, due) => EnqueueKeepsInv(c, s, k, due);
    case Claim(w, k) => ClaimKeepsInv(c, s, w, k);
    case Send(w, answer) => SendKeepsInv(c, s, w, answer);
    case Commit(w, owned) => CommitKeepsInv(c, s, w, owned);
    case Authorise(w, allowed) => AuthoriseKeepsInv(c, s, w, allowed);
    case _ => MaintenanceOnlyRetires(c, s, e); RetiringKeepsInv(c, s, Step(c, s, e));
  }

  lemma MaintenanceOnlyRetires(c: Config, s: State, e: Event)
    requires e.Tick? || e.Remove? || e.Start? || e.Purge? || e.Sweep? || e.Stop?
    ensures OnlyRetires(s, Step(c, s, e))
  {
  }

  lemma AuthoriseKeepsWorkers(c: Config, s: State, w: Worker, allowed: bool)
    requires WorkersConsistent(s)
    ensures WorkersConsistent(Step(c, s, Authorise(w, allowed)))
  {
    var r := Step(c, s, Authorise(w, allowed));
    assert forall v: Worker :: v != w ==> At(r, v) == At(s, v);
  }

  lemma AuthoriseKeepsInv(c: Config, s: State, w: Worker, allowed: bool)
    requires Inv(c, s)
    ensures Inv(c, Step(c, s, Authorise(w, allowed)))
  {
    AuthoriseKeepsWorkers(c, s, w, allowed);
    var r := Step(c, s, Authorise(w, allowed));
    assert r.rows == s.rows && r.claims == s.claims && r.sends == s.sends && r.created == s.created && r.clock == s.clock;
  }

  lemma {:induction false} EveryRunKeepsInv(c: Config, es: seq<Event>)
    requires c.Valid()
    ensures Inv(c, RunFrom(c, Empty, es))
  {
    if es != [] {
      EveryRunKeepsInv(c, es[..|es| - 1]);
      StepKeepsInv(c, RunFrom(c, Empty, es[..|es| - 1]), es[|es| - 1]);
    }
  }

  // ---------------------------------------------------------------- the promises

  function SendsUnder(sends: seq<(Lease, Answer)>, l: Lease): nat {
    if sends == [] then 0
    else SendsUnder(sends[..|sends| - 1], l) + if sends[|sends| - 1].0 == l then 1 else 0
  }

  function SendsFor(s: State, n: nat, k: Key): nat
    requires n <= |s.sends|
  {
    if n == 0 then 0
    else SendsFor(s, n - 1, k) +
         if s.sends[n - 1].0 < |s.claims| && s.claims[s.sends[n - 1].0] == k then 1 else 0
  }

  lemma {:induction false} DistinctSendsCountOnce(sends: seq<(Lease, Answer)>, l: Lease)
    requires forall i, j :: 0 <= i < j < |sends| ==> sends[i].0 != sends[j].0
    ensures SendsUnder(sends, l) == if SentUnder(sends, l) then 1 else 0
  {
    if sends != [] {
      var front := sends[..|sends| - 1];
      DistinctSendsCountOnce(front, l);
      if SentUnder(front, l) {
        var i :| 0 <= i < |front| && front[i].0 == l;
        assert sends[i].0 == l;
      }
      if SentUnder(sends, l) && sends[|sends| - 1].0 != l {
        var i :| 0 <= i < |sends| && sends[i].0 == l;
        assert front[i].0 == l;
      }
    }
  }

  /** Each claim is followed by at most one Send, whatever crashes or overlaps. */
  lemma AtMostOneSendPerClaim(c: Config, es: seq<Event>, l: Lease)
    requires c.Valid()
    ensures SendsUnder(RunFrom(c, Empty, es).sends, l) <= 1
    ensures SendsUnder(RunFrom(c, Empty, es).sends, l) == 1 ==> l < |RunFrom(c, Empty, es).claims|
  {
    EveryRunKeepsInv(c, es);
    DistinctSendsCountOnce(RunFrom(c, Empty, es).sends, l);
  }

  function LeasesOf(claims: seq<Key>, k: Key): (r: set<Lease>)
    ensures forall l: Lease :: l in r <==> l < |claims| && claims[l] == k
  {
    set l: Lease | 0 <= l < |claims| && claims[l] == k
  }

  lemma {:induction false} CountIsLeases(claims: seq<Key>, k: Key)
    ensures |LeasesOf(claims, k)| == Count(claims, k)
  {
    if claims != [] {
      var front := claims[..|claims| - 1];
      CountIsLeases(front, k);
      assert LeasesOf(claims, k) == LeasesOf(front, k) + if claims[|claims| - 1] == k then {|claims| - 1} else {};
    }
  }

  function UsedLeases(s: State, n: nat, k: Key): (r: set<Lease>)
    requires n <= |s.sends|
    ensures forall l: Lease :: l in r <==> l in LeasesOf(s.claims, k) && exists i :: 0 <= i < n && s.sends[i].0 == l
  {
    set l | l in LeasesOf(s.claims, k) && exists i :: 0 <= i < n && s.sends[i].0 == l
  }

  lemma {:induction false} SendsUseDistinctLeases(s: State, n: nat, k: Key)
    requires n <= |s.sends| && SendsConsistent(s)
    ensures SendsFor(s, n, k) == |UsedLeases(s, n, k)|
  {
    if n == 0 {
      assert UsedLeases(s, 0, k) == {};
    } else {
      SendsUseDistinctLeases(s, n - 1, k);
      OneMoreSend(s, n, k);
    }
  }

  lemma OneMoreSend(s: State, n: nat, k: Key)
    requires 0 < n <= |s.sends| && SendsConsistent(s)
    ensures UsedLeases(s, n, k) == UsedLeases(s, n - 1, k) + if s.claims[s.sends[n - 1].0] == k then {s.sends[n - 1].0} else {}
    ensures |UsedLeases(s, n, k)| == |UsedLeases(s, n - 1, k)| + if s.claims[s.sends[n - 1].0] == k then 1 else 0
  {
    assert s.sends[n - 1].0 !in UsedLeases(s, n - 1, k);
    forall l: Lease | l in LeasesOf(s.claims, k)
      ensures l in UsedLeases(s, n, k) <==> l in UsedLeases(s, n - 1, k) || s.sends[n - 1].0 == l
    {
    }
  }

  /** A delivery is sent at most MaximumAttempts times over its whole life. */
  lemma SendsAreBounded(c: Config, es: seq<Event>, k: Key)
    requires c.Valid()
    ensures var s := RunFrom(c, Empty, es); SendsFor(s, |s.sends|, k) <= c.maximumAttempts
  {
    EveryRunKeepsInv(c, es);
    var s := RunFrom(c, Empty, es);
    SendsUseDistinctLeases(s, |s.sends|, k);
    CountIsLeases(s.claims, k);
    SubsetIsSmaller(UsedLeases(s, |s.sends|, k), LeasesOf(s.claims, k));
    if k !in s.created { NeverClaimed(s.claims, k); }
  }

  /** A second claim is only ever made after a definite 429 or 5xx answer under the first:
      an unknown outcome (lost answer, crash, expired lease) is never replayed. */
  lemma UnknownOutcomeIsNeverReplayed(c: Config, es: seq<Event>, first: Lease, second: Lease)
    requires c.Valid()
    requires var s := RunFrom(c, Empty, es); first < second < |s.claims| && s.claims[first] == s.claims[second]
    ensures var s := RunFrom(c, Empty, es);
            exists i :: 0 <= i < |s.sends| && s.sends[i].0 == first && s.sends[i].1.Code? && Retryable(s.sends[i].1.code)
    ensures var s := RunFrom(c, Empty, es); (first, Unknown) !in s.sends
  {
    EveryRunKeepsInv(c, es);
    assert RefusedForNow(RunFrom(c, Empty, es).sends, first);
  }

  lemma OnlyCommitsReturn(c: Config, s: State, e: Event, k: Key)
    requires RowsConsistent(c, s)
    requires k in s.rows && s.rows[k].status != Pending
    requires var r := Step(c, s, e); k in r.rows && r.rows[k].status == Pending
    ensures e.Commit? && At(s, e.w).Finishing? && At(s, e.w).key == k
    ensures Fenced(s.rows, k, At(s, e.w).lease, s.clock)
    ensures Verdict(c, At(s, e.w)) == Some((Pending, Step(c, s, e).rows[k].due))
    ensures Step(c, s, e).rows[k].attempts == s.rows[k].attempts
  {
  }

  /** A row goes back to pending only in a commit under its own live lease, after a retryable
      answer to that lease's Send, with attempts left, and due after the capped backoff. */
  lemma BackToPending(c: Config, es: seq<Event>, e: Event, k: Key)
    requires c.Valid()
    requires var s := RunFrom(c, Empty, es); k in s.rows && s.rows[k].status != Pending
    requires var r := Step(c, RunFrom(c, Empty, es), e); k in r.rows && r.rows[k].status == Pending
    ensures var s := RunFrom(c, Empty, es); var r := Step(c, s, e);
            && e.Commit? && At(s, e.w).Finishing? && At(s, e.w).key == k
            && s.rows[k].status == Sending && s.rows[k].lease == Some(At(s, e.w).lease) && s.rows[k].expires > s.clock
            && (exists code :: Retryable(code) && (At(s, e.w).lease, Code(code)) in s.sends)
            && r.rows[k].attempts == At(s, e.w).attempts + 1 < c.maximumAttempts
            && r.rows[k].due == At(s, e.w).now + Delay(c.firstDelay, c.maximumDelay, At(s, e.w).attempts)
  {
    EveryRunKeepsInv(c, es);
    var s := RunFrom(c, Empty, es);
    OnlyCommitsReturn(c, s, e, k);
    var p := At(s, e.w);
    assert (p.lease, p.answer.value) in s.sends;
    assert Retryable(p.answer.value.code);
  }

  // Which answer leads where, from the history of sends alone.

  /** The worker commits under the row's own, still live lease. */
  predicate CommitsUnderLease(s: State, e: Event, k: Key) {
    e.Commit? && At(s, e.w).Finishing? && At(s, e.w).key == k && Fenced(s.rows, k, At(s, e.w).lease, s.clock)
  }

  ghost predicate Accepted(s: State, l: Lease) { exists code :: 200 <= code < 300 && (l, Code(code)) in s.sends }

  predicate Final(code: int) { !(200 <= code < 300) && code != 404 && code != 410 && code != 429 && code < 500 }

  ghost predicate RefusedForGood(s: State, l: Lease) {
    exists code :: Final(code) && (l, Code(code)) in s.sends
  }

  ghost predicate Gone(s: State, l: Lease) { (l, Code(404)) in s.sends || (l, Code(410)) in s.sends }

  ghost predicate Postponed(s: State, l: Lease) { exists code :: (code == 429 || code >= 500) && (l, Code(code)) in s.sends }

  predicate Becomes(s: State, r: State, k: Key, status: Status) {
    k in s.rows && s.rows[k].status != status && k in r.rows && r.rows[k].status == status
  }

  /** What the sends under a lease make of a delivery claimed so many times. */
  ghost predicate Earns(c: Config, s: State, l: Lease, attempts: nat, status: Status) {
    match status
    case Sent => Accepted(s, l)
    case Cancelled => !SentUnder(s.sends, l)
    case Pending => Postponed(s, l) && attempts < c.maximumAttempts
    case Failed => (l, Unknown) in s.sends || RefusedForGood(s, l) || (Postponed(s, l) && attempts >= c.maximumAttempts)
    case Sending => false
  }

  predicate RunsOut(s: State, e: Event, k: Key)
    requires k in s.rows
  {
    e.Sweep? && At(s, e.w).Purged? && s.rows[k].status == Sending && s.rows[k].expires <= At(s, e.w).now
  }

  /** The one reason for which a row may take this status. */
  ghost predicate Entitled(c: Config, s: State, e: Event, k: Key, status: Status)
    requires k in s.rows
  {
    || (CommitsUnderLease(s, e, k) && Earns(c, s, At(s, e.w).lease, s.rows[k].attempts, status))
    || (status == Failed && RunsOut(s, e, k))
    || (status == Sending && e.Claim? && e.k == k && Possible(s, e))
  }

  /** At most one send was made under a lease; the program of a worker that is about to commit agrees with it. */
  lemma AnswerIsTheSend(c: Config, s: State, w: Worker, answer: Answer)
    requires Inv(c, s) && At(s, w).Finishing?
    ensures (At(s, w).lease, answer) in s.sends <==> At(s, w).answer == Some(answer)
    ensures SentUnder(s.sends, At(s, w).lease) <==> At(s, w).answer.Some?
  {
    var p := At(s, w);
    if (p.lease, answer) in s.sends { InSends(s.sends, p.lease, answer); }
    if p.answer.Some? { InSends(s.sends, p.lease, p.answer.value); }
  }

  lemma InSends(sends: seq<(Lease, Answer)>, l: Lease, answer: Answer)
    requires (l, answer) in sends
    ensures SentUnder(sends, l) && exists i :: 0 <= i < |sends| && sends[i] == (l, answer)
  {
    var i :| 0 <= i < |sends| && sends[i] == (l, answer);
    assert sends[i].0 == l;
  }

  lemma AnswersOf(c: Config, s: State, w: Worker)
    requires Inv(c, s) && At(s, w).Finishing?
    ensures var p := At(s, w);
      && (Accepted(s, p.lease) <==> p.answer.Some? && p.answer.value.Code? && 200 <= p.answer.value.code < 300)
      && (Gone(s, p.lease) <==> p.answer.Some? && p.answer.value.Code? && p.answer.value.code in {404, 410})
      && (Postponed(s, p.lease) <==> p.answer.Some? && p.answer.value.Code? && Retryable(p.answer.value.code))
      && ((p.lease, Unknown) in s.sends <==> p.answer == Some(Unknown))
      && (RefusedForGood(s, p.lease) <==> (p.answer.Some? && p.answer.value.Code? && Final(p.answer.value.code)))
      && (SentUnder(s.sends, p.lease) <==> p.answer.Some?)
  {
    var p := At(s, w);
    forall a ensures (p.lease, a) in s.sends <==> p.answer == Some(a) { AnswerIsTheSend(c, s, w, a); }
    AnswerIsTheSend(c, s, w, Unknown);
  }

  lemma VerdictIsEarned(c: Config, s: State, w: Worker, status: Status)
    requires Inv(c, s) && At(s, w).Finishing?
    ensures var p := At(s, w);
      if Verdict(c, p) == None then Gone(s, p.lease) && !Earns(c, s, p.lease, p.attempts + 1, status)
      else !Gone(s, p.lease) && (Verdict(c, p).value.0 == status <==> Earns(c, s, p.lease, p.attempts + 1, status))
  {
    AnswersOf(c, s, w);
  }

  lemma CommitSettles(c: Config, s: State, e: Event, k: Key, status: Status)
    requires Inv(c, s) && CommitsUnderLease(s, e, k)
    ensures s.rows[k].status == Sending && s.rows[k].attempts == At(s, e.w).attempts + 1
    ensures var r := Step(c, s, e); var verdict := Verdict(c, At(s, e.w));
      k in r.rows && r.rows[k].status == status <==>
        if verdict == None then !e.owned && status == Sending else verdict.value.0 == status
  {
  }

  lemma OthersSettleNothing(c: Config, s: State, e: Event, k: Key, status: Status)
    requires k in s.rows && k in s.created && !CommitsUnderLease(s, e, k)
    ensures Becomes(s, Step(c, s, e), k, status) <==> s.rows[k].status != status && Entitled(c, s, e, k, status)
  {
  }

  /** In every run a delivery takes a status exactly when it is entitled to it: sent by a send answered 2xx, pending
      again by a 429 or 5xx with attempts left, cancelled when nothing was sent, failed by any other answer or by a
      lease that ran out, sending by a claim. */
  lemma StatusIsEarned(c: Config, es: seq<Event>, e: Event, k: Key, status: Status)
    requires c.Valid() && k in RunFrom(c, Empty, es).rows && RunFrom(c, Empty, es).rows[k].status != status
    ensures var s := RunFrom(c, Empty, es);
      Becomes(s, Step(c, s, e), k, status) <==> Entitled(c, s, e, k, status)
  {
    var s := RunFrom(c, Empty, es);
    EveryRunKeepsInv(c, es);
    if CommitsUnderLease(s, e, k) {
      CommitSettles(c, s, e, k, status);
      VerdictIsEarned(c, s, e.w, status);
    } else {
      OthersSettleNothing(c, s, e, k, status);
    }
  }

  /** A step that leaves the status of a row leaves the row; a claim leases it from the start of the pass. */
  lemma RowsAreOtherwiseKept(c: Config, es: seq<Event>, e: Event, k: Key)
    requires c.Valid() && k in RunFrom(c, Empty, es).rows && k in Step(c, RunFrom(c, Empty, es), e).rows
    ensures var s := RunFrom(c, Empty, es); var before, after := s.rows[k], Step(c, s, e).rows[k];
      && (after.status == before.status ==> after == before)
      && (Becomes(s, Step(c, s, e), k, Sending) ==>
            after == Row(Sending, before.attempts + 1, before.due, Some(|s.claims|), At(s, e.w).now + c.leaseDuration))
      && (after.status != before.status && after.status != Sending ==> after.attempts == before.attempts && after.lease == None)
      && (after.status != before.status && after.status in {Sent, Failed, Cancelled} ==>
            after.due == if e.Commit? then At(s, e.w).now else before.due)
  {
    RowsAreCreated(c, es, k);
    EveryRunKeepsInv(c, es);
    StepKeepsRow(c, RunFrom(c, Empty, es), e, k);
  }

  lemma StepKeepsRow(c: Config, s: State, e: Event, k: Key)
    requires RowsConsistent(c, s) && k in s.rows && k in Step(c, s, e).rows
    ensures var before, after := s.rows[k], Step(c, s, e).rows[k];
      && (after.status == before.status ==> after == before)
      && (Becomes(s, Step(c, s, e), k, Sending) ==>
            after == Row(Sending, before.attempts + 1, before.due, Some(|s.claims|), At(s, e.w).now + c.leaseDuration))
      && (after.status != before.status && after.status != Sending ==> after.attempts == before.attempts && after.lease == None)
      && (after.status != before.status && after.status in {Sent, Failed, Cancelled} ==>
            after.due == if e.Commit? then At(s, e.w).now else before.due)
  {
  }

  /** The rows one undisturbed attempt of a due delivery leaves behind, if its lease outlives it. */
  lemma AttemptEndsAsAnswered(c: Config, s: State, w: Worker, k: Key, answer: Answer, owned: bool)
    requires Possible(s, Claim(w, k)) && s.clock < At(s, w).now + c.leaseDuration
    ensures var sent := Step(c, Step(c, Step(c, s, Claim(w, k)), Authorise(w, true)), Send(w, answer));
      var r := Step(c, sent, Commit(w, owned)); var before := s.rows[k];
      && sent.sends == s.sends + [(|s.claims|, answer)]
      && if answer.Code? && answer.code in {404, 410} then k in r.rows <==> !owned
         else
           k in r.rows && r.rows[k].status == (
             if answer == Unknown then Failed
             else if 200 <= answer.code < 300 then Sent
             else if (answer.code == 429 || answer.code >= 500) && before.attempts + 1 < c.maximumAttempts then Pending
             else Failed)
  {
  }

  /** A refused attempt cancels the delivery and sends nothing. */
  lemma RefusedAttemptCancels(c: Config, s: State, w: Worker, k: Key, owned: bool)
    requires Possible(s, Claim(w, k)) && s.clock < At(s, w).now + c.leaseDuration
    ensures var r := Step(c, Step(c, Step(c, s, Claim(w, k)), Authorise(w, false)), Commit(w, owned));
      r.sends == s.sends && k in r.rows && r.rows[k].status == Cancelled
  {
  }

  /** A delivery appears once, pending, unclaimed and due as asked. */
  lemma AppearsOnce(c: Config, es: seq<Event>, e: Event, k: Key)
    requires c.Valid() && k !in RunFrom(c, Empty, es).rows
    ensures var s := RunFrom(c, Empty, es); var r := Step(c, s, e);
      && (k in r.rows <==> e.Enqueue? && e.k == k && k !in s.created)
      && (k in r.rows ==> k in r.created && r.rows[k] == Row(Pending, 0, e.due, None, 0))
  {
  }

  /** It disappears exactly by a cascade, a week after it was due, or when its subscription turns out to be gone. */
  lemma Disappears(c: Config, es: seq<Event>, e: Event, k: Key)
    requires c.Valid() && k in RunFrom(c, Empty, es).rows
    ensures var s := RunFrom(c, Empty, es);
      k !in Step(c, s, e).rows <==>
        || e == Remove(k)
        || (e.Purge? && At(s, e.w).Started? && s.rows[k].due < At(s, e.w).now - RETENTION)
        || (e.Commit? && e.owned && At(s, e.w).Finishing? && At(s, e.w).key.subscription == k.subscription && Gone(s, At(s, e.w).lease))
  {
    var s := RunFrom(c, Empty, es);
    EveryRunKeepsInv(c, es);
    if e.Commit? && At(s, e.w).Finishing? { AnswersOf(c, s, e.w); }
  }

  /** One step never revives a finished delivery, nor recreates one that was deleted. */
  lemma StepAbsorbs(c: Config, s: State, e: Event, k: Key)
    requires RowsConsistent(c, s)
    requires k in s.created && (k in s.rows ==> Terminal(s.rows[k].status))
    ensures var r := Step(c, s, e); k in r.created && (k in r.rows ==> k in s.rows && r.rows[k] == s.rows[k])
  {
  }

  /** Sent, failed and cancelled are absorbing along every continuation of every run. */
  lemma {:induction false} FinishedStaysFinished(c: Config, es: seq<Event>, more: seq<Event>, k: Key)
    requires c.Valid()
    requires var s := RunFrom(c, Empty, es); k in s.rows && Terminal(s.rows[k].status)
    ensures var s := RunFrom(c, Empty, es); var r := RunFrom(c, Empty, es + more);
            k in r.created && (k in r.rows ==> r.rows[k] == s.rows[k])
  {
    if more == [] {
      assert es + more == es;
      RowsAreCreated(c, es, k);
    } else {
      var front, last := more[..|more| - 1], more[|more| - 1];
      FinishedStaysFinished(c, es, front, k);
      RunAbsorbs(c, es + front, last, k);
      assert es + more == es + front + [last];
    }
  }

  lemma RowsAreCreated(c: Config, es: seq<Event>, k: Key)
    requires c.Valid() && k in RunFrom(c, Empty, es).rows
    ensures k in RunFrom(c, Empty, es).created
  {
    EveryRunKeepsInv(c, es);
  }

  lemma RunAbsorbs(c: Config, es: seq<Event>, e: Event, k: Key)
    requires c.Valid()
    requires var s := RunFrom(c, Empty, es); k in s.created && (k in s.rows ==> Terminal(s.rows[k].status))
    ensures var s, r := RunFrom(c, Empty, es), RunFrom(c, Empty, es + [e]);
      k in r.created && (k in r.rows ==> k in s.rows && r.rows[k] == s.rows[k])
  {
    EveryRunKeepsInv(c, es);
    StepAbsorbs(c, RunFrom(c, Empty, es), e, k);
    assert (es + [e])[..|es|] == es;
  }

  // ---------------------------------------------------------------- the worker loop

  // The events of one worker; the clock, new deliveries and cascades are nobody's.
  predicate By(e: Event, w: Worker) { !e.Tick? && !e.Enqueue? && !e.Remove? && e.w == w }

  lemma {:induction false} OthersLeaveProgram(c: Config, s: State, es: seq<Event>, w: Worker)
    requires forall e :: e in es ==> !By(e, w)
    ensures At(RunFrom(c, s, es), w) == At(s, w)
  {
    if es != [] {
      assert forall e :: e in es[..|es| - 1] ==> e in es;
      OthersLeaveProgram(c, s, es[..|es| - 1], w);
      assert es[|es| - 1] in es;
      OtherLeavesProgram(c, RunFrom(c, s, es[..|es| - 1]), es[|es| - 1], w);
    }
  }

  lemma OtherLeavesProgram(c: Config, s: State, e: Event, w: Worker)
    requires !By(e, w)
    ensures At(Step(c, s, e), w) == At(s, w)
  {
  }

  lemma {:induction false} RunAppends(c: Config, s: State, es: seq<Event>, fs: seq<Event>)
    ensures RunFrom(c, s, es + fs) == RunFrom(c, RunFrom(c, s, es), fs)
  {
    if fs == [] {
      assert es + fs == es;
    } else {
      RunAppends(c, s, es, fs[..|fs| - 1]);
      assert (es + fs)[..|es + fs| - 1] == es + fs[..|fs| - 1];
    }
  }

  lemma RunOne(c: Config, s: State, e: Event)
    ensures RunFrom(c, s, [e]) == Step(c, s, e)
  {
    assert [e][..0] == [];
    assert RunFrom(c, s, []) == s;
  }

  // ---------------------------------------------------------------- one worker's part of a run

  /** The worker is at the point of its program that the event needs, and a claimed row is due. */
  predicate Possible(s: State, e: Event) {
    match e
    case Start(w) => At(s, w).Idle?
    case Purge(w) => At(s, w).Started?
    case Sweep(w) => At(s, w).Purged?
    case Claim(w, k) => At(s, w).Looping? && k in Due(s.rows, At(s, w).now)
    case Authorise(w, _) => At(s, w).Claimed?
    case Send(w, _) => At(s, w).Cleared?
    case Commit(w, _) => At(s, w).Finishing?
    case _ => true
  }

  /** What a pass that started at `now` may claim. */
  function Due(rows: map<Key, Row>, now: int): set<Key> {
    set k | k in rows && rows[k].status == Pending && rows[k].due <= now
  }

  /** The worker's own events from one point of a run on, in order; None if one of them came to nothing. */
  function Done(c: Config, es: seq<Event>, from: nat, w: Worker): Option<seq<Event>> {
    if |es| <= from then (if |es| == from then Some([]) else None)
    else
      var before, last := es[..|es| - 1], es[|es| - 1];
      match Done(c, before, from, w)
      case None => None
      case Some(own) =>
        if !By(last, w) then Some(own)
        else if Possible(RunFrom(c, Empty, before), last) then Some(own + [last])
        else None
  }

  lemma {:induction false} OthersChangeNothing(c: Config, es: seq<Event>, fs: seq<Event>, from: nat, w: Worker)
    requires Done(c, es, from, w).Some? && forall e :: e in fs ==> !By(e, w)
    ensures Done(c, es + fs, from, w) == Done(c, es, from, w)
  {
    if fs == [] {
      assert es + fs == es;
    } else {
      var most := fs[..|fs| - 1];
      assert fs[|fs| - 1] in fs && forall e :: e in most ==> e in fs;
      OthersChangeNothing(c, es, most, from, w);
      assert (es + fs)[..|es + fs| - 1] == es + most;
    }
  }

  lemma OneMoreOwn(c: Config, es: seq<Event>, e: Event, from: nat, w: Worker)
    requires Done(c, es, from, w).Some? && By(e, w) && Possible(RunFrom(c, Empty, es), e)
    ensures Done(c, es + [e], from, w) == Some(Done(c, es, from, w).value + [e])
  {
    assert (es + [e])[..|es|] == es;
  }

  /** One iteration of the batch loop. */
  datatype Round = Round(key: Key, allowed: bool, answer: Answer, owned: bool)

  /** The rounds met these checks and these answers, in turn. */
  ghost predicate Meets(rounds: seq<Round>, allowed: nat -> bool, answers: nat -> Answer, owned: nat -> bool) {
    forall i :: 0 <= i < |rounds| ==> rounds[i].allowed == allowed(i) && rounds[i].answer == answers(i) && rounds[i].owned == owned(i)
  }

  // Each function appends to what the worker did before.
  function AttemptEvents(own: seq<Event>, w: Worker, allowed: bool, answer: Answer, owned: bool): seq<Event> {
    (if allowed then own + [Authorise(w, true)] + [Send(w, answer)] else own + [Authorise(w, false)]) + [Commit(w, owned)]
  }

  function RoundEvents(own: seq<Event>, w: Worker, r: Round): seq<Event> {
    AttemptEvents(own + [Claim(w, r.key)], w, r.allowed, r.answer, r.owned)
  }

  function RoundsEvents(own: seq<Event>, w: Worker, rounds: seq<Round>): seq<Event> {
    if rounds == [] then own else RoundEvents(RoundsEvents(own, w, rounds[..|rounds| - 1]), w, rounds[|rounds| - 1])
  }

  function OpenEvents(w: Worker): seq<Event> { [] + [Start(w)] + [Purge(w)] }

  /** All events of a pass that ran to its end. */
  function PassEvents(w: Worker, enabled: bool, rounds: seq<Round>): seq<Event> {
    if enabled then RoundsEvents(OpenEvents(w) + [Sweep(w)], w, rounds) + [Stop(w)] else OpenEvents(w) + [Stop(w)]
  }

  /** The shared database under one worker's loop: between any two of its statements,
      the clock, cascades and other workers may do anything. */
  class Outbox {
    const config: Config
    var state: State
    ghost var trace: seq<Event>

    constructor (config: Config)
      requires config.Valid()
      ensures Valid() && state == Empty && this.config == config
    {
      this.config := config;
      state, trace := Empty, [];
    }

    /** Everything that happened so far is a run of the interleaving machine. */
    ghost predicate Valid()
      reads this
    {
      config.Valid() && state == RunFrom(config, Empty, trace)
    }

    method Interleave(events: seq<Event>, ghost w: Worker)
      requires Valid() && forall e :: e in events ==> !By(e, w)
      modifies this
      ensures Valid() && At(state, w) == old(At(state, w))
      ensures state == RunFrom(config, old(state), events) && trace == old(trace) + events
    {
      var executed := 0;
      while executed < |events|
        invariant 0 <= executed <= |events|
        invariant state == RunFrom(config, old(state), events[..executed])
        invariant trace == old(trace)
      {
        assert events[..executed + 1][..executed] == events[..executed];
        state := Step(config, state, events[executed]);
        executed := executed + 1;
      }
      assert events[..executed] == events;
      OthersLeaveProgram(config, old(state), events, w);
      RunAppends(config, Empty, trace, events);
      trace := trace + events;
    }

    method Perform(e: Event)
      requires Valid()
      modifies this
      ensures Valid() && state == Step(config, old(state), e) && trace == old(trace) + [e]
    {
      RunOne(config, state, e);
      RunAppends(config, Empty, trace, [e]);
      state := Step(config, state, e);
      trace := trace + [e];
    }

    // The commit of one attempt: classify the outcome, then run the fenced update.
    method Settle(w: Worker, owned: bool)
      requires Valid() && At(state, w).Finishing?
      modifies this
      ensures Valid() && state == Step(config, old(state), Commit(w, owned)) && trace == old(trace) + [Commit(w, owned)]
    {
      RunOne(config, state, Commit(w, owned));
      RunAppends(config, Empty, trace, [Commit(w, owned)]);
      trace := trace + [Commit(w, owned)];
      var p := At(state, w);
      var next := Goto(state, w, Looping(p.now));
      var status, due := Cancelled, p.now;
      if p.answer.Some? {
        status := Failed;
        if p.answer.value.Code? {
          var code := p.answer.value.code;
          if 200 <= code < 300 {
            status := Sent;
          } else if code == 404 || code == 410 {
            state := if owned then next.(rows := WithoutSubscription(state.rows, p.key.subscription)) else next;
            return;
          } else if (code == 429 || code >= 500) && p.attempts + 1 < config.maximumAttempts {
            status := Pending;
            var delay := RetryDelay(config.firstDelay, config.maximumDelay, p.attempts);
            due := p.now + delay;
          }
        }
      }
      if p.key in state.rows {
        var row := state.rows[p.key];
        if row.lease == Some(p.lease) && row.expires > state.clock {
          next := next.(rows := state.rows[p.key := row.(status := status, due := due, lease := None)]);
        }
      }
      state := next;
    }

    // Everyone else runs for a while, then the worker takes its next step.
    method Next(before: seq<Event>, e: Event, ghost w: Worker, ghost from: nat, ghost own: seq<Event>) returns (ghost middle: State)
      requires Valid() && Done(config, trace, from, w) == Some(own)
      requires By(e, w) && !e.Claim? && Possible(state, e) && forall o :: o in before ==> !By(o, w)
      modifies this
      ensures Valid() && At(middle, w) == old(At(state, w)) && state == Step(config, middle, e) && middle == RunFrom(config, old(state), before)
      ensures old(trace) <= trace == old(trace) + before + [e]
      ensures Done(config, trace, from, w) == Some(own + [e])
    {
      OthersChangeNothing(config, trace, before, from, w);
      Interleave(before, w);
      OneMoreOwn(config, trace, e, from, w);
      middle := state;
      Perform(e);
    }

    method Finish(before: seq<Event>, w: Worker, owned: bool, ghost from: nat, ghost own: seq<Event>)
      requires Valid() && Done(config, trace, from, w) == Some(own)
      requires At(state, w).Finishing? && forall o :: o in before ==> !By(o, w)
      modifies this
      ensures Valid() && At(state, w) == Looping(old(At(state, w).now))
      ensures trace == old(trace) + before + [Commit(w, owned)] && Done(config, trace, from, w) == Some(own + [Commit(w, owned)])
    {
      OthersChangeNothing(config, trace, before, from, w);
      Interleave(before, w);
      OneMoreOwn(config, trace, Commit(w, owned), from, w);
      Settle(w, owned);
    }

    // One iteration after its claim: authorise, perhaps send, and settle.
    method Attempt(w: Worker, allowed: bool, answer: Answer, owned: bool, beforeCheck: seq<Event>, beforeSend: seq<Event>, beforeCommit: seq<Event>,
                   ghost from: nat, ghost own: seq<Event>)
      requires Valid() && At(state, w).Claimed? && Done(config, trace, from, w) == Some(own)
      requires forall e :: e in beforeCheck || e in beforeSend || e in beforeCommit ==> !By(e, w)
      modifies this
      ensures Valid() && At(state, w) == Looping(old(At(state, w).now))
      ensures trace == (if allowed then old(trace) + beforeCheck + [Authorise(w, true)] + beforeSend + [Send(w, answer)]
                        else old(trace) + beforeCheck + [Authorise(w, false)]) + beforeCommit + [Commit(w, owned)]
      ensures Done(config, trace, from, w) == Some(AttemptEvents(own, w, allowed, answer, owned))
    {
      ghost var at := Next(beforeCheck, Authorise(w, allowed), w, from, own);
      if allowed {
        at := Next(beforeSend, Send(w, answer), w, from, own + [Authorise(w, true)]);
        Finish(beforeCommit, w, owned, from, own + [Authorise(w, true)] + [Send(w, answer)]);
      } else {
        Finish(beforeCommit, w, owned, from, own + [Authorise(w, false)]);
      }
    }

    // The claim transaction: one due delivery, or none is due.
    method ClaimNext(w: Worker) returns (claimed: Option<Key>)
      requires Valid() && At(state, w).Looping?
      modifies this
      ensures Valid()
      ensures claimed.Some? ==>
        && Possible(old(state), Claim(w, claimed.value))
        && state == Step(config, old(state), Claim(w, claimed.value)) && trace == old(trace) + [Claim(w, claimed.value)]
      ensures claimed == None ==> state == old(state) && trace == old(trace)
      ensures claimed == None ==> Due(state.rows, At(state, w).now) == {}
    {
      var now := At(state, w).now;
      var due := Due(state.rows, now);
      if due == {} {
        return None;
      }
      var k :| k in due;
      Perform(Claim(w, k));
      claimed := Some(k);
    }

    // The two deletions that open every pass.
    method Open(w: Worker, beforePurge: seq<Event>)
      requires Valid() && At(state, w).Idle?
      requires forall e :: e in beforePurge ==> !By(e, w)
      modifies this
      ensures Valid() && At(state, w) == Purged(old(state.clock))
      ensures old(trace) <= trace == old(trace) + [Start(w)] + beforePurge + [Purge(w)]
      ensures Done(config, trace, |old(trace)|, w) == Some(OpenEvents(w))
    {
      OneMoreOwn(config, trace, Start(w), |trace|, w);
      Perform(Start(w));
      ghost var at := Next(beforePurge, Purge(w), w, |old(trace)|, [] + [Start(w)]);
    }

    // One iteration of the batch loop: claim and attempt, or find that nothing is due.
    method Iterate(w: Worker, allowed: bool, answer: Answer, owned: bool, beforeClaim: seq<Event>, beforeCheck: seq<Event>,
                   beforeSend: seq<Event>, beforeCommit: seq<Event>, ghost from: nat, ghost own: seq<Event>)
      returns (claimed: Option<Key>)
      requires Valid() && At(state, w).Looping? && Done(config, trace, from, w) == Some(own)
      requires forall e :: e in beforeClaim || e in beforeCheck || e in beforeSend || e in beforeCommit ==> !By(e, w)
      modifies this
      ensures Valid() && At(state, w) == old(At(state, w)) && old(trace) <= trace
      ensures claimed == None ==> Done(config, trace, from, w) == Some(own) && Due(state.rows, At(state, w).now) == {}
      ensures claimed.Some? ==> Done(config, trace, from, w) == Some(RoundEvents(own, w, Round(claimed.value, allowed, answer, owned)))
    {
      OthersChangeNothing(config, trace, beforeClaim, from, w);
      Interleave(beforeClaim, w);
      ghost var before := trace;
      claimed := ClaimNext(w);
      if claimed.Some? {
        OneMoreOwn(config, before, Claim(w, claimed.value), from, w);
        Attempt(w, allowed, answer, owned, beforeCheck, beforeSend, beforeCommit,
                from, own + [Claim(w, claimed.value)]);
      }
    }

    // At most a batch of iterations, and fewer only when nothing is due any more.
    method Loop(w: Worker, batch: nat, allowed: nat -> bool, answers: nat -> Answer, owned: nat -> bool, others: (nat, nat) -> seq<Event>,
                ghost from: nat, ghost own: seq<Event>)
      returns (ghost rounds: seq<Round>)
      requires Valid() && At(state, w).Looping? && Done(config, trace, from, w) == Some(own)
      requires forall n, m, e :: e in others(n, m) ==> !By(e, w)
      modifies this
      ensures Valid() && At(state, w) == old(At(state, w)) && old(trace) <= trace
      ensures Done(config, trace, from, w) == Some(RoundsEvents(own, w, rounds))
      ensures |rounds| <= batch && Meets(rounds, allowed, answers, owned)
      ensures |rounds| < batch ==> Due(state.rows, At(state, w).now) == {}
    {
      rounds := [];
      for i := 0 to batch
        invariant Valid() && At(state, w) == old(At(state, w)) && old(trace) <= trace && |rounds| == i
        invariant Done(config, trace, from, w) == Some(RoundsEvents(own, w, rounds))
        invariant Meets(rounds, allowed, answers, owned)
      {
        var claimed := Iterate(w, allowed(i), answers(i), owned(i), others(i + 1, 0), others(i + 1, 1), others(i + 1, 2), others(i + 1, 3),
                               from, RoundsEvents(own, w, rounds));
        if claimed == None {
          break;
        }
        ghost var round := Round(claimed.value, allowed(i), answers(i), owned(i));
        OneMoreRound(own, w, rounds, round, allowed, answers, owned);
        rounds := rounds + [round];
      }
    }

    method Leave(w: Worker, ghost from: nat, ghost own: seq<Event>)
      requires Valid() && Done(config, trace, from, w) == Some(own)
      modifies this
      ensures Valid() && state == Goto(old(state), w, Idle) && trace == old(trace) + [Stop(w)]
      ensures Done(config, trace, from, w) == Some(own + [Stop(w)])
    {
      OneMoreOwn(config, trace, Stop(w), from, w);
      Perform(Stop(w));
    }

    // A pass that meets no error: the opening, then at most a batch of rounds. Its own steps all take
    // effect, anything may happen between them, and it stops early only when nothing was due.
    method DeliverPush(w: Worker, batch: nat, enabled: bool, allowed: nat -> bool, answers: nat -> Answer, owned: nat -> bool,
                       others: (nat, nat) -> seq<Event>)
      returns (ghost rounds: seq<Round>)
      requires Valid() && At(state, w).Idle?
      requires forall n, m, e :: e in others(n, m) ==> !By(e, w)
      modifies this
      ensures Valid() && At(state, w).Idle? && old(trace) <= trace
      ensures Done(config, trace, |old(trace)|, w) == Some(PassEvents(w, enabled, rounds))
      ensures |rounds| <= (if enabled then batch else 0) && Meets(rounds, allowed, answers, owned)
      ensures enabled && |rounds| < batch ==> Due(state.rows, old(state.clock)) == {}
    {
      rounds := [];
      Open(w, others(0, 0));
      if enabled {
        ghost var at := Next(others(0, 1), Sweep(w), w, |old(trace)|, OpenEvents(w));
        rounds := Loop(w, batch, allowed, answers, owned, others, |old(trace)|, OpenEvents(w) + [Sweep(w)]);
        Leave(w, |old(trace)|, RoundsEvents(OpenEvents(w) + [Sweep(w)], w, rounds));
      } else {
        Leave(w, |old(trace)|, OpenEvents(w));
      }
    }
  }

  lemma OneMoreRound(own: seq<Event>, w: Worker, rounds: seq<Round>, r: Round, allowed: nat -> bool, answers: nat -> Answer, owned: nat -> bool)
    requires Meets(rounds, allowed, answers, owned) && r == Round(r.key, allowed(|rounds|), answers(|rounds|), owned(|rounds|))
    ensures Meets(rounds + [r], allowed, answers, owned)
    ensures RoundsEvents(own, w, rounds + [r]) == RoundEvents(RoundsEvents(own, w, rounds), w, r)
  {
    assert (rounds + [r])[..|rounds|] == rounds;
  }
}
