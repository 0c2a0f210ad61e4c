/** What the store protocol guarantees in every reachable state and over every run. */
module ProtocolTheorems {
  import opened Basics
  import opened Sessions
  import opened Protocol
  import opened ProtocolInvariant
  import Limiter

  lemma {:induction false} ReachableInv(s: State)
    requires Reachable(s)
    ensures Inv(s)
  {
    var states, acts :| Run(states, acts) && states[|acts|] == s;
    RunInv(states, acts, |acts|);
  }

  /** What the invariant says of one thread of a reachable state. */
  lemma {:induction false} ReachableThread(s: State, t: Tid)
    requires Reachable(s) && t < |s.threads|
    ensures ThreadOk(s, t) && LocksOf(s, t)
  {
    ReachableInv(s);
  }

  lemma {:induction false} ReachableLocks(s: State)
    requires Reachable(s)
    ensures Locks(s)
  {
    ReachableInv(s);
  }

  // ---- Single flight ----

  lemma {:induction false} LaterCallsSeeTheWrite(s: State, i: nat, j: nat)
    requires Inv(s) && i < j < |s.log|
    ensures s.log[i].ver + (if Writes(s.log[i]) then 1 else 0) <= s.log[j].ver
  {
    assert EventOk(s, i) && EventOk(s, j);
    assert s.log[..i + 1][..i] == s.log[..i];
    WriteCountMonotone(s.log, i + 1, j);
  }

  lemma {:induction false} CallUnderWaySeesTheWrite(s: State, i: nat)
    requires Inv(s) && i < |s.log|
    requires Holder(s).Some? && Holder(s).value.pc.Call?
    ensures s.log[i].ver + (if Writes(s.log[i]) then 1 else 0) <= Holder(s).value.ver
  {
    assert EventOk(s, i) && ThreadOk(s, s.flight.value);
    assert s.log[..i + 1][..i] == s.log[..i] && s.log[..|s.log|] == s.log;
    WriteCountMonotone(s.log, i + 1, |s.log|);
  }

  /**
   * Single flight. Of the recipe calls made with one session object, all but the last are failed
   * calls from Get: a call that succeeds, or that comes from Refresh, retires the object. So any
   * number of Refresh callers that share a session cause at most one recipe call. The same holds
   * of the call that may be under way.
   */
  lemma {:induction false} SingleFlight(s: State, p: Ptr)
    requires Reachable(s)
    ensures forall i, j :: 0 <= i < j < |s.log| && s.log[i].arg == Some(p) && s.log[j].arg == Some(p) ==>
              s.log[i].kind.Get? && s.log[i].reply.Refused?
    ensures Holder(s).Some? && Holder(s).value.pc.Call? && Holder(s).value.seen == Some(p) ==>
              forall i :: 0 <= i < |s.log| && s.log[i].arg == Some(p) ==> s.log[i].kind.Get? && s.log[i].reply.Refused?
  {
    ReachableInv(s);
    forall i, j | 0 <= i < j < |s.log| && s.log[i].arg == Some(p) && s.log[j].arg == Some(p)
      ensures s.log[i].kind.Get? && s.log[i].reply.Refused?
    {
      assert EventOk(s, i) && EventOk(s, j);
      LaterCallsSeeTheWrite(s, i, j);
    }
    if Holder(s).Some? && Holder(s).value.pc.Call? && Holder(s).value.seen == Some(p) {
      assert ThreadOk(s, s.flight.value);
      forall i | 0 <= i < |s.log| && s.log[i].arg == Some(p) ensures s.log[i].kind.Get? && s.log[i].reply.Refused? {
        assert EventOk(s, i);
        CallUnderWaySeesTheWrite(s, i);
      }
    }
  }

  /** Get's first-use login succeeds at most once, and is never attempted once there is a session. */
  lemma {:induction false} EstablishOnce(s: State, i: nat, j: nat)
    requires Reachable(s) && i < j < |s.log| && Writes(s.log[i])
    ensures !Establishes(s.log[j]) && s.log[j].arg.Some?
  {
    ReachableInv(s);
    assert EventOk(s, j);
    LaterCallsSeeTheWrite(s, i, j);
  }

  // ---- Rate ----

  /** Get and Refresh together: admitted refreshes per window, and per span of any length. */
  lemma {:induction false} RateBound(s: State, from: Time, span: Time)
    requires Reachable(s)
    ensures s.cfg.window > 0
    ensures Limiter.Count(s.admitted, from, from + s.cfg.window) <= s.cfg.maxBurst
    ensures Limiter.Count(Renewals(s.log), from, from + s.cfg.window) <= s.cfg.maxBurst
    ensures Limiter.Count(Renewals(s.log), from, from + span) <= s.cfg.maxBurst * Limiter.Windows(span, s.cfg.window)
  {
    ReachableLimited(s);
    Limiter.WindowBound(s.admitted, s.cfg.maxBurst, s.cfg.window, from);
    Limiter.SpanBound(s.admitted, s.cfg.maxBurst, s.cfg.window, from, span);
    RenewalsAdmitted(s, from, from + s.cfg.window);
    RenewalsAdmitted(s, from, from + span);
  }

  /** Every renewal that was made had been admitted. */
  lemma {:induction false} RenewalsAdmitted(s: State, from: Time, to: Time)
    requires Reachable(s)
    ensures Limiter.Count(Renewals(s.log), from, to) <= Limiter.Count(s.admitted, from, to)
  {
    ReachableInv(s);
    Limiter.CountConcat(Renewals(s.log), s.admitted[|Renewals(s.log)|..], from, to);
  }

  /** A thread about to consult the limiter is admitted exactly when the whole history allows it. */
  lemma {:induction false} AdmittedExactly(s: State, t: Tid, answer: Answer)
    requires Reachable(s) && Ready(s, t) && s.threads[t].pc.Limit? && s.threads[t].inSection
    ensures var now, s' := s.threads[t].now, Advance(s, t, answer);
      && (s'.threads[t].pc.Call? <==> Limiter.Count(s.admitted, now - s.cfg.window + 1, now + 1) < s.cfg.maxBurst)
      && s'.admitted == s.admitted + (if s'.threads[t].pc.Call? then [now] else [])
      && (!s'.threads[t].pc.Call? ==> s'.threads[t].pc == Unlock(Err(RateLimited)) && s'.log == s.log)
  {
    ReachableThread(s, t);
    Verdict(s, t);
  }

  lemma {:induction false} Verdict(s: State, t: Tid)
    requires Reachable(s) && t < |s.threads| && s.threads[t].pc.Limit? && s.flight == Some(t)
    ensures var now := s.threads[t].now;
      Limiter.Admit(s.stamps, s.cfg.maxBurst, s.cfg.window, now).0 <==>
        Limiter.Count(s.admitted, now - s.cfg.window + 1, now + 1) < s.cfg.maxBurst
  {
    ReachableLimited(s);
    Limiter.AdmitVerdict(s.stamps, s.admitted, s.cfg.maxBurst, s.cfg.window, s.threads[t].now);
  }

  lemma {:induction false} ReachableLimited(s: State)
    requires Reachable(s)
    ensures Limited(s)
  {
    ReachableInv(s);
  }

  // ---- What only ever grows ----

  ghost predicate Grows(s: State, s': State) {
    && s.cfg == s'.cfg && s.clock <= s'.clock && |s.threads| <= |s'.threads|
    && s.heap <= s'.heap && s.writes <= s'.writes && s.log <= s'.log && s.admitted <= s'.admitted
    && forall t :: 0 <= t < |s.threads| ==> s.threads[t].kind == s'.threads[t].kind && s.threads[t].ver <= s'.threads[t].ver
  }

  lemma {:induction false} StepGrows(s: State, a: Action)
    requires Enabled(s, a) && (a.Step? ==> ThreadOk(s, a.t))
    ensures Grows(s, Next(s, a))
  {
  }

  /** What the invariant says of one thread at one point of a run. */
  lemma {:induction false} RunThread(states: seq<State>, acts: seq<Action>, i: nat, t: Tid)
    requires Run(states, acts) && i < |states| && t < |states[i].threads|
    ensures ThreadOk(states[i], t) && LocksOf(states[i], t) && Register(states[i])
  {
    RunInv(states, acts, i);
  }

  lemma {:induction false} RunRegister(states: seq<State>, acts: seq<Action>, i: nat)
    requires Run(states, acts) && i < |states|
    ensures Register(states[i])
  {
    RunInv(states, acts, i);
  }

  lemma {:induction false} RunClock(states: seq<State>, acts: seq<Action>, i: nat)
    requires Run(states, acts) && i < |states|
    ensures states[i].clock > LONG_AGO
  {
    RunInv(states, acts, i);
  }

  lemma {:induction false} RunStepGrows(states: seq<State>, acts: seq<Action>, i: nat)
    requires Run(states, acts) && i < |acts|
    ensures Grows(states[i], states[i + 1])
  {
    assert Link(states[i], acts[i], states[i + 1]);
    if acts[i].Step? { RunThread(states, acts, i, acts[i].t); }
    StepGrows(states[i], acts[i]);
  }

  /** Along a run no session object changes, and no write, call or admission is ever taken back. */
  lemma {:induction false} RunGrows(states: seq<State>, acts: seq<Action>, i: nat, j: nat)
    requires Run(states, acts) && i <= j < |states|
    ensures Grows(states[i], states[j])
    decreases j
  {
    if i < j {
      RunGrows(states, acts, i, j - 1);
      RunStepGrows(states, acts, j - 1);
      GrowsTwice(states[i], states[j - 1], states[j]);
    }
  }

  lemma {:induction false} GrowsTwice(s: State, s': State, s'': State)
    requires Grows(s, s') && Grows(s', s'')
    ensures Grows(s, s'')
  {
  }

  /**
   * The current session never returns to nil and never to an earlier object, and every change of
   * it is a step of the thread that holds the flight lock.
   */
  lemma {:induction false} CurrentMovesForward(states: seq<State>, acts: seq<Action>, i: nat, j: nat)
    requires Run(states, acts) && i <= j < |states|
    ensures states[i].cur.Some? ==> states[j].cur.Some? && states[i].cur.value <= states[j].cur.value
    ensures states[i].cur == states[j].cur ==> forall k :: i <= k <= j ==> states[k].cur == states[i].cur
  {
    RunGrows(states, acts, i, j);
    RunRegister(states, acts, i);
    RunRegister(states, acts, j);
    FieldMovesForward(states[i], states[j]);
    if states[i].cur == states[j].cur {
      forall k | i <= k <= j ensures states[k].cur == states[i].cur {
        RunRegister(states, acts, k);
        RunGrows(states, acts, i, k);
        RunGrows(states, acts, k, j);
        assert |states[i].writes| == |states[k].writes|;
      }
    }
  }

  lemma {:induction false} FieldMovesForward(s: State, s': State)
    requires Register(s) && Register(s') && s.writes <= s'.writes
    ensures s.cur.Some? ==> s'.cur.Some? && s.cur.value <= s'.cur.value
    ensures s.cur == s'.cur ==> |s.writes| == |s'.writes|
  {
    if s.cur.Some? { assert s.cur.value == s'.writes[|s.writes| - 1].p; }
  }

  /** Every change of the session is a step of the thread that holds the flight lock, inside its section. */
  lemma {:induction false} WrittenByHolder(s: State, a: Action)
    requires Reachable(s) && Enabled(s, a) && Next(s, a).cur != s.cur
    ensures a.Step? && s.flight == Some(a.t) && s.sect == Some(a.t)
  {
    if a.Step? { ReachableThread(s, a.t); }
  }

  // ---- Results ----

  ghost predicate CurrentDuring(states: seq<State>, t: Tid, sess: Option<Ptr>, k: nat) {
    k < |states| && t < |states[k].threads| && !states[k].threads[t].pc.Done? && states[k].cur == sess
  }

  lemma {:induction false} SeenWasCurrent(states: seq<State>, acts: seq<Action>, j: nat, t: Tid) returns (k: nat)
    requires Run(states, acts) && j < |states| && t < |states[j].threads| && !states[j].threads[t].pc.Snap?
    ensures k <= j && CurrentDuring(states, t, states[j].threads[t].seen, k)
  {
    assert j > 0;
    var s, a := states[j - 1], acts[j - 1];
    assert Link(s, a, states[j]);
    if SeenHere(s, a, t) {
      k := if s.threads[t].pc.Commit? then j else j - 1;
    } else {
      SeenKept(s, a, t);
      k := SeenWasCurrent(states, acts, j - 1, t);
    }
  }

  /** This step puts the current session into the thread's hand. */
  predicate SeenHere(s: State, a: Action, t: Tid)
    requires Enabled(s, a)
  {
    && a.Step? && a.t == t && s.threads[t].inSection
    && (s.threads[t].pc.Snap? || s.threads[t].pc.Resnap? || s.threads[t].pc.Commit?)
  }

  lemma {:induction false} SeenKept(s: State, a: Action, t: Tid)
    requires Enabled(s, a) && !SeenHere(s, a, t)
    requires t < |Next(s, a).threads| && !Next(s, a).threads[t].pc.Snap?
    ensures t < |s.threads| && !s.threads[t].pc.Snap? && s.threads[t].seen == Next(s, a).threads[t].seen
  {
  }

  /** Linearizable: a call that returns without error returns a session that was current at some point inside the call. */
  lemma {:induction false} Linearizable(states: seq<State>, acts: seq<Action>, j: nat, t: Tid)
    requires Run(states, acts) && j < |states| && t < |states[j].threads|
    requires states[j].threads[t].pc.Done? && states[j].threads[t].pc.result.Ok?
    ensures var sess := states[j].threads[t].pc.result.sess;
      sess.Some? && exists k :: 0 <= k <= j && CurrentDuring(states, t, sess, k)
  {
    RunThread(states, acts, j, t);
    var k := SeenWasCurrent(states, acts, j, t);
  }

  /** Some time during the call of `t`, `sess` was unexpired, or it was the session that the recipe had just made for `t`. */
  ghost predicate LiveOrMadeDuring(states: seq<State>, t: Tid, sess: Option<Ptr>, k: nat) {
    && k < |states| && t < |states[k].threads| && !states[k].threads[t].pc.Done?
    && sess.Some? && sess.value < |states[k].heap|
    && (InTime(states[k].heap[sess.value], states[k].clock) || states[k].threads[t].pc == Commit(sess.value))
  }

  /** Get never serves an expired session, unless the recipe itself has just handed one out. */
  lemma {:induction false} GetServesLive(states: seq<State>, acts: seq<Action>, j: nat, t: Tid) returns (k: nat)
    requires Run(states, acts) && j < |states| && t < |states[j].threads| && states[j].threads[t].kind.Get?
    requires states[j].threads[t].pc.Unlock? || states[j].threads[t].pc.Done?
    requires states[j].threads[t].pc.result.Ok?
    ensures k < j && LiveOrMadeDuring(states, t, states[j].threads[t].pc.result.sess, k)
  {
    assert j > 0;
    var s, a := states[j - 1], acts[j - 1];
    assert Link(s, a, states[j]);
    ResultFrom(s, a, t);
    if s.threads[t].pc.Unlock? || s.threads[t].pc.Done? {
      k := GetServesLive(states, acts, j - 1, t);
    } else {
      RunThread(states, acts, j - 1, t);
      k := j - 1;
    }
  }

  lemma {:induction false} ResultFrom(s: State, a: Action, t: Tid)
    requires Enabled(s, a) && t < |Next(s, a).threads|
    requires var th := Next(s, a).threads[t]; th.kind.Get? && (th.pc.Unlock? || th.pc.Done?) && th.pc.result.Ok?
    ensures t < |s.threads| && s.threads[t].kind.Get?
    ensures var th, r := s.threads[t], Next(s, a).threads[t].pc.result;
      || ((th.pc.Unlock? || th.pc.Done?) && th.pc.result == r)
      || ((th.pc.Check? || th.pc.Recheck?) && r.sess == th.seen && r.sess.Some? && r.sess.value < |s.heap| && InTime(s.heap[r.sess.value], s.clock))
      || (r.sess.Some? && th.pc == Commit(r.sess.value))
  {
  }

  lemma {:induction false} VersionAfter(states: seq<State>, acts: seq<Action>, i: nat, j: nat, t: Tid)
    requires Run(states, acts) && i <= j < |states| && t < |states[j].threads|
    requires t < |states[i].threads| ==> states[i].threads[t].pc.Snap?
    ensures states[j].threads[t].pc.Snap? || states[j].threads[t].ver >= |states[i].writes|
    decreases j
  {
    if i < j {
      RunGrows(states, acts, i, j - 1);
      RunStepGrows(states, acts, j - 1);
      assert Link(states[j - 1], acts[j - 1], states[j]);
      if t < |states[j - 1].threads| {
        VersionAfter(states, acts, i, j - 1, t);
        SnapReads(states[j - 1], acts[j - 1], t);
      }
    }
  }

  lemma {:induction false} SnapReads(s: State, a: Action, t: Tid)
    requires Enabled(s, a) && t < |s.threads|
    ensures s.threads[t].pc.Snap? && !Next(s, a).threads[t].pc.Snap? ==> Next(s, a).threads[t].ver == |s.writes|
    ensures Next(s, a).threads[t].pc.Snap? ==> s.threads[t].pc.Snap?
  {
  }

  /**
   * Dead stays dead. After a failed Refresh has invalidated the session, a Get whose first
   * snapshot is still to come can return only an error or a session that was committed after the
   * invalidation; while nothing is committed it returns an error.
   */
  lemma {:induction false} DeadStaysDead(states: seq<State>, acts: seq<Action>, i: nat, j: nat, t: Tid)
    requires Run(states, acts) && i <= j < |states| && t < |states[j].threads|
    requires states[i].writes != [] && states[i].writes[|states[i].writes| - 1].Invalidated?
    requires t < |states[i].threads| ==> states[i].threads[t].pc.Snap?
    requires var th := states[j].threads[t]; th.kind.Get? && th.pc.Done? && th.pc.result.Ok?
    ensures var ver := states[j].threads[t].ver;
      && |states[i].writes| < ver <= |states[j].writes|
      && states[j].writes[ver - 1].Committed?
      && states[j].threads[t].pc.result == Ok(Some(states[j].writes[ver - 1].p))
  {
    RunGrows(states, acts, i, j);
    VersionAfter(states, acts, i, j, t);
    RunThread(states, acts, j, t);
  }

  /** The recipe call whose outcome is version ver + 1 of the session field. */
  lemma {:induction false} WritingCall(log: seq<Event>, ver: nat) returns (i: nat)
    requires ver < WriteCount(log)
    ensures i < |log| && Writes(log[i]) && WriteCount(log[..i]) == ver
  {
    var init := log[..|log| - 1];
    if WriteCount(init) == ver {
      i := |log| - 1;
    } else {
      i := WritingCall(init, ver);
      assert log[..i] == init[..i];
    }
  }

  /**
   * What a Refresh caller can be handed. Its session is dead exactly when the recipe call that
   * produced that version failed: then it is an expired copy of the session that the call was made
   * with. Otherwise it is the very object that the recipe granted.
   */
  lemma {:induction false} RefreshResult(s: State, t: Tid) returns (i: nat)
    requires Reachable(s) && t < |s.threads|
    requires var th := s.threads[t]; th.kind.Refresh? && th.pc.Done? && th.pc.result.Ok?
    ensures var p := s.threads[t].pc.result.sess;
      && i < |s.log| && s.log[i].ver + 1 == s.threads[t].ver <= |s.writes| && Writes(s.log[i])
      && p.Some? && p.value < |s.heap|
      && (s.writes[s.log[i].ver].Invalidated? <==> s.log[i].reply.Refused?)
      && (if s.log[i].reply.Fresh? then p.value == s.log[i].reply.p
          else s.log[i].arg.Some? && s.log[i].arg.value < |s.heap| && s.heap[p.value] == Stale(s.heap[s.log[i].arg.value]))
  {
    ReachableInv(s);
    var th := s.threads[t];
    assert ThreadOk(s, t);
    i := WritingCall(s.log, th.ver - 1);
    assert EventOk(s, i) && CopyOf(s, th.ver - 1);
  }

  /**
   * Cached until expiry. While the clock has not passed a session's expiry, or when it has none,
   * no recipe call is made unless Refresh makes one: Get serves the session from the entry.
   */
  lemma {:induction false} CachedUntilExpiry(states: seq<State>, acts: seq<Action>, i: nat, j: nat)
    requires Run(states, acts) && i <= j < |states|
    requires states[i].cur.Some? && !Pending(Holder(states[i]))
    ensures states[i].cur.value < |states[i].heap|
    ensures InTime(states[i].heap[states[i].cur.value], states[j].clock)
              && (forall k :: |states[i].log| <= k < |states[j].log| ==> states[j].log[k].kind.Get?) ==>
              states[j].log == states[i].log
  {
    RunInv(states, acts, i);
    RunInv(states, acts, j);
    RunGrows(states, acts, i, j);
    var n := |states[i].log|;
    if n < |states[j].log| && states[j].log[n].kind.Get? {
      assert EventOk(states[j], n);
      assert states[j].log[..n] == states[i].log;
    }
  }

  /** The health view: established exactly when a login time is recorded, and LastError is the last finished call's. */
  lemma {:induction false} HealthView(s: State)
    requires Reachable(s)
    ensures s.cur.Some? <==> s.lastAuth != ZERO_TIME
    ensures s.flight.None? ==> s.lastErr == LastCallError(s.log)
  {
    ReachableInv(s);
  }

  // ---- Progress ----

  function PointsLeft(pc: PC): nat {
    match pc
    case Snap => 12 case Check => 11 case WaitFlight => 10 case Resnap => 9 case Recheck => 8
    case ReadStamp => 7 case Limit => 6 case Call => 5 case ReadCommit(_) => 4 case Fail(_) => 4
    case Commit(_) => 3 case Invalidate(_) => 3 case Unlock(_) => 2 case Done(_) => 0
  }

  const MAX_STEPS := 24

  /** A bound on the steps a thread still has to take. */
  function StepsLeft(th: Thread): nat {
    var n := 2 * PointsLeft(th.pc);
    if th.inSection && n > 0 then n - 1 else n
  }

  function TotalStepsLeft(threads: seq<Thread>): nat {
    if threads == [] then 0 else TotalStepsLeft(threads[..|threads| - 1]) + StepsLeft(threads[|threads| - 1])
  }

  lemma {:induction false} TotalAfterUpdate(threads: seq<Thread>, t: nat, th: Thread)
    requires t < |threads|
    ensures TotalStepsLeft(threads[t := th]) == TotalStepsLeft(threads) - StepsLeft(threads[t]) + StepsLeft(th)
  {
    var n, threads' := |threads|, threads[t := th];
    if t == n - 1 {
      assert threads'[..n - 1] == threads[..n - 1];
    } else {
      assert threads'[..n - 1] == threads[..n - 1][t := th];
      TotalAfterUpdate(threads[..n - 1], t, th);
    }
  }

  /** Deadlock freedom: while a call is unfinished, some thread can take a step. */
  lemma {:induction false} NoDeadlock(s: State, unfinished: Tid) returns (t: Tid)
    requires Reachable(s) && unfinished < |s.threads| && !s.threads[unfinished].pc.Done?
    ensures Ready(s, t)
  {
    ReachableLocks(s);
    t := if s.sect.Some? then s.sect.value else if s.flight.Some? then s.flight.value else unfinished;
    ReachableThread(s, t);
  }

  function Steps(acts: seq<Action>): nat {
    if acts == [] then 0 else Steps(acts[..|acts| - 1]) + if acts[|acts| - 1].Step? then 1 else 0
  }

  /** Termination: a run takes at most MAX_STEPS steps for each call made, however the threads interleave. */
  lemma {:induction false} EveryCallTerminates(states: seq<State>, acts: seq<Action>, j: nat)
    requires Run(states, acts) && j < |states|
    ensures Steps(acts[..j]) + TotalStepsLeft(states[j].threads) <= MAX_STEPS * |states[j].threads|
  {
    if j > 0 {
      EveryCallTerminates(states, acts, j - 1);
      var s, a := states[j - 1], acts[j - 1];
      assert Link(s, a, states[j]);
      assert acts[..j][..j - 1] == acts[..j - 1];
      match a
      case Start(_) => assert states[j].threads[..|s.threads|] == s.threads;
      case Tick(_) =>
      case Step(t, _) =>
        RunThread(states, acts, j - 1, t);
        StepCounts(s, a);
        TotalAfterUpdate(s.threads, t, states[j].threads[t]);
    }
  }

  lemma {:induction false} StepCounts(s: State, a: Action)
    requires a.Step? && Enabled(s, a) && LocksOf(s, a.t)
    ensures var threads' := Next(s, a).threads;
      |threads'| == |s.threads| && threads' == s.threads[a.t := threads'[a.t]] && StepsLeft(threads'[a.t]) < StepsLeft(s.threads[a.t])
  {
  }
}
