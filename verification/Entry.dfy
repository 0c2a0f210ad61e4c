/**
 * The code of Get and Refresh (internal/store/store.go), one atomic operation at a time, run
 * against an environment that interleaves any steps of any other threads. Every execution is a
 * run of the protocol in which the calling goroutine is one of the threads.
 */
module Entry {
  import opened Basics
  import opened Sessions
  import opened Protocol
  import opened ProtocolTheorems
  import opened Sequential
  import opened Limiter

  datatype IdentityHealth = IdentityHealth(name: string, established: bool, expiresAt: Time, lastRefresh: Time, lastError: string)

  /** The health that an entry in state `s` reports. */
  function HealthOf(name: string, s: State): IdentityHealth {
    var expiry := if s.cur.Some? && s.cur.value < |s.heap| then s.heap[s.cur.value].expiresAt else ZERO_TIME;
    IdentityHealth(name, s.cur.Some?, expiry, s.lastAuth, s.lastErr)
  }

  /**
   * What the report means in every reachable state: an identity is established exactly if it has a login
   * time, the expiry is its session's, and with no flight open the error is the last recipe call's.
   */
  lemma {:induction false} HealthMeans(name: string, s: State)
    requires Reachable(s)
    ensures var h := HealthOf(name, s);
      && h.name == name && h.lastRefresh == s.lastAuth && h.lastError == s.lastErr
      && (h.established <==> h.lastRefresh != ZERO_TIME)
      && (h.established ==> s.cur.Some? && s.cur.value < |s.heap| && h.expiresAt == s.heap[s.cur.value].expiresAt)
      && (!h.established ==> h.expiresAt == ZERO_TIME)
      && (s.flight.None? && s.log != [] && s.log[|s.log| - 1].reply.Refused? ==> h.lastError == s.log[|s.log| - 1].reply.text)
      && (s.flight.None? && (s.log == [] || s.log[|s.log| - 1].reply.Fresh?) ==> h.lastError == "")
  {
    HealthView(s);
    var states, acts :| Run(states, acts) && states[|acts|] == s;
    RunRegister(states, acts, |acts|);
  }

  class Entry {
    const alone: bool  // no other thread uses this entry
    const stampList: StampBuffer
    var session: Option<Ptr>
    var lastAuth: Time
    var lastErr: string
    var heap: seq<Session>
    // every goroutine's position, the locks and the clock
    var m: State
    ghost var states: seq<State>
    ghost var acts: seq<Action>
    ghost var past: seq<Action>  // the actions up to and including the start of the present call
    ghost var began: State       // the machine when the present call started

    ghost predicate Valid()
      reads this, stampList, stampList.buf
    {
      && Run(states, acts) && m == states[|acts|]
      && stampList.Valid()
      && FieldsMatch()
      && OthersDone()
    }

    /** If the entry is not shared, only the latest call may be in progress. */
    ghost predicate OthersDone()
      reads this
    {
      alone ==> forall t :: 0 <= t < |m.threads| - 1 ==> m.threads[t].pc.Done?
    }

    ghost predicate FieldsMatch()
      requires stampList.Valid()
      reads this, stampList, stampList.buf
    {
      && session == m.cur && lastAuth == m.lastAuth && lastErr == m.lastErr && heap == m.heap
      && stampList.Contents() == m.stamps
    }

    ghost predicate Idle()
      reads this
    {
      forall t :: 0 <= t < |m.threads| ==> m.threads[t].pc.Done?
    }

    ghost predicate Running(me: Tid)
      reads this
    {
      && me < |m.threads| && (alone ==> me == |m.threads| - 1)
      && past <= acts && (alone ==> OnlyStepsOf(acts, |past|, me))
      && 0 < |past| < |states| && states[|past| - 1] == began && me == |began.threads|
    }

    constructor (cfg: Config, alone: bool)
      requires cfg.maxBurst > 0 && cfg.window > 0
      ensures Valid() && Idle() && this.alone == alone && m.cfg == cfg && acts == []
      ensures fresh(stampList) && fresh(stampList.buf)
    {
      this.alone := alone;
      stampList := new StampBuffer();
      session, lastAuth, lastErr, heap, past := None, ZERO_TIME, "", [], [];
      began := State(cfg, [], None, [], ZERO_TIME, "", None, None, LONG_AGO + 1, [], [], [], []);
      m := State(cfg, [], None, [], ZERO_TIME, "", None, None, LONG_AGO + 1, [], [], [], []);
      acts := [];
      new;
      states := [m];
    }

    /** A read-only view of the entry; it never causes a login. */
    method Health(name: string) returns (h: IdentityHealth)
      requires Valid()
      ensures h == HealthOf(name, m)
    {
      h := IdentityHealth(name, false, ZERO_TIME, lastAuth, lastErr);
      if session.Some? {
        RunRegister(states, acts, |acts|);
        h := h.(established := true, expiresAt := heap[session.value].expiresAt);
      }
    }

    /** One action of the machine. */
    method Take(a: Action)
      requires Run(states, acts) && m == states[|acts|] && Enabled(m, a)
      modifies this`m, this`states, this`acts
      ensures Run(states, acts) && m == states[|acts|]
      ensures m == Next(old(m), a) && acts == old(acts) + [a] && states == old(states) + [m]
    {
      assert Link(m, a, Next(m, a));
      m := Next(m, a);
      states, acts := states + [m], acts + [a];
    }

    /** One step of the calling thread. */
    method StepOwn(me: Tid, answer: Answer)
      requires Run(states, acts) && m == states[|acts|] && Running(me) && OthersDone() && Ready(m, me)
      modifies this`m, this`states, this`acts
      ensures Run(states, acts) && m == states[|acts|] && Running(me) && OthersDone()
      ensures m == Advance(old(m), me, answer)
    {
      assert Enabled(m, Step(me, answer));
      Take(Step(me, answer));
    }

    /** What other threads have written becomes visible. */
    method Observe()
      requires stampList.Valid()
      modifies this`session, this`lastAuth, this`lastErr, this`heap, stampList
      ensures stampList.Valid() && FieldsMatch() && fresh(stampList.buf)
    {
      session, lastAuth, lastErr, heap := m.cur, m.lastAuth, m.lastErr, m.heap;
      stampList.Load(m.stamps);
    }

    /** The same call goes on. */
    twostate predicate Carries()
      reads this, stampList
    {
      && past == old(past) && began == old(began)
      && (stampList.buf == old(stampList.buf) || fresh(stampList.buf))
      && m.cfg == old(m.cfg)
    }

    /** Other threads take any number of steps, and time passes. */
    method Interfere(me: Tid)
      requires Valid() && Running(me)
      modifies this, stampList
      ensures Valid() && Running(me) && m.threads[me] == old(m.threads[me]) && Carries()
    {
      var n: nat := *;
      while n > 0
        invariant Run(states, acts) && m == states[|acts|] && stampList.Valid() && Running(me)
        invariant OthersDone()
        invariant m.threads[me] == old(m.threads[me]) && Carries()
      {
        var a: Action := *;
        if Enabled(m, a) && !(a.Step? && a.t == me) && !(alone && a.Start?) {
          TakeOther(a, me);
        }
        n := n - 1;
      }
      Observe();
    }

    /** A step that another thread can take brings the machine closer to the end of all calls. */
    lemma OtherCanStep(me: Tid) returns (t: Tid)
      requires Run(states, acts) && m == states[|acts|] && me < |m.threads| && !m.threads[me].pc.Done? && !Ready(m, me)
      ensures Ready(m, t) && t != me
    {
      assert Reachable(m);
      t := NoDeadlock(m, me);
    }

    lemma StepsRunOut(t: Tid, answer: Answer)
      requires Run(states, acts) && m == states[|acts|] && Ready(m, t)
      ensures TotalStepsLeft(Next(m, Step(t, answer)).threads) < TotalStepsLeft(m.threads)
    {
      RunThread(states, acts, |acts|, t);
      StepCounts(m, Step(t, answer));
      TotalAfterUpdate(m.threads, t, Next(m, Step(t, answer)).threads[t]);
    }

    /** Another thread, one that can move, takes a step. */
    method Yield(me: Tid)
      requires Run(states, acts) && m == states[|acts|] && Running(me) && !m.threads[me].pc.Done? && !Ready(m, me)
      requires OthersDone()
      modifies this`m, this`states, this`acts
      ensures Run(states, acts) && m == states[|acts|] && Running(me) && OthersDone() && m.cfg == old(m.cfg)
      ensures m.threads[me] == old(m.threads[me])
      ensures TotalStepsLeft(m.threads) < old(TotalStepsLeft(m.threads))
    {
      ghost var mover := OtherCanStep(me);
      var t :| 0 <= t < |m.threads| && Ready(m, t);
      var answer: Answer := *;
      StepsRunOut(t, answer);
      TakeOther(Step(t, answer), me);
    }

    /** One action that is not a step of the calling thread. */
    method TakeOther(a: Action, me: Tid)
      requires Run(states, acts) && m == states[|acts|] && Running(me) && OthersDone() && Enabled(m, a)
      requires !(a.Step? && a.t == me) && !(alone && a.Start?)
      modifies this`m, this`states, this`acts
      ensures Run(states, acts) && m == states[|acts|] && Running(me) && OthersDone()
      ensures m == Next(old(m), a) && m.threads[me] == old(m.threads[me]) && m.cfg == old(m.cfg)
    {
      OthersStep(m, a, me);
      Take(a);
    }

    /** Until `me` can take its next step; whoever holds the lock that it waits for can always move on. */
    method AwaitTurn(me: Tid)
      requires Valid() && Running(me) && !m.threads[me].pc.Done?
      modifies this, stampList
      ensures Valid() && Running(me) && m.threads[me] == old(m.threads[me]) && Carries()
      ensures Ready(m, me)
    {
      Interfere(me);
      while !Ready(m, me)
        invariant Run(states, acts) && m == states[|acts|] && stampList.Valid() && Running(me)
        invariant OthersDone()
        invariant m.threads[me] == old(m.threads[me]) && Carries()
        decreases TotalStepsLeft(m.threads)
      {
        Yield(me);
      }
      Observe();
    }

    /** sessMu.Lock(), at the start of a section. */
    method Enter(me: Tid)
      requires Valid() && Running(me) && Section(m.threads[me].pc) && !m.threads[me].inSection
      modifies this, stampList
      ensures Valid() && Running(me) && m.threads[me] == old(m.threads[me]).(inSection := true) && Carries()
      ensures Ready(m, me)
    {
      AwaitTurn(me);
      StepOwn(me, NO_ANSWER);
      AwaitTurn(me);
    }

    /** A goroutine calls Get or Refresh. */
    method Begin(kind: Kind) returns (me: Tid)
      requires Valid() && (alone ==> Idle())
      modifies this`m, this`states, this`acts, this`past, this`began
      ensures Valid() && Running(me) && m.cfg == old(m.cfg)
      ensures past == old(acts) + [Start(kind)] && began == old(m)
      ensures m.threads[me].kind == kind && m.threads[me].pc == Snap && !m.threads[me].inSection
    {
      me := |m.threads|;
      past, began := acts + [Start(kind)], m;
      Take(Start(kind));
    }

    method Snapshot(me: Tid) returns (sess: Option<Ptr>)
      requires Valid() && Running(me) && !m.threads[me].inSection
      requires m.threads[me].pc.Snap? || m.threads[me].pc.Resnap?
      modifies this, stampList
      ensures Valid() && Running(me) && Carries()
      ensures var th, th' := old(m.threads[me]), m.threads[me];
        && th'.kind == th.kind && !th'.inSection && th'.seen == sess
        && th'.pc == if th.pc.Snap? then (if th.kind.Get? then Check else WaitFlight)
                     else if th.kind.Get? then Recheck else if sess != th.seen then Unlock(Ok(sess)) else ReadStamp
    {
      Enter(me);
      sess := session;
      StepOwn(me, NO_ANSWER);
    }

    method LockFlight(me: Tid)
      requires Valid() && Running(me) && m.threads[me].pc.WaitFlight?
      modifies this, stampList
      ensures Valid() && Running(me) && Carries()
      ensures m.threads[me] == old(m.threads[me]).(pc := Resnap, inSection := false)
    {
      AwaitTurn(me);
      StepOwn(me, NO_ANSWER);
    }

    method UnlockFlight(me: Tid)
      requires Valid() && Running(me) && m.threads[me].pc.Unlock?
      modifies this, stampList
      ensures Valid() && Running(me) && Carries()
      ensures m.threads[me] == old(m.threads[me]).(pc := Done(old(m.threads[me].pc.result)), inSection := false)
    {
      AwaitTurn(me);
      StepOwn(me, NO_ANSWER);
    }

    /** Is there a session in hand, and is it unexpired by the present time? */
    method IsLive(me: Tid, sess: Option<Ptr>) returns (live: bool)
      requires Valid() && Running(me) && m.threads[me].seen == sess
      requires m.threads[me].pc.Check? || m.threads[me].pc.Recheck?
      modifies this, stampList
      ensures Valid() && Running(me) && Carries()
      ensures live ==> sess.Some?
      ensures var th, th' := old(m.threads[me]), m.threads[me];
        && th'.kind == th.kind && !th'.inSection && th'.seen == sess
        && th'.pc == if th.pc.Check? then (if live then Done(Ok(sess)) else WaitFlight)
                     else if live then Unlock(Ok(sess)) else if sess.None? then Call else ReadStamp
    {
      AwaitTurn(me);
      live := sess.Some? && !Expired(heap[sess.value], m.clock);
      StepOwn(me, NO_ANSWER);
    }

    /** time.Now(), as an argument of rateLimited or commit. */
    method Now(me: Tid) returns (now: Time)
      requires Valid() && Running(me) && (m.threads[me].pc.ReadStamp? || m.threads[me].pc.ReadCommit?)
      modifies this, stampList
      ensures Valid() && Running(me) && Carries()
      ensures var th := old(m.threads[me]);
        m.threads[me] == th.(now := now, inSection := false, pc := if th.pc.ReadStamp? then Limit else Commit(th.pc.made))
    {
      AwaitTurn(me);
      now := m.clock;
      StepOwn(me, NO_ANSWER);
    }

    method RateLimited(me: Tid, now: Time) returns (limited: bool)
      requires Valid() && Running(me) && m.threads[me].pc.Limit? && m.threads[me].now == now && !m.threads[me].inSection
      modifies this, stampList, stampList.buf
      ensures Valid() && Running(me) && Carries()
      ensures m.threads[me] == old(m.threads[me]).(pc := if limited then Unlock(Err(Error.RateLimited)) else Call)
    {
      Enter(me);
      limited := stampList.RateLimited(m.cfg.maxBurst, m.cfg.window, now);
      StepOwn(me, NO_ANSWER);
    }

    /** Consults the limiter at the present time. */
    method Throttle(me: Tid) returns (limited: bool)
      requires Valid() && Running(me) && m.threads[me].pc.ReadStamp? && !m.threads[me].inSection
      modifies this, stampList, stampList.buf
      ensures Valid() && Running(me) && Carries() && !m.threads[me].inSection
      ensures m.threads[me].kind == old(m.threads[me].kind) && m.threads[me].seen == old(m.threads[me].seen)
      ensures m.threads[me].pc == if limited then Unlock(Err(Error.RateLimited)) else Call
    {
      var now := Now(me);
      limited := RateLimited(me, now);
    }

    /** recipe.Establish or recipe.Refresh: a freshly allocated session, or an error text. */
    method CallRecipe(me: Tid) returns (made: Option<Ptr>, text: string)
      requires Valid() && Running(me) && m.threads[me].pc.Call?
      modifies this, stampList
      ensures Valid() && Running(me) && Carries()
      ensures m.threads[me] == old(m.threads[me]).(inSection := false, pc := if made.Some? then ReadCommit(made.value) else Fail(text))
    {
      AwaitTurn(me);
      var answer: Answer := *;
      match answer {
        case Granted(sess) => made, text := Some(|heap|), ""; heap := heap + [sess];
        case Denied(t) => made, text := None, t;
      }
      StepOwn(me, answer);
    }

    /** Publishes the new session, its login time and a cleared error in one section. */
    method CommitSession(me: Tid, p: Ptr, now: Time)
      requires Valid() && Running(me) && m.threads[me].pc == Commit(p) && m.threads[me].now == now && !m.threads[me].inSection
      modifies this, stampList
      ensures Valid() && Running(me) && Carries()
      ensures m.threads[me].kind == old(m.threads[me].kind) && !m.threads[me].inSection
      ensures m.threads[me].pc == Unlock(Ok(Some(p)))
      ensures session == Some(p) && lastAuth == now && lastErr == ""
    {
      Enter(me);
      session, lastAuth, lastErr := Some(p), now, "";
      StepOwn(me, NO_ANSWER);
    }

    method RecordFailure(me: Tid, text: string)
      requires Valid() && Running(me) && m.threads[me].pc == Fail(text) && !m.threads[me].inSection
      modifies this, stampList
      ensures Valid() && Running(me) && Carries()
      ensures var th := old(m.threads[me]);
        m.threads[me] == th.(pc := if th.kind.Refresh? && th.seen.Some? then Invalidate(text) else Unlock(Err(RecipeError(text))))
    {
      Enter(me);
      lastErr := text;
      StepOwn(me, NO_ANSWER);
    }

    /** Publishes an expired copy; the object that other goroutines hold is left as it is. */
    method PublishStale(me: Tid, before: Ptr, text: string)
      requires Valid() && Running(me) && m.threads[me].pc == Invalidate(text) && m.threads[me].seen == Some(before)
      requires !m.threads[me].inSection
      modifies this, stampList
      ensures Valid() && Running(me) && Carries()
      ensures m.threads[me] == old(m.threads[me]).(pc := Unlock(Err(RecipeError(text))))
      ensures session == Some(|heap| - 1) && before < |heap| - 1 && heap[|heap| - 1] == Stale(heap[before])
    {
      Enter(me);
      session := Some(|heap|);
      heap := heap + [Stale(heap[before])];
      StepOwn(me, NO_ANSWER);
    }

    /** Calls the recipe and, if it succeeds, commits. */
    method Login(me: Tid) returns (made: Option<Ptr>, text: string)
      requires Valid() && Running(me) && m.threads[me].pc.Call?
      modifies this, stampList
      ensures Valid() && Running(me) && Carries() && !m.threads[me].inSection
      ensures m.threads[me].kind == old(m.threads[me].kind)
      ensures made.Some? ==> m.threads[me].pc == Unlock(Ok(made))
      ensures made.None? ==> m.threads[me].pc == Fail(text) && m.threads[me].seen == old(m.threads[me].seen)
    {
      made, text := CallRecipe(me);
      if made.Some? {
        var now := Now(me);
        CommitSession(me, made.value, now);
      }
    }

    /** Thread `me`, the one that this call started, has run the whole call and got `r`; if the entry is not shared, nobody else moved. */
    twostate predicate Served(kind: Kind, me: Tid, r: Result)
      reads this, stampList
    {
      && old(acts) + [Start(kind)] <= acts && |old(acts)| < |states| && states[|old(acts)|] == old(m)
      && (alone ==> OnlyStepsOf(acts, |old(acts)| + 1, me))
      && me == |old(m.threads)| && me < |m.threads| && m.threads[me].kind == kind && m.threads[me].pc == Done(r)
      && m.cfg == old(m.cfg) && (alone ==> me == |m.threads| - 1)
      && (stampList.buf == old(stampList.buf) || fresh(stampList.buf))
    }

    lemma ServedAlone(kind: Kind, me: Tid, r: Result)
      requires Valid() && Running(me) && alone && past[|past| - 1] == Start(kind) && m.threads[me].pc == Done(r)
      ensures SoloOutcome(began, m, kind, r)
    {
      var i := |past| - 1;
      assert acts[i] == Start(kind);
      SoloServed(states, acts, i, kind);
    }

    /** The entry holds a session whose expiry is known and past. */
    ghost predicate HeldExpired()
      reads this
    {
      session.Some? && session.value < |heap| && heap[session.value].expiresAt != ZERO_TIME && heap[session.value].expiresAt < m.clock
    }

    method Get() returns (r: Result, me: Tid)
      requires Valid() && (alone ==> Idle())
      modifies this, stampList, stampList.buf
      ensures Valid() && (alone ==> Idle()) && Served(Kind.Get, me, r)
      ensures alone ==> SoloOutcome(old(m), m, Kind.Get, r)
      ensures alone && old(HeldExpired()) ==> r != Ok(old(session))
    {
      me := Begin(Kind.Get);
      r := GetFrom(me);
      if alone { ServedAlone(Kind.Get, me, r); }
    }

    method GetFrom(me: Tid) returns (r: Result)
      requires Valid() && Running(me) && m.threads[me].pc.Snap? && m.threads[me].kind.Get? && !m.threads[me].inSection
      modifies this, stampList, stampList.buf
      ensures Valid() && Running(me) && Carries()
      ensures m.threads[me].pc == Done(r) && m.threads[me].kind.Get?
    {
      var sess := Snapshot(me);
      var live := IsLive(me, sess);
      if live { return Ok(sess); }
      LockFlight(me);
      r := GetLocked(me);
      UnlockFlight(me);
    }

    method GetLocked(me: Tid) returns (r: Result)
      requires Valid() && Running(me) && m.threads[me].pc.Resnap? && m.threads[me].kind.Get? && !m.threads[me].inSection
      modifies this, stampList, stampList.buf
      ensures Valid() && Running(me) && Carries()
      ensures m.threads[me].pc == Unlock(r) && m.threads[me].kind.Get?
    {
      var cur := Snapshot(me);
      var live := IsLive(me, cur);
      if live { return Ok(cur); }
      if cur.Some? {
        var limited := Throttle(me);
        if limited { return Err(Error.RateLimited); }
      }
      var made, text := Login(me);
      if made.None? {
        RecordFailure(me, text);
        return Err(RecipeError(text));
      }
      return Ok(made);
    }

    method Refresh() returns (r: Result, me: Tid)
      requires Valid() && (alone ==> Idle())
      modifies this, stampList, stampList.buf
      ensures Valid() && (alone ==> Idle()) && Served(Kind.Refresh, me, r)
      ensures alone ==> SoloOutcome(old(m), m, Kind.Refresh, r)
    {
      me := Begin(Kind.Refresh);
      r := RefreshFrom(me);
      if alone { ServedAlone(Kind.Refresh, me, r); }
    }

    method RefreshFrom(me: Tid) returns (r: Result)
      requires Valid() && Running(me) && m.threads[me].pc.Snap? && m.threads[me].kind.Refresh? && !m.threads[me].inSection
      modifies this, stampList, stampList.buf
      ensures Valid() && Running(me) && Carries()
      ensures m.threads[me].pc == Done(r) && m.threads[me].kind.Refresh?
    {
      var before := Snapshot(me);
      LockFlight(me);
      r := RefreshLocked(me, before);
      UnlockFlight(me);
    }

    method RefreshLocked(me: Tid, before: Option<Ptr>) returns (r: Result)
      requires Valid() && Running(me) && m.threads[me].pc.Resnap? && m.threads[me].kind.Refresh? && !m.threads[me].inSection
      requires m.threads[me].seen == before
      modifies this, stampList, stampList.buf
      ensures Valid() && Running(me) && Carries()
      ensures m.threads[me].pc == Unlock(r) && m.threads[me].kind.Refresh?
    {
      var cur := Snapshot(me);
      if cur != before { return Ok(cur); }
      var limited := Throttle(me);
      if limited { return Err(Error.RateLimited); }
      var made, text := Login(me);
      if made.None? {
        RecordFailure(me, text);
        if before.Some? { PublishStale(me, before.value, text); }
        return Err(RecipeError(text));
      }
      return Ok(made);
    }
  }

  lemma {:induction false} OthersStep(s: State, a: Action, me: Tid)
    requires Enabled(s, a) && me < |s.threads| && !(a.Step? && a.t == me)
    ensures var s' := Next(s, a);
      && s'.cfg == s.cfg && |s.threads| <= |s'.threads| <= |s.threads| + (if a.Start? then 1 else 0)
      && s'.threads[me] == s.threads[me]
      && forall t :: 0 <= t < |s.threads| && s.threads[t].pc.Done? ==> s'.threads[t] == s.threads[t]
  {
  }
}
