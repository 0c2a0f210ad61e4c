/** What one call of Get or Refresh does when no other call is in progress. */
module Sequential {
  import opened Basics
  import opened Sessions
  import opened Protocol
  import opened ProtocolInvariant
  import opened ProtocolTheorems

  /** The actions from `from` on are clock ticks and steps of thread `t`. */
  ghost predicate OnlyStepsOf(acts: seq<Action>, from: nat, t: Tid) {
    forall k :: from <= k < |acts| ==> acts[k].Tick? || (acts[k].Step? && acts[k].t == t)
  }

  ghost predicate Unchanged(s: State, s': State) {
    s'.log == s.log && s'.writes == s.writes && s'.cur == s.cur
  }

  /** One recipe call, made with the session that was current. */
  ghost predicate CalledOnce(s: State, s': State, kind: Kind, reply: Reply) {
    && |s'.log| == |s.log| + 1 && s'.log[..|s.log|] == s.log
    && var e := s'.log[|s.log|]; e.kind == kind && e.arg == s.cur && e.reply == reply
  }

  /** The session that was current at `s` is unexpired at `s'`. */
  ghost predicate StillLive(s: State, s': State) {
    s.cur.Some? && s.cur.value < |s'.heap| && InTime(s'.heap[s.cur.value], s'.clock)
  }

  /**
   * What a call that ran by itself from `s` to `s'` did. Get may answer from the entry; otherwise at
   * most one recipe call is made and its outcome decides what is written: the new session, or, when
   * Refresh fails on a session, an expired copy, or nothing.
   */
  ghost predicate SoloEffect(s: State, s': State, kind: Kind, r: Result) {
    match r
    case Ok(sess) =>
      sess.Some? &&
      if kind.Get? && |s'.log| == |s.log| then Unchanged(s, s') && sess == s.cur
      else
        CalledOnce(s, s', kind, Fresh(sess.value)) && s'.writes == s.writes + [Committed(sess.value)] && s'.cur == sess
    case Err(RateLimited) => Unchanged(s, s') && (kind.Get? ==> s.cur.Some?)
    case Err(RecipeError(text)) =>
      CalledOnce(s, s', kind, Refused(text)) &&
      if kind.Refresh? && s.cur.Some? then s'.cur.Some? && s'.writes == s.writes + [Invalidated(s'.cur.value)]
      else s'.writes == s.writes && s'.cur == s.cur
  }

  /** The session that was current at `s` had an expiry, and it had passed. */
  ghost predicate PastExpiry(s: State) {
    s.cur.Some? && s.cur.value < |s.heap| && s.heap[s.cur.value].expiresAt != ZERO_TIME && s.heap[s.cur.value].expiresAt < s.clock
  }

  /**
   * Get serves a session that stays live, and from the entry it serves no other than a live one: one
   * that is past its expiry is never returned.
   */
  ghost predicate SoloCached(s: State, s': State, r: Result) {
    && (StillLive(s, s') ==> r == Ok(s.cur) && Unchanged(s, s'))
    && (r.Ok? && |s'.log| == |s.log| ==> StillLive(s, s))
    && (PastExpiry(s) ==> r != Ok(s.cur))
  }

  /** The outcome of a call that ran by itself from `s` to `s'`. */
  ghost predicate SoloOutcome(s: State, s': State, kind: Kind, r: Result) {
    SoloEffect(s, s', kind, r) && (kind.Get? ==> SoloCached(s, s', r))
  }

  /** How far the call has come. */
  ghost predicate SoloAt(s: State, s': State, t: Tid, kind: Kind) {
    && t < |s'.threads| && s'.threads[t].kind == kind
    && var th := s'.threads[t];
       && (!th.pc.Snap? && InFlight(th.pc) && !th.pc.Unlock? ==> th.seen == s.cur)
       && (th.pc.Check? || th.pc.WaitFlight? ==> th.seen == s.cur)
       && (th.pc.Check? || th.pc.Recheck? ==> kind.Get?)
       && (th.pc.ReadStamp? || th.pc.Limit? ==> kind.Refresh? || s.cur.Some?)
       && match th.pc
          case ReadCommit(p) => CalledOnce(s, s', kind, Fresh(p)) && s'.writes == s.writes
          case Commit(p) => CalledOnce(s, s', kind, Fresh(p)) && s'.writes == s.writes
          case Fail(text) => CalledOnce(s, s', kind, Refused(text)) && s'.writes == s.writes && s'.cur == s.cur
          case Invalidate(text) =>
            CalledOnce(s, s', kind, Refused(text)) && s'.writes == s.writes && kind.Refresh? && s.cur.Some?
          case Unlock(r) => SoloEffect(s, s', kind, r)
          case Done(r) => SoloEffect(s, s', kind, r)
          case _ => Unchanged(s, s')
  }

  predicate Answering(pc: PC) {
    pc.Call? || pc.ReadCommit? || pc.Commit? || pc.Fail? || pc.Invalidate?
  }

  lemma {:induction false} SoloStep(s0: State, s: State, a: Action, t: Tid, kind: Kind)
    requires SoloAt(s0, s, t, kind) && Enabled(s, a)
    requires a.Tick? || (a.Step? && a.t == t)
    ensures SoloAt(s0, Next(s, a), t, kind)
  {
    if a.Step? && Answering(s.threads[t].pc) {
      SoloAnswering(s0, s, t, a.answer, kind);
    } else if a.Step? {
      SoloDeciding(s0, s, t, a.answer, kind);
    }
  }

  lemma {:induction false} SoloAnswering(s0: State, s: State, t: Tid, answer: Answer, kind: Kind)
    requires SoloAt(s0, s, t, kind) && Ready(s, t) && Answering(s.threads[t].pc)
    ensures SoloAt(s0, Advance(s, t, answer), t, kind)
  {
  }

  lemma {:induction false} SoloDeciding(s0: State, s: State, t: Tid, answer: Answer, kind: Kind)
    requires SoloAt(s0, s, t, kind) && Ready(s, t) && !Answering(s.threads[t].pc)
    ensures SoloAt(s0, Advance(s, t, answer), t, kind)
  {
  }

  /** A call that runs by itself, whatever the clock and the recipe do, has the sequential outcome. */
  lemma {:induction false} SoloRun(states: seq<State>, acts: seq<Action>, i: nat, j: nat, kind: Kind)
    requires Run(states, acts) && i < j <= |acts| && acts[i] == Start(kind)
    requires forall k :: i < k < j ==> acts[k].Tick? || (acts[k].Step? && acts[k].t == |states[i].threads|)
    ensures SoloAt(states[i], states[j], |states[i].threads|, kind)
    decreases j
  {
    assert Link(states[j - 1], acts[j - 1], states[j]);
    if i + 1 < j {
      SoloRun(states, acts, i, j - 1, kind);
      SoloStep(states[i], states[j - 1], acts[j - 1], |states[i].threads|, kind);
    }
  }

  /** How far a Get has come if the session that was current at its start lives on. */
  ghost predicate CachedAt(s: State, s': State, t: Tid) {
    && t < |s'.threads| && s.heap <= s'.heap && s.clock <= s'.clock && (s.cur.Some? ==> s.cur.value < |s.heap|)
    && var pc := s'.threads[t].pc;
       && (StillLive(s, s') ==> Unchanged(s, s') && (pc.Snap? || pc.Check? || pc == Done(Ok(s.cur))))
       && ((pc.Unlock? || pc.Done?) && pc.result.Ok? && |s'.log| == |s.log| ==> StillLive(s, s))
  }

  lemma {:induction false} CachedStep(s0: State, s: State, a: Action, t: Tid)
    requires SoloAt(s0, s, t, Get) && CachedAt(s0, s, t) && Enabled(s, a)
    requires a.Tick? || (a.Step? && a.t == t)
    ensures CachedAt(s0, Next(s, a), t)
  {
    var s' := Next(s, a);
    if a.Step? {
      if Answering(s.threads[t].pc) {
        AnsweringGrows(s, t, a.answer);
        assert !StillLive(s0, s);
      } else {
        DecidingCached(s0, s, t, a.answer);
      }
    }
  }

  /** A step after which the recipe's answer is still to be returned, or is its commit or failure. */
  lemma {:induction false} AnsweringGrows(s: State, t: Tid, answer: Answer)
    requires Ready(s, t) && Answering(s.threads[t].pc)
    ensures var s', pc := Advance(s, t, answer), Advance(s, t, answer).threads[t].pc;
      && |s'.threads| == |s.threads| && s.heap <= s'.heap && s.clock == s'.clock && |s.log| <= |s'.log|
      && (pc.Unlock? && pc.result.Ok? ==> s.threads[t].pc.Commit?) && !pc.Done?
  {
  }

  lemma {:induction false} DecidingCached(s0: State, s: State, t: Tid, answer: Answer)
    requires SoloAt(s0, s, t, Get) && CachedAt(s0, s, t) && Ready(s, t) && !Answering(s.threads[t].pc)
    ensures CachedAt(s0, Advance(s, t, answer), t)
  {
  }

  /** A Get that runs by itself answers from the entry exactly as long as the session lives. */
  lemma {:induction false} CachedRun(states: seq<State>, acts: seq<Action>, i: nat, j: nat)
    requires Run(states, acts) && i < j <= |acts| && acts[i] == Start(Get)
    requires forall k :: i < k < j ==> acts[k].Tick? || (acts[k].Step? && acts[k].t == |states[i].threads|)
    ensures CachedAt(states[i], states[j], |states[i].threads|)
    decreases j
  {
    assert Link(states[j - 1], acts[j - 1], states[j]);
    if i + 1 < j {
      SoloRun(states, acts, i, j - 1, Get);
      CachedRun(states, acts, i, j - 1);
      CachedStep(states[i], states[j - 1], acts[j - 1], |states[i].threads|);
    } else {
      RunRegister(states, acts, i);
    }
  }

  lemma {:induction false} ExpiredNotServed(s: State, s': State, r: Result)
    requires Register(s) && Register(s') && SoloEffect(s, s', Get, r) && PastExpiry(s)
    requires r.Ok? && |s'.log| == |s.log| ==> StillLive(s, s)
    ensures r != Ok(s.cur)
  {
    if r.Ok? && |s'.log| != |s.log| {
      assert s'.writes[|s.writes|].p == r.sess.value && s'.writes[|s.writes| - 1] == s.writes[|s.writes| - 1];
    }
  }

  /** A call that has run by itself to its end has the sequential outcome. */
  lemma {:induction false} SoloServed(states: seq<State>, acts: seq<Action>, i: nat, kind: Kind)
    requires Run(states, acts) && i < |acts| && acts[i] == Start(kind) && OnlyStepsOf(acts, i + 1, |states[i].threads|)
    ensures var t, s' := |states[i].threads|, states[|acts|];
      t < |s'.threads| && (s'.threads[t].pc.Done? ==> SoloOutcome(states[i], s', kind, s'.threads[t].pc.result))
  {
    SoloRun(states, acts, i, |acts|, kind);
    if kind.Get? {
      CachedRun(states, acts, i, |acts|);
      RunRegister(states, acts, i);
      RunRegister(states, acts, |acts|);
      var s, s' := states[i], states[|acts|];
      if s'.threads[|s.threads|].pc.Done? && PastExpiry(s) { ExpiredNotServed(s, s', s'.threads[|s.threads|].pc.result); }
    }
  }

  /** A failed Refresh leaves a session that is expired at every later time, and otherwise the one it replaced. */
  lemma {:induction false} FailedRefreshLeavesStale(s: State, s': State, text: string)
    requires Register(s) && Register(s') && s.heap <= s'.heap && s.cur.Some?
    requires SoloOutcome(s, s', Refresh, Err(RecipeError(text)))
    ensures s.cur.value < |s.heap| && s'.cur.Some? && s'.cur.value < |s'.heap|
    ensures s'.heap[s'.cur.value] == Stale(s.heap[s.cur.value])
  {
    var n := |s.writes|;
    assert CopyOf(s', n);
    assert s'.writes[n - 1] == s.writes[n - 1];
  }
}
