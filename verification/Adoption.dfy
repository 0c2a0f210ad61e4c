/** Runs in which callers of Get and Refresh are handed a dead session beside a nil error (internal/store/store.go). */
module Adoption {
  import opened Basics
  import opened Sessions
  import opened Protocol
  import opened ProtocolTheorems
  import opened Serving
  import Limiter

  /** Some run passes through `s` and ends in `s'`. */
  ghost predicate Leads(s: State, s': State) {
    exists states, acts, i :: PassesThrough(states, acts, i, s, s')
  }

  ghost predicate PassesThrough(states: seq<State>, acts: seq<Action>, i: nat, s: State, s': State) {
    Run(states, acts) && i <= |acts| && states[i] == s && states[|acts|] == s'
  }

  lemma {:induction false} LeadsToItself(s: State)
    ensures Reachable(s) <==> Leads(s, s)
  {
    if Reachable(s) {
      var states, acts :| Run(states, acts) && states[|acts|] == s;
      assert PassesThrough(states, acts, |acts|, s, s);
    }
  }

  lemma {:induction false} OneMoreAction(s0: State, s: State, a: Action)
    requires Leads(s0, s) && Enabled(s, a)
    ensures Leads(s0, Next(s, a)) && Reachable(Next(s, a))
  {
    var states, acts, n :| PassesThrough(states, acts, n, s0, s);
    var states', acts' := states + [Next(s, a)], acts + [a];
    forall i | 0 <= i < |acts'| ensures Link(states'[i], acts'[i], states'[i + 1]) {
      if i < |acts| { assert Link(states[i], acts[i], states[i + 1]); }
    }
    assert Run(states', acts') && states'[|acts'|] == Next(s, a);
    assert PassesThrough(states', acts', n, s0, Next(s, a));
  }

  /** One operation of thread `t`, entering its section first if it needs one. */
  function Atomic(s: State, t: Tid, answer: Answer): State
    requires Ready(s, t)
  {
    var (s', th') := Effect(s, t, s.threads[t], answer);
    s'.(threads := s.threads[t := th'])
  }

  /** Between two operations of the threads. */
  predicate Between(s: State, t: Tid) {
    s.sect.None? && Ready(s, t) && !s.threads[t].inSection
  }

  lemma {:induction false} AtomicLeads(s0: State, s: State, t: Tid, answer: Answer)
    requires Leads(s0, s) && Between(s, t)
    ensures Leads(s0, Atomic(s, t, answer)) && Reachable(Atomic(s, t, answer))
  {
    var s1 := Advance(s, t, answer);
    OneMoreAction(s0, s, Step(t, answer));
    assert s1 == Next(s, Step(t, answer));
    if Section(s.threads[t].pc) {
      OneMoreAction(s0, s1, Step(t, answer));
      assert Next(s1, Step(t, answer)) == Advance(s1, t, answer) == Atomic(s, t, answer) by {
        assert s1.threads[t] == s.threads[t].(inSection := true);
      }
    } else {
      assert s1 == Atomic(s, t, answer);
    }
  }

  lemma {:induction false} GoOn(s0: State, s: State, t: Tid, answer: Answer) returns (s': State)
    requires Leads(s0, s) && Between(s, t)
    ensures s' == Atomic(s, t, answer) && Leads(s0, s')
  {
    AtomicLeads(s0, s, t, answer);
    s' := Atomic(s, t, answer);
  }

  lemma {:induction false} Go(s: State, t: Tid, answer: Answer) returns (s': State)
    requires Reachable(s) && Between(s, t)
    ensures s' == Atomic(s, t, answer) && Reachable(s')
  {
    LeadsToItself(s);
    AtomicLeads(s, s, t, answer);
    s' := Atomic(s, t, answer);
  }

  lemma {:induction false} Begin(s: State, kind: Kind) returns (s': State)
    requires Reachable(s)
    ensures s' == Next(s, Start(kind)) && Reachable(s')
  {
    LeadsToItself(s);
    OneMoreAction(s, s, Start(kind));
    s' := Next(s, Start(kind));
  }

  /** The first Get of an entry logs in. */
  lemma {:induction false} FirstLogin(cfg: Config, sess: Session) returns (s: State)
    requires cfg.maxBurst > 0 && cfg.window > 0
    ensures Reachable(s) && s.cfg == cfg && s.sect == None && s.flight == None && s.stamps == [] && |s.threads| == 1
    ensures s.heap == [sess] && s.cur == Some(0) && s.clock > LONG_AGO
    ensures s.threads[0].kind == Get && s.threads[0].pc == Done(Ok(Some(0))) && |s.log| == 1
  {
    s := State(cfg, [], None, [], ZERO_TIME, "", None, None, LONG_AGO + 1, [], [], [], []);
    assert Run([s], []);
    s := Begin(s, Get);
    assert s.threads[0] == Thread(Get, Snap, false, None, LONG_AGO + 1, 0);
    s := Go(s, 0, NO_ANSWER);
    s := Go(s, 0, NO_ANSWER);
    s := Go(s, 0, NO_ANSWER);
    s := Go(s, 0, NO_ANSWER);
    s := Go(s, 0, NO_ANSWER);
    assert s.threads[0].pc == Call && s.heap == [];
    s := LogIn(s, sess);
  }

  lemma {:induction false} LogIn(s0: State, sess: Session) returns (s: State)
    requires Reachable(s0) && Between(s0, 0) && s0.threads[0].kind == Get && s0.threads[0].pc == Call && s0.heap == [] && s0.cur == None && s0.log == []
    requires s0.stamps == [] && |s0.threads| == 1 && s0.clock > LONG_AGO
    ensures Reachable(s) && s.cfg == s0.cfg && s.sect == None && s.flight == None && s.stamps == [] && |s.threads| == 1
    ensures s.heap == [sess] && s.cur == Some(0) && s.clock > LONG_AGO
    ensures s.threads[0].kind == Get && s.threads[0].pc == Done(Ok(Some(0))) && |s.log| == 1
  {
    s := Go(s0, 0, Granted(sess));
    s := Go(s, 0, NO_ANSWER);
    s := Go(s, 0, NO_ANSWER);
    s := Go(s, 0, NO_ANSWER);
  }

  /**
   * A recipe that grants a session which has expired already: the Get that called it returns that
   * session, and at no point inside the call was it live.
   */
  lemma {:induction false} GetCanReturnExpired(cfg: Config, sess: Session) returns (states: seq<State>, acts: seq<Action>)
    requires cfg.maxBurst > 0 && cfg.window > 0
    requires sess.expiresAt != ZERO_TIME && sess.expiresAt <= LONG_AGO
    ensures Run(states, acts)
    ensures var s := states[|acts|];
      s.cfg == cfg && |s.threads| == 1 && s.threads[0].kind == Get && s.threads[0].pc == Done(Ok(Some(0))) && s.heap == [sess]
    ensures !LiveInside(states, 0, Some(0), |acts|)
  {
    var s := FirstLogin(cfg, sess);
    states, acts :| Run(states, acts) && states[|acts|] == s;
    forall k | 0 <= k <= |acts| ensures !LiveDuring(states, 0, Some(0), k) {
      RunGrows(states, acts, k, |acts|);
      RunClock(states, acts, k);
    }
  }

  /** Two callers of Refresh take their snapshots before either has the flight lock. */
  lemma {:induction false} TwoSnapshots(s0: State) returns (s: State)
    requires Reachable(s0) && s0.sect == None && s0.flight == None && |s0.threads| == 1
    requires s0.heap != [] && s0.cur == Some(0)
    ensures Reachable(s) && s.sect == None && s.flight == None && |s.threads| == 3
    ensures s.cfg == s0.cfg && s.heap == s0.heap && s.cur == Some(0) && s.stamps == s0.stamps && s.clock == s0.clock
    ensures Waiting(s.threads[1]) && Waiting(s.threads[2])
  {
    s := Begin(s0, Refresh);
    s := Begin(s, Refresh);
    s := Go(s, 1, NO_ANSWER);
    s := Go(s, 2, NO_ANSWER);
  }

  predicate Waiting(th: Thread) {
    th.kind == Refresh && th.pc == WaitFlight && th.seen == Some(0) && !th.inSection
  }

  /** The two callers of Refresh while the second waits. */
  predicate Second(s: State, sess: Session) {
    && s.sect == None && |s.threads| == 3 && s.clock > LONG_AGO && Waiting(s.threads[2])
    && s.heap != [] && s.heap[0] == sess && s.cur.Some? && s.cur.value == |s.heap| - 1
  }

  /** The first caller is let through by the limiter. */
  lemma {:induction false} AdmitFirst(s0: State, sess: Session) returns (s: State)
    requires Reachable(s0) && Second(s0, sess) && s0.flight == None && s0.stamps == [] && s0.cfg.maxBurst > 0
    requires |s0.heap| == 1 && Waiting(s0.threads[1])
    ensures Reachable(s) && Second(s, sess) && s.cfg == s0.cfg && |s.heap| == 1
    ensures s.threads[1] == s0.threads[1].(pc := Call, now := s.threads[1].now, ver := s.threads[1].ver)
  {
    s := Go(s0, 1, NO_ANSWER);
    s := Go(s, 1, NO_ANSWER);
    s := Go(s, 1, NO_ANSWER);
    assert Limiter.Prune([], s.threads[1].now - s.cfg.window) == [];
    s := Go(s, 1, NO_ANSWER);
  }

  /** It is refused by the recipe and publishes the expired copy. */
  lemma {:induction false} FailFirst(s0: State, sess: Session, text: string) returns (s: State)
    requires Reachable(s0) && Second(s0, sess) && |s0.heap| == 1
    requires var th := s0.threads[1]; th.kind == Refresh && th.pc == Call && th.seen == Some(0) && !th.inSection
    ensures Reachable(s) && Second(s, sess) && s.cfg == s0.cfg && s.flight == None
    ensures |s.heap| == 2 && s.heap[1] == Stale(sess)
  {
    s := Go(s0, 1, Denied(text));
    s := Go(s, 1, NO_ANSWER);
    s := PublishCopy(s, sess, text);
  }

  lemma {:induction false} PublishCopy(s0: State, sess: Session, text: string) returns (s: State)
    requires Reachable(s0) && Second(s0, sess) && |s0.heap| == 1
    requires var th := s0.threads[1]; th.pc == Invalidate(text) && th.seen == Some(0) && !th.inSection
    ensures Reachable(s) && Second(s, sess) && s.cfg == s0.cfg && s.flight == None
    ensures |s.heap| == 2 && s.heap[1] == Stale(sess)
  {
    s := Go(s0, 1, NO_ANSWER);
    s := Go(s, 1, NO_ANSWER);
  }

  /**
   * Whatever the configuration and the first session, there is a run in which a caller of Refresh
   * is handed an expired session and no error.
   */
  lemma {:induction false} RefreshCanAdoptDead(cfg: Config, sess: Session, text: string) returns (s: State)
    requires cfg.maxBurst > 0 && cfg.window > 0
    ensures Reachable(s) && s.cfg == cfg && |s.heap| == 2 && s.heap[0] == sess && |s.threads| == 3
    ensures s.threads[2].kind == Refresh && s.threads[2].pc == Done(Ok(Some(1)))
    ensures !InTime(s.heap[1], s.clock)
  {
    s := FirstLogin(cfg, sess);
    s := TwoSnapshots(s);
    s := AdmitFirst(s, sess);
    s := FailFirst(s, sess, text);
    s := Go(s, 2, NO_ANSWER);
    s := Go(s, 2, NO_ANSWER);
    s := Go(s, 2, NO_ANSWER);
  }
}
