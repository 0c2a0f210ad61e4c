/** Which concurrent calls of Refresh share one recipe call (internal/store/store.go). */
module Coalescing {
  import opened Basics
  import opened Sessions
  import opened Protocol
  import opened ProtocolInvariant
  import opened ProtocolTheorems
  import opened Adoption
  import Limiter

  /** Action `i` is a snapshot that thread `t`, a Refresh, takes: the first one at Snap, the second at Resnap. */
  ghost predicate Looks(states: seq<State>, acts: seq<Action>, i: nat, t: Tid, pc: PC)
    requires |states| == |acts| + 1
  {
    && i < |acts| && acts[i].Step? && acts[i].t == t && t < |states[i].threads|
    && states[i].threads[t].kind.Refresh? && states[i].threads[t].inSection && states[i].threads[t].pc == pc
  }

  /** Action `c` is the recipe call of thread `t`. */
  ghost predicate Calls(states: seq<State>, acts: seq<Action>, c: nat, t: Tid)
    requires |states| == |acts| + 1
  {
    c < |acts| && acts[c].Step? && acts[c].t == t && t < |states[c].threads| && states[c].threads[t].pc.Call?
  }

  // ---- The version that a Refresh works on ----

  /** Up to its recipe call the Refresh works on version `ver` of the session field. */
  predicate WorksOn(th: Thread, ver: nat) {
    && th.kind.Refresh? && !th.pc.Snap?
    && (th.pc.WaitFlight? || th.pc.Resnap? || th.pc.ReadStamp? || th.pc.Limit? || th.pc.Call? ==> th.ver == ver)
  }

  lemma {:induction false} SameVersion(s: State, ver: nat)
    requires Register(s) && ver <= |s.writes| && s.cur == PtrAt(s.writes, ver)
    ensures ver == |s.writes|
  {
  }

  lemma {:induction false} WorksOnStep(s: State, a: Action, t: Tid, ver: nat)
    requires Enabled(s, a) && t < |s.threads| && ThreadOk(s, t) && WorksOn(s.threads[t], ver)
    requires s.threads[t].seen == s.cur ==> s.threads[t].ver == |s.writes|
    ensures t < |Next(s, a).threads| && WorksOn(Next(s, a).threads[t], ver)
  {
  }

  lemma {:induction false} WorksOnFirst(states: seq<State>, acts: seq<Action>, i: nat, k: nat, t: Tid)
    requires Run(states, acts) && Looks(states, acts, i, t, Snap) && i < k < |states|
    ensures t < |states[k].threads| && WorksOn(states[k].threads[t], |states[i].writes|)
    decreases k
  {
    assert Link(states[k - 1], acts[k - 1], states[k]);
    if i < k - 1 {
      WorksOnFirst(states, acts, i, k - 1, t);
      RunThread(states, acts, k - 1, t);
      var s, th := states[k - 1], states[k - 1].threads[t];
      if th.seen == s.cur { SameVersion(s, th.ver); }
      WorksOnStep(s, acts[k - 1], t, |states[i].writes|);
    }
  }

  /**
   * The second look. A Refresh goes on to the limiter if and only if the session field has not been
   * written between its two snapshots; otherwise it adopts the current session.
   */
  lemma {:induction false} SecondLook(states: seq<State>, acts: seq<Action>, i: nat, j: nat, t: Tid)
    requires Run(states, acts) && i < j && Looks(states, acts, i, t, Snap) && Looks(states, acts, j, t, Resnap)
    ensures t < |states[j + 1].threads|
    ensures states[j + 1].threads[t].pc == if states[j].writes == states[i].writes then ReadStamp else Unlock(Ok(states[j].cur))
  {
    WorksOnFirst(states, acts, i, j, t);
    RunThread(states, acts, j, t);
    RunGrows(states, acts, i, j);
    assert Link(states[j], acts[j], states[j + 1]);
    var s, th := states[j], states[j].threads[t];
    if th.seen == s.cur { SameVersion(s, th.ver); }
  }

  // ---- One call for all who looked before the write ----

  lemma {:induction false} CallLogged(states: seq<State>, acts: seq<Action>, i: nat, c: nat, t: Tid)
    requires Run(states, acts) && i < c && Looks(states, acts, i, t, Snap) && Calls(states, acts, c, t)
    ensures var n := |states[c].log|;
      |states[c + 1].log| == n + 1 && states[c + 1].log[n].kind.Refresh? && states[c + 1].log[n].ver == |states[i].writes|
  {
    WorksOnFirst(states, acts, i, c, t);
    assert Link(states[c], acts[c], states[c + 1]);
  }

  /**
   * All calls of Refresh that take their first snapshot of a session before it is replaced cause one
   * recipe call between them, however many they are and however long they wait.
   */
  lemma {:induction false} OneCallForAll(states: seq<State>, acts: seq<Action>, i1: nat, c1: nat, t1: Tid, i2: nat, c2: nat, t2: Tid)
    requires Run(states, acts) && i1 < c1 && i2 < c2
    requires Looks(states, acts, i1, t1, Snap) && Looks(states, acts, i2, t2, Snap)
    requires states[i1].writes == states[i2].writes != []
    requires Calls(states, acts, c1, t1) && Calls(states, acts, c2, t2)
    ensures c1 == c2 && t1 == t2
  {
    if c1 < c2 {
      TwoCallsDiffer(states, acts, i1, c1, t1, i2, c2, t2);
    } else if c2 < c1 {
      TwoCallsDiffer(states, acts, i2, c2, t2, i1, c1, t1);
    }
  }

  lemma {:induction false} TwoCallsDiffer(states: seq<State>, acts: seq<Action>, i1: nat, c1: nat, t1: Tid, i2: nat, c2: nat, t2: Tid)
    requires Run(states, acts) && i1 < c1 < c2 && i2 < c2
    requires Looks(states, acts, i1, t1, Snap) && Looks(states, acts, i2, t2, Snap)
    requires Calls(states, acts, c1, t1) && Calls(states, acts, c2, t2)
    ensures states[i1].writes == [] || |states[i1].writes| < |states[i2].writes|
  {
    CallLogged(states, acts, i1, c1, t1);
    CallLogged(states, acts, i2, c2, t2);
    RunGrows(states, acts, c1 + 1, c2);
    RunGrows(states, acts, c1 + 1, c2 + 1);
    LaterRefreshNewer(states, acts, c2 + 1, |states[c1].log|, |states[c2].log|);
  }

  lemma {:induction false} LaterRefreshNewer(states: seq<State>, acts: seq<Action>, k: nat, m: nat, n: nat)
    requires Run(states, acts) && k < |states| && m < n < |states[k].log|
    requires states[k].log[m].kind.Refresh? && states[k].log[n].kind.Refresh?
    ensures states[k].log[m].ver == 0 || states[k].log[m].ver < states[k].log[n].ver
  {
    RunInv(states, acts, k);
    assert EventOk(states[k], m);
    LaterCallsSeeTheWrite(states[k], m, n);
  }

  // ---- A Refresh that begins later ----

  /** Nobody is at work on an established entry, and the limiter would admit a refresh now. */
  predicate Open(s: State) {
    && s.sect == None && s.flight == None && s.cur.Some? && s.cur.value < |s.heap|
    && |Limiter.Prune(s.stamps, s.clock - s.cfg.window)| < s.cfg.maxBurst
  }

  /** From `s0` to `s` a further Refresh has run by itself and has been granted `sess`. */
  predicate RefreshedBy(s0: State, s: State, sess: Session) {
    && s.cfg == s0.cfg && s.clock == s0.clock && s.sect == None && s.flight == None
    && s.heap == s0.heap + [sess] && s.cur == Some(|s0.heap|)
    && s.stamps == Limiter.Prune(s0.stamps, s0.clock - s0.cfg.window) + [s0.clock]
    && |s.log| == |s0.log| + 1 && s.log[..|s0.log|] == s0.log
    && var e := s.log[|s0.log|]; e.kind == Refresh && e.arg == s0.cur && e.reply == Fresh(|s0.heap|)
  }

  lemma {:induction false} Admitted(past: State, s0: State) returns (s: State)
    requires Leads(past, s0) && Open(s0)
    ensures Leads(past, s) && |s.threads| == |s0.threads| + 1
    ensures s == s0.(flight := Some(|s0.threads|), threads := s.threads, admitted := s.admitted,
                     stamps := Limiter.Prune(s0.stamps, s0.clock - s0.cfg.window) + [s0.clock])
    ensures var th := s.threads[|s0.threads|]; th.kind == Refresh && th.pc == Call && th.seen == s0.cur && !th.inSection
  {
    var t := |s0.threads|;
    s := LookedTwice(past, s0);
    s := GoOn(past, s, t, NO_ANSWER);
    s := GoOn(past, s, t, NO_ANSWER);
  }

  lemma {:induction false} LookedTwice(past: State, s0: State) returns (s: State)
    requires Leads(past, s0) && Open(s0)
    ensures Leads(past, s) && |s.threads| == |s0.threads| + 1
    ensures s == s0.(flight := Some(|s0.threads|), threads := s.threads)
    ensures var th := s.threads[|s0.threads|]; th.kind == Refresh && th.pc == ReadStamp && th.seen == s0.cur && !th.inSection
  {
    var t := |s0.threads|;
    OneMoreAction(past, s0, Start(Refresh));
    s := Next(s0, Start(Refresh));
    s := GoOn(past, s, t, NO_ANSWER);
    s := GoOn(past, s, t, NO_ANSWER);
    s := GoOn(past, s, t, NO_ANSWER);
  }

  lemma {:induction false} RefreshOnce(past: State, s0: State, sess: Session) returns (s: State)
    requires Leads(past, s0) && Open(s0)
    ensures Leads(past, s) && RefreshedBy(s0, s, sess)
  {
    var t := |s0.threads|;
    s := Admitted(past, s0);
    s := GoOn(past, s, t, Granted(sess));
    s := GoOn(past, s, t, NO_ANSWER);
    s := GoOn(past, s, t, NO_ANSWER);
    s := GoOn(past, s, t, NO_ANSWER);
  }

  /**
   * Two callers that were handed the same session, and both find it dead, log in twice if the second
   * calls Refresh after the first has committed: whatever the configuration, there is a run in which
   * every Get had returned object 0 by `s0`, no Refresh had begun, and two Refresh calls follow.
   */
  lemma {:induction false} LateRefreshLogsInAgain(cfg: Config, sess0: Session, sess1: Session, sess2: Session) returns (s0: State, s: State)
    requires cfg.maxBurst > 0 && cfg.window > 0
    ensures Leads(s0, s) && s0.cfg == cfg && s0.heap == [sess0] && |s0.log| == 1
    ensures |s0.threads| == 1 && s0.threads[0].kind == Get && s0.threads[0].pc == Done(Ok(Some(0)))
    ensures |s.log| == 3 && s.log[1].kind == Refresh && s.log[1].arg == Some(0) && s.log[1].reply == Fresh(1)
    ensures s.log[2].kind == Refresh && s.log[2].arg == Some(1) && s.log[2].reply == Fresh(2)
  {
    s0 := FirstLogin(cfg, sess0);
    LeadsToItself(s0);
    var s1 := RefreshOnce(s0, s0, sess1);
    var s2 := WaitWindow(s0, s1);
    s := RefreshOnce(s0, s2, sess2);
  }

  lemma {:induction false} WaitWindow(past: State, s: State) returns (s': State)
    requires Leads(past, s) && s.cfg.maxBurst > 0 && s.cfg.window > 0
    requires s.sect == None && s.flight == None && s.cur.Some? && s.cur.value < |s.heap| && s.stamps == [s.clock]
    ensures Leads(past, s') && Open(s') && s' == s.(clock := s.clock + s.cfg.window)
  {
    OneMoreAction(past, s, Tick(s.clock + s.cfg.window));
    s' := Next(s, Tick(s.clock + s.cfg.window));
    assert s.stamps[..0] == [];
  }
}
