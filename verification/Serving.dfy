/** Which session the callers of Get and Refresh are handed, over whole runs of the store protocol (internal/store/store.go). */
module Serving {
  import opened Basics
  import opened Sessions
  import opened Protocol
  import opened ProtocolInvariant
  import opened ProtocolTheorems

  // ---- Is what Get returns live? ----

  /** Action `c` is a recipe call of thread `t` that grants a session. */
  ghost predicate Grants(states: seq<State>, acts: seq<Action>, c: nat, t: Tid)
    requires |states| == |acts| + 1
  {
    && c < |acts| && acts[c].Step? && acts[c].t == t && acts[c].answer.Granted?
    && t < |states[c].threads| && states[c].threads[t].pc.Call?
  }

  /** No recipe call of thread `t` among the first `n` actions grants a session that has expired already. */
  ghost predicate GrantsLive(states: seq<State>, acts: seq<Action>, t: Tid, n: nat)
    requires |states| == |acts| + 1
  {
    forall c {:trigger Grants(states, acts, c, t)} ::
      0 <= c < n && Grants(states, acts, c, t) ==> InTime(acts[c].answer.sess, states[c].clock)
  }

  /** At point `k` the call of `t` is under way and `sess` is an unexpired session. */
  ghost predicate LiveDuring(states: seq<State>, t: Tid, sess: Option<Ptr>, k: nat) {
    && k < |states| && t < |states[k].threads| && !states[k].threads[t].pc.Done?
    && sess.Some? && sess.value < |states[k].heap| && InTime(states[k].heap[sess.value], states[k].clock)
  }

  ghost predicate LiveInside(states: seq<State>, t: Tid, sess: Option<Ptr>, j: nat) {
    exists k :: 0 <= k <= j && LiveDuring(states, t, sess, k)
  }

  /** The thread has been granted the session `p` and has yet to return it, or has returned it. */
  predicate Brings(pc: PC, p: Ptr) {
    pc == ReadCommit(p) || pc == Commit(p) || pc == Unlock(Ok(Some(p))) || pc == Done(Ok(Some(p)))
  }

  lemma {:induction false} GrantMade(s: State, t: Tid, sess: Session)
    requires Ready(s, t) && s.threads[t].pc.Call?
    ensures var s' := Advance(s, t, Granted(sess));
      && t < |s'.threads| && Brings(s'.threads[t].pc, |s.heap|) && !s'.threads[t].pc.Done?
      && s'.heap == s.heap + [sess] && s'.clock == s.clock
  {
  }

  lemma {:induction false} GrantBrought(s: State, a: Action, t: Tid, p: Ptr)
    requires Enabled(s, a) && t < |s.threads| && Brings(s.threads[t].pc, p)
    ensures t < |Next(s, a).threads| && Brings(Next(s, a).threads[t].pc, p)
  {
  }

  /** A granted session stays in the heap, and it is what the call returns. */
  lemma {:induction false} GrantIsResult(states: seq<State>, acts: seq<Action>, c: nat, j: nat, t: Tid)
    requires Run(states, acts) && Grants(states, acts, c, t) && c < j < |states|
    ensures var p := |states[c].heap|;
      && t < |states[j].threads| && Brings(states[j].threads[t].pc, p)
      && p < |states[j].heap| && states[j].heap[p] == acts[c].answer.sess && states[j].clock >= states[c].clock
    decreases j
  {
    assert Link(states[j - 1], acts[j - 1], states[j]);
    if c == j - 1 {
      GrantMade(states[c], t, acts[c].answer.sess);
    } else {
      GrantIsResult(states, acts, c, j - 1, t);
      GrantBrought(states[j - 1], acts[j - 1], t, |states[c].heap|);
      RunStepGrows(states, acts, j - 1);
    }
  }

  /** A session about to be committed was granted by a call of this very thread. */
  lemma {:induction false} MadeByCall(states: seq<State>, acts: seq<Action>, j: nat, t: Tid, p: Ptr) returns (c: nat)
    requires Run(states, acts) && j < |states| && t < |states[j].threads|
    requires states[j].threads[t].pc == ReadCommit(p) || states[j].threads[t].pc == Commit(p)
    ensures c < j && Grants(states, acts, c, t) && p == |states[c].heap|
  {
    assert j > 0;
    var s, a := states[j - 1], acts[j - 1];
    assert Link(s, a, states[j]);
    MadeJustNow(s, a, t, p);
    if s.threads[t].pc.Call? {
      c := j - 1;
    } else {
      c := MadeByCall(states, acts, j - 1, t, p);
    }
  }

  lemma {:induction false} MadeJustNow(s: State, a: Action, t: Tid, p: Ptr)
    requires Enabled(s, a) && t < |Next(s, a).threads|
    requires var pc := Next(s, a).threads[t].pc; pc == ReadCommit(p) || pc == Commit(p)
    ensures t < |s.threads|
    ensures var pc := s.threads[t].pc;
      pc == ReadCommit(p) || pc == Commit(p) || (pc.Call? && a.Step? && a.t == t && a.answer.Granted? && p == |s.heap|)
  {
  }

  /**
   * Get returns a session that was live at some point inside the call if and only if no recipe call
   * of its own granted one that had expired already. A session served from the entry always was.
   */
  lemma {:induction false} GetLiveExactly(states: seq<State>, acts: seq<Action>, j: nat, t: Tid)
    requires Run(states, acts) && j < |states| && t < |states[j].threads|
    requires var th := states[j].threads[t]; th.kind.Get? && th.pc.Done? && th.pc.result.Ok?
    ensures LiveInside(states, t, states[j].threads[t].pc.result.sess, j) <==> GrantsLive(states, acts, t, j)
  {
    var sess := states[j].threads[t].pc.result.sess;
    if LiveInside(states, t, sess, j) {
      var k :| 0 <= k <= j && LiveDuring(states, t, sess, k);
      forall c | 0 <= c < j && Grants(states, acts, c, t) ensures InTime(acts[c].answer.sess, states[c].clock) {
        LiveSinceGrant(states, acts, c, k, j, t);
      }
    }
    if GrantsLive(states, acts, t, j) {
      var k := GetServesLive(states, acts, j, t);
      if !InTime(states[k].heap[sess.value], states[k].clock) {
        var c := MadeByCall(states, acts, k, t, sess.value);
        LiveWhenGranted(states, acts, c, t);
        assert LiveDuring(states, t, sess, c + 1);
      } else {
        assert LiveDuring(states, t, sess, k);
      }
    }
  }

  lemma {:induction false} LiveWhenGranted(states: seq<State>, acts: seq<Action>, c: nat, t: Tid)
    requires Run(states, acts) && Grants(states, acts, c, t) && InTime(acts[c].answer.sess, states[c].clock)
    ensures LiveDuring(states, t, Some(|states[c].heap|), c + 1)
  {
    assert Link(states[c], acts[c], states[c + 1]);
    GrantMade(states[c], t, acts[c].answer.sess);
  }

  lemma {:induction false} LiveSinceGrant(states: seq<State>, acts: seq<Action>, c: nat, k: nat, j: nat, t: Tid)
    requires Run(states, acts) && Grants(states, acts, c, t) && c < j < |states| && k <= j
    requires t < |states[j].threads| && states[j].threads[t].pc.Done? && states[j].threads[t].pc.result.Ok?
    requires LiveDuring(states, t, states[j].threads[t].pc.result.sess, k)
    ensures InTime(acts[c].answer.sess, states[c].clock)
  {
    GrantIsResult(states, acts, c, j, t);
    if k <= c {
      RunGrows(states, acts, k, c);
    } else {
      GrantIsResult(states, acts, c, k, t);
    }
  }

  /**
   * In arithmetic: some time inside the call, what Get returns named no expiry or the clock had not
   * passed it, unless the recipe had just made it for this very call.
   */
  lemma {:induction false} GetServesUnexpired(states: seq<State>, acts: seq<Action>, j: nat, t: Tid) returns (k: nat, p: Ptr)
    requires Run(states, acts) && j < |states| && t < |states[j].threads|
    requires var th := states[j].threads[t]; th.kind.Get? && th.pc.Done? && th.pc.result.Ok?
    ensures states[j].threads[t].pc.result == Ok(Some(p))
    ensures k < j && t < |states[k].threads| && !states[k].threads[t].pc.Done? && p < |states[k].heap|
    ensures || states[k].heap[p].expiresAt == ZERO_TIME || states[k].clock <= states[k].heap[p].expiresAt
            || states[k].threads[t].pc == Commit(p)
  {
    k := GetServesLive(states, acts, j, t);
    p := states[j].threads[t].pc.result.sess.value;
  }

  // ---- The cached session is served ----

  /** Thread `t` has yet to look, holds the current session, or has returned it; it never waits for a login. */
  ghost predicate ServedFromEntry(s: State, t: Tid, sess: Option<Ptr>) {
    t < |s.threads| ==>
      var th := s.threads[t]; th.kind.Get? ==> th.pc.Snap? || (th.pc.Check? && th.seen == sess) || th.pc == Done(Ok(sess))
  }

  lemma {:induction false} ServedStep(s: State, a: Action, t: Tid, sess: Option<Ptr>)
    requires Enabled(s, a) && ServedFromEntry(s, t, sess) && s.cur == sess
    requires sess.Some? && sess.value < |s.heap| && InTime(s.heap[sess.value], s.clock)
    ensures ServedFromEntry(Next(s, a), t, sess)
  {
  }

  /** A lifetime that nobody cuts short: from i to j the session does not expire and Refresh calls no recipe. */
  ghost predicate Undisturbed(states: seq<State>, i: nat, j: nat)
    requires i <= j < |states|
  {
    && states[i].cur.Some? && !Pending(Holder(states[i])) && states[i].cur.value < |states[i].heap|
    && InTime(states[i].heap[states[i].cur.value], states[j].clock)
    && forall k :: |states[i].log| <= k < |states[j].log| ==> states[j].log[k].kind.Get?
  }

  lemma {:induction false} UndisturbedBefore(states: seq<State>, acts: seq<Action>, i: nat, k: nat, j: nat)
    requires Run(states, acts) && i <= k <= j < |states| && Undisturbed(states, i, j)
    ensures Undisturbed(states, i, k)
  {
    RunGrows(states, acts, i, k);
    RunGrows(states, acts, k, j);
    forall n | |states[i].log| <= n < |states[k].log| ensures states[k].log[n].kind.Get? {
      assert states[k].log[n] == states[j].log[n];
    }
  }

  /** Until then the entry keeps the session. */
  lemma {:induction false} EntryKept(states: seq<State>, acts: seq<Action>, i: nat, j: nat)
    requires Run(states, acts) && i <= j < |states| && Undisturbed(states, i, j)
    ensures states[j].log == states[i].log && states[j].cur == states[i].cur
    ensures states[i].cur.value < |states[j].heap| && InTime(states[j].heap[states[i].cur.value], states[j].clock)
  {
    CachedUntilExpiry(states, acts, i, j);
    RunGrows(states, acts, i, j);
    RunWrites(states, acts, i);
    RunWrites(states, acts, j);
    RunRegister(states, acts, i);
    RunRegister(states, acts, j);
    assert states[j].writes == states[i].writes;
  }

  lemma {:induction false} RunWrites(states: seq<State>, acts: seq<Action>, i: nat)
    requires Run(states, acts) && i < |states|
    ensures |states[i].writes| + (if Pending(Holder(states[i])) then 1 else 0) == WriteCount(states[i].log)
  {
    RunInv(states, acts, i);
  }

  /**
   * Get serves the cached session. While it has not expired and Refresh calls no recipe, every Get
   * that looks at the entry from then on returns that very session, without an error, without
   * waiting for the flight lock and without a recipe call.
   */
  lemma {:induction false} CachedSessionServed(states: seq<State>, acts: seq<Action>, i: nat, j: nat, t: Tid)
    requires Run(states, acts) && i <= j < |states| && Undisturbed(states, i, j)
    requires t < |states[i].threads| ==> states[i].threads[t].pc.Snap?
    ensures states[j].log == states[i].log && ServedFromEntry(states[j], t, states[i].cur)
    decreases j
  {
    EntryKept(states, acts, i, j);
    if i < j {
      UndisturbedBefore(states, acts, i, j - 1, j);
      CachedSessionServed(states, acts, i, j - 1, t);
      EntryKept(states, acts, i, j - 1);
      assert Link(states[j - 1], acts[j - 1], states[j]);
      ServedStep(states[j - 1], acts[j - 1], t, states[i].cur);
    }
  }

  // ---- A refresh replaces the session ----

  /** What a Refresh returns without an error was written after its first snapshot. */
  ghost predicate Replaces(th: Thread, writes: nat) {
    th.kind.Refresh? ==>
      && (th.pc.Snap? || th.ver >= writes)
      && ((th.pc.Unlock? || th.pc.Done?) && th.pc.result.Ok? ==> th.ver > writes)
  }

  lemma {:induction false} ReplacesStep(s: State, a: Action, t: Tid, writes: nat)
    requires Enabled(s, a) && t < |s.threads| && ThreadOk(s, t) && s.cur == PtrAt(s.writes, |s.writes|)
    requires writes <= |s.writes| && Replaces(s.threads[t], writes)
    ensures t < |Next(s, a).threads| && Replaces(Next(s, a).threads[t], writes)
  {
  }

  lemma {:induction false} RefreshReplaces(states: seq<State>, acts: seq<Action>, i: nat, j: nat, t: Tid)
    requires Run(states, acts) && i <= j < |states| && t < |states[j].threads|
    requires t < |states[i].threads| ==> states[i].threads[t].pc.Snap?
    ensures Replaces(states[j].threads[t], |states[i].writes|)
    decreases j
  {
    if i < j {
      assert Link(states[j - 1], acts[j - 1], states[j]);
      if t < |states[j - 1].threads| {
        RefreshReplaces(states, acts, i, j - 1, t);
        RunThread(states, acts, j - 1, t);
        RunGrows(states, acts, i, j - 1);
        ReplacesStep(states[j - 1], acts[j - 1], t, |states[i].writes|);
      }
    }
  }

  lemma {:induction false} ResultVersion(states: seq<State>, acts: seq<Action>, i: nat, t: Tid)
    requires Run(states, acts) && i < |states| && t < |states[i].threads|
    requires states[i].threads[t].pc.Done? && states[i].threads[t].pc.result.Ok?
    ensures var s, th := states[i], states[i].threads[t];
      0 < th.ver <= |s.writes| && th.pc.result.sess == Some(s.writes[th.ver - 1].p)
  {
    RunThread(states, acts, i, t);
  }

  /**
   * A retry does not carry the dead session: if a Get has returned p1 by point i, a Refresh that
   * began after i has succeeded by point j, and a Get that began after j returns p3, then p3 is a
   * newer object than p1.
   */
  lemma {:induction false} RetryCarriesNewer(states: seq<State>, acts: seq<Action>, i: nat, j: nat, k: nat,
                                             first: Tid, refresh: Tid, second: Tid)
    requires Run(states, acts) && i <= j <= k < |states|
    requires first < |states[i].threads| <= refresh < |states[j].threads| <= second < |states[k].threads|
    requires states[j].threads[refresh].kind.Refresh?
    requires var pc := states[i].threads[first].pc; pc.Done? && pc.result.Ok?
    requires var pc := states[j].threads[refresh].pc; pc.Done? && pc.result.Ok?
    requires var pc := states[k].threads[second].pc; pc.Done? && pc.result.Ok?
    ensures var p1, p3 := states[i].threads[first].pc.result.sess, states[k].threads[second].pc.result.sess;
      p1.Some? && p3.Some? && p1.value < p3.value
    ensures var th := states[k].threads[second];
      |states[i].writes| < th.ver <= |states[k].writes| && th.pc.result.sess == Some(states[k].writes[th.ver - 1].p)
      && (th.kind.Get? ==> states[k].writes[th.ver - 1].Committed?)
  {
    ResultVersion(states, acts, i, first);
    ResultVersion(states, acts, j, refresh);
    ResultVersion(states, acts, k, second);
    RefreshReplaces(states, acts, i, j, refresh);
    VersionAfter(states, acts, j, k, second);
    RunGrows(states, acts, i, j);
    RunGrows(states, acts, j, k);
    RunRegister(states, acts, k);
    RunThread(states, acts, k, second);
    assert states[i].writes <= states[k].writes;
  }
}
