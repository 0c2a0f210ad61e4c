/** The gateway's retry over runs of the store's protocol (internal/gateway/gateway.go on internal/store/store.go). */
module GatewayRuns {
  import opened Basics
  import opened Sessions
  import opened Protocol
  import opened ProtocolTheorems
  import opened Serving
  import G = Gateway

  /** A call of the store for `id` that succeeded. */
  predicate StoreCall(e: G.Event, id: string) {
    e.id == id && (e.Reauthenticated? || (e.Got? && e.sess.Some?))
  }

  /** By point `n` of the run the call's goroutine has returned, and a Get what the log says. */
  ghost predicate Returned(e: G.Event, states: seq<State>, n: nat) {
    && (e.Got? || e.Reauthenticated?) && n < |states| && e.call < |states[n].threads|
    && var th := states[n].threads[e.call];
    && th.pc.Done? && th.pc.result.Ok? && th.kind == (if e.Got? then Get else Refresh)
    && (e.Got? ==>
          && th.pc.result.sess.Some? && th.pc.result.sess.value < |states[n].heap|
          && e.sess == Some(states[n].heap[th.pc.result.sess.value]))
  }

  /**
   * The log's calls for `id` are goroutines of a run of its entry, among any others: the call of event
   * k has returned by point at[k], and each begins after those before it have returned.
   */
  ghost predicate Backed(id: string, log: seq<G.Event>, states: seq<State>, acts: seq<Action>, at: seq<nat>) {
    && Run(states, acts) && |at| == |log|
    && (forall k :: 0 <= k < |log| && StoreCall(log[k], id) ==> Returned(log[k], states, at[k]))
    && (forall k, l :: 0 <= k < l < |log| && StoreCall(log[k], id) && StoreCall(log[l], id) ==> Follows(log[l], states, at[k], at[l]))
  }

  ghost predicate Follows(e: G.Event, states: seq<State>, n: nat, m: nat) {
    (e.Got? || e.Reauthenticated?) && n <= m && n < |states| && |states[n].threads| <= e.call
  }

  /**
   * A retry never carries the session that was found dead: the two deliveries carry the contents of
   * two session objects, and that of the retry is a newer one, committed after the point `handed` by
   * which the first had been handed out.
   */
  lemma {:induction false} RetryCarriesRenewed(cfg: G.Config, r: G.Request, id: string, fs: seq<G.Forward>, renewals: seq<G.Renewal>,
                                               before: seq<G.Event>, log: seq<G.Event>,
                                               states: seq<State>, acts: seq<Action>, at: seq<nat>)
    returns (handed: nat, end: nat, dead: Ptr, renewed: Ptr, version: nat)
    requires G.Exchanged(cfg, r, id, fs, renewals) && |fs| == 2 && fs[1].req.Some? && G.MadeBetween(fs, before, log)
    requires Backed(id, log, states, acts, at)
    ensures handed <= end < |states| && dead < |states[handed].heap| && dead < renewed < |states[end].heap|
    ensures fs[0].sess == Some(states[end].heap[dead]) && fs[1].sess == Some(states[end].heap[renewed])
    ensures |states[handed].writes| < version <= |states[end].writes| && states[end].writes[version - 1] == Committed(renewed)
    ensures G.LoggedOut(cfg, id, fs[0].answer)
  {
    var first, again := G.RetrySession(cfg, r, id, fs, renewals, before, log);
    SessionsSent(cfg, r, id, fs, renewals);
    handed, end, dead, renewed, version := NewerAfter(id, log, states, acts, at, first, again);
  }

  lemma {:induction false} SessionsSent(cfg: G.Config, r: G.Request, id: string, fs: seq<G.Forward>, renewals: seq<G.Renewal>)
    requires G.Exchanged(cfg, r, id, fs, renewals) && |fs| == 2 && fs[1].req.Some?
    ensures fs[0].sess.Some? && fs[1].sess.Some? && G.LoggedOut(cfg, id, fs[0].answer)
  {
  }

  lemma {:induction false} NewerAfter(id: string, log: seq<G.Event>, states: seq<State>, acts: seq<Action>, at: seq<nat>, first: nat, again: nat)
    returns (handed: nat, end: nat, dead: Ptr, renewed: Ptr, version: nat)
    requires Backed(id, log, states, acts, at) && first + 1 < again < |log|
    requires log[first].Got? && log[again].Got? && log[first + 1].Reauthenticated?
    requires StoreCall(log[first], id) && StoreCall(log[first + 1], id) && StoreCall(log[again], id)
    ensures handed <= end < |states| && dead < |states[handed].heap| && dead < renewed < |states[end].heap|
    ensures log[first].sess == Some(states[end].heap[dead]) && log[again].sess == Some(states[end].heap[renewed])
    ensures |states[handed].writes| < version <= |states[end].writes| && states[end].writes[version - 1] == Committed(renewed)
  {
    var e1, e2, e3 := log[first], log[first + 1], log[again];
    var i, j, k := at[first], at[first + 1], at[again];
    assert Returned(e1, states, i) && Returned(e2, states, j) && Returned(e3, states, k);
    assert Follows(e2, states, i, j) && Follows(e3, states, j, k);
    RetryCarriesNewer(states, acts, i, j, k, e1.call, e2.call, e3.call);
    RunGrows(states, acts, i, k);
    handed, end, version := i, k, states[k].threads[e3.call].ver;
    dead, renewed := states[i].threads[e1.call].pc.result.sess.value, states[k].threads[e3.call].pc.result.sess.value;
  }
}
