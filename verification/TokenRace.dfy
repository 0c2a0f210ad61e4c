/**
 * The gateway's token cache under concurrent requests (internal/gateway/gateway.go), for one identity.
 * csrfTokenFor looks at the cache and stores into it in two sections, and fetches in between with the
 * lock released; a session may be renewed and the token dropped at any time.
 */
module TokenRace {
  import opened Basics
  import G = Gateway

  /** A token with the session it was fetched under, counted by renewals, and the time it was stored. */
  datatype Cached = Cached(value: string, session: nat, at: Time)

  datatype PC =
    | Look                              // lock, look, unlock
    | Ask                               // store.Get
    | Fetch(session: nat)               // the request for a token, with that session applied
    | Put(value: string, session: nat)    // lock, store, unlock
    | Done(token: Option<string>)

  /** `dropped` is the number of renewals there had been when the token was last dropped. */
  datatype State = State(cache: Option<Cached>, clock: Time, renewals: nat, dropped: nat, requests: seq<PC>)

  /** Drop is the invalidateCSRF of a request whose store.Refresh succeeded, perhaps by adopting a session. */
  datatype Action = Start | Tick(to: Time) | Renew | Drop | Step(t: nat, answer: Option<string>)

  predicate Enabled(s: State, a: Action) {
    match a
    case Tick(to) => to >= s.clock
    case Step(t, _) => t < |s.requests|
    case _ => true
  }

  predicate Hit(s: State) {
    s.cache.Some? && s.clock - s.cache.value.at < G.CSRF_TTL
  }

  function Next(s: State, a: Action): State
    requires Enabled(s, a)
  {
    match a
    case Start => s.(requests := s.requests + [Look])
    case Tick(to) => s.(clock := to)
    case Renew => s.(renewals := s.renewals + 1)
    case Drop => s.(cache := None, dropped := s.renewals)
    case Step(t, answer) => Advance(s, t, answer)
  }

  function Advance(s: State, t: nat, answer: Option<string>): State
    requires t < |s.requests|
  {
    match s.requests[t]
    case Look => s.(requests := s.requests[t := if Hit(s) then Done(Some(s.cache.value.value)) else Ask])
    case Ask => s.(requests := s.requests[t := if answer.Some? then Fetch(s.renewals) else Done(None)])
    case Fetch(session) => s.(requests := s.requests[t := if answer.Some? then Put(answer.value, session) else Done(None)])
    case Put(value, session) =>
      s.(cache := Some(Cached(value, session, s.clock)), requests := s.requests[t := Done(Some(value))])
    case Done(_) => s
  }

  predicate Init(s: State) {
    s.cache.None? && s.renewals == 0 && s.dropped == 0 && s.requests == []
  }

  ghost predicate RunFrom(s: State, states: seq<State>, acts: seq<Action>) {
    && |states| == |acts| + 1 && states[0] == s
    && forall i {:trigger acts[i]} :: 0 <= i < |acts| ==> Enabled(states[i], acts[i]) && states[i + 1] == Next(states[i], acts[i])
  }

  // ---- Tokens from before ----

  /** Serves from the cache a token that was fetched before the reauthentication after which it was last dropped. */
  predicate StaleHit(s: State, a: Action) {
    a.Step? && a.t < |s.requests| && s.requests[a.t].Look? && Hit(s) && s.cache.value.session < s.dropped
  }

  /** The request has asked for a session and has not yet stored a token fetched with it. */
  predicate Open(pc: PC, before: nat) {
    (pc.Fetch? || pc.Put?) && pc.session < before
  }

  /** No fetch is open that began with a session from before the latest renewal. */
  predicate NoFetchOpen(s: State) {
    forall t :: 0 <= t < |s.requests| ==> !Open(s.requests[t], s.renewals)
  }

  /** Neither the cache nor a fetch holds a token from before the last drop. */
  predicate Clean(s: State) {
    && !(Hit(s) && s.cache.value.session < s.dropped)
    && forall t :: 0 <= t < |s.requests| ==> !Open(s.requests[t], s.dropped)
  }

  predicate Ordered(s: State) {
    s.dropped <= s.renewals
  }

  lemma {:induction false} CleanStep(s: State, a: Action)
    requires Ordered(s) && Clean(s) && Enabled(s, a) && (a.Drop? ==> NoFetchOpen(s))
    ensures Ordered(Next(s, a)) && Clean(Next(s, a)) && !StaleHit(s, a)
  {
    var s' := Next(s, a);
    forall t | 0 <= t < |s'.requests| ensures !Open(s'.requests[t], s'.dropped) {
      if t < |s.requests| { assert !Open(s.requests[t], s.dropped); }
    }
  }

  lemma {:induction false} CleanRun(s: State, states: seq<State>, acts: seq<Action>, i: nat)
    requires Ordered(s) && Clean(s) && RunFrom(s, states, acts) && i <= |acts|
    requires forall k :: 0 <= k < i && acts[k].Drop? ==> NoFetchOpen(states[k])
    ensures Ordered(states[i]) && Clean(states[i])
  {
    if i > 0 {
      CleanRun(s, states, acts, i - 1);
      CleanStep(states[i - 1], acts[i - 1]);
    }
  }

  /**
   * If no fetch begun with an earlier session is open whenever the token is dropped, no request of
   * the whole run is served a token from before, however requests and renewals interleave.
   */
  lemma {:induction false} NeverStale(s: State, states: seq<State>, acts: seq<Action>, i: nat)
    requires Init(s) && RunFrom(s, states, acts) && i < |acts|
    requires forall k :: 0 <= k < i && acts[k].Drop? ==> NoFetchOpen(states[k])
    ensures !StaleHit(states[i], acts[i])
  {
    CleanRun(s, states, acts, i);
  }

  /** A request is served from the cache exactly if there is a token stored less than half a minute ago; else it fetches. */
  lemma {:induction false} ServedWhileYoung(s: State, t: nat, answer: Option<string>)
    requires t < |s.requests| && s.requests[t].Look?
    ensures var pc := Advance(s, t, answer).requests[t];
      if s.cache.Some? && s.clock - s.cache.value.at < 30_000_000_000 then pc == Done(Some(s.cache.value.value)) else pc == Ask
  {
  }

  // ---- The condition is exact ----

  /** Until the session is next renewed or the token dropped, no request is served a token from before. */
  ghost predicate SafeFrom(s: State) {
    forall states, acts, i :: Continues(s, states, acts) && 0 <= i < |acts| ==> !StaleHit(states[i], acts[i])
  }

  ghost predicate Continues(s: State, states: seq<State>, acts: seq<Action>) {
    RunFrom(s, states, acts) && forall k :: 0 <= k < |acts| ==> !acts[k].Renew? && !acts[k].Drop?
  }

  /** Dropping the token is enough if and only if no fetch begun with an earlier session is open at that moment. */
  lemma {:induction false} DropSafeExactly(s: State)
    ensures SafeFrom(Next(s, Drop)) <==> NoFetchOpen(s)
  {
    var s' := Next(s, Drop);
    if NoFetchOpen(s) {
      forall states, acts, i | Continues(s', states, acts) && 0 <= i < |acts| ensures !StaleHit(states[i], acts[i]) {
        CleanRun(s', states, acts, i);
        CleanStep(states[i], acts[i]);
      }
    } else {
      var t :| 0 <= t < |s.requests| && Open(s.requests[t], s.renewals);
      var states, acts := StaleContinuation(s', t);
      assert StaleHit(states[|acts| - 1], acts[|acts| - 1]);
    }
  }

  /** The open fetch stores its token, and the next request is served it. */
  lemma {:induction false} StaleContinuation(s: State, t: nat) returns (states: seq<State>, acts: seq<Action>)
    requires t < |s.requests| && Open(s.requests[t], s.dropped)
    ensures Continues(s, states, acts) && |acts| > 0 && StaleHit(states[|acts| - 1], acts[|acts| - 1])
  {
    if s.requests[t].Fetch? {
      var s1 := Next(s, Step(t, Some("")));
      var more, rest := StoredThenServed(s1, t);
      states, acts := [s] + more, [Step(t, Some(""))] + rest;
    } else {
      states, acts := StoredThenServed(s, t);
    }
  }

  lemma {:induction false} StoredThenServed(s: State, t: nat) returns (states: seq<State>, acts: seq<Action>)
    requires t < |s.requests| && s.requests[t].Put? && s.requests[t].session < s.dropped
    ensures Continues(s, states, acts) && |acts| == 3 && StaleHit(states[2], acts[2])
  {
    var s1 := Next(s, Step(t, None));
    var s2 := Next(s1, Start);
    acts := [Step(t, None), Start, Step(|s.requests|, None)];
    states := [s, s1, s2, Next(s2, acts[2])];
  }

  /** From the start: one request fetches, another reauthenticates and drops, and a third is served the old token. */
  lemma {:induction false} StaleTokenServed(s: State, value: string) returns (states: seq<State>, acts: seq<Action>)
    requires Init(s)
    ensures RunFrom(s, states, acts) && |acts| == 9 && StaleHit(states[8], acts[8])
    ensures |states[9].requests| == 2 && states[9].requests[1] == Done(Some(value))
  {
    acts := [Start, Step(0, None), Step(0, Some("")), Renew, Drop, Step(0, Some(value)), Step(0, None), Start, Step(1, None)];
    var s1 := Next(s, acts[0]);
    var s2 := Next(s1, acts[1]);
    var s3 := Next(s2, acts[2]);
    var s4 := Next(s3, acts[3]);
    var s5 := Next(s4, acts[4]);
    var s6 := Next(s5, acts[5]);
    var s7 := Next(s6, acts[6]);
    var s8 := Next(s7, acts[7]);
    states := [s, s1, s2, s3, s4, s5, s6, s7, s8, Next(s8, acts[8])];
  }
}
