/**
 * One identity's entry in the session store as a concurrent protocol (internal/store/store.go).
 * Any number of threads call Get and Refresh; every lock acquisition, every section run under
 * `sessMu`, every clock reading and every recipe call is one step, and the steps of different
 * threads interleave freely. Pointers to session objects are indices into a heap that only grows.
 */
module Protocol {
  import opened Basics
  import opened Sessions
  import Limiter

  type Ptr = nat
  type Tid = nat

  datatype Config = Config(maxBurst: nat, window: Time)

  datatype Kind = Get | Refresh

  datatype Error = RateLimited | RecipeError(text: string)

  /** What a call returns; Go allows a nil session beside a nil error. */
  datatype Result = Ok(sess: Option<Ptr>) | Err(error: Error)

  datatype PC =
    | Snap                          // Get, Refresh: first snapshot
    | Check                         // Get: is that session live?
    | WaitFlight                    // flightMu.Lock()
    | Resnap                        // second snapshot; Refresh compares it with the first
    | Recheck                       // Get: is the session live by now?
    | ReadStamp                     // the time.Now() handed to the limiter
    | Limit                         // rateLimited
    | Call                          // recipe.Establish or recipe.Refresh
    | ReadCommit(made: Ptr)        // the time.Now() handed to commit
    | Commit(made: Ptr)
    | Fail(text: string)
    | Invalidate(text: string)      // Refresh: publish an expired copy
    | Unlock(result: Result)        // flightMu.Unlock()
    | Done(result: Result)

  /** `seen` is the session in hand; `ver` is history, the version of the session field it was read at. */
  datatype Thread = Thread(kind: Kind, pc: PC, inSection: bool, seen: Option<Ptr>, now: Time, ver: nat)

  /** A write of the entry's session field. */
  datatype Write = Committed(p: Ptr) | Invalidated(p: Ptr)

  datatype Reply = Fresh(p: Ptr) | Refused(text: string)

  /** A finished recipe call: who made it, with which session, and at which version. */
  datatype Event = Event(kind: Kind, arg: Option<Ptr>, ver: nat, at: Time, reply: Reply)

  datatype State = State(
    cfg: Config,
    heap: seq<Session>,
    // the entry's fields
    cur: Option<Ptr>, stamps: seq<Time>, lastAuth: Time, lastErr: string,
    sect: Option<Tid>, flight: Option<Tid>,
    // the environment
    clock: Time, threads: seq<Thread>,
    // history: writes[k] produced version k + 1 of the session field
    writes: seq<Write>, log: seq<Event>, admitted: seq<Time>)

  /** What the recipe answers when it is called. */
  datatype Answer = Granted(sess: Session) | Denied(text: string)

  /** For steps that do not call the recipe. */
  const NO_ANSWER: Answer := Denied("")

  datatype Action = Start(kind: Kind) | Tick(to: Time) | Step(t: Tid, answer: Answer)

  predicate Section(pc: PC) {
    pc.Snap? || pc.Resnap? || pc.Limit? || pc.Commit? || pc.Fail? || pc.Invalidate?
  }

  predicate InFlight(pc: PC) {
    !pc.Snap? && !pc.Check? && !pc.WaitFlight? && !pc.Done?
  }

  /** Not blocked on a lock, not finished, and holding no dangling pointer. */
  predicate Ready(s: State, t: Tid) {
    && t < |s.threads|
    && var th := s.threads[t];
    && !th.pc.Done?
    && (Section(th.pc) && !th.inSection ==> s.sect.None?)
    && (th.pc.WaitFlight? ==> s.flight.None?)
    && (th.seen.Some? ==> th.seen.value < |s.heap|)
  }

  predicate Enabled(s: State, a: Action) {
    match a
    case Start(_) => true
    case Tick(to) => to >= s.clock
    case Step(t, _) => Ready(s, t)
  }

  predicate Live(s: State, sess: Option<Ptr>)
    requires sess.Some? ==> sess.value < |s.heap|
  {
    sess.Some? && !Expired(s.heap[sess.value], s.clock)
  }

  /** What a thread's step does to the entry and to the thread itself. */
  function Effect(s: State, t: Tid, th: Thread, answer: Answer): (State, Thread)
    requires th.seen.Some? ==> th.seen.value < |s.heap|
  {
    match th.pc
    case Snap =>
      (s, th.(pc := if th.kind.Get? then Check else WaitFlight, seen := s.cur, ver := |s.writes|))
    case Check =>
      (s, th.(pc := if Live(s, th.seen) then Done(Ok(th.seen)) else WaitFlight, now := s.clock))
    case WaitFlight =>
      (s.(flight := Some(t)), th.(pc := Resnap))
    case Resnap =>
      var pc' := if th.kind.Get? then Recheck else if s.cur != th.seen then Unlock(Ok(s.cur)) else ReadStamp;
      (s, th.(pc := pc', seen := s.cur, ver := |s.writes|))
    case Recheck =>
      var pc' := if Live(s, th.seen) then Unlock(Ok(th.seen)) else if th.seen.None? then Call else ReadStamp;
      (s, th.(pc := pc', now := s.clock))
    case ReadStamp =>
      (s, th.(pc := Limit, now := s.clock))
    case Limit =>
      var (admitted, stamps') := Limiter.Admit(s.stamps, s.cfg.maxBurst, s.cfg.window, th.now);
      if admitted then (s.(stamps := stamps', admitted := s.admitted + [th.now]), th.(pc := Call))
      else (s.(stamps := stamps'), th.(pc := Unlock(Err(RateLimited))))
    case Call =>
      (match answer
       case Granted(sess) =>
         var e := Event(th.kind, th.seen, th.ver, th.now, Fresh(|s.heap|));
         (s.(heap := s.heap + [sess], log := s.log + [e]), th.(pc := ReadCommit(|s.heap|)))
       case Denied(text) =>
         var e := Event(th.kind, th.seen, th.ver, th.now, Refused(text));
         (s.(log := s.log + [e]), th.(pc := Fail(text))))
    case ReadCommit(p) =>
      (s, th.(pc := Commit(p), now := s.clock))
    case Commit(p) =>
      (s.(cur := Some(p), lastAuth := th.now, lastErr := "", writes := s.writes + [Committed(p)]),
       th.(pc := Unlock(Ok(Some(p))), seen := Some(p), ver := |s.writes| + 1))
    case Fail(text) =>
      (s.(lastErr := text),
       th.(pc := if th.kind.Refresh? && th.seen.Some? then Invalidate(text) else Unlock(Err(RecipeError(text)))))
    case Invalidate(text) =>
      var copy := if th.seen.Some? then [Stale(s.heap[th.seen.value])] else [];
      (s.(heap := s.heap + copy, cur := Some(|s.heap|), writes := s.writes + [Invalidated(|s.heap|)]),
       th.(pc := Unlock(Err(RecipeError(text)))))
    case Unlock(r) =>
      (s.(flight := None), th.(pc := Done(r)))
    case Done(_) => (s, th)
  }

  /** A thread enters a section by taking sessMu; the step that runs the section releases it. */
  function Advance(s: State, t: Tid, answer: Answer): State
    requires Ready(s, t)
  {
    var th := s.threads[t];
    if Section(th.pc) && !th.inSection then
      s.(sect := Some(t), threads := s.threads[t := th.(inSection := true)])
    else
      var (s', th') := Effect(s, t, th, answer);
      s'.(sect := if Section(th.pc) then None else s.sect, threads := s.threads[t := th'.(inSection := false)])
  }

  function Next(s: State, a: Action): State
    requires Enabled(s, a)
  {
    match a
    case Start(kind) =>
      s.(threads := s.threads + [Thread(kind, Snap, false, None, s.clock, |s.writes|)])
    case Tick(to) => s.(clock := to)
    case Step(t, answer) => Advance(s, t, answer)
  }

  /** A freshly registered entry, on a host whose clock is past 1970. */
  predicate Init(s: State) {
    && s.cfg.maxBurst > 0 && s.cfg.window > 0
    && s.heap == [] && s.cur == None && s.stamps == [] && s.lastAuth == ZERO_TIME && s.lastErr == ""
    && s.sect == None && s.flight == None && s.clock > LONG_AGO && s.threads == []
    && s.writes == [] && s.log == [] && s.admitted == []
  }

  ghost predicate Link(s: State, a: Action, s': State) {
    Enabled(s, a) && s' == Next(s, a)
  }

  /** A finite run: states[i] becomes states[i + 1] by acts[i]. */
  ghost predicate Run(states: seq<State>, acts: seq<Action>) {
    && |states| == |acts| + 1
    && Init(states[0])
    && forall i {:trigger acts[i]} :: 0 <= i < |acts| ==> Link(states[i], acts[i], states[i + 1])
  }

  ghost predicate Reachable(s: State) {
    exists states, acts :: Run(states, acts) && states[|acts|] == s
  }
}
