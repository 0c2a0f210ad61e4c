/** What every step of the store protocol keeps. */
module ProtocolInvariant {
  import opened Basics
  import opened Sessions
  import opened Protocol
  import Limiter

  /** The session field at version `ver`. */
  function PtrAt(writes: seq<Write>, ver: nat): Option<Ptr>
    requires ver <= |writes|
  {
    if ver == 0 then None else Some(writes[ver - 1].p)
  }

  /** Does this recipe call end in a write of the session field? */
  predicate Writes(e: Event) {
    e.reply.Fresh? || (e.kind.Refresh? && e.arg.Some?)
  }

  function WriteCount(log: seq<Event>): nat {
    if log == [] then 0 else WriteCount(log[..|log| - 1]) + if Writes(log[|log| - 1]) then 1 else 0
  }

  /** Only Get's first-use login is exempt from the limiter. */
  predicate Establishes(e: Event) {
    e.kind.Get? && e.arg.None?
  }

  /** The admission stamps of the renewals in `log`. */
  function Renewals(log: seq<Event>): seq<Time> {
    if log == [] then []
    else
      var init := Renewals(log[..|log| - 1]);
      if Establishes(log[|log| - 1]) then init else init + [log[|log| - 1].at]
  }

  /** The error of the last finished recipe call: empty if it succeeded or none was made. */
  function LastCallError(log: seq<Event>): string {
    if log == [] || log[|log| - 1].reply.Fresh? then "" else log[|log| - 1].reply.text
  }

  // ---- The invariant, clause by clause ----

  ghost predicate Locks(s: State) {
    && (s.sect.Some? ==> s.sect.value < |s.threads| && s.threads[s.sect.value].inSection)
    && (s.flight.Some? ==> s.flight.value < |s.threads| && InFlight(s.threads[s.flight.value].pc))
    && forall t :: 0 <= t < |s.threads| ==> LocksOf(s, t)
  }

  ghost predicate LocksOf(s: State, t: Tid)
    requires t < |s.threads|
  {
    var th := s.threads[t];
    && (th.inSection ==> s.sect == Some(t) && Section(th.pc))
    && (InFlight(th.pc) ==> s.flight == Some(t))
  }

  /** The session field is its latest write; writes publish ever newer objects. */
  ghost predicate Register(s: State) {
    && s.cur == PtrAt(s.writes, |s.writes|)
    && (forall k :: 0 <= k < |s.writes| ==> s.writes[k].p < |s.heap|)
    && (forall i, j :: 0 <= i < j < |s.writes| ==> s.writes[i].p < s.writes[j].p)
    && (forall k :: 0 <= k < |s.writes| ==> CopyOf(s, k))
  }

  /** An invalidation publishes a copy of the session it replaces, expired but otherwise equal. */
  ghost predicate CopyOf(s: State, k: nat)
    requires k < |s.writes|
  {
    s.writes[k].Invalidated? ==>
      && k > 0 && s.writes[k].p < |s.heap| && s.writes[k - 1].p < |s.heap|
      && s.heap[s.writes[k].p] == Stale(s.heap[s.writes[k - 1].p])
  }

  ghost predicate Threads(s: State) {
    && s.clock > LONG_AGO
    && forall t :: 0 <= t < |s.threads| ==> ThreadOk(s, t)
  }

  ghost predicate ThreadOk(s: State, t: Tid)
    requires t < |s.threads|
  {
    var th := s.threads[t];
    && th.ver <= |s.writes| && LONG_AGO < th.now <= s.clock
    && (if th.pc.Snap? then th.seen == None else th.seen == PtrAt(s.writes, th.ver))
    && (th.seen.Some? ==> th.seen.value < |s.heap|)
    && (InFlight(th.pc) && !th.pc.Resnap? && !th.pc.Unlock? ==> th.ver == |s.writes|)
    && (th.pc.ReadCommit? || th.pc.Commit? ==> th.pc.made < |s.heap| && forall k :: 0 <= k < |s.writes| ==> s.writes[k].p < th.pc.made)
    && (th.pc.Check? || th.pc.Recheck? ==> th.kind.Get?)
    && (th.pc.ReadStamp? || th.pc.Limit? ==> th.kind.Refresh? || th.seen.Some?)
    && (th.pc.Invalidate? ==> th.kind.Refresh? && th.seen.Some?)
    && ((th.pc.Unlock? || th.pc.Done?) && th.pc.result.Ok? ==>
          && th.pc.result.sess == th.seen && th.seen.Some?
          && (th.kind.Get? ==> s.writes[th.ver - 1].Committed?))
    && (th.kind.Get? && th.seen.Some? && (th.pc.ReadStamp? || th.pc.Limit? || th.pc.Call?) ==> Expired(s.heap[th.seen.value], th.now))
  }

  /** The earliest time at which the limiter can next be consulted. */
  function NextConsult(s: State): Time {
    if s.flight.Some? && s.flight.value < |s.threads| && s.threads[s.flight.value].pc.Limit?
    then s.threads[s.flight.value].now else s.clock
  }

  ghost predicate Limited(s: State) {
    && s.cfg.maxBurst > 0 && s.cfg.window > 0
    && Limiter.Represents(s.stamps, s.admitted, s.cfg.maxBurst, s.cfg.window, NextConsult(s))
  }

  /** The thread that holds the flight lock. */
  function Holder(s: State): Option<Thread> {
    if s.flight.Some? && s.flight.value < |s.threads| then Some(s.threads[s.flight.value]) else None
  }

  /** A recipe call has been answered and its write is still to come. */
  predicate Pending(holder: Option<Thread>) {
    holder.Some? && var th := holder.value;
    th.pc.ReadCommit? || th.pc.Commit? || ((th.pc.Fail? || th.pc.Invalidate?) && th.kind.Refresh? && th.seen.Some?)
  }

  /** A recipe call has been answered and its outcome is not yet in lastErr. */
  predicate Unreported(holder: Option<Thread>) {
    holder.Some? && var th := holder.value;
    th.pc.ReadCommit? || th.pc.Commit? || th.pc.Fail?
  }

  /** A renewal has been admitted and the recipe has not answered. */
  predicate Renewing(holder: Option<Thread>) {
    holder.Some? && var th := holder.value;
    th.pc.Call? && !(th.kind.Get? && th.seen.None?)
  }

  predicate Answered(e: Event, th: Thread) {
    && e.kind == th.kind && e.arg == th.seen && e.ver == th.ver
    && (th.pc.ReadCommit? || th.pc.Commit? ==> e.reply == Fresh(th.pc.made))
    && (th.pc.Fail? || th.pc.Invalidate? ==> e.reply == Refused(th.pc.text))
  }

  ghost predicate Logged(s: State) {
    var holder := Holder(s);
    && (forall i :: 0 <= i < |s.log| ==> EventOk(s, i))
    && |s.writes| + (if Pending(holder) then 1 else 0) == WriteCount(s.log)
    && (Pending(holder) || Unreported(holder) ==> |s.log| > 0 && Answered(s.log[|s.log| - 1], holder.value))
    && s.admitted == Renewals(s.log) + (if Renewing(holder) then [holder.value.now] else [])
  }

  /** A call is made at the version that the earlier calls have written, and its own write follows. */
  ghost predicate EventOk(s: State, i: nat)
    requires i < |s.log|
  {
    var e := s.log[i];
    && e.ver == WriteCount(s.log[..i]) && e.ver <= |s.writes| && e.arg == PtrAt(s.writes, e.ver)
    && e.at <= s.clock && (e.arg.Some? ==> e.arg.value < |s.heap|)
    && (e.reply.Fresh? ==> e.reply.p < |s.heap|)
    && (e.kind.Get? && e.arg.Some? ==> Expired(s.heap[e.arg.value], e.at))
    && (Writes(e) && e.ver < |s.writes| ==>
          if e.reply.Fresh? then s.writes[e.ver] == Committed(e.reply.p) else s.writes[e.ver].Invalidated?)
  }

  ghost predicate Healthy(s: State) {
    && (s.cur.Some? <==> s.lastAuth != ZERO_TIME)
    && s.lastErr == LastCallError(Reported(s))
  }

  /** The recipe calls whose outcome is in lastErr: all but one just answered. */
  function Reported(s: State): seq<Event> {
    if Unreported(Holder(s)) && s.log != [] then s.log[..|s.log| - 1] else s.log
  }

  ghost predicate Inv(s: State) {
    Locks(s) && Register(s) && Threads(s) && Limited(s) && Logged(s) && Healthy(s)
  }

  // ---- Every step keeps it ----

  lemma {:induction false} InitInv(s: State)
    requires Init(s)
    ensures Inv(s)
  {
  }

  lemma {:induction false} LocksStep(s: State, a: Action)
    requires Locks(s) && Enabled(s, a)
    ensures Locks(Next(s, a))
  {
    var s' := Next(s, a);
    if a.Step? { assert LocksOf(s, a.t); }
    forall t | 0 <= t < |s'.threads| ensures LocksOf(s', t) {
      if t < |s.threads| { assert LocksOf(s, t); }
    }
  }

  lemma {:induction false} RegisterStep(s: State, a: Action)
    requires Register(s) && Threads(s) && Enabled(s, a)
    ensures Register(Next(s, a))
  {
    if a.Step? {
      assert ThreadOk(s, a.t);
      WriteShape(s, a.t, a.answer);
    }
    RegisterExtended(s, Next(s, a));
  }

  /** Writes publish an object newer than all before; a copy is made of the current one. */
  ghost predicate Extended(s: State, s': State) {
    && s.heap <= s'.heap
    && if s'.writes == s.writes then s'.cur == s.cur
       else
         && |s'.writes| == |s.writes| + 1 && s'.writes[..|s.writes|] == s.writes
         && var w := s'.writes[|s.writes|];
         && s'.cur == Some(w.p) && w.p < |s'.heap| && (forall k :: 0 <= k < |s.writes| ==> s.writes[k].p < w.p)
         && (w.Invalidated? ==> s.cur.Some? && s.cur.value < |s.heap| && s'.heap[w.p] == Stale(s.heap[s.cur.value]))
  }

  lemma {:induction false} WriteShape(s: State, t: Tid, answer: Answer)
    requires Register(s) && Ready(s, t) && ThreadOk(s, t)
    ensures Extended(s, Advance(s, t, answer))
  {
  }

  lemma {:induction false} RegisterExtended(s: State, s': State)
    requires Register(s) && Extended(s, s')
    ensures Register(s')
  {
    forall k | 0 <= k < |s'.writes| ensures CopyOf(s', k) {
      if k < |s.writes| { assert CopyOf(s, k); }
    }
  }

  lemma {:induction false} ThreadsStep(s: State, a: Action)
    requires Locks(s) && Register(s) && Threads(s) && Enabled(s, a)
    ensures Threads(Next(s, a))
  {
    var s' := Next(s, a);
    forall t | 0 <= t < |s'.threads| ensures ThreadOk(s', t) {
      if a.Step? && a.t == t {
        StepperOk(s, t, a.answer);
      } else if t < |s.threads| {
        BystanderOk(s, a, t);
      }
    }
  }

  lemma {:induction false} BystanderOk(s: State, a: Action, t: Tid)
    requires Locks(s) && Threads(s) && Enabled(s, a)
    requires t < |s.threads| && !(a.Step? && a.t == t)
    ensures ThreadOk(Next(s, a), t)
  {
    assert LocksOf(s, t) && ThreadOk(s, t);
    if a.Step? { assert LocksOf(s, a.t); }
    Untouched(s, a, t);
    ThreadKept(s, Next(s, a), t);
  }

  lemma {:induction false} Untouched(s: State, a: Action, t: Tid)
    requires Enabled(s, a) && t < |s.threads| && !(a.Step? && a.t == t)
    requires LocksOf(s, t) && (a.Step? ==> LocksOf(s, a.t))
    ensures var s' := Next(s, a);
      && t < |s'.threads| && s'.threads[t] == s.threads[t] && s.clock <= s'.clock
      && s.heap <= s'.heap && s.writes <= s'.writes && (InFlight(s.threads[t].pc) ==> s'.writes == s.writes)
  {
  }

  lemma {:induction false} ThreadKept(s: State, s': State, t: Tid)
    requires t < |s.threads| && ThreadOk(s, t) && s.clock <= s'.clock
    requires t < |s'.threads| && s'.threads[t] == s.threads[t]
    requires s.heap <= s'.heap && s.writes <= s'.writes && (InFlight(s.threads[t].pc) ==> s'.writes == s.writes)
    ensures ThreadOk(s', t)
  {
  }

  lemma {:induction false} StepperOk(s: State, t: Tid, answer: Answer)
    requires Locks(s) && Register(s) && Threads(s) && Ready(s, t)
    ensures ThreadOk(Advance(s, t, answer), t)
  {
    assert ThreadOk(s, t);
    var th := s.threads[t];
    if Section(th.pc) && !th.inSection {
    } else if th.pc.Check? || th.pc.Recheck? {
      LiveIsCommitted(s, th.ver);
      StepperChecks(s, t, answer);
    } else if th.pc.Commit? || th.pc.Invalidate? {
      StepperWrites(s, t, answer);
    } else if th.pc.Snap? || th.pc.Resnap? {
      StepperLooks(s, t, answer);
    } else if th.pc.Call? {
      StepperCalls(s, t, answer);
    } else if th.pc.WaitFlight? || th.pc.ReadStamp? || th.pc.Limit? {
      StepperDecides(s, t, answer);
    } else {
      StepperMoves(s, t, answer);
    }
  }

  lemma {:induction false} StepperChecks(s: State, t: Tid, answer: Answer)
    requires s.clock > LONG_AGO && Ready(s, t) && ThreadOk(s, t) && (s.threads[t].pc.Check? || s.threads[t].pc.Recheck?)
    requires Live(s, s.threads[t].seen) ==> s.threads[t].ver > 0 && s.writes[s.threads[t].ver - 1].Committed?
    ensures ThreadOk(Advance(s, t, answer), t)
  {
    if s.threads[t].pc.Check? {
      StepperCheck(s, t, answer);
    } else {
      StepperRecheck(s, t, answer);
    }
  }

  lemma {:induction false} StepperCheck(s: State, t: Tid, answer: Answer)
    requires s.clock > LONG_AGO && Ready(s, t) && ThreadOk(s, t) && s.threads[t].pc.Check?
    requires Live(s, s.threads[t].seen) ==> s.threads[t].ver > 0 && s.writes[s.threads[t].ver - 1].Committed?
    ensures ThreadOk(Advance(s, t, answer), t)
  {
  }

  lemma {:induction false} StepperRecheck(s: State, t: Tid, answer: Answer)
    requires s.clock > LONG_AGO && Ready(s, t) && ThreadOk(s, t) && s.threads[t].pc.Recheck?
    requires Live(s, s.threads[t].seen) ==> s.threads[t].ver > 0 && s.writes[s.threads[t].ver - 1].Committed?
    ensures ThreadOk(Advance(s, t, answer), t)
  {
  }

  /** A copy published by an invalidation is not live. */
  lemma {:induction false} LiveIsCommitted(s: State, ver: nat)
    requires Register(s) && s.clock > LONG_AGO && ver <= |s.writes|
    requires PtrAt(s.writes, ver).Some? ==> PtrAt(s.writes, ver).value < |s.heap|
    ensures Live(s, PtrAt(s.writes, ver)) ==> ver > 0 && s.writes[ver - 1].Committed?
  {
    if ver > 0 { assert CopyOf(s, ver - 1); }
  }

  lemma {:induction false} StepperWrites(s: State, t: Tid, answer: Answer)
    requires Register(s) && s.clock > LONG_AGO && Ready(s, t) && ThreadOk(s, t)
    requires s.threads[t].pc.Commit? || s.threads[t].pc.Invalidate?
    ensures ThreadOk(Advance(s, t, answer), t)
  {
  }

  lemma {:induction false} StepperLooks(s: State, t: Tid, answer: Answer)
    requires Register(s) && s.clock > LONG_AGO && Ready(s, t) && ThreadOk(s, t)
    requires s.threads[t].pc.Snap? || s.threads[t].pc.Resnap?
    ensures ThreadOk(Advance(s, t, answer), t)
  {
  }

  lemma {:induction false} StepperCalls(s: State, t: Tid, answer: Answer)
    requires Register(s) && s.clock > LONG_AGO && Ready(s, t) && ThreadOk(s, t)
    requires s.threads[t].pc.Call?
    ensures ThreadOk(Advance(s, t, answer), t)
  {
  }

  lemma {:induction false} StepperDecides(s: State, t: Tid, answer: Answer)
    requires Register(s) && s.clock > LONG_AGO && Ready(s, t) && ThreadOk(s, t)
    requires s.threads[t].pc.WaitFlight? || s.threads[t].pc.ReadStamp? || s.threads[t].pc.Limit?
    ensures ThreadOk(Advance(s, t, answer), t)
  {
  }

  lemma {:induction false} StepperMoves(s: State, t: Tid, answer: Answer)
    requires Register(s) && s.clock > LONG_AGO && Ready(s, t) && ThreadOk(s, t)
    requires var pc := s.threads[t].pc; pc.ReadCommit? || pc.Fail? || pc.Unlock? || pc.Done?
    ensures ThreadOk(Advance(s, t, answer), t)
  {
  }

  lemma {:induction false} LimitedStep(s: State, a: Action)
    requires Locks(s) && Threads(s) && Limited(s) && Enabled(s, a)
    ensures Limited(Next(s, a))
  {
    assert s.flight.Some? ==> ThreadOk(s, s.flight.value);
    if a.Step? { assert LocksOf(s, a.t) && ThreadOk(s, a.t); }
    if a.Step? && s.threads[a.t].pc.Limit? && s.threads[a.t].inSection {
      ConsultShape(s, a.t, a.answer);
      LimitedAfterConsult(s, Next(s, a), s.threads[a.t].now);
    } else {
      ConsultsLater(s, a);
      LimitedLater(s, Next(s, a));
    }
  }

  lemma {:induction false} LimitedAfterConsult(s: State, s': State, now: Time)
    requires Limited(s) && NextConsult(s) == now <= NextConsult(s') && s'.cfg == s.cfg
    requires var (admitted, stamps') := Limiter.Admit(s.stamps, s.cfg.maxBurst, s.cfg.window, now);
             s'.stamps == stamps' && s'.admitted == if admitted then s.admitted + [now] else s.admitted
    ensures Limited(s')
  {
    Limiter.AdmitMatchesHistory(s.stamps, s.admitted, s.cfg.maxBurst, s.cfg.window, now);
    Limiter.RepresentsLater(s'.stamps, s'.admitted, s.cfg.maxBurst, s.cfg.window, now, NextConsult(s'));
  }

  lemma {:induction false} LimitedLater(s: State, s': State)
    requires Limited(s) && NextConsult(s) <= NextConsult(s')
    requires s'.cfg == s.cfg && s'.stamps == s.stamps && s'.admitted == s.admitted
    ensures Limited(s')
  {
    Limiter.RepresentsLater(s.stamps, s.admitted, s.cfg.maxBurst, s.cfg.window, NextConsult(s), NextConsult(s'));
  }

  lemma {:induction false} ConsultShape(s: State, t: Tid, answer: Answer)
    requires Ready(s, t) && s.threads[t].pc.Limit? && s.threads[t].inSection
    requires s.flight == Some(t) && s.threads[t].now <= s.clock
    ensures var now, s' := s.threads[t].now, Advance(s, t, answer);
      && NextConsult(s) == now <= NextConsult(s') && s'.cfg == s.cfg
      && var (admitted, stamps') := Limiter.Admit(s.stamps, s.cfg.maxBurst, s.cfg.window, now);
         s'.stamps == stamps' && s'.admitted == if admitted then s.admitted + [now] else s.admitted
  {
  }

  lemma {:induction false} ConsultsLater(s: State, a: Action)
    requires Locks(s) && Threads(s) && Enabled(s, a)
    requires !(a.Step? && s.threads[a.t].pc.Limit? && s.threads[a.t].inSection)
    ensures NextConsult(s) <= NextConsult(Next(s, a))
    ensures Next(s, a).stamps == s.stamps && Next(s, a).admitted == s.admitted && Next(s, a).cfg == s.cfg
  {
    if s.flight.Some? { assert ThreadOk(s, s.flight.value); }
    if a.Step? { assert LocksOf(s, a.t) && ThreadOk(s, a.t); }
  }

  lemma {:induction false} WriteCountMonotone(log: seq<Event>, i: nat, j: nat)
    requires i <= j <= |log|
    ensures WriteCount(log[..i]) <= WriteCount(log[..j])
    decreases j
  {
    if i < j {
      assert log[..j][..j - 1] == log[..j - 1];
      WriteCountMonotone(log, i, j - 1);
    }
  }

  lemma {:induction false} LoggedStep(s: State, a: Action)
    requires Locks(s) && Register(s) && Threads(s) && Logged(s) && Enabled(s, a)
    ensures Logged(Next(s, a))
  {
    if a.Step? {
      var th := s.threads[a.t];
      assert LocksOf(s, a.t) && ThreadOk(s, a.t);
      if th.pc.Call? {
        LoggedCall(s, a.t, a.answer);
      } else if th.inSection && (th.pc.Commit? || th.pc.Invalidate?) {
        LoggedWrite(s, a.t, a.answer);
      } else {
        LoggedOther(s, a);
      }
    } else {
      LoggedOther(s, a);
    }
  }

  /** The log stays valid when the heap grows and nothing is written. */
  lemma {:induction false} EventKept(s: State, s': State, i: nat)
    requires i < |s.log| && EventOk(s, i)
    requires s.log <= s'.log && s'.writes == s.writes && s.heap <= s'.heap && s.clock <= s'.clock
    ensures EventOk(s', i)
  {
    assert s'.log[..i] == s.log[..i];
  }

  lemma {:induction false} LoggedCall(s: State, t: Tid, answer: Answer)
    requires Locks(s) && Threads(s) && Logged(s) && Ready(s, t) && s.threads[t].pc.Call?
    ensures Logged(Advance(s, t, answer))
  {
    var s', th, n := Advance(s, t, answer), s.threads[t], |s.log|;
    assert LocksOf(s, t) && ThreadOk(s, t);
    CallShape(s, t, answer);
    forall i | 0 <= i < n ensures EventOk(s', i) {
      EventKept(s, s', i);
    }
    assert Renewals(s'.log) == Renewals(s.log) + if Establishes(s'.log[n]) then [] else [th.now];
  }

  lemma {:induction false} CallShape(s: State, t: Tid, answer: Answer)
    requires Ready(s, t) && s.threads[t].pc.Call? && ThreadOk(s, t) && LocksOf(s, t)
    ensures var s', th, n := Advance(s, t, answer), s.threads[t], |s.log|;
      && |s'.log| == n + 1 && s'.log[..n] == s.log && s'.writes == s.writes && s.heap <= s'.heap
      && s'.clock == s.clock && s'.admitted == s.admitted
      && Holder(s') == Some(s'.threads[t])
      && var e, th' := s'.log[n], s'.threads[t];
         && Answered(e, th') && Pending(Some(th')) == Writes(e) && !th'.pc.Call?
         && e.at == th.now && e.kind == th.kind && e.arg == th.seen && e.ver == th.ver
         && (e.reply.Fresh? ==> e.reply.p < |s'.heap|)
  {
  }

  lemma {:induction false} LoggedWrite(s: State, t: Tid, answer: Answer)
    requires Locks(s) && Register(s) && Threads(s) && Logged(s) && Ready(s, t)
    requires s.threads[t].inSection && (s.threads[t].pc.Commit? || s.threads[t].pc.Invalidate?)
    ensures Logged(Advance(s, t, answer))
  {
    assert LocksOf(s, t) && ThreadOk(s, t);
    LogWriteShape(s, t, answer);
    LoggedAfterWrite(s, Advance(s, t, answer), s.threads[t]);
  }

  lemma {:induction false} LogWriteShape(s: State, t: Tid, answer: Answer)
    requires Ready(s, t) && LocksOf(s, t) && ThreadOk(s, t)
    requires s.threads[t].inSection && (s.threads[t].pc.Commit? || s.threads[t].pc.Invalidate?)
    ensures Holder(s) == Some(s.threads[t]) && Pending(Holder(s)) && !Renewing(Holder(s))
    ensures WrittenBy(s, Advance(s, t, answer), s.threads[t])
  {
  }

  /** The thread's write is done and all else that the log speaks of is kept. */
  ghost predicate WrittenBy(s: State, s': State, th: Thread) {
    && s'.log == s.log && s'.admitted == s.admitted && s'.clock == s.clock && s.heap <= s'.heap
    && |s'.writes| == |s.writes| + 1 && s'.writes[..|s.writes|] == s.writes
    && (if th.pc.Commit? then s'.writes[|s.writes|] == Committed(th.pc.made) else s'.writes[|s.writes|].Invalidated?)
    && !Pending(Holder(s')) && !Unreported(Holder(s')) && !Renewing(Holder(s'))
  }

  lemma {:induction false} LoggedAfterWrite(s: State, s': State, th: Thread)
    requires Logged(s) && Holder(s) == Some(th) && Pending(Some(th)) && !Renewing(Some(th)) && WrittenBy(s, s', th)
    requires th.pc.Commit? || th.pc.Invalidate?
    ensures Logged(s')
  {
    forall i | 0 <= i < |s'.log| ensures EventOk(s', i) {
      assert EventOk(s, i);
      if i < |s.log| - 1 { EarlierWrite(s, i); }
    }
  }

  /** The calls before the answered one have had their writes. */
  lemma {:induction false} EarlierWrite(s: State, i: nat)
    requires i < |s.log| - 1 && EventOk(s, i) && WriteCount(s.log) <= |s.writes| + 1 && Writes(s.log[|s.log| - 1])
    ensures Writes(s.log[i]) ==> s.log[i].ver < |s.writes|
  {
    var last := |s.log| - 1;
    if Writes(s.log[i]) {
      WriteCountMonotone(s.log, i + 1, last);
      assert s.log[..i + 1][..i] == s.log[..i];
    }
  }

  lemma {:induction false} LoggedOther(s: State, a: Action)
    requires Locks(s) && Threads(s) && Logged(s) && Enabled(s, a) && !CallsOrWrites(s, a)
    ensures Logged(Next(s, a))
  {
    var s' := Next(s, a);
    HolderOther(s, a);
    forall i | 0 <= i < |s'.log| ensures EventOk(s', i) {
      EventKept(s, s', i);
    }
  }

  predicate CallsOrWrites(s: State, a: Action)
    requires Enabled(s, a)
  {
    a.Step? && var th := s.threads[a.t];
      th.pc.Call? || (th.inSection && (th.pc.Commit? || th.pc.Invalidate?))
  }

  /** The answered call and the renewal under way are as they were; a renewal may just have been admitted. */
  ghost predicate HolderKeeps(s: State, s': State) {
    var h, h' := Holder(s), Holder(s');
    && s'.log == s.log && s'.writes == s.writes && s.heap == s'.heap
    && Pending(h') == Pending(h)
    && (Unreported(h') ==> Unreported(h))
    && (Pending(h') || Unreported(h') ==> forall e :: Answered(e, h.value) ==> Answered(e, h'.value))
    && (Renewing(h) ==> Renewing(h') && h'.value.now == h.value.now && s'.admitted == s.admitted)
    && (!Renewing(h) ==> s'.admitted == s.admitted + if Renewing(h') then [h'.value.now] else [])
  }

  /** Steps that neither call the recipe nor write. */
  lemma {:induction false} HolderOther(s: State, a: Action)
    requires Enabled(s, a) && !CallsOrWrites(s, a)
    requires a.Step? ==> LocksOf(s, a.t) && ThreadOk(s, a.t)
    requires s.flight.Some? ==> s.flight.value < |s.threads| && InFlight(s.threads[s.flight.value].pc)
    ensures HolderKeeps(s, Next(s, a))
  {
    if a.Step? && InFlight(s.threads[a.t].pc) {
      if s.threads[a.t].inSection {
        HolderInSection(s, a.t, a.answer);
      } else {
        HolderSteps(s, a.t, a.answer);
      }
    } else if a.Step? {
      HolderAway(s, a.t, a.answer);
    }
  }

  lemma {:induction false} HolderInSection(s: State, t: Tid, answer: Answer)
    requires Ready(s, t) && !CallsOrWrites(s, Step(t, answer)) && LocksOf(s, t) && ThreadOk(s, t)
    requires InFlight(s.threads[t].pc) && s.threads[t].inSection
    ensures HolderKeeps(s, Advance(s, t, answer))
  {
  }

  lemma {:induction false} HolderSteps(s: State, t: Tid, answer: Answer)
    requires Ready(s, t) && !CallsOrWrites(s, Step(t, answer)) && LocksOf(s, t) && ThreadOk(s, t)
    requires InFlight(s.threads[t].pc) && !s.threads[t].inSection
    ensures HolderKeeps(s, Advance(s, t, answer))
  {
  }

  /** A step of a thread that does not hold the flight lock; it may take it. */
  lemma {:induction false} HolderAway(s: State, t: Tid, answer: Answer)
    requires Ready(s, t) && !InFlight(s.threads[t].pc)
    requires s.flight.Some? ==> s.flight.value < |s.threads| && InFlight(s.threads[s.flight.value].pc)
    ensures HolderKeeps(s, Advance(s, t, answer))
  {
  }

  lemma {:induction false} HealthyStep(s: State, a: Action)
    requires Locks(s) && Register(s) && Threads(s) && Logged(s) && Healthy(s) && Enabled(s, a)
    ensures Healthy(Next(s, a))
  {
    if a.Step? {
      assert LocksOf(s, a.t) && ThreadOk(s, a.t);
      LoginTimeSet(s, a.t, a.answer);
      ErrorReported(s, a.t, a.answer);
    }
  }

  lemma {:induction false} LoginTimeSet(s: State, t: Tid, answer: Answer)
    requires Ready(s, t) && ThreadOk(s, t) && (s.cur.Some? <==> s.lastAuth != ZERO_TIME)
    requires s.threads[t].pc.Invalidate? ==> s.cur.Some?
    ensures var s' := Advance(s, t, answer); s'.cur.Some? <==> s'.lastAuth != ZERO_TIME
  {
  }

  lemma {:induction false} ErrorReported(s: State, t: Tid, answer: Answer)
    requires Ready(s, t) && LocksOf(s, t) && s.lastErr == LastCallError(Reported(s))
    requires s.flight.Some? ==> s.flight.value < |s.threads|
    requires Unreported(Holder(s)) ==> |s.log| > 0 && Answered(s.log[|s.log| - 1], Holder(s).value)
    ensures var s' := Advance(s, t, answer); s'.lastErr == LastCallError(Reported(s'))
  {
    var th := s.threads[t];
    if th.pc.Call? {
      ErrorAwaited(s, t, answer);
    } else if th.inSection && (th.pc.Commit? || th.pc.Fail?) {
      ErrorWritten(s, t, answer);
    } else {
      ErrorKept(s, t, answer);
    }
  }

  /** The call just answered is not yet reported, so the error stays that of the calls before. */
  lemma {:induction false} ErrorAwaited(s: State, t: Tid, answer: Answer)
    requires Ready(s, t) && LocksOf(s, t) && s.threads[t].pc.Call?
    ensures var s' := Advance(s, t, answer);
      s'.lastErr == s.lastErr && Reported(s') == s.log == Reported(s)
  {
    var s' := Advance(s, t, answer);
    assert s'.log[..|s.log|] == s.log;
  }

  lemma {:induction false} ErrorWritten(s: State, t: Tid, answer: Answer)
    requires Ready(s, t) && LocksOf(s, t) && s.threads[t].inSection && (s.threads[t].pc.Commit? || s.threads[t].pc.Fail?)
    requires |s.log| > 0 && Answered(s.log[|s.log| - 1], s.threads[t])
    ensures var s' := Advance(s, t, answer);
      Reported(s') == s.log && s'.lastErr == LastCallError(s.log)
  {
  }

  lemma {:induction false} ErrorKept(s: State, t: Tid, answer: Answer)
    requires Ready(s, t) && LocksOf(s, t)
    requires s.flight.Some? ==> s.flight.value < |s.threads|
    requires var th := s.threads[t]; !th.pc.Call? && !(th.inSection && (th.pc.Commit? || th.pc.Fail?))
    ensures var s' := Advance(s, t, answer);
      s'.lastErr == s.lastErr && s'.log == s.log && Unreported(Holder(s')) == Unreported(Holder(s))
  {
  }

  /** Every step of every thread, whatever the clock and the recipe do, keeps the invariant. */
  lemma {:induction false} InvStep(s: State, a: Action)
    requires Inv(s) && Enabled(s, a)
    ensures Inv(Next(s, a))
  {
    LocksStep(s, a);
    RegisterStep(s, a);
    ThreadsStep(s, a);
    LimitedStep(s, a);
    LoggedStep(s, a);
    HealthyStep(s, a);
  }

  lemma {:induction false} RunInv(states: seq<State>, acts: seq<Action>, i: nat)
    requires Run(states, acts) && i < |states|
    ensures Inv(states[i])
  {
    if i == 0 {
      InitInv(states[0]);
    } else {
      RunInv(states, acts, i - 1);
      assert Link(states[i - 1], acts[i - 1], states[i]);
      InvStep(states[i - 1], acts[i - 1]);
    }
  }
}
