/**
 * The store of all identities and its proactive sweep (internal/store/store.go), used by one
 * goroutine. Each identity's calls are runs of the protocol of its own entry.
 */
module Store {
  import opened Basics
  import opened Protocol
  import opened ProtocolInvariant
  import opened ProtocolTheorems
  import opened Sequential
  import E = Entry

  type IdentityHealth = E.IdentityHealth

  /** The range of Go's time.Duration. */
  const MIN_DURATION: Time := -0x8000_0000_0000_0000
  const MAX_DURATION: Time := 0x7fff_ffff_ffff_ffff

  /** time.Time.Sub: saturates instead of overflowing. */
  function Sub(t: Time, u: Time): Time {
    if t - u < MIN_DURATION then MIN_DURATION else if t - u > MAX_DURATION then MAX_DURATION else t - u
  }

  datatype Backoff = WithBackoff(maxBurst: int, window: Time)

  /** The last positive entry, or `default` if there is none. */
  function LastPositive(xs: seq<int>, default: int): int {
    if xs == [] then default
    else if xs[|xs| - 1] > 0 then xs[|xs| - 1]
    else LastPositive(xs[..|xs| - 1], default)
  }

  predicate ExpiresWithin(h: IdentityHealth, now: Time, within: Time) {
    h.established && h.expiresAt != ZERO_TIME && Sub(h.expiresAt, now) < within
  }

  // ---- Names in order ----

  /** The order of strings by their characters. */
  predicate Before(a: string, b: string) {
    b != "" && (a == "" || a[0] < b[0] || (a[0] == b[0] && Before(a[1..], b[1..])))
  }

  lemma {:induction false} BeforeTotal(a: string, b: string)
    ensures Before(a, b) || Before(b, a) || a == b
    ensures !(Before(a, b) && Before(b, a))
  {
    if a != "" && b != "" {
      BeforeTotal(a[1..], b[1..]);
      assert a == [a[0]] + a[1..] && b == [b[0]] + b[1..];
    }
  }

  lemma {:induction false} BeforeTransitive(a: string, b: string, c: string)
    requires Before(a, b) && Before(b, c)
    ensures Before(a, c)
  {
    if a != "" && a[0] == b[0] == c[0] { BeforeTransitive(a[1..], b[1..], c[1..]); }
  }

  ghost predicate Ascending(names: seq<string>) {
    forall i, j :: 0 <= i < j < |names| ==> Before(names[i], names[j])
  }

  function Insert(names: seq<string>, name: string): seq<string> {
    if names == [] || Before(name, names[0]) then [name] + names else [names[0]] + Insert(names[1..], name)
  }

  lemma {:induction false} InsertHolds(names: seq<string>, name: string)
    ensures forall x :: x in Insert(names, name) <==> x == name || x in names
  {
    if names != [] {
      InsertHolds(names[1..], name);
      assert names == [names[0]] + names[1..];
    }
  }

  lemma {:induction false} InsertAscends(names: seq<string>, name: string)
    requires Ascending(names) && name !in names
    ensures Ascending(Insert(names, name))
  {
    if names == [] {
    } else if Before(name, names[0]) {
      forall i | 0 <= i < |names| ensures Before(name, names[i]) {
        if i > 0 { BeforeTransitive(name, names[0], names[i]); }
      }
    } else {
      var rest := Insert(names[1..], name);
      InsertAscends(names[1..], name);
      InsertHolds(names[1..], name);
      BeforeTotal(name, names[0]);
      forall i | 0 <= i < |rest| ensures Before(names[0], rest[i]) {
        assert rest[i] in rest;
      }
    }
  }

  /** The names of a set in ascending order, whatever order the set yields them in. */
  method SortedNames(ids: set<string>) returns (names: seq<string>)
    ensures Ascending(names) && forall id :: id in names <==> id in ids
  {
    names := [];
    var left := ids;
    while left != {}
      invariant left <= ids && Ascending(names) && forall id :: id in names <==> id in ids && id !in left
      decreases |left|
    {
      var id :| id in left;
      InsertHolds(names, id);
      InsertAscends(names, id);
      names, left := Insert(names, id), left - {id};
    }
  }

  // ---- Health reports ----

  /** Before is the lexicographic order: a proper prefix, or smaller at the first difference. */
  lemma {:induction false} BeforeMeans(a: string, b: string)
    ensures Before(a, b) <==>
      exists n :: 0 <= n <= |a| && n < |b| && a[..n] == b[..n] && (n == |a| || a[n] < b[n])
  {
    if Before(a, b) {
      var n := FirstDifference(a, b);
    }
    if n :| 0 <= n <= |a| && n < |b| && a[..n] == b[..n] && (n == |a| || a[n] < b[n]) {
      SmallerAt(a, b, n);
    }
  }

  lemma {:induction false} FirstDifference(a: string, b: string) returns (n: nat)
    requires Before(a, b)
    ensures n <= |a| && n < |b| && a[..n] == b[..n] && (n == |a| || a[n] < b[n])
  {
    n := 0;
    if a != "" && a[0] == b[0] {
      var k := FirstDifference(a[1..], b[1..]);
      n := k + 1;
      assert a[..n] == [a[0]] + a[1..][..k] && b[..n] == [b[0]] + b[1..][..k];
    }
  }

  lemma {:induction false} SmallerAt(a: string, b: string, n: nat)
    requires n <= |a| && n < |b| && a[..n] == b[..n] && (n == |a| || a[n] < b[n])
    ensures Before(a, b)
  {
    if n > 0 {
      assert a[0] == a[..n][0] == b[..n][0] == b[0];
      assert a[1..][..n - 1] == a[..n][1..] && b[1..][..n - 1] == b[..n][1..];
      SmallerAt(a[1..], b[1..], n - 1);
    }
  }

  // ---- Due ----

  /** For every `within` that a Duration can hold, saturation makes no difference. */
  lemma {:induction false} DueMeans(h: IdentityHealth, now: Time, within: Time)
    requires MIN_DURATION < within <= MAX_DURATION
    ensures ExpiresWithin(h, now, within) <==> h.established && h.expiresAt != ZERO_TIME && h.expiresAt < now + within
  {
  }

  /** The entry's session has a known expiry that is closer than `within`. */
  ghost predicate Due(s: State, now: Time, within: Time) {
    && s.cur.Some? && s.cur.value < |s.heap|
    && s.heap[s.cur.value].expiresAt != ZERO_TIME && s.heap[s.cur.value].expiresAt < now + within
  }

  /** Each identity that was due has been refreshed exactly once, and every other is as it was. */
  ghost predicate SweptAll(was: map<string, Snap>, here: map<string, Snap>, now: Time, within: Time, errs: map<string, Error>) {
    was.Keys == here.Keys && forall id :: id in was ==> Swept(id, Due(was[id].0, now, within), was[id].0, was[id].1, here[id].0, here[id].1, errs)
  }

  lemma {:induction false} SweptAllMeans(was: map<string, Snap>, here: map<string, Snap>, now: Time, within: Time, errs: map<string, Error>)
    requires Progress({}, was, here, now, within, errs) && MIN_DURATION < within <= MAX_DURATION
    ensures SweptAll(was, here, now, within, errs)
  {
    forall id | id in was ensures Swept(id, Due(was[id].0, now, within), was[id].0, was[id].1, here[id].0, here[id].1, errs) {
      assert SweptSince(id, was[id], here[id], now, within, errs);
      SweptMeans(id, was[id], here[id], now, within, errs);
    }
  }

  lemma {:induction false} SweptMeans(id: string, was: Snap, here: Snap, now: Time, within: Time, errs: map<string, Error>)
    requires SweptSince(id, was, here, now, within, errs) && MIN_DURATION < within <= MAX_DURATION
    ensures Swept(id, Due(was.0, now, within), was.0, was.1, here.0, here.1, errs)
  {
    DueMeans(E.HealthOf(id, was.0), now, within);
  }

  /** An option that is not positive leaves the last positive one in force. */
  lemma {:induction false} LastPositiveMeans(xs: seq<int>, default: int, i: nat)
    requires i <= |xs| && forall j :: i <= j < |xs| ==> xs[j] <= 0
    ensures LastPositive(xs, default) == if i == 0 then default else LastPositive(xs[..i], default)
    ensures i > 0 && xs[i - 1] > 0 ==> LastPositive(xs, default) == xs[i - 1]
    decreases |xs|
  {
    if i < |xs| {
      var init := xs[..|xs| - 1];
      LastPositiveMeans(init, default, i);
      assert init[..i] == xs[..i];
    } else {
      assert xs[..i] == xs;
    }
  }

  /** `hs` reports on each of `ids` exactly once. */
  ghost predicate Lists(hs: seq<IdentityHealth>, ids: set<string>) {
    if hs == [] then ids == {} else hs[0].name in ids && Lists(hs[1..], ids - {hs[0].name})
  }

  lemma {:induction false} ListsNames(hs: seq<IdentityHealth>, names: seq<string>, ids: set<string>)
    requires |hs| == |names| && forall k :: 0 <= k < |hs| ==> hs[k].name == names[k]
    requires Ascending(names) && forall id :: id in ids <==> id in names
    ensures Lists(hs, ids)
  {
    if hs == [] {
      assert forall id :: id !in ids;
    } else {
      assert names == [names[0]] + names[1..];
      BeforeTotal(names[0], names[0]);
      ListsNames(hs[1..], names[1..], ids - {hs[0].name});
    }
  }

  /**
   * As long as the last write of an entry is the invalidation by a failed Refresh, whatever else
   * happens, every sweep finds the identity due.
   */
  lemma {:induction false} InvalidatedIsDue(s: State, name: string, now: Time, within: Time)
    requires Reachable(s) && s.writes != [] && s.writes[|s.writes| - 1].Invalidated?
    requires now > LONG_AGO && within > 0
    ensures s.cur.Some? && s.cur.value < |s.heap| && s.heap[s.cur.value].expiresAt == LONG_AGO
    ensures ExpiresWithin(E.HealthOf(name, s), now, within)
  {
    ReachableRegister(s);
    assert CopyOf(s, |s.writes| - 1);
  }

  lemma {:induction false} ReachableRegister(s: State)
    requires Reachable(s)
    ensures Register(s)
  {
    ReachableInv(s);
  }

  /** In particular right after a Refresh that ran by itself and failed. */
  lemma {:induction false} FailedRefreshIsDue(s: State, s': State, text: string, name: string, now: Time, within: Time)
    requires Register(s) && Register(s') && s.heap <= s'.heap && s.cur.Some?
    requires SoloOutcome(s, s', Refresh, Err(RecipeError(text)))
    requires now > LONG_AGO && within > 0
    ensures s'.cur.Some? && s'.cur.value < |s'.heap| && ExpiresWithin(E.HealthOf(name, s'), now, within)
  {
    FailedRefreshLeavesStale(s, s', text);
  }

  /** An entry between calls that nobody else uses, with the store's limits. */
  ghost predicate Quiet(e: E.Entry, cfg: Config)
    reads e, e.stampList, e.stampList.buf
  {
    e.Valid() && e.alone && e.Idle() && e.m.cfg == cfg
  }

  ghost predicate Apart(e: E.Entry, e': E.Entry)
    reads e.stampList, e'.stampList
  {
    e != e' && e.stampList != e'.stampList && e.stampList.buf != e'.stampList.buf
  }

  /** No entry is in use and none shares its stamps with another. */
  ghost predicate AllQuiet(es: map<string, E.Entry>, cfg: Config)
    reads es.Values, set id | id in es :: es[id].stampList, set id | id in es :: es[id].stampList.buf
  {
    && (forall id {:trigger Quiet(es[id], cfg)} :: id in es ==> Quiet(es[id], cfg))
    && (forall id, id' {:trigger Apart(es[id], es[id'])} :: id in es && id' in es && id != id' ==> Apart(es[id], es[id']))
  }

  lemma {:induction false} OneMoreQuiet(es: map<string, E.Entry>, cfg: Config, id: string, e: E.Entry)
    requires AllQuiet(es, cfg) && id !in es && Quiet(e, cfg)
    requires forall id' :: id' in es ==> Apart(e, es[id'])
    ensures AllQuiet(es[id := e], cfg)
  {
    var es' := es[id := e];
    forall id' | id' in es' ensures Quiet(es'[id'], cfg) {
      if id' != id { assert Quiet(es[id'], cfg); }
    }
    forall id1, id2 | id1 in es' && id2 in es' && id1 != id2 ensures Apart(es'[id1], es'[id2]) {
      if id1 != id && id2 != id { assert Apart(es[id1], es[id2]); }
    }
  }

  /** Between these two states one call of Refresh has run, alone, to result `r`. */
  ghost predicate Refreshed(s: State, acts: seq<Action>, s': State, acts': seq<Action>, r: Result) {
    && acts + [Start(Refresh)] <= acts' && s'.threads != [] && OnlyStepsOf(acts', |acts| + 1, |s'.threads| - 1)
    && var th := s'.threads[|s'.threads| - 1];
       th.kind == Refresh && th.pc == Done(r) && SoloOutcome(s, s', Refresh, r)
  }

  /** A due identity is refreshed exactly once, and its error reported if that failed; any other is left alone. */
  ghost predicate Swept(id: string, due: bool, s: State, acts: seq<Action>, s': State, acts': seq<Action>, errs: map<string, Error>) {
    if due then
      && s'.threads != [] && var th := s'.threads[|s'.threads| - 1];
      && th.pc.Done? && Refreshed(s, acts, s', acts', th.pc.result)
      && (id in errs <==> th.pc.result.Err?) && (id in errs ==> errs[id] == th.pc.result.error)
    else
      s' == s && acts' == acts && id !in errs
  }

  type Snap = (State, seq<Action>)

  /** A sweep that began at `was` and has come to `here` has dealt with all identities but those in `left`. */
  ghost predicate Progress(left: set<string>, was: map<string, Snap>, here: map<string, Snap>,
                           now: Time, within: Time, errs: map<string, Error>)
  {
    && was.Keys == here.Keys && left <= was.Keys && errs.Keys <= was.Keys - left
    && (forall id :: id in left ==> here[id] == was[id])
    && (forall id :: id in was && id !in left ==> SweptSince(id, was[id], here[id], now, within, errs))
  }

  ghost predicate SweptSince(id: string, was: Snap, here: Snap, now: Time, within: Time, errs: map<string, Error>) {
    Swept(id, ExpiresWithin(E.HealthOf(id, was.0), now, within), was.0, was.1, here.0, here.1, errs)
  }

  /** `todo` are the reports, made at `was`, on the identities in `left`. */
  ghost predicate Reports(todo: seq<IdentityHealth>, left: set<string>, was: map<string, Snap>) {
    Lists(todo, left) && forall h {:trigger h in todo} :: h in todo ==> h.name in was && h == E.HealthOf(h.name, was[h.name].0)
  }

  lemma {:induction false} NextReport(todo: seq<IdentityHealth>, left: set<string>, was: map<string, Snap>)
    requires Reports(todo, left, was) && todo != []
    ensures var h := todo[0]; h.name in left && h.name in was && h == E.HealthOf(h.name, was[h.name].0)
    ensures Reports(todo[1..], left - {todo[0].name}, was)
  {
    assert todo[0] in todo;
    forall h | h in todo[1..] ensures h in todo {
    }
  }

  lemma {:induction false} OneSwept(name: string, left: set<string>, was: map<string, Snap>, here: map<string, Snap>, here': map<string, Snap>,
                                    now: Time, within: Time, errs: map<string, Error>, errs': map<string, Error>)
    requires Progress(left, was, here, now, within, errs) && name in left
    requires here'.Keys == here.Keys && forall id :: id in here && id != name ==> here'[id] == here[id]
    requires errs'.Keys <= errs.Keys + {name} && forall id :: id != name && id in errs ==> id in errs' && errs'[id] == errs[id]
    requires SweptSince(name, was[name], here'[name], now, within, errs')
    ensures Progress(left - {name}, was, here', now, within, errs')
  {
    forall id | id in was && id !in left - {name} ensures SweptSince(id, was[id], here'[id], now, within, errs') {
      if id != name { assert SweptSince(id, was[id], here[id], now, within, errs); }
    }
  }

  twostate predicate Kept(e: E.Entry)
    reads e, e.stampList
  {
    e.m == old(e.m) && e.acts == old(e.acts) && e.stampList.buf == old(e.stampList.buf)
  }

  method NewEntry(cfg: Config) returns (e: E.Entry)
    requires cfg.maxBurst > 0 && cfg.window > 0
    ensures Quiet(e, cfg) && e.m.cur == None
    ensures fresh(e) && fresh(e.stampList) && fresh(e.stampList.buf)
  {
    e := new E.Entry(cfg, true);
  }

  method CallRefresh(e: E.Entry, ghost cfg: Config) returns (r: Result)
    requires Quiet(e, cfg)
    modifies e, e.stampList, e.stampList.buf
    ensures Quiet(e, cfg) && Refreshed(old(e.m), old(e.acts), e.m, e.acts, r)
    ensures e.stampList.buf == old(e.stampList.buf) || fresh(e.stampList.buf)
  {
    var me;
    r, me := e.Refresh();
  }

  class Store {
    var entries: map<string, E.Entry>
    var maxBurst: nat
    var window: Time

    /** What every call of the store hands to the limiter. */
    function Limits(): Config
      reads this
    {
      Config(maxBurst, window)
    }

    ghost predicate Valid()
      reads this, entries.Values, set id | id in entries :: entries[id].stampList,
        set id | id in entries :: entries[id].stampList.buf
    {
      && maxBurst > 0 && window > 0
      && AllQuiet(entries, Limits())
    }

    /** Options apply in order; a ceiling or a window that is not positive leaves the one before. */
    constructor (options: seq<Backoff>)
      ensures Valid() && entries == map[]
      ensures maxBurst == LastPositive(seq(|options|, i requires 0 <= i < |options| => options[i].maxBurst), 10)
      ensures window == LastPositive(seq(|options|, i requires 0 <= i < |options| => options[i].window), 60 * SECOND)
    {
      entries := map[];
      maxBurst, window := 10, 60 * SECOND;
      new;
      ghost var bursts := seq(|options|, i requires 0 <= i < |options| => options[i].maxBurst);
      ghost var windows := seq(|options|, i requires 0 <= i < |options| => options[i].window);
      for i := 0 to |options|
        invariant entries == map[] && maxBurst > 0 && window > 0
        invariant maxBurst == LastPositive(bursts[..i], 10) && window == LastPositive(windows[..i], 60 * SECOND)
      {
        assert bursts[..i + 1][..i] == bursts[..i] && windows[..i + 1][..i] == windows[..i];
        if options[i].maxBurst > 0 { maxBurst := options[i].maxBurst; }
        if options[i].window > 0 { window := options[i].window; }
      }
      assert bursts[..|options|] == bursts && windows[..|options|] == windows;
    }

    method Register(id: string)
      requires Valid() && id !in entries
      modifies this`entries
      ensures Valid() && id in entries && fresh(entries[id]) && entries == old(entries)[id := entries[id]]
      ensures entries[id].m.cfg == Limits() && entries[id].m.cur == None
    {
      var e := NewEntry(Limits());
      forall id' | id' in entries ensures Quiet(entries[id'], Limits()) && Apart(e, entries[id']) {
        assert old(Quiet(entries[id'], Limits()));
      }
      OneMoreQuiet(entries, Limits(), id, e);
      entries := entries[id := e];
    }

    /** The registered names in a stable order. */
    method Identities() returns (ids: seq<string>)
      ensures Ascending(ids) && forall id :: id in ids <==> id in entries
    {
      ids := SortedNames(entries.Keys);
    }

    /** A snapshot of every identity, each exactly once and by name; it makes no recipe call. */
    method Health() returns (out: seq<IdentityHealth>)
      requires Valid()
      ensures Lists(out, entries.Keys)
      ensures forall i, j :: 0 <= i < j < |out| ==> Before(out[i].name, out[j].name)
      ensures forall h :: h in out ==> h.name in entries && h == E.HealthOf(h.name, entries[h.name].m)
    {
      out := [];
      var ids := SortedNames(entries.Keys);
      for i := 0 to |ids|
        invariant |out| == i && forall k :: 0 <= k < i ==> out[k].name == ids[k]
        invariant forall h :: h in out ==> h.name in entries && h == E.HealthOf(h.name, entries[h.name].m)
      {
        var h := HealthOfEntry(ids[i]);
        out := out + [h];
      }
      ListsNames(out, ids, entries.Keys);
    }

    method HealthOfEntry(id: string) returns (h: IdentityHealth)
      requires Valid() && id in entries
      ensures h == E.HealthOf(id, entries[id].m)
    {
      assert Quiet(entries[id], Limits());
      h := entries[id].Health(id);
    }

    method RefreshOne(id: string) returns (r: Result)
      requires Valid() && id in entries
      modifies entries[id], entries[id].stampList, entries[id].stampList.buf
      ensures Valid() && Refreshed(old(entries[id].m), old(entries[id].acts), entries[id].m, entries[id].acts, r)
      ensures entries[id].stampList.buf == old(entries[id].stampList.buf) || fresh(entries[id].stampList.buf)
      ensures forall id' :: id' in entries && id' != id ==> Kept(entries[id'])
    {
      var e := entries[id];
      assert Quiet(e, Limits());
      forall id' | id' in entries && id' != id ensures Quiet(entries[id'], Limits()) && Apart(e, entries[id']) {
        assert Quiet(entries[id'], Limits()) && Apart(e, entries[id']);
      }
      r := CallRefresh(e, Limits());
      forall id' | id' in entries && id' != id ensures Quiet(entries[id'], Limits()) && Kept(entries[id']) {
        assert old(Quiet(entries[id'], Limits())) && old(Apart(e, entries[id']));
      }
      OneUsed(id);
    }

    /** One entry has been used, and the others are as they were. */
    twostate lemma OneUsed(id: string)
      requires entries == old(entries)
      requires id in entries && Quiet(entries[id], Limits())
      requires old(AllQuiet(entries, Limits()))
      requires entries[id].stampList.buf == old(entries[id].stampList.buf) || fresh(entries[id].stampList.buf)
      requires forall id' :: id' in entries && id' != id ==> Quiet(entries[id'], Limits()) && Kept(entries[id'])
      ensures AllQuiet(entries, Limits())
    {
      forall id1, id2 | id1 in entries && id2 in entries && id1 != id2 ensures Apart(entries[id1], entries[id2]) {
        assert old(Apart(entries[id1], entries[id2]));
        assert id1 != id ==> Kept(entries[id1]);
        assert id2 != id ==> Kept(entries[id2]);
      }
    }

    /** Where each identity's entry is. */
    ghost function Snapshot(): map<string, Snap>
      reads this, entries.Values
    {
      map id | id in entries :: (entries[id].m, entries[id].acts)
    }

    ghost function SnapOf(id: string): Snap
      requires id in entries
      reads this, entries[id]
    {
      (entries[id].m, entries[id].acts)
    }

    /** Refreshes the identity that `h` reports on, if it is due. */
    method SweepOne(h: IdentityHealth, now: Time, within: Time, errs: map<string, Error>) returns (errs': map<string, Error>)
      requires Valid() && h.name in entries && h.name !in errs && h == E.HealthOf(h.name, entries[h.name].m)
      modifies entries[h.name], entries[h.name].stampList, entries[h.name].stampList.buf
      ensures Valid() && (errs' == errs || (h.name in errs' && errs' == errs[h.name := errs'[h.name]]))
      ensures SweptSince(h.name, old(SnapOf(h.name)), SnapOf(h.name), now, within, errs')
      ensures forall id :: id in entries && id != h.name ==> Kept(entries[id])
    {
      errs' := errs;
      if ExpiresWithin(h, now, within) {
        var r := RefreshOne(h.name);
        if r.Err? { errs' := errs[h.name := r.error]; }
      }
    }

    /** The same, as progress of the sweep. */
    method SweepNext(h: IdentityHealth, now: Time, within: Time, errs: map<string, Error>,
                     ghost left: set<string>, ghost was: map<string, Snap>)
      returns (errs': map<string, Error>)
      requires Valid() && Progress(left, was, Snapshot(), now, within, errs)
      requires h.name in left && h == E.HealthOf(h.name, was[h.name].0)
      modifies entries[h.name], entries[h.name].stampList, entries[h.name].stampList.buf
      ensures Valid() && Progress(left - {h.name}, was, Snapshot(), now, within, errs')
      ensures forall id :: id in entries && id != h.name ==> Kept(entries[id])
    {
      ghost var before := Snapshot();
      assert before[h.name] == was[h.name] == SnapOf(h.name);
      errs' := SweepOne(h, now, within, errs);
      ghost var after := Snapshot();
      forall id | id in before && id != h.name ensures after[id] == before[id] {
        assert Kept(entries[id]);
      }
      OneSwept(h.name, left, was, before, after, now, within, errs, errs');
    }

    /** Refreshes every established identity whose known expiry is closer than `within`. */
    method RefreshExpiring(now: Time, within: Time) returns (errs: map<string, Error>)
      requires Valid()
      modifies entries.Values, set id | id in entries :: entries[id].stampList, set id | id in entries :: entries[id].stampList.buf
      ensures Valid() && errs.Keys <= entries.Keys
      ensures forall id :: id in entries ==> SweptSince(id, old(Snapshot())[id], Snapshot()[id], now, within, errs)
      ensures MIN_DURATION < within <= MAX_DURATION ==> SweptAll(old(Snapshot()), Snapshot(), now, within, errs)
    {
      var todo := Health();
      ghost var was := Snapshot();
      errs := SweepThrough(todo, now, within);
      if MIN_DURATION < within <= MAX_DURATION { SweptAllMeans(was, Snapshot(), now, within, errs); }
    }

    method SweepThrough(reports: seq<IdentityHealth>, now: Time, within: Time) returns (errs: map<string, Error>)
      requires Valid() && Reports(reports, entries.Keys, Snapshot())
      modifies entries.Values, set id | id in entries :: entries[id].stampList, set id | id in entries :: entries[id].stampList.buf
      ensures Valid() && Progress({}, old(Snapshot()), Snapshot(), now, within, errs)
    {
      errs := map[];
      var todo := reports;
      ghost var left, was := entries.Keys, Snapshot();
      while todo != []
        invariant Valid() && Reports(todo, left, was) && Progress(left, was, Snapshot(), now, within, errs)
        invariant forall id :: id in left ==> entries[id].stampList.buf == old(entries[id].stampList.buf)
        decreases |todo|
      {
        var h := todo[0];
        NextReport(todo, left, was);
        errs := SweepNext(h, now, within, errs, left, was);
        todo, left := todo[1..], left - {h.name};
      }
    }
  }
}
