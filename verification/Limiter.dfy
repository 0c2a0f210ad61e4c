/** The per-identity refresh limiter (internal/store/store.go). */
module Limiter {
  import opened Basics

  /** How many of `ts` lie in the half-open interval [lo, hi). */
  function Count(ts: seq<Time>, lo: Time, hi: Time): nat {
    if ts == [] then 0
    else Count(ts[..|ts| - 1], lo, hi) + if lo <= ts[|ts| - 1] < hi then 1 else 0
  }

  /** The stamps strictly after `cutoff`, in order. */
  function Prune(ts: seq<Time>, cutoff: Time): seq<Time> {
    if ts == [] then []
    else
      var kept := Prune(ts[..|ts| - 1], cutoff);
      if ts[|ts| - 1] > cutoff then kept + [ts[|ts| - 1]] else kept
  }

  /** One consultation of the limiter: the verdict and the stamps it leaves. */
  function Admit(stamps: seq<Time>, maxBurst: nat, window: Time, now: Time): (bool, seq<Time>) {
    var kept := Prune(stamps, now - window);
    if |kept| >= maxBurst then (false, kept) else (true, kept + [now])
  }

  ghost predicate Sorted(ts: seq<Time>) {
    forall i, j :: 0 <= i <= j < |ts| ==> ts[i] <= ts[j]
  }

  /** Admissions `maxBurst` apart are at least a window apart. */
  ghost predicate Spaced(ts: seq<Time>, maxBurst: nat, window: Time) {
    forall i :: SpacedAt(ts, maxBurst, window, i)
  }

  ghost predicate SpacedAt(ts: seq<Time>, maxBurst: nat, window: Time, i: int) {
    0 <= i && i + maxBurst < |ts| ==> ts[i] + window <= ts[i + maxBurst]
  }

  /**
   * `stamps`, the pruned list, stands for `history`, every admission ever made, for a limiter
   * that is next consulted at `now` or later: it is a suffix, and whatever was pruned away had
   * left the window by then.
   */
  ghost predicate Represents(stamps: seq<Time>, history: seq<Time>, maxBurst: nat, window: Time, now: Time) {
    && |stamps| <= maxBurst && |stamps| <= |history|
    && stamps == history[|history| - |stamps|..]
    && Sorted(history) && Spaced(history, maxBurst, window)
    && (forall i :: 0 <= i < |history| ==> history[i] <= now)
    && (forall i :: 0 <= i < |history| - |stamps| ==> history[i] <= now - window)
  }

  lemma RepresentsLater(stamps: seq<Time>, history: seq<Time>, maxBurst: nat, window: Time, now: Time, later: Time)
    requires Represents(stamps, history, maxBurst, window, now) && now <= later
    ensures Represents(stamps, history, maxBurst, window, later)
  {
  }

  lemma {:induction false} CountConcat(a: seq<Time>, b: seq<Time>, lo: Time, hi: Time)
    ensures Count(a + b, lo, hi) == Count(a, lo, hi) + Count(b, lo, hi)
  {
    if b == [] {
      assert a + b == a;
    } else {
      assert (a + b)[..|a + b| - 1] == a + b[..|b| - 1];
      CountConcat(a, b[..|b| - 1], lo, hi);
    }
  }

  lemma {:induction false} CountNone(ts: seq<Time>, lo: Time, hi: Time)
    requires forall i :: 0 <= i < |ts| ==> !(lo <= ts[i] < hi)
    ensures Count(ts, lo, hi) == 0
  {
    if ts != [] { CountNone(ts[..|ts| - 1], lo, hi); }
  }

  lemma {:induction false} CountAtMostLength(ts: seq<Time>, lo: Time, hi: Time)
    ensures Count(ts, lo, hi) <= |ts|
  {
    if ts != [] { CountAtMostLength(ts[..|ts| - 1], lo, hi); }
  }

  lemma {:induction false} CountSplit(ts: seq<Time>, lo: Time, mid: Time, hi: Time)
    requires lo <= mid <= hi
    ensures Count(ts, lo, hi) == Count(ts, lo, mid) + Count(ts, mid, hi)
  {
    if ts != [] { CountSplit(ts[..|ts| - 1], lo, mid, hi); }
  }

  lemma {:induction false} PruneCounts(ts: seq<Time>, cutoff: Time, now: Time)
    requires forall i :: 0 <= i < |ts| ==> ts[i] <= now
    ensures |Prune(ts, cutoff)| == Count(ts, cutoff + 1, now + 1) <= |ts|
  {
    if ts != [] { PruneCounts(ts[..|ts| - 1], cutoff, now); }
  }

  lemma {:induction false} PruneAll(ts: seq<Time>, cutoff: Time)
    requires forall i :: 0 <= i < |ts| ==> ts[i] <= cutoff
    ensures Prune(ts, cutoff) == []
  {
    if ts != [] { PruneAll(ts[..|ts| - 1], cutoff); }
  }

  lemma {:induction false} PruneDropsPrefix(ts: seq<Time>, cutoff: Time, d: nat)
    requires d <= |ts|
    requires forall i :: 0 <= i < d ==> ts[i] <= cutoff
    requires forall i :: d <= i < |ts| ==> ts[i] > cutoff
    ensures Prune(ts, cutoff) == ts[d..]
  {
    if d == |ts| {
      PruneAll(ts, cutoff);
    } else {
      var n := |ts| - 1;
      PruneDropsPrefix(ts[..n], cutoff, d);
      assert Prune(ts, cutoff) == ts[..n][d..] + [ts[n]];
      assert ts[..n][d..] == ts[d..n];
      assert ts[d..n] + [ts[n]] == ts[d..];
    }
  }

  /** On a sorted list pruning drops a prefix. */
  lemma {:induction false} PruneIsSuffix(ts: seq<Time>, cutoff: Time) returns (d: nat)
    requires Sorted(ts)
    ensures d <= |ts| && Prune(ts, cutoff) == ts[d..]
    ensures forall i :: 0 <= i < d ==> ts[i] <= cutoff
  {
    d := |ts|;
    while d > 0 && ts[d - 1] > cutoff
      invariant 0 <= d <= |ts|
      invariant forall i :: d <= i < |ts| ==> ts[i] > cutoff
    {
      d := d - 1;
    }
    PruneDropsPrefix(ts, cutoff, d);
  }

  lemma {:induction false} CountOfSuffix(history: seq<Time>, gone: nat, cutoff: Time, now: Time)
    requires gone <= |history| && forall i :: 0 <= i < gone ==> history[i] <= cutoff
    ensures Count(history, cutoff + 1, now + 1) == Count(history[gone..], cutoff + 1, now + 1)
  {
    assert history == history[..gone] + history[gone..];
    CountConcat(history[..gone], history[gone..], cutoff + 1, now + 1);
    CountNone(history[..gone], cutoff + 1, now + 1);
  }

  /** Pruning the list that stands for the history keeps exactly what is still in the window. */
  lemma {:induction false} PruneOfSuffix(stamps: seq<Time>, history: seq<Time>, cutoff: Time, now: Time) returns (gone: nat)
    requires Sorted(history) && |stamps| <= |history| && stamps == history[|history| - |stamps|..]
    requires forall i :: 0 <= i < |history| ==> history[i] <= now
    requires forall i :: 0 <= i < |history| - |stamps| ==> history[i] <= cutoff
    ensures |history| - |stamps| <= gone <= |history| && Prune(stamps, cutoff) == history[gone..]
    ensures |history| - gone == Count(history, cutoff + 1, now + 1)
    ensures forall i :: 0 <= i < gone ==> history[i] <= cutoff
  {
    var before := |history| - |stamps|;
    var d := PruneIsSuffix(stamps, cutoff);
    gone := before + d;
    assert stamps[d..] == history[gone..];
    forall i | 0 <= i < gone ensures history[i] <= cutoff {
      if i >= before { assert history[i] == stamps[i - before]; }
    }
    PruneCounts(stamps, cutoff, now);
    CountOfSuffix(history, before, cutoff, now);
  }

  /**
   * The pruned list decides exactly as the full history would: a refresh is admitted if and only
   * if fewer than `maxBurst` admissions ever made are later than now - window. A rejection
   * leaves the history as it was, and either way the new list again represents the new history.
   */
  lemma {:induction false} AdmitMatchesHistory(stamps: seq<Time>, history: seq<Time>, maxBurst: nat, window: Time, now: Time)
    requires maxBurst > 0 && Represents(stamps, history, maxBurst, window, now)
    ensures var (admitted, stamps') := Admit(stamps, maxBurst, window, now);
            && (admitted <==> Count(history, now - window + 1, now + 1) < maxBurst)
            && Represents(stamps', if admitted then history + [now] else history, maxBurst, window, now)
  {
    var gone := PruneOfSuffix(stamps, history, now - window, now);
    var kept := Prune(stamps, now - window);
    assert |history| - |kept| == gone;
    if |kept| < maxBurst { AdmitExtends(kept, history, maxBurst, window, now); }
  }

  lemma {:induction false} AdmitVerdict(stamps: seq<Time>, history: seq<Time>, maxBurst: nat, window: Time, now: Time)
    requires maxBurst > 0 && Represents(stamps, history, maxBurst, window, now)
    ensures Admit(stamps, maxBurst, window, now).0 <==> Count(history, now - window + 1, now + 1) < maxBurst
  {
    AdmitMatchesHistory(stamps, history, maxBurst, window, now);
  }

  lemma {:induction false} AdmitExtends(kept: seq<Time>, history: seq<Time>, maxBurst: nat, window: Time, now: Time)
    requires |kept| < maxBurst && Represents(kept, history, maxBurst, window, now)
    ensures Represents(kept + [now], history + [now], maxBurst, window, now)
  {
    var history' := history + [now];
    assert kept + [now] == history'[|history'| - |kept + [now]|..];
    forall i ensures SpacedAt(history', maxBurst, window, i) {
      assert SpacedAt(history, maxBurst, window, i);
    }
  }

  /** Any half-open interval as long as the window holds at most `maxBurst` admissions. */
  lemma {:induction false} WindowBound(history: seq<Time>, maxBurst: nat, window: Time, from: Time)
    requires window > 0 && Sorted(history) && Spaced(history, maxBurst, window)
    ensures Count(history, from, from + window) <= maxBurst
  {
    var n := |history|;
    if n == 0 {
    } else if !(from <= history[n - 1] < from + window) {
      var init := history[..n - 1];
      assert Spaced(init, maxBurst, window) by {
        forall i ensures SpacedAt(init, maxBurst, window, i) {
          assert SpacedAt(history, maxBurst, window, i);
        }
      }
      WindowBound(init, maxBurst, window, from);
    } else if n <= maxBurst {
      CountAtMostLength(history, from, from + window);
    } else {
      RecentBound(history, maxBurst, window, from);
    }
  }

  lemma {:induction false} RecentBound(history: seq<Time>, maxBurst: nat, window: Time, from: Time)
    requires window > 0 && Sorted(history) && Spaced(history, maxBurst, window)
    requires |history| > maxBurst && history[|history| - 1] < from + window
    ensures Count(history, from, from + window) <= maxBurst
  {
    var n := |history|;
    var early, recent := history[..n - maxBurst], history[n - maxBurst..];
    assert history == early + recent;
    CountConcat(early, recent, from, from + window);
    CountAtMostLength(recent, from, from + window);
    var last := n - 1 - maxBurst;
    assert SpacedAt(history, maxBurst, window, last);
    forall i | 0 <= i < |early| ensures early[i] < from {
      assert history[i] <= history[last];
    }
    CountNone(early, from, from + window);
  }

  /** Windows needed to cover a span: its length over the window's, rounded up. */
  function Windows(span: Time, window: Time): nat
    requires window > 0
  {
    if span <= 0 then 0 else 1 + Windows(span - window, window)
  }

  lemma {:induction false} WindowsIsCeiling(span: Time, window: Time)
    requires window > 0
    ensures span > 0 ==> (Windows(span, window) - 1) * window < span <= Windows(span, window) * window
  {
    if span > 0 {
      WindowsIsCeiling(span - window, window);
      var w := Windows(span - window, window);
      assert (w + 1) * window == w * window + window;
      assert (w - 1) * window == w * window - window;
    }
  }

  /** Any half-open span holds at most `maxBurst` admissions for each window, whole or begun. */
  lemma {:induction false} SpanBound(history: seq<Time>, maxBurst: nat, window: Time, from: Time, span: Time)
    requires window > 0 && Sorted(history) && Spaced(history, maxBurst, window)
    ensures Count(history, from, from + span) <= maxBurst * Windows(span, window)
    decreases Windows(span, window)
  {
    if span <= 0 {
      CountNone(history, from, from + span);
    } else {
      var w := Windows(span - window, window);
      assert maxBurst * (w + 1) == maxBurst * w + maxBurst;
      WindowBound(history, maxBurst, window, from);
      if span <= window {
        CountSplit(history, from, from + span, from + window);
      } else {
        CountSplit(history, from, from + window, from + span);
        SpanBound(history, maxBurst, window, from + window, span - window);
      }
    }
  }

  /** The slice of recent refresh times: a backing array and a length, filtered and extended in place. */
  class StampBuffer {
    var buf: array<Time>
    var len: nat

    ghost predicate Valid()
      reads this
    {
      len <= buf.Length
    }

    ghost function Contents(): seq<Time>
      requires Valid()
      reads this, buf
    {
      buf[..len]
    }

    constructor ()
      ensures Valid() && Contents() == [] && fresh(buf)
    {
      buf, len := new Time[0], 0;
    }

    /** Filters in place: the write position never passes the read position. */
    method PruneOlderThan(cutoff: Time)
      requires Valid()
      modifies this`len, buf
      ensures Valid() && buf == old(buf)
      ensures Contents() == Prune(old(Contents()), cutoff)
    {
      ghost var before := buf[..len];
      var out := 0;
      for i := 0 to len
        invariant out <= i && len == |before| <= buf.Length
        invariant buf[..out] == Prune(before[..i], cutoff)
        invariant forall k :: i <= k < len ==> buf[k] == before[k]  // nothing unread is overwritten
      {
        assert before[..i + 1][..i] == before[..i];
        assert buf[i] == before[i];
        if buf[i] > cutoff {
          buf[out] := buf[i];
          out := out + 1;
        }
      }
      assert before[..len] == before;
      len := out;
    }

    /** Appends in place, moving to a larger array when the present one is full. */
    method Append(t: Time)
      requires Valid()
      modifies this, buf
      ensures Valid() && (buf == old(buf) || fresh(buf))
      ensures Contents() == old(Contents()) + [t]
    {
      if len == buf.Length {
        var bigger := new Time[2 * len + 1];
        for i := 0 to len
          invariant len == old(len) && buf == old(buf) && len < bigger.Length && Valid()
          invariant bigger[..i] == buf[..i] && buf[..] == old(buf[..])
        {
          bigger[i] := buf[i];
        }
        buf := bigger;
      }
      buf[len] := t;
      len := len + 1;
    }

    /** Takes over the stamps that another thread left behind. */
    method Load(ts: seq<Time>)
      modifies this
      ensures Valid() && fresh(buf) && Contents() == ts
    {
      buf, len := new Time[|ts|](i requires 0 <= i < |ts| => ts[i]), |ts|;
    }

    /** Consults the limiter; a refused attempt leaves no stamp. */
    method RateLimited(maxBurst: nat, window: Time, now: Time) returns (limited: bool)
      requires Valid()
      modifies this, buf
      ensures Valid() && (buf == old(buf) || fresh(buf))
      ensures (!limited, Contents()) == Admit(old(Contents()), maxBurst, window, now)
    {
      PruneOlderThan(now - window);
      limited := len >= maxBurst;
      if !limited {
        Append(now);
      }
    }
  }
}
