/**
 * Counting allowed requests over time. A fixed-window limiter keeps one number; what it guarantees
 * is about every interval of a window's length, wherever that interval starts. Such an interval can
 * touch two windows of the limiter, which is why the bound of both limiters is twice the limit less
 * one.
 */
module RateWindows {
  import opened Wrappers

  /** How many of `times` fall in the half-open interval from `from` up to `until`. */
  function Count(times: seq<int>, from: int, until: int): nat {
    if times == [] then 0
    else Count(times[..|times| - 1], from, until) + (if from <= times[|times| - 1] < until then 1 else 0)
  }

  function CountFrom(times: seq<int>, from: int): nat {
    if times == [] then 0
    else CountFrom(times[..|times| - 1], from) + (if from <= times[|times| - 1] then 1 else 0)
  }

  ghost predicate AllBefore(times: seq<int>, until: int) {
    forall i :: 0 <= i < |times| ==> times[i] < until
  }

  lemma {:induction false} CountSplits(times: seq<int>, from: int, middle: int, until: int)
    ensures Count(times, from, until) <= Count(times, from, middle) + CountFrom(times, middle)
    ensures Count(times, from, until) <= CountFrom(times, from)
  {
    if times != [] {
      CountSplits(times[..|times| - 1], from, middle, until);
    }
  }

  lemma {:induction false} CountShrinks(times: seq<int>, from: int, later: int, until: int)
    requires from <= later
    ensures CountFrom(times, later) <= CountFrom(times, from)
    ensures Count(times, later, until) <= Count(times, from, until)
  {
    if times != [] {
      CountShrinks(times[..|times| - 1], from, later, until);
    }
  }

  lemma {:induction false} NoneFrom(times: seq<int>, from: int)
    requires AllBefore(times, from)
    ensures CountFrom(times, from) == 0
  {
    if times != [] {
      NoneFrom(times[..|times| - 1], from);
    }
  }

  /** The window a key is in: where it started and how many requests it has admitted. */
  datatype Open = Open(start: int, admitted: nat)

  /** How many fall in the interval of the given length that starts at `from`. */
  function CountIn(times: seq<int>, from: int, length: int): nat {
    Count(times, from, from + length)
  }

  ghost predicate NeverOver(times: seq<int>, windowMs: int, bound: int) {
    forall from: int :: CountIn(times, from, windowMs) <= bound
  }

  lemma CountAppended(times: seq<int>, t: int, from: int, until: int)
    ensures Count(times + [t], from, until) == Count(times, from, until) + (if from <= t < until then 1 else 0)
    ensures CountFrom(times + [t], from) == CountFrom(times, from) + (if from <= t then 1 else 0)
  {
    assert (times + [t])[..|times|] == times;
  }

  /**
   * The most that fits in an interval of a window's length: the tail of one window and all of the
   * next, where the request that opened the first is always too old. Intervals of length one see
   * one window only.
   */
  function LeastBound(windowMs: int, limit: nat): nat {
    if windowMs <= 0 || limit == 0 then 0 else if windowMs == 1 then limit else 2 * limit - 1
  }

  /**
   * What is known at time `now` about the admitted `times` of one key, under a limit. A window opens
   * with a request it admits; with no window open, fewer than `limit` requests are newer than a
   * window's length.
   */
  ghost predicate Metered(times: seq<int>, window: Option<Open>, windowMs: int, limit: nat, now: int) {
    if limit == 0 then times == []
    else
      && NeverOver(times, windowMs, LeastBound(windowMs, limit))
      && match window
         case Some(Open(start, admitted)) =>
           && start <= now && 1 <= admitted <= limit
           && AllBefore(times, start + windowMs)
           && CountFrom(times, start) <= admitted
           && CountFrom(times, start + 1) <= admitted - 1
           && Count(times, start - windowMs + 1, start) <= limit - 1
         case None => AllBefore(times, now) && CountFrom(times, now - windowMs + 1) <= limit - 1
  }

  /** A window that has run out may be forgotten. */
  lemma WindowCloses(times: seq<int>, open: Open, windowMs: int, limit: nat, now: int, later: int)
    requires Metered(times, Some(open), windowMs, limit, now) && now <= later && open.start + windowMs <= later
    ensures Metered(times, None, windowMs, limit, later)
  {
    CountShrinks(times, open.start + 1, later - windowMs + 1, later);
  }

  lemma TimePasses(times: seq<int>, window: Option<Open>, windowMs: int, limit: nat, now: int, later: int)
    requires Metered(times, window, windowMs, limit, now) && now <= later
    ensures Metered(times, window, windowMs, limit, later)
  {
    CountShrinks(times, now - windowMs + 1, later - windowMs + 1, later);
  }

  /** Under a limit of zero nothing is ever admitted, whatever the bucket says. */
  lemma NothingUnderZero(times: seq<int>, window: Option<Open>, other: Option<Open>, windowMs: int, now: int, later: int)
    requires Metered(times, window, windowMs, 0, now)
    ensures Metered(times, other, windowMs, 0, later)
  {
  }

  /** A request that opens a window. */
  lemma FirstAdmitted(times: seq<int>, windowMs: int, limit: nat, now: int)
    requires windowMs > 0 && limit > 0 && Metered(times, None, windowMs, limit, now)
    ensures Metered(times + [now], Some(Open(now, 1)), windowMs, limit, now)
  {
    NoneFrom(times, now);
    CountShrinks(times, now, now + 1, now);
    CountSplits(times, now - windowMs + 1, now, now);
    CountAppended(times, now, now - windowMs + 1, now);
    CountAppended(times, now, now, now);
    CountAppended(times, now, now + 1, now);
    forall from: int
      ensures CountIn(times + [now], from, windowMs) <= LeastBound(windowMs, limit)
    {
      assert CountIn(times, from, windowMs) <= LeastBound(windowMs, limit);
      CountAppended(times, now, from, from + windowMs);
      if from <= now < from + windowMs {
        CountSplits(times, from, from, from + windowMs);
        CountShrinks(times, now - windowMs + 1, from, now);
      }
    }
  }

  /** A request inside an open window. */
  lemma RequestAdmitted(times: seq<int>, open: Open, windowMs: int, limit: nat, now: int)
    requires Metered(times, Some(open), windowMs, limit, now)
    requires now < open.start + windowMs && open.admitted < limit
    ensures Metered(times + [now], Some(Open(open.start, open.admitted + 1)), windowMs, limit, now)
  {
    var start := open.start;
    CountAppended(times, now, start - windowMs + 1, start);
    CountAppended(times, now, start, start);
    CountAppended(times, now, start + 1, start);
    forall from: int
      ensures CountIn(times + [now], from, windowMs) <= LeastBound(windowMs, limit)
    {
      assert CountIn(times, from, windowMs) <= LeastBound(windowMs, limit);
      CountAppended(times, now, from, from + windowMs);
      if from <= now < from + windowMs {
        OneMoreFits(times, open, windowMs, limit, now, from);
      }
    }
  }

  lemma OneMoreFits(times: seq<int>, open: Open, windowMs: int, limit: nat, now: int, from: int)
    requires Metered(times, Some(open), windowMs, limit, now) && open.admitted < limit
    requires open.start <= now < open.start + windowMs && from <= now < from + windowMs
    ensures CountIn(times, from, windowMs) + 1 <= LeastBound(windowMs, limit)
  {
    CountSplits(times, from, open.start, from + windowMs);
    if from <= open.start {
      CountShrinks(times, open.start - windowMs + 1, from, open.start);
    } else {
      CountShrinks(times, open.start + 1, from, from + windowMs);
    }
  }

  /** With no request admitted yet, any window length and any limit are respected. */
  lemma NothingAdmitted(windowMs: int, limit: nat, now: int)
    ensures Metered([], None, windowMs, limit, now)
  {
    assert Count([], 0, 0) == 0 && CountFrom([], 0) == 0;
  }

  /** An interval of no length holds nothing. */
  lemma {:induction false} EmptyInterval(times: seq<int>, from: int, windowMs: int)
    requires windowMs <= 0
    ensures Count(times, from, from + windowMs) == 0
  {
    if times != [] {
      EmptyInterval(times[..|times| - 1], from, windowMs);
    }
  }

  // ---- the same request again and again ----

  function Repeated<T>(x: T, count: nat): seq<T> {
    if count == 0 then [] else Repeated(x, count - 1) + [x]
  }

  lemma {:induction false} CountRepeated(times: seq<int>, t: int, count: nat, from: int, until: int)
    ensures Count(times + Repeated(t, count), from, until)
            == Count(times, from, until) + (if from <= t < until then count else 0)
  {
    if count == 0 {
      assert times + [] == times;
    } else {
      CountRepeated(times, t, count - 1, from, until);
      assert times + Repeated(t, count) == (times + Repeated(t, count - 1)) + [t];
      CountAppended(times + Repeated(t, count - 1), t, from, until);
    }
  }

  /** What a window gives when it is opened at `opens` and used up at `fills`. */
  function Block(opens: int, fills: int, limit: nat): seq<int>
    requires limit > 0
  {
    [opens] + Repeated(fills, limit - 1)
  }

  lemma CountBlock(times: seq<int>, opens: int, fills: int, limit: nat, from: int, until: int)
    requires limit > 0
    ensures Count(times + Block(opens, fills, limit), from, until)
            == Count(times, from, until) + (if from <= opens < until then 1 else 0)
               + (if from <= fills < until then limit - 1 else 0)
  {
    assert times + Block(opens, fills, limit) == (times + [opens]) + Repeated(fills, limit - 1);
    CountAppended(times, opens, from, until);
    CountRepeated(times + [opens], fills, limit - 1, from, until);
  }

  /** Two windows back to back, the first used up at its last moment, reach the bound. */
  lemma TwoBlocksReachBound(windowMs: int, limit: nat)
    requires windowMs > 0 && limit > 0
    ensures CountIn([] + Block(0, windowMs - 1, limit) + Block(windowMs, windowMs, limit), windowMs - 1, windowMs)
            == LeastBound(windowMs, limit)
  {
    var first := [] + Block(0, windowMs - 1, limit);
    CountBlock([], 0, windowMs - 1, limit, windowMs - 1, 2 * windowMs - 1);
    CountBlock(first, windowMs, windowMs, limit, windowMs - 1, 2 * windowMs - 1);
    assert Count([], windowMs - 1, 2 * windowMs - 1) == 0;
  }
}
