/**
 * The promise-chain mutex (apps/web/src/lib/group-sender-key-lock-runtime.ts).
 */
module SenderKeyLock {
  import opened Wrappers

  // It guards a device's own sender key. A promise is a ticket; a call waits for the promise it found
  // in the map under its key and leaves its own there for the next call.

  datatype LockKey = LockKey(groupId: string, senderDeviceId: string)

  datatype Locks = Locks(tails: map<LockKey, nat>, settled: set<nat>, next: nat)

  function Previous(l: Locks, key: LockKey): Option<nat> {
    if key in l.tails then Some(l.tails[key]) else None
  }

  function Requested(l: Locks, key: LockKey): Locks {
    Locks(l.tails[key := l.next], l.settled, l.next + 1)
  }

  function Released(l: Locks, key: LockKey, current: nat): Locks {
    Locks(if Previous(l, key) == Some(current) then l.tails - {key} else l.tails, l.settled + {current}, l.next)
  }

  class LockTable {
    var localSenderKeyLocks: map<LockKey, nat>
    var settled: set<nat>
    var next: nat

    constructor ()
      ensures View() == Locks(map[], {}, 0)
    {
      localSenderKeyLocks, settled, next := map[], {}, 0;
    }

    function View(): Locks
      reads this
    {
      Locks(localSenderKeyLocks, settled, next)
    }

    /** What a call does before it waits for `previous`. */
    method Request(key: LockKey) returns (previous: Option<nat>, current: nat)
      modifies this
      ensures View() == Requested(old(View()), key)
      ensures previous == Previous(old(View()), key) && current == old(View()).next
    {
      previous := if key in localSenderKeyLocks then Some(localSenderKeyLocks[key]) else None;
      current := next;
      next := next + 1;
      localSenderKeyLocks := localSenderKeyLocks[key := current];
    }

    /** What it does when its critical section ends, by a return or an exception. */
    method Release(key: LockKey, current: nat)
      modifies this
      ensures View() == Released(old(View()), key, current)
    {
      settled := settled + {current};
      if key in localSenderKeyLocks && localSenderKeyLocks[key] == current {
        localSenderKeyLocks := localSenderKeyLocks - {key};
      }
    }
  }

  // ---- every interleaving of calls ----

  datatype Stage = Waiting | Holding | Done

  datatype Claim = Claim(key: LockKey, previous: Option<nat>, stage: Stage)

  /** `claims[t]` is the call that made ticket `t`. */
  datatype Mutex = Mutex(locks: Locks, claims: seq<Claim>)

  datatype Action = Request(key: LockKey) | Begin(ticket: nat) | Release(ticket: nat)

  const IDLE := Mutex(Locks(map[], {}, 0), [])

  predicate Settled(l: Locks, promise: Option<nat>) {
    promise.None? || promise.value in l.settled
  }

  predicate Enabled(x: Mutex, a: Action) {
    match a
    case Request(_) => true
    case Begin(t) => t < |x.claims| && x.claims[t].stage.Waiting? && Settled(x.locks, x.claims[t].previous)
    case Release(t) => t < |x.claims| && x.claims[t].stage.Holding?
  }

  function WithStage(claims: seq<Claim>, t: nat, stage: Stage): seq<Claim>
    requires t < |claims|
  {
    claims[t := claims[t].(stage := stage)]
  }

  function Apply(x: Mutex, a: Action): Mutex
    requires Enabled(x, a)
  {
    match a
    case Request(key) => Mutex(Requested(x.locks, key), x.claims + [Claim(key, Previous(x.locks, key), Waiting)])
    case Begin(t) => Mutex(x.locks, WithStage(x.claims, t, Holding))
    case Release(t) => Mutex(Released(x.locks, x.claims[t].key, t), WithStage(x.claims, t, Done))
  }

  /** The state after the actions, when each was possible in its turn. */
  function Run(x: Mutex, actions: seq<Action>): Option<Mutex> {
    if actions == [] then Some(x)
    else
      match Run(x, actions[..|actions| - 1])
      case None => None
      case Some(y) => if Enabled(y, actions[|actions| - 1]) then Some(Apply(y, actions[|actions| - 1])) else None
  }

  // ---- the simple view: a queue per key, in the order of the requests ----

  /** Call `t` asked for `key` and has not released it. */
  ghost predicate Active(claims: seq<Claim>, key: LockKey, t: nat) {
    t < |claims| && claims[t].key == key && !claims[t].stage.Done?
  }

  ghost predicate NoneBetween(claims: seq<Claim>, key: LockKey, from: nat, until: nat) {
    forall u: nat :: from <= u < until ==> !Active(claims, key, u)
  }

  /** A call's promise is that of the call before it in the queue, if one was there. */
  ghost predicate ChainsToPrevious(claims: seq<Claim>, t: nat)
    requires t < |claims|
  {
    match claims[t].previous
    case None => NoneBetween(claims, claims[t].key, 0, t)
    case Some(p) => p < t && claims[p].key == claims[t].key && NoneBetween(claims, claims[t].key, p + 1, t)
  }

  ghost predicate AheadDone(claims: seq<Claim>, t: nat)
    requires t < |claims|
  {
    claims[t].stage.Waiting? || NoneBetween(claims, claims[t].key, 0, t)
  }

  ghost predicate TailIsLast(l: Locks, claims: seq<Claim>, key: LockKey) {
    if key in l.tails
    then Active(claims, key, l.tails[key]) && NoneBetween(claims, key, l.tails[key] + 1, |claims|)
    else NoneBetween(claims, key, 0, |claims|)
  }

  ghost predicate Queued(x: Mutex) {
    && x.locks.next == |x.claims|
    && (forall t: nat :: t in x.locks.settled <==> t < |x.claims| && x.claims[t].stage.Done?)
    && (forall t: nat :: t < |x.claims| ==> ChainsToPrevious(x.claims, t))
    && (forall t: nat :: t < |x.claims| ==> AheadDone(x.claims, t))
    && (forall key: LockKey :: TailIsLast(x.locks, x.claims, key))
  }

  lemma RequestKeepsQueue(x: Mutex, key: LockKey)
    requires Queued(x)
    ensures Queued(Apply(x, Request(key)))
  {
    var y := Apply(x, Request(key));
    assert forall k: LockKey, t: nat :: t < |x.claims| ==> (Active(y.claims, k, t) <==> Active(x.claims, k, t));
    assert TailIsLast(x.locks, x.claims, key);
    forall t: nat | t < |y.claims|
      ensures ChainsToPrevious(y.claims, t) && AheadDone(y.claims, t)
    {
      if t < |x.claims| {
        assert ChainsToPrevious(x.claims, t) && AheadDone(x.claims, t);
      }
    }
    forall k: LockKey
      ensures TailIsLast(y.locks, y.claims, k)
    {
      assert TailIsLast(x.locks, x.claims, k);
    }
  }

  /** The promise a call waits for has settled exactly when the call is first in its queue. */
  lemma SettledMeansFirst(x: Mutex, t: nat)
    requires Queued(x) && t < |x.claims|
    ensures Settled(x.locks, x.claims[t].previous) <==> NoneBetween(x.claims, x.claims[t].key, 0, t)
  {
    assert ChainsToPrevious(x.claims, t);
    if x.claims[t].previous.Some? {
      var p := x.claims[t].previous.value;
      assert AheadDone(x.claims, p);
      if p !in x.locks.settled {
        assert Active(x.claims, x.claims[t].key, p);
      }
    }
  }

  lemma BeginKeepsQueue(x: Mutex, t: nat)
    requires Queued(x) && Enabled(x, Begin(t))
    ensures Queued(Apply(x, Begin(t)))
  {
    var y := Apply(x, Begin(t));
    SettledMeansFirst(x, t);
    assert forall k: LockKey, u: nat :: Active(y.claims, k, u) <==> Active(x.claims, k, u);
    forall u: nat | u < |y.claims|
      ensures ChainsToPrevious(y.claims, u) && AheadDone(y.claims, u)
    {
      assert ChainsToPrevious(x.claims, u) && AheadDone(x.claims, u);
    }
    forall k: LockKey
      ensures TailIsLast(y.locks, y.claims, k)
    {
      assert TailIsLast(x.locks, x.claims, k);
    }
  }

  lemma ReleaseKeepsTail(x: Mutex, t: nat, k: LockKey)
    requires Queued(x) && Enabled(x, Release(t))
    ensures TailIsLast(Apply(x, Release(t)).locks, Apply(x, Release(t)).claims, k)
  {
    var y := Apply(x, Release(t));
    assert TailIsLast(x.locks, x.claims, k) && AheadDone(x.claims, t);
    assert forall u: nat :: Active(y.claims, k, u) <==> Active(x.claims, k, u) && u != t;
    if k == x.claims[t].key {
      assert Active(x.claims, k, t);
      assert k in x.locks.tails;
      assert x.locks.tails[k] >= t;
    }
  }

  lemma ReleaseKeepsQueue(x: Mutex, t: nat)
    requires Queued(x) && Enabled(x, Release(t))
    ensures Queued(Apply(x, Release(t)))
  {
    var y := Apply(x, Release(t));
    assert forall k: LockKey, u: nat :: Active(y.claims, k, u) ==> Active(x.claims, k, u);
    forall u: nat | u < |y.claims|
      ensures ChainsToPrevious(y.claims, u) && AheadDone(y.claims, u)
    {
      assert ChainsToPrevious(x.claims, u) && AheadDone(x.claims, u);
      assert AheadDone(x.claims, t);
    }
    forall k: LockKey
      ensures TailIsLast(y.locks, y.claims, k)
    {
      ReleaseKeepsTail(x, t, k);
    }
  }

  lemma ActionKeepsQueue(x: Mutex, a: Action)
    requires Queued(x) && Enabled(x, a)
    ensures Queued(Apply(x, a))
  {
    match a
    case Request(key) => RequestKeepsQueue(x, key);
    case Begin(t) => BeginKeepsQueue(x, t);
    case Release(t) => ReleaseKeepsQueue(x, t);
  }

  lemma {:induction false} RunsStayQueued(actions: seq<Action>)
    requires Run(IDLE, actions).Some?
    ensures Queued(Run(IDLE, actions).value)
  {
    if actions != [] {
      RunsStayQueued(actions[..|actions| - 1]);
      ActionKeepsQueue(Run(IDLE, actions[..|actions| - 1]).value, actions[|actions| - 1]);
    }
  }

  lemma RunOneMore(x: Mutex, actions: seq<Action>, a: Action)
    requires Run(x, actions).Some? && Enabled(Run(x, actions).value, a)
    ensures Run(x, actions + [a]) == Some(Apply(Run(x, actions).value, a))
  {
    assert (actions + [a])[..|actions|] == actions;
  }

  /** Wherever a run stands, a call for a key nobody waits for gets the lock at once, and can give it back. */
  lemma FreeLockIsTaken(actions: seq<Action>, key: LockKey)
    requires Run(IDLE, actions).Some? && forall t: nat :: !Active(Run(IDLE, actions).value.claims, key, t)
    ensures var t := |Run(IDLE, actions).value.claims|;
            var held := Run(IDLE, actions + [Request(key)] + [Begin(t)]);
            && held.Some? && t < |held.value.claims| && held.value.claims[t].stage.Holding?
            && Run(IDLE, actions + [Request(key)] + [Begin(t)] + [Release(t)]).Some?
  {
    hide Run;
    var x := Run(IDLE, actions).value;
    var t := |x.claims|;
    RunsStayQueued(actions);
    assert TailIsLast(x.locks, x.claims, key);
    RunOneMore(IDLE, actions, Request(key));
    RunOneMore(IDLE, actions + [Request(key)], Begin(t));
    RunOneMore(IDLE, actions + [Request(key)] + [Begin(t)], Release(t));
  }

  /** Every call ahead of one that holds, or has held, the lock is done: one holder, in request order. */
  lemma OneHolderInRequestOrder(x: Mutex, t: nat, u: nat)
    requires Queued(x) && u < t < |x.claims| && x.claims[u].key == x.claims[t].key
    ensures !x.claims[t].stage.Waiting? ==> x.claims[u].stage.Done?
  {
    assert AheadDone(x.claims, t);
    if !x.claims[t].stage.Waiting? {
      assert !Active(x.claims, x.claims[t].key, u);
    }
  }

  /** While calls are queued the first of them holds the lock or can take it; the map entry is then theirs. */
  lemma {:induction false} SomeoneCanMove(x: Mutex, key: LockKey, t: nat) returns (first: nat)
    requires Queued(x) && Active(x.claims, key, t)
    ensures first <= t && Active(x.claims, key, first)
    ensures x.claims[first].stage.Holding? || Enabled(x, Begin(first))
    ensures key in x.locks.tails
    decreases t
  {
    assert TailIsLast(x.locks, x.claims, key);
    if u: nat :| u < t && Active(x.claims, key, u) {
      first := SomeoneCanMove(x, key, u);
    } else {
      first := t;
      SettledMeansFirst(x, t);
    }
  }

  /**
   * Whatever the interleaving: at most one call per key holds the lock, calls get it in the order
   * of their requests, none is stuck, and a key's map entry is gone exactly when its queue is empty.
   */
  lemma LockIsAFairMutex(actions: seq<Action>)
    requires Run(IDLE, actions).Some?
    ensures var x := Run(IDLE, actions).value;
            && (forall t: nat, u: nat ::
                  (u < t < |x.claims| && x.claims[u].key == x.claims[t].key && !x.claims[t].stage.Waiting?)
                  ==> x.claims[u].stage.Done?)
            && (forall key: LockKey :: key in x.locks.tails <==> exists t: nat :: Active(x.claims, key, t))
            && (forall key: LockKey, t: nat :: Active(x.claims, key, t) ==>
                  exists first: nat :: first <= t && Active(x.claims, key, first)
                                       && (x.claims[first].stage.Holding? || Enabled(x, Begin(first))))
  {
    var x := Run(IDLE, actions).value;
    RunsStayQueued(actions);
    forall t: nat, u: nat | u < t < |x.claims| && x.claims[u].key == x.claims[t].key && !x.claims[t].stage.Waiting?
      ensures x.claims[u].stage.Done?
    {
      OneHolderInRequestOrder(x, t, u);
    }
    forall key: LockKey, t: nat | Active(x.claims, key, t)
      ensures key in x.locks.tails
      ensures exists first: nat :: first <= t && Active(x.claims, key, first)
                                   && (x.claims[first].stage.Holding? || Enabled(x, Begin(first)))
    {
      var first := SomeoneCanMove(x, key, t);
    }
    forall key: LockKey | key in x.locks.tails
      ensures exists t: nat :: Active(x.claims, key, t)
    {
      assert TailIsLast(x.locks, x.claims, key);
    }
  }
}
