/**
 * The per-key FIFO lock registry of `lock(key, wrapper)`: the first call on
 * a key becomes its runner and drains the key's queue one task at a time;
 * calls made on that key while a task is running are appended to the
 * queue; the key is deleted once the queue is empty.
 */
module LockQueue {

  /** A queued `lock` call: a ticket naming it, and whether its task throws. */
  datatype Entry = Entry(ticket: nat, throws: bool)

  /** How a queued call's promise was settled. */
  datatype Settlement = Resolved(ticket: nat) | Rejected(ticket: nat)

  /** A task that returns resolves its call; one that throws rejects it. */
  function SettlementOf(e: Entry): Settlement {
    if e.throws then Rejected(e.ticket) else Resolved(e.ticket)
  }

  /** The settlements of the calls `es`, in the order they ran. */
  function Settlements(es: seq<Entry>): seq<Settlement> {
    if es == [] then [] else Settlements(es[..|es| - 1]) + [SettlementOf(es[|es| - 1])]
  }

  /** The concatenation of `arrivals` in order. */
  function Flatten(arrivals: seq<seq<Entry>>): seq<Entry> {
    if arrivals == [] then [] else Flatten(arrivals[..|arrivals| - 1]) + arrivals[|arrivals| - 1]
  }

  function Min(a: nat, b: nat): nat {
    if a <= b then a else b
  }

  /**
   * Everything queued on the key by the time `n` tasks have run: the
   * runner's own call, then the calls that arrived during each of those
   * tasks (`arrivals[i]` arrives while the `i`-th task is awaited).
   */
  function Enqueued(e: Entry, arrivals: seq<seq<Entry>>, n: nat): seq<Entry> {
    [e] + Flatten(arrivals[..Min(n, |arrivals|)])
  }

  /** The registry: the module-wide `locks` record and the settlements delivered. */
  class LockTable {
    var locks: map<string, seq<Entry>>
    var settled: seq<Settlement>

    constructor ()
      ensures locks == map[] && settled == []
    {
      locks := map[];
      settled := [];
    }

    /**
     * `lock(key, wrapper)` for the call `e`. When the key is held, the call
     * is appended to its queue and nothing runs. Otherwise this call is the
     * runner: it runs the queued tasks in FIFO order until the queue is
     * empty, settling each, and then deletes the key. `arrivals[i]` are the
     * calls on the same key made while the `i`-th task was running.
     */
    method Lock(key: string, e: Entry, arrivals: seq<seq<Entry>>) returns (runner: bool, ran: seq<Entry>)
      modifies this
      decreases if key in locks then 0 else 2
      ensures runner <==> key !in old(locks)
      ensures !runner ==> ran == [] && settled == old(settled)
      ensures !runner ==> locks == old(locks)[key := old(locks[key]) + [e]]
      ensures runner ==> locks == old(locks) && settled == old(settled) + Settlements(ran)
      ensures runner ==> ran == Enqueued(e, arrivals, |ran|)
      ensures runner ==> forall n :: 0 <= n < |ran| ==> n < |Enqueued(e, arrivals, n)|
    {
      if key in locks {
        locks := locks[key := locks[key] + [e]];
        return false, [];
      }
      runner := true;
      locks := locks[key := [e]];
      ran := [];
      while |locks[key]| > 0
        invariant key in locks && locks - {key} == old(locks)
        invariant ran + locks[key] == Enqueued(e, arrivals, |ran|)
        invariant settled == old(settled) + Settlements(ran)
        invariant forall n :: 0 <= n < |ran| ==> n < |Enqueued(e, arrivals, n)|
        decreases 1 + |Flatten(arrivals)| - |ran|
      {
        EnqueuedBound(e, arrivals, |ran|);
        var p := locks[key][0];
        var rest := locks[key][1..];
        locks := locks[key := rest];
        // The task is awaited; lock() calls on this key meanwhile queue up behind.
        var incoming := if |ran| < |arrivals| then arrivals[|ran|] else [];
        Await(key, incoming);
        EnqueuedStep(e, arrivals, |ran|);
        assert (ran + [p])[..|ran|] == ran;
        settled := settled + [SettlementOf(p)];
        ran := ran + [p];
      }
      if |locks[key]| == 0 {
        locks := locks - {key};
      }
    }

    /** The calls `incoming`, made on a held key while its current task is awaited, each take the append branch of `Lock`. */
    method Await(key: string, incoming: seq<Entry>)
      requires key in locks
      modifies this
      decreases 1
      ensures locks == old(locks)[key := old(locks[key]) + incoming] && settled == old(settled)
    {
      ghost var q0 := locks[key];
      var j := 0;
      assert q0 + incoming[..0] == q0;
      assert locks == old(locks)[key := q0];
      while j < |incoming|
        invariant j <= |incoming|
        invariant key in locks && locks == old(locks)[key := q0 + incoming[..j]]
        invariant settled == old(settled)
      {
        var runner, ran := Lock(key, incoming[j], []);
        assert q0 + incoming[..j + 1] == (q0 + incoming[..j]) + [incoming[j]];
        assert locks == old(locks)[key := q0 + incoming[..j + 1]];
        j := j + 1;
      }
      assert incoming[..j] == incoming;
    }
  }

  /** One more finished task adds exactly the calls that arrived during it. */
  lemma EnqueuedStep(e: Entry, arrivals: seq<seq<Entry>>, n: nat)
    ensures Enqueued(e, arrivals, n + 1) == Enqueued(e, arrivals, n) + (if n < |arrivals| then arrivals[n] else [])
  {
    if n < |arrivals| {
      assert arrivals[..n + 1][..n] == arrivals[..n];
    }
  }

  /** The queue never holds more than the runner's call and all arrivals. */
  lemma EnqueuedBound(e: Entry, arrivals: seq<seq<Entry>>, n: nat)
    ensures |Enqueued(e, arrivals, n)| <= 1 + |Flatten(arrivals)|
  {
    FlattenPrefix(arrivals, Min(n, |arrivals|));
  }

  /** A prefix of the arrivals flattens to a prefix of the whole. */
  lemma {:induction false} FlattenPrefix(arrivals: seq<seq<Entry>>, k: nat)
    requires k <= |arrivals|
    ensures Flatten(arrivals[..k]) <= Flatten(arrivals)
    decreases |arrivals| - k
  {
    if k < |arrivals| {
      FlattenPrefix(arrivals, k + 1);
      assert arrivals[..k + 1][..k] == arrivals[..k];
    } else {
      assert arrivals[..k] == arrivals;
    }
  }

  /** FIFO: what is queued after `n` tasks stays, in the same order, at the head of what is queued after more. */
  lemma EnqueuedPrefix(e: Entry, arrivals: seq<seq<Entry>>, n: nat, m: nat)
    requires n <= m
    ensures Enqueued(e, arrivals, n) <= Enqueued(e, arrivals, m)
  {
    var a, b := Min(n, |arrivals|), Min(m, |arrivals|);
    FlattenPrefix(arrivals[..b], a);
    assert arrivals[..b][..a] == arrivals[..a];
  }

  /** The drain's length is determined by the arrivals: it stops at the first point the queue is empty. */
  lemma DrainDetermined(e: Entry, arrivals: seq<seq<Entry>>, n: nat, m: nat)
    requires n == |Enqueued(e, arrivals, n)| && m == |Enqueued(e, arrivals, m)|
    requires forall k :: 0 <= k < n ==> k < |Enqueued(e, arrivals, k)|
    requires forall k :: 0 <= k < m ==> k < |Enqueued(e, arrivals, k)|
    ensures n == m
  {
  }

  /** Each settlement is its own call's, in the order the calls ran. */
  lemma {:induction false} SettlementsSpec(es: seq<Entry>)
    ensures |Settlements(es)| == |es|
    ensures forall i :: 0 <= i < |es| ==> Settlements(es)[i] == SettlementOf(es[i])
  {
    if es != [] {
      SettlementsSpec(es[..|es| - 1]);
    }
  }

  /**
   * Two calls on a free key where the second arrives while the first runs:
   * the first call runs both, in order, settles both, and frees the key.
   */
  method TwoCalls(key: string, a: Entry, b: Entry) returns (ran: seq<Entry>, settled: seq<Settlement>, held: bool)
    ensures ran == [a, b]
    ensures settled == [SettlementOf(a), SettlementOf(b)]
    ensures !held
  {
    var t := new LockTable();
    var runner;
    runner, ran := t.Lock(key, a, [[b]]);
    assert Enqueued(a, [[b]], 0) == [a];
    assert Enqueued(a, [[b]], 1) == [a, b] by {
      assert [[b]][..1] == [[b]];
      assert Flatten([[b]]) == Flatten([[b]][..0]) + [b];
    }
    assert Enqueued(a, [[b]], 2) == [a, b] by {
      assert [[b]][..Min(2, 1)] == [[b]];
      assert Flatten([[b]]) == Flatten([[b]][..0]) + [b];
    }
    assert |ran| == 2;
    settled := t.settled;
    SettlementsSpec(ran);
    held := key in t.locks;
  }
}
