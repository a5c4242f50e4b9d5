/**
 * The buffer-circulation protocol of `BufferSwapperMulti`
 * (src/compositor/buffer_swapper_multi.cpp), stated on values.
 *
 * Every operation of the swapper holds the single swapper mutex for its whole
 * body, so each call is one atomic transition on the state below. The two
 * multisets of ids held by the client and by the compositor are not stored by
 * the source; they are the bookkeeping that lets the conservation and
 * starvation-guard invariants be stated.
 */
module SwapProtocol {
  import opened Arithmetic

  /** A buffer identifier, unique within one swapper. */
  type BufferID = nat

  datatype SwapState = SwapState(
    clientQueue: seq<BufferID>,          // ids the client may take next, front first
    compositorQueue: seq<BufferID>,      // ids released by the client, not yet taken by the compositor
    inUseByClient: int,                  // the source's `in_use_by_client` counter
    clientHeld: multiset<BufferID>,      // ids acquired by the client and not yet released
    compositorHeld: multiset<BufferID>)  // ids acquired by the compositor and not yet released

  /** An operation that hands out a buffer: the new state and the id handed out. */
  datatype Acquired = Acquired(state: SwapState, id: BufferID)

  predicate Distinct(ids: seq<BufferID>) {
    forall i, j :: 0 <= i < j < |ids| ==> ids[i] != ids[j]
  }

  /**
   * The swapper invariant over the pool of ids the `buffers` map holds:
   * the two queues and the two holders together contain every id of the pool
   * exactly once (no id lost, none duplicated), the counter counts the ids
   * the client holds, and the client never holds the whole pool.
   */
  predicate Inv(s: SwapState, pool: set<BufferID>) {
    && multiset(s.clientQueue) + multiset(s.compositorQueue) + s.clientHeld + s.compositorHeld
       == multiset(pool)
    && s.inUseByClient == |s.clientHeld|
    && s.inUseByClient < |pool|
  }

  /** No id is anywhere but in the client queue. */
  predicate Quiet(s: SwapState) {
    s.compositorQueue == [] && s.inUseByClient == 0
    && s.clientHeld == multiset{} && s.compositorHeld == multiset{}
  }

  /** The ids of a sequence, as the keys of the `buffers` map built from them. */
  function PoolOf(ids: seq<BufferID>): set<BufferID> {
    set id | id in ids
  }

  lemma {:induction false} DistinctMultiset(ids: seq<BufferID>)
    requires Distinct(ids)
    ensures multiset(ids) == multiset(PoolOf(ids))
    ensures |PoolOf(ids)| == |ids|
  {
    if ids != [] {
      var rest := ids[1..];
      assert ids == [ids[0]] + rest;
      DistinctMultiset(rest);
      assert ids[0] !in PoolOf(rest);
      assert PoolOf(ids) == {ids[0]} + PoolOf(rest);
    }
  }

  /**
   * Construction with 2 or 3 distinct ids: the client queue holds them in
   * argument order, nothing is queued for the compositor, nothing is held.
   */
  function Init(ids: seq<BufferID>): (r: SwapState)
    requires 2 <= |ids| <= 3 && Distinct(ids)
    ensures Inv(r, PoolOf(ids)) && Quiet(r)
    ensures r.clientQueue == ids && |PoolOf(ids)| == |ids|
  {
    DistinctMultiset(ids);
    SwapState(ids, [], 0, multiset{}, multiset{})
  }

  /** The negation of the wait condition of `client_acquire`: the call can return. */
  predicate ClientMayAcquire(s: SwapState, pool: set<BufferID>) {
    s.clientQueue != [] && s.inUseByClient != |pool| - 1
  }

  /** `client_acquire`: take the front of the client queue and count it as in use. */
  function ClientAcquire(s: SwapState, pool: set<BufferID>): (r: Acquired)
    requires Inv(s, pool) && ClientMayAcquire(s, pool)
    ensures Inv(r.state, pool)
    ensures r.id in s.clientQueue && r.id in pool
    ensures r.id in r.state.clientHeld && r.id !in r.state.clientQueue
    ensures r.state.compositorQueue == s.compositorQueue && r.state.compositorHeld == s.compositorHeld
    ensures r.state.inUseByClient <= |pool| - 1
    ensures r.id == s.clientQueue[0] && r.state.clientQueue == s.clientQueue[1..]
    ensures r.state.inUseByClient == s.inUseByClient + 1 && r.state.clientHeld == s.clientHeld + multiset{r.id}
  {
    var id := s.clientQueue[0];
    assert s.clientQueue == [id] + s.clientQueue[1..];
    var r := Acquired(s.(clientQueue := s.clientQueue[1..],
                         inUseByClient := s.inUseByClient + 1,
                         clientHeld := s.clientHeld + multiset{id}), id);
    assert multiset(pool)[id] == 1 by {
      assert id in multiset(pool);
    }
    r
  }

  /**
   * `client_release`: queue the id for the compositor (never straight back to
   * the client) and decrement the counter.
   */
  function ClientRelease(s: SwapState, pool: set<BufferID>, id: BufferID): (r: SwapState)
    requires Inv(s, pool) && id in s.clientHeld
    ensures Inv(r, pool)
    ensures id in r.compositorQueue && id !in r.clientQueue && id !in r.clientHeld
    ensures r.clientQueue == s.clientQueue && r.compositorHeld == s.compositorHeld
    ensures r.inUseByClient == s.inUseByClient - 1
    ensures r.compositorQueue == s.compositorQueue + [id] && r.clientHeld == s.clientHeld - multiset{id}
  {
    assert multiset(pool)[id] == 1 by {
      assert id in multiset(pool);
    }
    s.(compositorQueue := s.compositorQueue + [id],
       inUseByClient := s.inUseByClient - 1,
       clientHeld := s.clientHeld - multiset{id})
  }

  /**
   * `compositor_acquire`, which never waits: the front of the compositor
   * queue when there is one, otherwise the back of the client queue.
   */
  function CompositorAcquire(s: SwapState, pool: set<BufferID>): (r: Acquired)
    requires Inv(s, pool) && (s.clientQueue != [] || s.compositorQueue != [])
    ensures Inv(r.state, pool)
    ensures r.id in pool && r.id in r.state.compositorHeld
    ensures r.id !in r.state.clientQueue && r.id !in r.state.compositorQueue
    ensures r.state.inUseByClient == s.inUseByClient && r.state.clientHeld == s.clientHeld
    ensures s.compositorQueue != [] ==> r.id == s.compositorQueue[0] && r.state.clientQueue == s.clientQueue
    ensures s.compositorQueue == [] ==> r.id == s.clientQueue[|s.clientQueue| - 1]
    ensures s.compositorQueue != [] ==> r.state.compositorQueue == s.compositorQueue[1..]
    ensures s.compositorQueue == [] ==>
              r.state.clientQueue == s.clientQueue[..|s.clientQueue| - 1] && r.state.compositorQueue == []
    ensures r.state.compositorHeld == s.compositorHeld + multiset{r.id}
  {
    if s.compositorQueue == [] then
      var last := |s.clientQueue| - 1;
      var id := s.clientQueue[last];
      assert s.clientQueue == s.clientQueue[..last] + [id];
      assert multiset(pool)[id] == 1 by {
        assert id in multiset(pool);
      }
      Acquired(s.(clientQueue := s.clientQueue[..last],
                  compositorHeld := s.compositorHeld + multiset{id}), id)
    else
      var id := s.compositorQueue[0];
      assert s.compositorQueue == [id] + s.compositorQueue[1..];
      assert multiset(pool)[id] == 1 by {
        assert id in multiset(pool);
      }
      Acquired(s.(compositorQueue := s.compositorQueue[1..],
                  compositorHeld := s.compositorHeld + multiset{id}), id)
  }

  /** `compositor_release`: put the id at the back of the client queue. */
  function CompositorRelease(s: SwapState, pool: set<BufferID>, id: BufferID): (r: SwapState)
    requires Inv(s, pool) && id in s.compositorHeld
    ensures Inv(r, pool)
    ensures r.clientQueue != [] && r.clientQueue[|r.clientQueue| - 1] == id && id !in r.compositorHeld
    ensures r.compositorQueue == s.compositorQueue && r.inUseByClient == s.inUseByClient
    ensures r.clientHeld == s.clientHeld
    ensures r.clientQueue == s.clientQueue + [id] && r.compositorHeld == s.compositorHeld - multiset{id}
  {
    assert multiset(pool)[id] == 1 by {
      assert id in multiset(pool);
    }
    s.(clientQueue := s.clientQueue + [id],
       compositorHeld := s.compositorHeld - multiset{id})
  }

  /**
   * `shutdown`: when the client queue is empty, move the front of the
   * compositor queue to it, so a woken client waiter finds a buffer.
   */
  function Shutdown(s: SwapState, pool: set<BufferID>): (r: SwapState)
    requires Inv(s, pool) && (s.clientQueue != [] || s.compositorQueue != [])
    ensures Inv(r, pool)
    ensures r.clientQueue != []
    ensures r.inUseByClient == s.inUseByClient
    ensures r.clientHeld == s.clientHeld && r.compositorHeld == s.compositorHeld
    ensures s.clientQueue != [] ==> r == s
    ensures s.clientQueue == [] ==>
              r.clientQueue == [s.compositorQueue[0]] && r.compositorQueue == s.compositorQueue[1..]
  {
    if s.clientQueue == [] then
      var id := s.compositorQueue[0];
      assert s.compositorQueue == [id] + s.compositorQueue[1..];
      s.(compositorQueue := s.compositorQueue[1..], clientQueue := s.clientQueue + [id])
    else
      s
  }

  // ---------------------------------------------------------------------
  // Properties of the protocol
  // ---------------------------------------------------------------------

  /**
   * Conservation, read per id: an id of the pool is in exactly one of the
   * four places, once; an id outside the pool is nowhere.
   */
  lemma PoolPartition(s: SwapState, pool: set<BufferID>, id: BufferID)
    requires Inv(s, pool)
    ensures multiset(s.clientQueue)[id] + multiset(s.compositorQueue)[id]
            + s.clientHeld[id] + s.compositorHeld[id] == if id in pool then 1 else 0
  {
    calc {
      multiset(s.clientQueue)[id] + multiset(s.compositorQueue)[id] + s.clientHeld[id] + s.compositorHeld[id];
      (multiset(s.clientQueue) + multiset(s.compositorQueue) + s.clientHeld + s.compositorHeld)[id];
      multiset(pool)[id];
    }
  }

  lemma {:induction false} SubMultisetCardinality(a: multiset<BufferID>, b: multiset<BufferID>)
    requires a <= b
    ensures |a| <= |b|
  {
    assert b == a + (b - a);
  }

  /**
   * Starvation guard: in every reachable state some id of the pool is not
   * held by the client.
   */
  lemma ClientNeverHoldsWholePool(s: SwapState, pool: set<BufferID>)
    requires Inv(s, pool)
    ensures exists id :: id in pool && id !in s.clientHeld
  {
    if forall id :: id in pool ==> id in s.clientHeld {
      forall id | id in multiset(pool)
        ensures multiset(pool)[id] <= s.clientHeld[id]
      {
        assert id in pool;
      }
      assert multiset(pool) <= s.clientHeld;
      SubMultisetCardinality(multiset(pool), s.clientHeld);
      assert false;
    }
  }

  /**
   * The compositor never has to wait: while it holds no buffer, one of the
   * queues is non-empty, which is all `compositor_acquire` and `shutdown` need.
   */
  lemma CompositorNeverBlocks(s: SwapState, pool: set<BufferID>)
    requires Inv(s, pool) && s.compositorHeld == multiset{}
    ensures s.clientQueue != [] || s.compositorQueue != []
  {
    var total := multiset(s.clientQueue) + multiset(s.compositorQueue) + s.clientHeld + s.compositorHeld;
    assert |total| == |s.clientQueue| + |s.compositorQueue| + |s.clientHeld|;
    assert |multiset(pool)| == |pool|;
  }

  /**
   * One frame: the client acquires and releases, then the compositor
   * acquires and releases. From a quiet state the client receives the front
   * of the client queue, which ends up at its back.
   */
  function Cycle(s: SwapState, pool: set<BufferID>): (r: Acquired)
    requires Inv(s, pool) && Quiet(s) && 2 <= |pool|
    ensures Inv(r.state, pool) && Quiet(r.state)
    ensures s.clientQueue != [] && r.id == s.clientQueue[0]
    ensures r.state.clientQueue == s.clientQueue[1..] + [s.clientQueue[0]]
  {
    assert |s.clientQueue| == |pool| by {
      assert |multiset(s.clientQueue)| == |multiset(pool)|;
    }
    var a := ClientAcquire(s, pool);
    var released := ClientRelease(a.state, pool, a.id);
    var c := CompositorAcquire(released, pool);
    Acquired(CompositorRelease(c.state, pool, c.id), a.id)
  }

  /** The ids handed to the client over `k` frames. */
  function ClientSequence(s: SwapState, pool: set<BufferID>, k: nat): (ids: seq<BufferID>)
    requires Inv(s, pool) && Quiet(s) && 2 <= |pool|
    ensures |ids| == k
    decreases k
  {
    if k == 0 then []
    else
      var c := Cycle(s, pool);
      [c.id] + ClientSequence(c.state, pool, k - 1)
  }

  /** Position `i` of a cyclic walk over `n` places: the remainder of `i` by `n`. */
  function Position(i: nat, n: nat): (p: nat)
    requires n > 0
    ensures p < n
  {
    if i < n then i else Position(i - n, n)
  }

  lemma {:induction false} PositionIsRemainder(i: nat, n: nat)
    requires n > 0
    ensures Position(i, n) == i % n
    decreases i
  {
    if i < n {
      DivModUnique(i, n, 0, i);
    } else {
      PositionIsRemainder(i - n, n);
      DivModUnique(i, n, (i - n) / n + 1, (i - n) % n);
    }
  }

  lemma {:induction false} PositionStep(i: nat, n: nat)
    requires 1 <= i && 1 <= n
    ensures Position(i, n) == if Position(i - 1, n) + 1 == n then 0 else Position(i - 1, n) + 1
    decreases i
  {
    if i > n {
      PositionStep(i - n, n);
    }
  }

  /** Moving the front of a queue to its back shifts every position by one, cyclically. */
  lemma RotatedAt(q: seq<BufferID>, i: nat)
    requires q != [] && 1 <= i
    ensures (q[1..] + [q[0]])[Position(i - 1, |q|)] == q[Position(i, |q|)]
  {
    var n := |q|;
    var j := Position(i - 1, n);
    PositionStep(i, n);
    if j + 1 == n {
      assert (q[1..] + [q[0]])[j] == q[0];
    } else {
      assert (q[1..] + [q[0]])[j] == q[j + 1];
    }
  }

  /** The ids a client queue `q` hands out over `k` turns when each turn moves its front to its back. */
  function Rotations(q: seq<BufferID>, k: nat): (ids: seq<BufferID>)
    requires q != []
    ensures |ids| == k
    decreases k
  {
    if k == 0 then [] else [q[0]] + Rotations(q[1..] + [q[0]], k - 1)
  }

  lemma {:induction false} ClientSequenceRotates(s: SwapState, pool: set<BufferID>, k: nat)
    requires Inv(s, pool) && Quiet(s) && 2 <= |pool|
    ensures s.clientQueue != [] && ClientSequence(s, pool, k) == Rotations(s.clientQueue, k)
    decreases k
  {
    if k > 0 {
      var c := Cycle(s, pool);
      var q := s.clientQueue;
      ClientSequenceRotates(c.state, pool, k - 1);
      calc {
        ClientSequence(s, pool, k);
        [c.id] + ClientSequence(c.state, pool, k - 1);
        [q[0]] + Rotations(q[1..] + [q[0]], k - 1);
        Rotations(q, k);
      }
    } else {
      assert |multiset(s.clientQueue)| == |multiset(pool)|;
    }
  }
  lemma {:induction false} RotationsAt(q: seq<BufferID>, k: nat, i: nat)
    requires q != [] && i < k
    ensures Rotations(q, k)[i] == q[Position(i, |q|)]
    decreases k
  {
    if i > 0 {
      var rotated := q[1..] + [q[0]];
      RotationsAt(rotated, k - 1, i - 1);
      assert Rotations(q, k)[i] == Rotations(rotated, k - 1)[i - 1];
      RotatedAt(q, i);
    }
  }

  /**
   * Round robin: from a quiet state, frame `i` hands the client the id at
   * position `i mod N` of the client queue, so buffers are reused in turn.
   */
  lemma RoundRobin(s: SwapState, pool: set<BufferID>, k: nat, i: nat)
    requires Inv(s, pool) && Quiet(s) && 2 <= |pool| && i < k
    ensures s.clientQueue != []
    ensures ClientSequence(s, pool, k)[i] == s.clientQueue[Position(i, |s.clientQueue|)]
  {
    ClientSequenceRotates(s, pool, k);
    RotationsAt(s.clientQueue, k, i);
  }

  /**
   * Double buffering: with the pool {a, b}, repeated frames hand the client
   * a, b, a, b, ...
   */
  lemma TwoBufferAlternation(a: BufferID, b: BufferID, k: nat, i: nat)
    requires a != b && i < k
    ensures ClientSequence(Init([a, b]), PoolOf([a, b]), k)[i] == if i % 2 == 0 then a else b
  {
    var s0 := Init([a, b]);
    assert s0.clientQueue == [a, b];
    RoundRobin(s0, PoolOf([a, b]), k, i);
    PositionIsRemainder(i, 2);
  }

  /**
   * Triple buffering: after the client has released two buffers, the
   * compositor takes the older one and the newer stays queued for it.
   */
  lemma TripleBufferFifo(a: BufferID, b: BufferID, c: BufferID)
    requires Distinct([a, b, c])
    ensures
      var pool := PoolOf([a, b, c]);
      var first := ClientAcquire(Init([a, b, c]), pool);
      var second := ClientAcquire(first.state, pool);
      var queued := ClientRelease(ClientRelease(second.state, pool, first.id), pool, second.id);
      var taken := CompositorAcquire(queued, pool);
      first.id == a && second.id == b && taken.id == a && taken.state.compositorQueue == [b]
  {
    DistinctMultiset([a, b, c]);
  }
}
