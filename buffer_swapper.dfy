/**
 * `BufferSwapperMulti` (src/compositor/buffer_swapper_multi.cpp) as a class:
 * the `buffers` map and the two queues are fields the methods reassign, and
 * each method is one atomic transition of the protocol in SwapProtocol.
 * The wait of `client_acquire` is its precondition; the mutex and the
 * condition variable are not modelled.
 */
module BufferSwapper {
  import opened SwapProtocol

  class BufferSwapperMulti<Buffer> {
    var buffers: map<BufferID, Buffer>
    var clientQueue: seq<BufferID>
    var compositorQueue: seq<BufferID>
    var inUseByClient: int
    // who holds the ids that are in neither queue (not stored by the source)
    ghost var clientHeld: multiset<BufferID>
    ghost var compositorHeld: multiset<BufferID>

    ghost function State(): SwapState
      reads this
    {
      SwapState(clientQueue, compositorQueue, inUseByClient, clientHeld, compositorHeld)
    }

    ghost predicate Valid()
      reads this
    {
      2 <= |buffers| <= 3 && Inv(State(), buffers.Keys)
    }

    /** Double buffering: both ids queued for the client, in argument order. */
    constructor Double(bufferA: Buffer, idA: BufferID, bufferB: Buffer, idB: BufferID)
      requires idA != idB
      ensures Valid()
      ensures buffers == map[idA := bufferA, idB := bufferB]
      ensures State() == Init([idA, idB])
    {
      buffers := map[idA := bufferA, idB := bufferB];
      clientQueue := [idA, idB];
      compositorQueue := [];
      inUseByClient := 0;
      clientHeld, compositorHeld := multiset{}, multiset{};
      new;
      assert buffers.Keys == PoolOf([idA, idB]);
      ghost var init := Init([idA, idB]);
      assert State() == init;
    }

    /** Triple buffering: the three ids queued for the client, in argument order. */
    constructor Triple(bufferA: Buffer, idA: BufferID, bufferB: Buffer, idB: BufferID,
                       bufferC: Buffer, idC: BufferID)
      requires Distinct([idA, idB, idC])
      ensures Valid()
      ensures buffers == map[idA := bufferA, idB := bufferB, idC := bufferC]
      ensures State() == Init([idA, idB, idC])
    {
      buffers := map[idA := bufferA, idB := bufferB, idC := bufferC];
      clientQueue := [idA, idB, idC];
      compositorQueue := [];
      inUseByClient := 0;
      clientHeld, compositorHeld := multiset{}, multiset{};
      new;
      assert buffers.Keys == PoolOf([idA, idB, idC]);
      ghost var init := Init([idA, idB, idC]);
      assert State() == init;
    }

    /**
     * `client_acquire`. The source waits while the client queue is empty or
     * the client already holds all buffers but one; here the call is only
     * made once that wait is over.
     */
    method ClientAcquire() returns (bufferReference: Buffer, dequeuedBuffer: BufferID)
      requires Valid() && ClientMayAcquire(State(), buffers.Keys)
      modifies this
      ensures Valid() && buffers == old(buffers)
      ensures Acquired(State(), dequeuedBuffer) == SwapProtocol.ClientAcquire(old(State()), buffers.Keys)
      ensures dequeuedBuffer in buffers && bufferReference == buffers[dequeuedBuffer]
    {
      ghost var next := SwapProtocol.ClientAcquire(State(), buffers.Keys);
      dequeuedBuffer := clientQueue[0];
      clientQueue := clientQueue[1..];
      bufferReference := buffers[dequeuedBuffer];
      inUseByClient := inUseByClient + 1;
      clientHeld := clientHeld + multiset{dequeuedBuffer};
      assert Acquired(State(), dequeuedBuffer) == next;
    }

    /** `client_release`: the caller must hold `queuedBuffer` as the client. */
    method ClientRelease(queuedBuffer: BufferID)
      requires Valid() && queuedBuffer in clientHeld
      modifies this
      ensures Valid() && buffers == old(buffers)
      ensures State() == SwapProtocol.ClientRelease(old(State()), buffers.Keys, queuedBuffer)
    {
      ghost var next := SwapProtocol.ClientRelease(State(), buffers.Keys, queuedBuffer);
      compositorQueue := compositorQueue + [queuedBuffer];
      inUseByClient := inUseByClient - 1;
      clientHeld := clientHeld - multiset{queuedBuffer};
      assert State() == next;
    }

    /**
     * `compositor_acquire`, which never waits. The source reads the back of
     * an empty client queue when both queues are empty; that case is excluded.
     */
    method CompositorAcquire() returns (bufferReference: Buffer, dequeuedBuffer: BufferID)
      requires Valid() && (clientQueue != [] || compositorQueue != [])
      modifies this
      ensures Valid() && buffers == old(buffers)
      ensures Acquired(State(), dequeuedBuffer) == SwapProtocol.CompositorAcquire(old(State()), buffers.Keys)
      ensures dequeuedBuffer in buffers && bufferReference == buffers[dequeuedBuffer]
    {
      ghost var next := SwapProtocol.CompositorAcquire(State(), buffers.Keys);
      if compositorQueue == [] {
        dequeuedBuffer := clientQueue[|clientQueue| - 1];
        clientQueue := clientQueue[..|clientQueue| - 1];
      } else {
        dequeuedBuffer := compositorQueue[0];
        compositorQueue := compositorQueue[1..];
      }
      compositorHeld := compositorHeld + multiset{dequeuedBuffer};
      assert Acquired(State(), dequeuedBuffer) == next;
      bufferReference := buffers[dequeuedBuffer];
    }

    /** `compositor_release`: the caller must hold `releasedBuffer` as the compositor. */
    method CompositorRelease(releasedBuffer: BufferID)
      requires Valid() && releasedBuffer in compositorHeld
      modifies this
      ensures Valid() && buffers == old(buffers)
      ensures State() == SwapProtocol.CompositorRelease(old(State()), buffers.Keys, releasedBuffer)
    {
      ghost var next := SwapProtocol.CompositorRelease(State(), buffers.Keys, releasedBuffer);
      clientQueue := clientQueue + [releasedBuffer];
      compositorHeld := compositorHeld - multiset{releasedBuffer};
      assert State() == next;
    }

    /**
     * `shutdown`. The source reads the front of an empty compositor queue
     * when both queues are empty; that case is excluded.
     */
    method Shutdown()
      requires Valid() && (clientQueue != [] || compositorQueue != [])
      modifies this
      ensures Valid() && buffers == old(buffers)
      ensures State() == SwapProtocol.Shutdown(old(State()), buffers.Keys)
      ensures clientQueue != [] && inUseByClient == old(inUseByClient)
    {
      ghost var next := SwapProtocol.Shutdown(State(), buffers.Keys);
      if clientQueue == [] {
        var dequeuedBuffer := compositorQueue[0];
        compositorQueue := compositorQueue[1..];
        clientQueue := clientQueue + [dequeuedBuffer];
      }
      assert State() == next;
    }
  }
}
