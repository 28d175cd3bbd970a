/**
 * BloomFramework's vertex batch: a ring of up to `maxBuffers` vertex buffers
 * created lazily. Only the first exists after Initialize; each time the
 * current buffer fills up it is drawn and the batch moves on to the next
 * slot, creating its buffer on first use and resetting it otherwise.
 *
 * The buffers are kept by value in the slots: a buffer is the number of
 * vertices it holds (its Count, full at `size`) and whether it was disposed,
 * and each DrawBuffer is recorded in `drawn` as (slot, vertex count). The
 * batch's separate `currentBuffer` reference always equals the buffer in the
 * current slot and is read from there.
 */
module FrameworkVertexBatches {
  import opened Wrappers

  datatype SlotBuffer = SlotBuffer(count: int, disposed: bool)

  /** A freshly created and initialized buffer. */
  const NewBuffer := SlotBuffer(0, false)

  /** The slot after `i` in a ring of `m` slots. */
  lemma NextSlot(i: int, m: int)
    requires 0 <= i < m
    ensures (if i + 1 == m then 0 else i + 1) == (i + 1) % m
  {
  }

  class VertexBatch {
    var buffers: array?<Option<SlotBuffer>>
    var maxBuffers: int
    var currentBufferIndex: int
    /** The capacity of every buffer. */
    var size: int
    var isInitialized: bool
    /** The DrawBuffer calls, as (slot, vertices drawn). */
    var drawn: seq<(int, int)>
    /** The slots that hold a buffer are exactly those below `created`. */
    ghost var created: int

    ghost predicate Valid()
      reads this, buffers
    {
      && (!isInitialized ==> currentBufferIndex == 0)
      && (isInitialized ==>
            && buffers != null && buffers.Length == maxBuffers && 0 < maxBuffers && 0 < size
            && 0 <= currentBufferIndex < created <= maxBuffers
            && (forall i :: 0 <= i < maxBuffers ==> (buffers[i].Some? <==> i < created))
            && (forall i :: 0 <= i < created ==> 0 <= buffers[i].value.count < size))
    }

    constructor ()
      ensures Valid() && !isInitialized && buffers == null && drawn == []
    {
      buffers := null;
      maxBuffers, currentBufferIndex, size := 0, 0, 0;
      isInitialized := false;
      drawn := [];
      created := 0;
    }

    /**
     * Initialize: a second call throws InvalidOperationException. Otherwise
     * the slot array is allocated and only slot 0 gets a buffer, which
     * becomes current. A slot count of 0 fails on that first slot, and a
     * negative one on the allocation.
     */
    method Initialize(bufferSize: int, maxNumberOfBuffers: int) returns (error: Option<Exception>)
      requires Valid() && 0 < bufferSize
      modifies this
      ensures Valid()
      ensures old(isInitialized) ==> error == Some(InvalidOperation) && unchanged(this)
      ensures !old(isInitialized) && maxNumberOfBuffers < 0 ==> error == Some(Overflow) && !isInitialized
      ensures !old(isInitialized) && maxNumberOfBuffers == 0 ==> error == Some(IndexOutOfRange) && !isInitialized
      ensures !old(isInitialized) && 0 < maxNumberOfBuffers ==>
        && error.None? && isInitialized && fresh(buffers)
        && size == bufferSize && maxBuffers == maxNumberOfBuffers && currentBufferIndex == old(currentBufferIndex) == 0
        && buffers[0] == Some(NewBuffer)
        && (forall i :: 1 <= i < maxBuffers ==> buffers[i].None?)
      ensures drawn == old(drawn)
    {
      if isInitialized {
        return Some(InvalidOperation);
      }
      size := bufferSize;
      maxBuffers := maxNumberOfBuffers;
      if maxNumberOfBuffers < 0 {
        return Some(Overflow);
      }
      buffers := new Option<SlotBuffer>[maxNumberOfBuffers](_ => None);
      if maxNumberOfBuffers == 0 {
        return Some(IndexOutOfRange);
      }
      buffers[0] := Some(NewBuffer);
      created := 1;
      isInitialized := true;
      error := None;
    }

    /**
     * AddVertex: adds to the current buffer; when that fills it, it is drawn
     * and the next slot (modulo maxBuffers) becomes current, getting a new
     * buffer if it has none and having its buffer reset otherwise.
     */
    method AddVertex()
      requires Valid() && isInitialized
      modifies this`currentBufferIndex, this`drawn, this`created, buffers
      ensures Valid() && old(created) <= created
      ensures old(buffers[currentBufferIndex].value.count) + 1 < size ==>
        && currentBufferIndex == old(currentBufferIndex) && drawn == old(drawn) && created == old(created)
        && buffers[currentBufferIndex] == Some(old(buffers[currentBufferIndex].value).(count := old(buffers[currentBufferIndex].value.count) + 1))
        && (forall i :: 0 <= i < maxBuffers && i != currentBufferIndex ==> buffers[i] == old(buffers[i]))
      ensures old(buffers[currentBufferIndex].value.count) + 1 == size ==>
        && currentBufferIndex == (old(currentBufferIndex) + 1) % maxBuffers
        && drawn == old(drawn) + [(old(currentBufferIndex), size)]
        && buffers[old(currentBufferIndex)].value.count == 0
        && buffers[currentBufferIndex].value.count == 0
        && (old(buffers[..])[currentBufferIndex].None? ==> buffers[currentBufferIndex] == Some(NewBuffer) && created == old(created) + 1)
        && (old(buffers[..])[currentBufferIndex].Some? ==> created == old(created))
        && (forall i :: 0 <= i < maxBuffers && i != old(currentBufferIndex) && i != currentBufferIndex ==> buffers[i] == old(buffers[i]))
    {
      var current := buffers[currentBufferIndex].value;
      buffers[currentBufferIndex] := Some(current.(count := current.count + 1));
      if current.count + 1 != size {
        return;
      }
      DrawAndAdvance();
    }

    /** The full current buffer is drawn and the next slot becomes current, created or reset. */
    method DrawAndAdvance()
      requires isInitialized && buffers != null && buffers.Length == maxBuffers && 0 < maxBuffers && 0 < size
      requires 0 <= currentBufferIndex < created <= maxBuffers
      requires forall i :: 0 <= i < maxBuffers ==> (buffers[i].Some? <==> i < created)
      requires forall i :: 0 <= i < created && i != currentBufferIndex ==> 0 <= buffers[i].value.count < size
      requires buffers[currentBufferIndex].value.count == size
      modifies this`currentBufferIndex, this`drawn, this`created, buffers
      ensures Valid() && old(created) <= created
      ensures currentBufferIndex == (old(currentBufferIndex) + 1) % maxBuffers
      ensures drawn == old(drawn) + [(old(currentBufferIndex), size)]
      ensures buffers[old(currentBufferIndex)] == Some(old(buffers[currentBufferIndex].value).(count := 0))
      ensures buffers[currentBufferIndex].value.count == 0
      ensures old(buffers[..])[currentBufferIndex].None? ==> buffers[currentBufferIndex] == Some(NewBuffer) && created == old(created) + 1
      ensures old(buffers[..])[currentBufferIndex].Some? ==> created == old(created)
      ensures forall i :: 0 <= i < maxBuffers && i != old(currentBufferIndex) && i != currentBufferIndex ==> buffers[i] == old(buffers[i])
    {
      var current := buffers[currentBufferIndex].value;
      drawn := drawn + [(currentBufferIndex, current.count)];
      buffers[currentBufferIndex] := Some(current.(count := 0));
      Advance();
    }

    /** The slot after the current one (modulo maxBuffers) becomes current, getting a new buffer or having its buffer reset. */
    method Advance()
      requires Valid() && isInitialized
      modifies this`currentBufferIndex, this`created, buffers
      ensures Valid() && old(created) <= created
      ensures currentBufferIndex == (old(currentBufferIndex) + 1) % maxBuffers
      ensures buffers[currentBufferIndex].value.count == 0
      ensures old(buffers[..])[currentBufferIndex].None? ==> buffers[currentBufferIndex] == Some(NewBuffer) && created == old(created) + 1
      ensures old(buffers[..])[currentBufferIndex].Some? ==>
        buffers[currentBufferIndex] == Some(old(buffers[..])[currentBufferIndex].value.(count := 0)) && created == old(created)
      ensures forall i :: 0 <= i < maxBuffers && i != currentBufferIndex ==> buffers[i] == old(buffers[i])
    {
      var next := if currentBufferIndex + 1 == maxBuffers then 0 else currentBufferIndex + 1;
      NextSlot(currentBufferIndex, maxBuffers);
      currentBufferIndex := next;
      if buffers[next].None? {
        assert next == created;
        buffers[next] := Some(NewBuffer);
        created := created + 1;
      } else {
        buffers[next] := Some(buffers[next].value.(count := 0));
      }
    }

    /** FlushBatch: draws the current buffer only when it holds a vertex; the slot stays the same. */
    method FlushBatch()
      requires Valid() && isInitialized
      modifies this`drawn, buffers
      ensures Valid()
      ensures var old_count := old(buffers[currentBufferIndex].value.count);
        && (old_count > 0 ==>
              && drawn == old(drawn) + [(currentBufferIndex, old_count)]
              && buffers[..] == old(buffers[..])[currentBufferIndex := Some(old(buffers[currentBufferIndex].value).(count := 0))])
        && (old_count == 0 ==> drawn == old(drawn) && buffers[..] == old(buffers[..]))
    {
      var current := buffers[currentBufferIndex].value;
      if current.count > 0 {
        drawn := drawn + [(currentBufferIndex, current.count)];
        buffers[currentBufferIndex] := Some(current.(count := 0));
      }
    }

    /**
     * ResetBatch: slot 0 becomes current and its buffer is reset; the buffer
     * that was current keeps what it holds.
     */
    method ResetBatch()
      requires Valid() && isInitialized
      modifies this`currentBufferIndex, buffers
      ensures Valid()
      ensures currentBufferIndex == 0
      ensures buffers[..] == old(buffers[..])[0 := Some(old(buffers[0].value).(count := 0))]
    {
      currentBufferIndex := 0;
      buffers[0] := Some(buffers[0].value.(count := 0));
    }

    /** Dispose: nothing before Initialize; otherwise every created buffer is disposed. */
    method Dispose()
      requires Valid()
      modifies buffers
      ensures Valid()
      ensures !isInitialized ==> buffers == null || unchanged(buffers)
      ensures isInitialized ==> forall i :: 0 <= i < maxBuffers ==>
        && (old(buffers[i]).None? ==> buffers[i].None?)
        && (old(buffers[i]).Some? ==> buffers[i] == Some(old(buffers[i].value).(disposed := true)))
    {
      if !isInitialized {
        return;
      }
      for i := 0 to maxBuffers
        invariant Valid()
        invariant forall k :: 0 <= k < i ==>
          && (old(buffers[k]).None? ==> buffers[k].None?)
          && (old(buffers[k]).Some? ==> buffers[k] == Some(old(buffers[k].value).(disposed := true)))
        invariant forall k :: i <= k < maxBuffers ==> buffers[k] == old(buffers[k])
      {
        if buffers[i].Some? {
          buffers[i] := Some(buffers[i].value.(disposed := true));
        }
      }
    }
  }
}
