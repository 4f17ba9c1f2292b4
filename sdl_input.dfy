/**
 The key-queue globals of the SDL front end as one object: the 16-entry
 unsigned-short array and the two cursors, updated in place by the
 producer (addKeyToQueue, driven by the event loop) and by the consumer
 (DG_GetKey). Each method is specified by the value model in KeyQueueModel,
 whose lemmas say what a consumer observes.
 */
module SdlInput {
  import opened DoomKeys
  import opened KeyQueueModel

  class KeyQueue {
    var slots: array<u16>
    var writeIndex: nat
    var readIndex: nat

    ghost predicate Valid()
      reads this
    {
      slots.Length == KeyQueueSize && writeIndex < KeyQueueSize && readIndex < KeyQueueSize
    }

    /** The globals as a value. */
    ghost function State(): (q: QueueState)
      reads this, slots
      requires Valid()
      ensures KeyQueueModel.Valid(q)
    {
      QueueState(slots[..], writeIndex, readIndex)
    }

    /** The static initialisers (both cursors 0) and the memset of the queue in DG_Init. */
    constructor ()
      ensures Valid() && fresh(slots)
      ensures State() == Initial()
      ensures writeIndex == 0 && readIndex == 0
      ensures forall i :: 0 <= i < slots.Length ==> slots[i] == 0
    {
      slots := new u16[KeyQueueSize](_ => 0);
      writeIndex := 0;
      readIndex := 0;
    }

    /** addKeyToQueue: store the packed, translated key at the write cursor and advance it. */
    method AddKeyToQueue(t: KeyTable, pressed: int, keyCode: u32)
      requires Valid() && 0 <= pressed < 0x80_0000
      modifies this`writeIndex, slots
      ensures Valid()
      ensures writeIndex == (old(writeIndex) + 1) % KeyQueueSize && readIndex == old(readIndex)
      ensures slots[old(writeIndex)] == Pack(pressed, ConvertToDoomKey(t, keyCode))
      ensures forall i :: 0 <= i < slots.Length && i != old(writeIndex) ==> slots[i] == old(slots[i])
      ensures State() == Produce(old(State()), t, pressed, keyCode)
    {
      var key := ConvertToDoomKey(t, keyCode);
      var keyData := Pack(pressed, key);
      slots[writeIndex] := keyData;
      writeIndex := writeIndex + 1;
      writeIndex := writeIndex % KeyQueueSize;
    }

    /**
     DG_GetKey. The C function writes through its two pointers only when an
     event is read; pressed0 and doomKey0 stand for what the caller's
     variables held before, and come back unchanged when the queue is empty.
     */
    method GetKey(pressed0: int, doomKey0: byte) returns (r: int, pressed: int, doomKey: byte)
      requires Valid()
      modifies this`readIndex
      ensures Valid()
      ensures r == (if old(readIndex) == writeIndex then 0 else 1)
      ensures r == 0 ==> pressed == pressed0 && doomKey == doomKey0 && readIndex == old(readIndex)
      ensures r == 1 ==> KeyEvent(pressed, doomKey) == Unpack(slots[old(readIndex)])
      ensures r == 1 ==> readIndex == (old(readIndex) + 1) % KeyQueueSize
      ensures Consume(old(State())) ==
                (if r == 0 then None else Some(KeyEvent(pressed, doomKey)), State())
    {
      if readIndex == writeIndex {
        // the key queue is empty
        r, pressed, doomKey := 0, pressed0, doomKey0;
      } else {
        var keyData := slots[readIndex];
        readIndex := readIndex + 1;
        readIndex := readIndex % KeyQueueSize;
        var e := Unpack(keyData);
        pressed, doomKey := e.pressed, e.key;
        r := 1;
      }
    }

    /**
     The routing part of _event_loop: for each polled event in order, a key-down
     enqueues its key with pressed = 1, a key-up with pressed = 0, and any
     other event enqueues nothing.
     */
    method EventLoop(t: KeyTable, events: seq<Event>)
      requires Valid()
      modifies this`writeIndex, slots
      ensures Valid() && readIndex == old(readIndex)
      ensures State() == ProduceEvents(old(State()), t, events)
    {
      var i := 0;
      while i < |events|
        invariant 0 <= i <= |events| && Valid() && readIndex == old(readIndex)
        invariant State() == ProduceEvents(old(State()), t, events[..i])
      {
        var e := events[i];
        if e.KeyDown? {
          AddKeyToQueue(t, 1, e.sym);
        } else if e.KeyUp? {
          AddKeyToQueue(t, 0, e.sym);
        }
        assert events[..i + 1][..i] == events[..i];
        i := i + 1;
      }
      assert events[..i] == events;
    }
  }
}
