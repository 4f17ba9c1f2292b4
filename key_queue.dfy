/**
 The keyboard event queue of the SDL front end, as values: a 16-slot
 circular buffer of packed (pressed, key) shorts with a write cursor that
 only production moves and a read cursor that only consumption moves.

 There is no "full" check: production never looks at the read cursor, and
 the queue reads as empty exactly when the two cursors are equal. The
 lemmas below state what that means for a consumer: below capacity the
 queue is first-in first-out, and every sixteenth unconsumed production
 brings the cursors together again, so everything pending is lost.
 */
module KeyQueueModel {
  import opened DoomKeys

  newtype u16 = x: int | 0 <= x < 0x1_0000

  /** KEYQUEUE_SIZE */
  const KeyQueueSize: nat := 16

  datatype Option<T> = None | Some(value: T)

  /** An event as the consumer receives it. */
  datatype KeyEvent = KeyEvent(pressed: int, key: byte)

  /** The queue globals: the slot array and the two cursors. */
  datatype QueueState = QueueState(slots: seq<u16>, writeIndex: nat, readIndex: nat)

  ghost predicate Valid(q: QueueState)
  {
    |q.slots| == KeyQueueSize && q.writeIndex < KeyQueueSize && q.readIndex < KeyQueueSize
  }

  /**
   (pressed << 8) | key, stored in an unsigned short. The key is below 256, so
   the or is an addition; the store into 16 bits truncates. The shift is on a
   32-bit signed int, so pressed must keep it non-negative and in range.
   */
  function Pack(pressed: int, key: byte): (data: u16)
    requires 0 <= pressed < 0x80_0000
    ensures Unpack(data) == KeyEvent(pressed % 0x100, key)
  {
    var hi, lo := pressed / 0x100, pressed % 0x100;
    assert pressed * 0x100 + key as int == hi * 0x1_0000 + (lo * 0x100 + key as int);
    assert (pressed * 0x100 + key as int) % 0x1_0000 == lo * 0x100 + key as int;
    ((pressed * 0x100 + key as int) % 0x1_0000) as u16
  }

  /** pressed = data >> 8, key = data & 0xFF. */
  function Unpack(data: u16): (e: KeyEvent)
    ensures 0 <= e.pressed < 0x100
    ensures e.pressed * 0x100 + e.key as int == data as int
  {
    KeyEvent(data as int / 0x100, (data as int % 0x100) as byte)
  }

  /** The state after the static initialisers and the memset in DG_Init. */
  function Initial(): (q: QueueState)
    ensures Valid(q) && Pending(q) == []
    ensures q.writeIndex == 0 && q.readIndex == 0
    ensures forall i :: 0 <= i < |q.slots| ==> q.slots[i] == 0
  {
    QueueState(seq(KeyQueueSize, _ => 0), 0, 0)
  }

  /** The number of slots from the read cursor up to the write cursor, going round. */
  function Count(q: QueueState): (n: nat)
    requires Valid(q)
    ensures n < KeyQueueSize && n == (q.writeIndex - q.readIndex) % KeyQueueSize
  {
    if q.readIndex <= q.writeIndex then q.writeIndex - q.readIndex
    else q.writeIndex + KeyQueueSize - q.readIndex
  }

  /** The slot i places after cursor c, going round: (c + i) % 16. */
  function After(c: nat, i: nat): (j: nat)
    requires c < KeyQueueSize && i < KeyQueueSize
    ensures j < KeyQueueSize && j == (c + i) % KeyQueueSize
  {
    if c + i < KeyQueueSize then c + i else c + i - KeyQueueSize
  }

  /** The events a consumer would read, oldest first: the slots from the read cursor up to the write cursor. */
  function Pending(q: QueueState): (p: seq<KeyEvent>)
    requires Valid(q)
    ensures |p| < KeyQueueSize
    ensures p == [] <==> q.readIndex == q.writeIndex
  {
    seq(Count(q), i requires 0 <= i < Count(q) => Unpack(q.slots[After(q.readIndex, i)]))
  }

  /** addKeyToQueue: translate, pack, store at the write cursor, advance the write cursor. */
  function Produce(q: QueueState, t: KeyTable, pressed: int, keyCode: u32): (r: QueueState)
    requires Valid(q) && 0 <= pressed < 0x80_0000
    ensures Valid(r)
    ensures r.writeIndex == (q.writeIndex + 1) % KeyQueueSize && r.readIndex == q.readIndex
    ensures Unpack(r.slots[q.writeIndex]) == KeyEvent(pressed % 0x100, ConvertToDoomKey(t, keyCode))
    ensures forall i :: 0 <= i < KeyQueueSize && i != q.writeIndex ==> r.slots[i] == q.slots[i]
  {
    var key := ConvertToDoomKey(t, keyCode);
    var keyData := Pack(pressed, key);
    QueueState(q.slots[q.writeIndex := keyData], (q.writeIndex + 1) % KeyQueueSize, q.readIndex)
  }

  /**
   DG_GetKey: None, and nothing changes, when the cursors are equal; otherwise
   the unpacked slot at the read cursor, and the read cursor advances.
   */
  function Consume(q: QueueState): (r: (Option<KeyEvent>, QueueState))
    requires Valid(q)
    ensures Valid(r.1)
    ensures r.0.None? <==> q.readIndex == q.writeIndex
    ensures r.0.None? ==> r.1 == q
    ensures r.0.Some? ==> r.0.value == Unpack(q.slots[q.readIndex])
    ensures r.0.Some? ==> r.1.readIndex == (q.readIndex + 1) % KeyQueueSize
    ensures r.1.slots == q.slots && r.1.writeIndex == q.writeIndex
  {
    if q.readIndex == q.writeIndex then
      (None, q)
    else
      var keyData := q.slots[q.readIndex];
      (Some(Unpack(keyData)), q.(readIndex := (q.readIndex + 1) % KeyQueueSize))
  }

  // ---------------------------------------------------------------------------
  // One production, one consumption, seen through Pending

  /**
   A production appends the translated event, except when 15 events are
   already pending: then the write cursor lands on the read cursor and the
   queue reads as empty.
   */
  lemma ProducePending(q: QueueState, t: KeyTable, pressed: int, keyCode: u32)
    requires Valid(q) && 0 <= pressed < 0x80_0000
    ensures var e := KeyEvent(pressed % 0x100, ConvertToDoomKey(t, keyCode));
            Pending(Produce(q, t, pressed, keyCode)) ==
              if |Pending(q)| == KeyQueueSize - 1 then [] else Pending(q) + [e]
  {
    var e := KeyEvent(pressed % 0x100, ConvertToDoomKey(t, keyCode));
    var r := Produce(q, t, pressed, keyCode);
    var p := Pending(q);
    var n := Count(q);
    assert r.writeIndex == After(q.writeIndex, 1);
    if n < KeyQueueSize - 1 {
      assert Count(r) == n + 1;
      forall i | 0 <= i < n + 1 ensures Pending(r)[i] == (p + [e])[i] {
        assert After(q.readIndex, i) == q.writeIndex <==> i == n;
      }
    } else {
      assert r.readIndex == r.writeIndex;
    }
  }

  /** A consumption takes the oldest pending event, or reports None when nothing is pending. */
  lemma ConsumePending(q: QueueState)
    requires Valid(q)
    ensures var (e, r) := Consume(q);
            if Pending(q) == [] then e == None && r == q
            else e == Some(Pending(q)[0]) && Pending(r) == Pending(q)[1..]
  {
    var (e, r) := Consume(q);
    var p := Pending(q);
    if p != [] {
      assert r.readIndex == After(q.readIndex, 1);
      assert Count(r) == Count(q) - 1;
      forall i | 0 <= i < |p| - 1 ensures Pending(r)[i] == p[1..][i] {
        assert After(r.readIndex, i) == After(q.readIndex, i + 1);
      }
    }
  }

  // ---------------------------------------------------------------------------
  // The event loop

  /** The SDL events the loop routes; quit and window-close are not part of this model. */
  datatype Event = KeyDown(sym: u32) | KeyUp(sym: u32) | OtherEvent

  /** One pass of the event loop body: key-down enqueues with pressed = 1, key-up with pressed = 0. */
  function ProduceEvent(q: QueueState, t: KeyTable, e: Event): (r: QueueState)
    requires Valid(q)
    ensures Valid(r)
  {
    match e
    case KeyDown(k) => Produce(q, t, 1, k)
    case KeyUp(k) => Produce(q, t, 0, k)
    case OtherEvent => q
  }

  /** The queue after the event loop has polled the given events, in order. */
  function ProduceEvents(q: QueueState, t: KeyTable, events: seq<Event>): (r: QueueState)
    requires Valid(q)
    ensures Valid(r)
    decreases |events|
  {
    if events == [] then q
    else ProduceEvent(ProduceEvents(q, t, events[..|events| - 1]), t, events[|events| - 1])
  }

  /** The events the consumer should see for a run of SDL events: one per key event, in event order. */
  function Routed(t: KeyTable, events: seq<Event>): (r: seq<KeyEvent>)
    ensures |r| <= |events|
    ensures forall i :: 0 <= i < |r| ==> r[i].pressed == 0 || r[i].pressed == 1
    decreases |events|
  {
    if events == [] then []
    else
      var front := Routed(t, events[..|events| - 1]);
      match events[|events| - 1]
      case KeyDown(k) => front + [KeyEvent(1, ConvertToDoomKey(t, k))]
      case KeyUp(k) => front + [KeyEvent(0, ConvertToDoomKey(t, k))]
      case OtherEvent => front
  }

  /** Routing distributes over concatenation: each part of the event stream contributes its own key events. */
  lemma {:induction false} RoutedAppend(t: KeyTable, a: seq<Event>, b: seq<Event>)
    ensures Routed(t, a + b) == Routed(t, a) + Routed(t, b)
    decreases |b|
  {
    if b != [] {
      var b' := b[..|b| - 1];
      assert (a + b)[..|a + b| - 1] == a + b';
      assert (a + b)[|a + b| - 1] == b[|b| - 1];
      RoutedAppend(t, a, b');
    } else {
      assert a + b == a;
    }
  }

  /** The routing rule for one event. */
  lemma RoutedOne(t: KeyTable, e: Event)
    ensures e.KeyDown? ==> Routed(t, [e]) == [KeyEvent(1, ConvertToDoomKey(t, e.sym))]
    ensures e.KeyUp? ==> Routed(t, [e]) == [KeyEvent(0, ConvertToDoomKey(t, e.sym))]
    ensures e.OtherEvent? ==> Routed(t, [e]) == []
  {
  }

  /** The newest (|s| % 16) elements of s: what a queue without a full check keeps of everything enqueued. */
  function Newest(s: seq<KeyEvent>): (r: seq<KeyEvent>)
    ensures |r| == |s| % KeyQueueSize
  {
    s[|s| - |s| % KeyQueueSize..]
  }

  /** Appending to the enqueued history moves the kept window as one production moves the queue. */
  lemma NewestAppend(s: seq<KeyEvent>, x: KeyEvent)
    ensures Newest(s + [x]) ==
              if |Newest(s)| == KeyQueueSize - 1 then [] else Newest(s) + [x]
  {
    var n := |s| % KeyQueueSize;
    var s' := s + [x];
    assert |s'| % KeyQueueSize == if n == KeyQueueSize - 1 then 0 else n + 1;
    if n < KeyQueueSize - 1 {
      assert s'[|s'| - (n + 1)..] == s[|s| - n..] + [x];
    }
  }

  /** A production keeps the consumer's view equal to the newest part of the enqueued history. */
  lemma ProduceKeepsNewest(q: QueueState, t: KeyTable, pressed: int, keyCode: u32, s: seq<KeyEvent>)
    requires Valid(q) && 0 <= pressed < 0x100 && Pending(q) == Newest(s)
    ensures Pending(Produce(q, t, pressed, keyCode)) == Newest(s + [KeyEvent(pressed, ConvertToDoomKey(t, keyCode))])
  {
    var e := KeyEvent(pressed, ConvertToDoomKey(t, keyCode));
    assert pressed % 0x100 == pressed;
    ProducePending(q, t, pressed, keyCode);
    NewestAppend(s, e);
    assert |Pending(q)| == |Newest(s)|;
  }

  /**
   Everything about production without consumption in one statement: of all
   the events ever enqueued (those pending before, then the routed ones), the
   consumer sees the newest (total % 16), oldest first. Below capacity that is
   all of them; at every multiple of 16 it is none.
   */
  lemma {:induction false} ProduceEventsPending(q: QueueState, t: KeyTable, events: seq<Event>)
    requires Valid(q)
    ensures Pending(ProduceEvents(q, t, events)) == Newest(Pending(q) + Routed(t, events))
    decreases |events|
  {
    if events == [] {
      assert Pending(q) + Routed(t, events) == Pending(q);
    } else {
      var front := events[..|events| - 1];
      var e := events[|events| - 1];
      var s := Pending(q) + Routed(t, front);
      ProduceEventsPending(q, t, front);
      var mid := ProduceEvents(q, t, front);
      assert ProduceEvents(q, t, events) == ProduceEvent(mid, t, e);
      if e.KeyDown? {
        var ev := KeyEvent(1, ConvertToDoomKey(t, e.sym));
        assert Routed(t, events) == Routed(t, front) + [ev];
        assert Pending(q) + Routed(t, events) == s + [ev];
        ProduceKeepsNewest(mid, t, 1, e.sym, s);
      } else if e.KeyUp? {
        var ev := KeyEvent(0, ConvertToDoomKey(t, e.sym));
        assert Routed(t, events) == Routed(t, front) + [ev];
        assert Pending(q) + Routed(t, events) == s + [ev];
        ProduceKeepsNewest(mid, t, 0, e.sym, s);
      } else {
        assert Routed(t, events) == Routed(t, front);
      }
    }
  }

  // ---------------------------------------------------------------------------
  // Draining the queue, as the engine does

  /** The results of n consecutive DG_GetKey calls, and the queue after them. */
  function Drain(q: QueueState, n: nat): (r: (seq<Option<KeyEvent>>, QueueState))
    requires Valid(q)
    ensures Valid(r.1) && |r.0| == n
    decreases n
  {
    if n == 0 then ([], q)
    else
      var (e, q1) := Consume(q);
      var (es, q2) := Drain(q1, n - 1);
      ([e] + es, q2)
  }

  /** Draining n of the pending events returns exactly those, oldest first, and leaves the rest pending. */
  lemma {:induction false} DrainPending(q: QueueState, n: nat)
    requires Valid(q) && n <= |Pending(q)|
    ensures forall i :: 0 <= i < n ==> Drain(q, n).0[i] == Some(Pending(q)[i])
    ensures Pending(Drain(q, n).1) == Pending(q)[n..]
    decreases n
  {
    if n > 0 {
      ConsumePending(q);
      var (e, q1) := Consume(q);
      DrainPending(q1, n - 1);
      assert Pending(q1) == Pending(q)[1..];
    }
  }

  /**
   FIFO below capacity: from an empty queue, at most 15 key events, then as
   many DG_GetKey calls, return the translated events in event order, each
   exactly once; one more call reports the queue empty.
   */
  lemma FifoBelowCapacity(q: QueueState, t: KeyTable, events: seq<Event>)
    requires Valid(q) && q.readIndex == q.writeIndex
    requires |Routed(t, events)| < KeyQueueSize
    ensures var n := |Routed(t, events)|;
            var (got, after) := Drain(ProduceEvents(q, t, events), n);
            && (forall i :: 0 <= i < n ==> got[i] == Some(Routed(t, events)[i]))
            && Consume(after).0 == None
  {
    var routed := Routed(t, events);
    var n := |routed|;
    var r := ProduceEvents(q, t, events);
    ProduceEventsPending(q, t, events);
    assert Pending(q) + routed == routed;
    assert Newest(routed) == routed by {
      assert |routed| % KeyQueueSize == |routed|;
    }
    assert Pending(r) == routed;
    DrainPending(r, n);
    var after := Drain(r, n).1;
    assert Pending(after) == [];
    ConsumePending(after);
  }

  /**
   No overflow guard: from an empty queue, 16 key events with no consumption
   bring the write cursor back onto the read cursor, so the queue reads as
   empty and none of the 16 can be observed.
   */
  lemma SixteenProductionsLookEmpty(q: QueueState, t: KeyTable, events: seq<Event>)
    requires Valid(q) && q.readIndex == q.writeIndex
    requires |Routed(t, events)| == KeyQueueSize
    ensures var r := ProduceEvents(q, t, events);
            r.readIndex == r.writeIndex && Consume(r).0 == None
  {
    ProduceEventsPending(q, t, events);
    assert Pending(q) + Routed(t, events) == Routed(t, events);
  }

  /** A 17th unconsumed key event is then the only one a consumer can read. */
  lemma SeventeenthProductionAlone(q: QueueState, t: KeyTable, events: seq<Event>)
    requires Valid(q) && q.readIndex == q.writeIndex
    requires |Routed(t, events)| == KeyQueueSize + 1
    ensures var r := ProduceEvents(q, t, events);
            && Pending(r) == [Routed(t, events)[KeyQueueSize]]
            && Consume(r).0 == Some(Routed(t, events)[KeyQueueSize])
  {
    var r := ProduceEvents(q, t, events);
    var routed := Routed(t, events);
    ProduceEventsPending(q, t, events);
    assert Pending(q) + routed == routed;
    assert Newest(routed) == [routed[KeyQueueSize]] by {
      assert |routed| % KeyQueueSize == 1;
    }
    assert Pending(r) == [routed[KeyQueueSize]];
    ConsumePending(r);
  }
}
