/** The agent's bounded FIFO of pending events (agent/netra-core/src/queue.rs).

    The queue is bounded by event count and by encoded bytes. `Push` evicts from the front,
    `RequeueFront` trims from the back; both are stated here as keeping exactly the longest
    suffix, respectively prefix, that fits the two bounds. */
module EventQueues {

  /** One agent event. Its JSON encoding is represented by its length only. */
  datatype Event = Event(
    eventId: string,
    occurredAtMs: int,
    eventType: string,
    severity: string,
    metadata: map<string, string>,
    encodedLen: nat)

  datatype Capacity = Capacity(maxEvents: nat, maxBytes: nat)

  /** `EventQueue::new` clamps both bounds to at least one. */
  function Clamp(maxEvents: nat, maxBytes: nat): Capacity {
    Capacity(if maxEvents < 1 then 1 else maxEvents, if maxBytes < 1 then 1 else maxBytes)
  }

  function TotalSize(s: seq<Event>): nat {
    if s == [] then 0 else s[0].encodedLen + TotalSize(s[1..])
  }

  predicate Fits(s: seq<Event>, cap: Capacity) {
    |s| <= cap.maxEvents && TotalSize(s) <= cap.maxBytes
  }

  /** The event could never be stored, whatever else is queued. */
  predicate Oversized(e: Event, cap: Capacity) {
    e.encodedLen > cap.maxBytes
  }

  predicate NoneOversized(s: seq<Event>, cap: Capacity) {
    forall i :: 0 <= i < |s| ==> !Oversized(s[i], cap)
  }

  /** What eviction from the front leaves. */
  function KeepNewest(s: seq<Event>, cap: Capacity): seq<Event> {
    if s == [] || Fits(s, cap) then s else KeepNewest(s[1..], cap)
  }

  /** What trimming from the back leaves. */
  function KeepOldest(s: seq<Event>, cap: Capacity): seq<Event>
    decreases |s|
  {
    if s == [] || Fits(s, cap) then s else KeepOldest(s[..|s| - 1], cap)
  }

  function DropOversized(s: seq<Event>, cap: Capacity): seq<Event> {
    if s == [] then []
    else if Oversized(s[0], cap) then DropOversized(s[1..], cap)
    else [s[0]] + DropOversized(s[1..], cap)
  }

  lemma {:induction false} TotalSizeConcat(a: seq<Event>, b: seq<Event>)
    ensures TotalSize(a + b) == TotalSize(a) + TotalSize(b)
  {
    if a == [] {
      assert a + b == b;
    } else {
      assert (a + b)[1..] == a[1..] + b;
      TotalSizeConcat(a[1..], b);
    }
  }

  /** A part of a fitting sequence fits. */
  lemma FitsPart(a: seq<Event>, b: seq<Event>, cap: Capacity)
    requires Fits(a + b, cap)
    ensures Fits(a, cap) && Fits(b, cap)
  {
    TotalSizeConcat(a, b);
  }

  /** Eviction keeps the longest suffix that fits: a suffix fits exactly when it is no longer. */
  lemma {:induction false} KeepNewestIsLongestFittingSuffix(s: seq<Event>, cap: Capacity)
    ensures |KeepNewest(s, cap)| <= |s| && KeepNewest(s, cap) == s[|s| - |KeepNewest(s, cap)|..]
    ensures forall k :: 0 <= k <= |s| ==> (Fits(s[k..], cap) <==> |s| - k <= |KeepNewest(s, cap)|)
  {
    if s == [] || Fits(s, cap) {
      forall k | 0 <= k <= |s| ensures Fits(s[k..], cap) {
        if s != [] {
          assert s[..k] + s[k..] == s;
          FitsPart(s[..k], s[k..], cap);
        }
      }
    } else {
      KeepNewestIsLongestFittingSuffix(s[1..], cap);
      forall k | 0 <= k <= |s| ensures Fits(s[k..], cap) <==> |s| - k <= |KeepNewest(s, cap)| {
        if k > 0 {
          assert s[1..][k - 1..] == s[k..];
        } else {
          assert s[0..] == s;
        }
      }
    }
  }

  /** Trimming keeps the longest prefix that fits. */
  lemma {:induction false} KeepOldestIsLongestFittingPrefix(s: seq<Event>, cap: Capacity)
    ensures |KeepOldest(s, cap)| <= |s| && KeepOldest(s, cap) == s[..|KeepOldest(s, cap)|]
    ensures forall k :: 0 <= k <= |s| ==> (Fits(s[..k], cap) <==> k <= |KeepOldest(s, cap)|)
    decreases |s|
  {
    if s == [] || Fits(s, cap) {
      forall k | 0 <= k <= |s| ensures Fits(s[..k], cap) {
        if s != [] {
          assert s[..k] + s[k..] == s;
          FitsPart(s[..k], s[k..], cap);
        }
      }
    } else {
      var shorter := s[..|s| - 1];
      KeepOldestIsLongestFittingPrefix(shorter, cap);
      forall k | 0 <= k <= |s| ensures Fits(s[..k], cap) <==> k <= |KeepOldest(s, cap)| {
        if k < |s| {
          assert shorter[..k] == s[..k];
        } else {
          assert s[..k] == s;
        }
      }
    }
  }

  /** A new event that is not oversized always survives its own push. */
  lemma PushKeepsNewEvent(s: seq<Event>, e: Event, cap: Capacity)
    requires cap.maxEvents >= 1 && !Oversized(e, cap)
    ensures KeepNewest(s + [e], cap) != [] && Last(KeepNewest(s + [e], cap)) == e
  {
    KeepNewestIsLongestFittingSuffix(s + [e], cap);
    assert (s + [e])[|s|..] == [e];
    assert TotalSize([e]) == e.encodedLen;
    assert Fits((s + [e])[|s|..], cap);
  }

  function Last(s: seq<Event>): Event
    requires s != []
  {
    s[|s| - 1]
  }

  lemma {:induction false} DropOversizedKeepsAll(s: seq<Event>, cap: Capacity)
    requires NoneOversized(s, cap)
    ensures DropOversized(s, cap) == s
  {
    if s != [] {
      DropOversizedKeepsAll(s[1..], cap);
    }
  }

  lemma {:induction false} DropOversizedConcat(a: seq<Event>, b: seq<Event>, cap: Capacity)
    ensures DropOversized(a + b, cap) == DropOversized(a, cap) + DropOversized(b, cap)
  {
    if a == [] {
      assert a + b == b;
    } else {
      assert (a + b)[1..] == a[1..] + b;
      DropOversizedConcat(a[1..], b, cap);
    }
  }

  lemma {:induction false} DropOversizedLeavesNone(s: seq<Event>, cap: Capacity)
    ensures NoneOversized(DropOversized(s, cap), cap) && |DropOversized(s, cap)| <= |s|
  {
    if s != [] {
      DropOversizedLeavesNone(s[1..], cap);
    }
  }

  lemma DropOversizedStep(batch: seq<Event>, i: nat, queue: seq<Event>, cap: Capacity)
    requires i < |batch|
    ensures DropOversized(batch[i..], cap) + queue
         == (if Oversized(batch[i], cap) then [] else [batch[i]]) + (DropOversized(batch[i + 1..], cap) + queue)
  {
    assert batch[i..][1..] == batch[i + 1..];
  }

  /** A queue that fits holds no oversized event. */
  lemma {:induction false} FittingHasNoneOversized(s: seq<Event>, cap: Capacity)
    requires Fits(s, cap)
    ensures NoneOversized(s, cap)
  {
    forall i | 0 <= i < |s| ensures !Oversized(s[i], cap) {
      assert s == s[..i] + ([s[i]] + s[i + 1..]);
      TotalSizeConcat(s[..i], [s[i]] + s[i + 1..]);
      TotalSizeConcat([s[i]], s[i + 1..]);
      assert TotalSize([s[i]]) == s[i].encodedLen;
    }
  }

  /** Handing a drained batch straight back restores the queue: a failed send loses nothing. */
  lemma DrainThenRequeueIsIdentity(queue: seq<Event>, take: nat, cap: Capacity)
    requires Fits(queue, cap) && take <= |queue|
    ensures KeepOldest(DropOversized(queue[..take], cap) + queue[take..], cap) == queue
  {
    FittingHasNoneOversized(queue, cap);
    DropOversizedKeepsAll(queue[..take], cap);
    assert queue[..take] + queue[take..] == queue;
  }

  datatype QueueStats = QueueStats(
    len: nat, bytes: nat, droppedTotal: nat, capacityEvents: nat, capacityBytes: nat)

  function EventsOf(items: seq<(Event, nat)>): (s: seq<Event>)
    ensures |s| == |items|
  {
    seq(|items|, i requires 0 <= i < |items| => items[i].0)
  }

  /** Every entry carries its event's size and `bytes` is their sum. */
  ghost predicate Recorded(items: seq<(Event, nat)>, bytes: nat) {
    && (forall i :: 0 <= i < |items| ==> items[i].1 == items[i].0.encodedLen)
    && bytes == TotalSize(EventsOf(items))
  }

  lemma RecordedPrepend(event: Event, items: seq<(Event, nat)>, bytes: nat)
    requires Recorded(items, bytes)
    ensures EventsOf([(event, event.encodedLen)] + items) == [event] + EventsOf(items)
    ensures Recorded([(event, event.encodedLen)] + items, bytes + event.encodedLen)
  {
    assert EventsOf([(event, event.encodedLen)] + items) == [event] + EventsOf(items);
  }

  lemma RecordedAppend(event: Event, items: seq<(Event, nat)>, bytes: nat)
    requires Recorded(items, bytes)
    ensures EventsOf(items + [(event, event.encodedLen)]) == EventsOf(items) + [event]
    ensures Recorded(items + [(event, event.encodedLen)], bytes + event.encodedLen)
  {
    assert EventsOf(items + [(event, event.encodedLen)]) == EventsOf(items) + [event];
    TotalSizeConcat(EventsOf(items), [event]);
    assert TotalSize([event]) == event.encodedLen;
  }

  lemma RecordedTail(items: seq<(Event, nat)>, bytes: nat)
    requires Recorded(items, bytes) && items != []
    ensures EventsOf(items[1..]) == EventsOf(items)[1..]
    ensures EventsOf(items) == [items[0].0] + EventsOf(items[1..])
    ensures items[0].1 <= bytes && Recorded(items[1..], bytes - items[0].1)
  {
    assert EventsOf(items[1..]) == EventsOf(items)[1..];
  }

  lemma RecordedInit(items: seq<(Event, nat)>, bytes: nat)
    requires Recorded(items, bytes) && items != []
    ensures EventsOf(items[..|items| - 1]) == EventsOf(items)[..|items| - 1]
    ensures items[|items| - 1].1 <= bytes && Recorded(items[..|items| - 1], bytes - items[|items| - 1].1)
  {
    var init, last := items[..|items| - 1], items[|items| - 1].0;
    assert EventsOf(init) == EventsOf(items)[..|init|];
    assert EventsOf(items) == EventsOf(init) + [last];
    TotalSizeConcat(EventsOf(init), [last]);
    assert TotalSize([last]) == last.encodedLen;
  }

  class EventQueue {
    var items: seq<(Event, nat)>
    var bytes: nat
    var droppedTotal: nat
    const cap: Capacity

    /** Between calls both bounds hold and `bytes` is the sum of the queued sizes. */
    ghost predicate Valid()
      reads this
    {
      && SizesRecorded()
      && cap.maxEvents >= 1 && cap.maxBytes >= 1
      && Fits(Contents(), cap)
    }

    ghost predicate SizesRecorded()
      reads this
    {
      Recorded(items, bytes)
    }

    ghost function Contents(): (s: seq<Event>)
      reads this
      ensures |s| == |items|
    {
      EventsOf(items)
    }

    constructor (maxEvents: nat, maxBytes: nat)
      ensures Valid() && Contents() == [] && droppedTotal == 0
      ensures cap == Clamp(maxEvents, maxBytes)
    {
      items, bytes, droppedTotal := [], 0, 0;
      cap := Clamp(maxEvents, maxBytes);
    }

    method Push(event: Event) returns (evicted: nat)
      requires Valid()
      modifies this
      ensures Valid()
      ensures Oversized(event, cap) ==> Contents() == old(Contents()) && evicted == 1
      ensures !Oversized(event, cap) ==>
                && Contents() == KeepNewest(old(Contents()) + [event], cap)
                && Contents() != [] && Last(Contents()) == event
                && evicted == |old(Contents())| + 1 - |Contents()|
      ensures droppedTotal == old(droppedTotal) + evicted
    {
      var size := event.encodedLen;
      if size > cap.maxBytes {
        droppedTotal := droppedTotal + 1;
        return 1;
      }
      ghost var full := Contents() + [event];
      RecordedAppend(event, items, bytes);
      items := items + [(event, size)];
      bytes := bytes + size;
      evicted := 0;
      while |items| > cap.maxEvents || bytes > cap.maxBytes
        invariant SizesRecorded()
        invariant KeepNewest(Contents(), cap) == KeepNewest(full, cap)
        invariant evicted + |items| == |full|
        invariant droppedTotal == old(droppedTotal) + evicted
        decreases |items|
      {
        if |items| == 0 {
          break;
        }
        RecordedTail(items, bytes);
        bytes := bytes - items[0].1;
        items := items[1..];
        droppedTotal := droppedTotal + 1;
        evicted := evicted + 1;
      }
      PushKeepsNewEvent(old(Contents()), event, cap);
    }

    method Drain(max: nat) returns (batch: seq<Event>)
      requires Valid()
      modifies this
      ensures Valid() && droppedTotal == old(droppedTotal)
      ensures batch + Contents() == old(Contents())
      ensures |batch| == if max < |old(Contents())| then max else |old(Contents())|
    {
      var take := if max < |items| then max else |items|;
      batch := [];
      ghost var all := Contents();
      for i := 0 to take
        invariant SizesRecorded() && droppedTotal == old(droppedTotal)
        invariant |items| == |old(items)| - i
        invariant Contents() == all[i..] && batch == all[..i]
      {
        RecordedTail(items, bytes);
        var (event, size) := items[0];
        items := items[1..];
        bytes := bytes - size;
        assert all[i..][1..] == all[i + 1..] && all[i..][0] == all[i] == event;
        batch := batch + [event];
      }
      assert all[..take] + all[take..] == all;
      FitsPart(batch, Contents(), cap);
    }

    method RequeueFront(batch: seq<Event>)
      requires Valid()
      modifies this
      ensures Valid()
      ensures Contents() == KeepOldest(DropOversized(batch, cap) + old(Contents()), cap)
      ensures droppedTotal + |Contents()| == old(droppedTotal + |Contents()|) + |batch|
    {
      PushFrontAll(batch);
      TrimBack();
    }

    /** First loop of `requeue_front`: back to front, so the batch ends up in order. */
    method PushFrontAll(batch: seq<Event>)
      requires SizesRecorded()
      modifies this
      ensures SizesRecorded()
      ensures Contents() == DropOversized(batch, cap) + old(Contents())
      ensures droppedTotal + |Contents()| == old(droppedTotal + |Contents()|) + |batch|
    {
      for i := |batch| downto 0
        invariant SizesRecorded()
        invariant Contents() == DropOversized(batch[i..], cap) + old(Contents())
        invariant droppedTotal + |items| == old(droppedTotal + |items|) + |batch| - i
      {
        DropOversizedStep(batch, i, old(Contents()), cap);
        var size := batch[i].encodedLen;
        if size > cap.maxBytes {
          droppedTotal := droppedTotal + 1;
        } else {
          RecordedPrepend(batch[i], items, bytes);
          items := [(batch[i], size)] + items;
          bytes := bytes + size;
        }
      }
      assert batch[0..] == batch;
    }

    /** Second loop of `requeue_front`: the front holds the oldest events, so trim the back. */
    method TrimBack()
      requires SizesRecorded()
      modifies this
      ensures SizesRecorded() && Fits(Contents(), cap)
      ensures Contents() == KeepOldest(old(Contents()), cap)
      ensures droppedTotal + |Contents()| == old(droppedTotal + |Contents()|)
    {
      while |items| > cap.maxEvents || bytes > cap.maxBytes
        invariant SizesRecorded()
        invariant KeepOldest(Contents(), cap) == KeepOldest(old(Contents()), cap)
        invariant droppedTotal + |items| == old(droppedTotal + |items|)
        decreases |items|
      {
        if |items| == 0 {
          break;
        }
        RecordedInit(items, bytes);
        bytes := bytes - items[|items| - 1].1;
        items := items[..|items| - 1];
        droppedTotal := droppedTotal + 1;
      }
    }

    method Stats() returns (stats: QueueStats)
      requires Valid()
      ensures stats.len == |Contents()| <= stats.capacityEvents
      ensures stats.bytes == TotalSize(Contents()) <= stats.capacityBytes
      ensures stats.droppedTotal == droppedTotal
    {
      stats := QueueStats(|items|, bytes, droppedTotal, cap.maxEvents, cap.maxBytes);
    }
  }
}
