/**
 * The queue bookkeeping of appsink (gst-libs/gst/app/gstappsink.c) as a
 * sequential state machine: the streaming side (start, stop, setcaps, event,
 * preroll, render) fills a FIFO that mixes buffers with CAPS and SEGMENT
 * events, and the application side (pull_preroll, pull_sample, is_eos) takes
 * buffers out again, activating the events queued in front of them.
 *
 * The mutex only serialises these operations, so each method here is one
 * locked section. Where the C code would wait on the condition variable the
 * model returns a `Blocks`/`Wait` outcome and leaves the state alone; the
 * waiting itself, signals and callbacks are not modelled.
 */
module App {
  import opened Wrappers

  /** A buffer handed to the sink; only its identity matters here. */
  datatype Buffer = Buffer(id: nat)

  /** Caps carried by a CAPS event; only their identity matters here. */
  datatype Caps = Caps(id: nat)

  /** The value of `last_segment`: the zero-filled struct of a fresh sink,
      the TIME segment gst_segment_init makes on start, or a segment copied
      out of a SEGMENT event. */
  datatype Segment = Blank | TimeDefaults | Received(id: nat)

  /** An object in the queue. */
  datatype Item = BufferItem(buffer: Buffer) | CapsItem(caps: Caps) | SegmentItem(segment: Segment)

  /** The events the sink's event handler looks at. */
  datatype Event = SegmentEvent(segment: Segment) | EosEvent | FlushStartEvent | FlushStopEvent | OtherEvent

  /** GstFlowReturn as render and preroll return it; `Wait` marks where render
      would block on a full queue without `drop`. */
  datatype Flow = Ok | Flushing | Wait

  /** What a pull returns: a sample, NULL, or nothing yet because the C code
      would wait for data. */
  datatype Pulled = Got(sample: Sample) | Null | Blocks

  /** GstSample: a buffer with the caps and segment that apply to it. */
  datatype Sample = Sample(buffer: Buffer, caps: Option<Caps>, segment: Segment)

  // ---------------------------------------------------------------------
  // The queue as a value

  /** The buffer an item is, if it is one. */
  function ItemBuffers(x: Item): seq<Buffer>
  {
    if x.BufferItem? then [x.buffer] else []
  }

  /** The buffers of a queue, oldest first, without the events. */
  function Buffers(q: seq<Item>): seq<Buffer>
  {
    if q == [] then [] else ItemBuffers(q[0]) + Buffers(q[1..])
  }

  lemma {:induction false} BuffersAppend(a: seq<Item>, b: seq<Item>)
    ensures Buffers(a + b) == Buffers(a) + Buffers(b)
    decreases |a|
  {
    if a == [] {
      assert a + b == b;
    } else {
      var tail := a[1..];
      assert (a + b)[0] == a[0];
      assert (a + b)[1..] == tail + b;
      BuffersAppend(tail, b);
      assert Buffers(a + b) == ItemBuffers(a[0]) + (Buffers(tail) + Buffers(b));
    }
  }

  /** The caps of the last CAPS event in `items`, or `initial` if there is
      none. */
  function LastCaps(items: seq<Item>, initial: Option<Caps>): Option<Caps>
  {
    if items == [] then initial
    else if items[|items| - 1].CapsItem? then Some(items[|items| - 1].caps)
    else LastCaps(items[..|items| - 1], initial)
  }

  /** The segment of the last SEGMENT event in `items`, or `initial` if there
      is none. */
  function LastSegment(items: seq<Item>, initial: Segment): Segment
  {
    if items == [] then initial
    else if items[|items| - 1].SegmentItem? then items[|items| - 1].segment
    else LastSegment(items[..|items| - 1], initial)
  }

  /** Reading a first item and then the rest is reading both. */
  lemma {:induction false} LastCapsCons(x: Item, items: seq<Item>, initial: Option<Caps>)
    ensures LastCaps([x] + items, initial) == LastCaps(items, if x.CapsItem? then Some(x.caps) else initial)
    decreases |items|
  {
    if items != [] {
      var n := |items|;
      assert ([x] + items)[..n] == [x] + items[..n - 1];
      LastCapsCons(x, items[..n - 1], initial);
    }
  }

  lemma {:induction false} LastSegmentCons(x: Item, items: seq<Item>, initial: Segment)
    ensures LastSegment([x] + items, initial) == LastSegment(items, if x.SegmentItem? then x.segment else initial)
    decreases |items|
  {
    if items != [] {
      var n := |items|;
      assert ([x] + items)[..n] == [x] + items[..n - 1];
      LastSegmentCons(x, items[..n - 1], initial);
    }
  }

  /** The part of the sink's state that dequeue_buffer reads and writes. */
  datatype Stream = Stream(queue: seq<Item>, lastCaps: Option<Caps>, lastSegment: Segment)

  /** What dequeue_buffer hands back, and the stream it leaves. */
  datatype Popped = Popped(buffer: Buffer, after: Stream)

  /** dequeue_buffer on values: pop the head until it is a buffer, taking the
      caps of each CAPS event and the segment of each SEGMENT event on the
      way. What is left holds every buffer but the first. */
  function Pop(s: Stream): (p: Popped)
    requires |Buffers(s.queue)| > 0
    ensures Buffers(s.queue) == [p.buffer] + Buffers(p.after.queue)
    decreases |s.queue|
  {
    if s.queue[0].BufferItem? then Popped(s.queue[0].buffer, s.(queue := s.queue[1..]))
    else Pop(Skip(s))
  }

  /** Pop takes items from the head of the queue only. */
  lemma {:induction false} PopSuffix(s: Stream)
    requires |Buffers(s.queue)| > 0
    ensures |Pop(s).after.queue| < |s.queue| && IsSuffix(Pop(s).after.queue, s.queue)
    decreases |s.queue|
  {
    if !s.queue[0].BufferItem? {
      PopSkip(s);
      PopSuffix(Skip(s));
      IsSuffixTrans(Pop(s).after.queue, Skip(s).queue, s.queue);
    }
  }

  /** The stream after reading the event at the head of the queue. */
  function Skip(s: Stream): Stream
    requires s.queue != []
  {
    var head := s.queue[0];
    Stream(s.queue[1..], if head.CapsItem? then Some(head.caps) else s.lastCaps,
                         if head.SegmentItem? then head.segment else s.lastSegment)
  }

  /** An event at the head is read and skipped without changing the result. */
  lemma PopSkip(s: Stream)
    requires |Buffers(s.queue)| > 0 && !s.queue[0].BufferItem?
    ensures |Buffers(Skip(s).queue)| > 0
    ensures Pop(s) == Pop(Skip(s))
  {
  }

  /** A buffer at the head is the one popped. */
  lemma PopHead(s: Stream)
    requires s.queue != [] && s.queue[0].BufferItem?
    ensures |Buffers(s.queue)| > 0
    ensures Pop(s) == Popped(s.queue[0].buffer, s.(queue := s.queue[1..]))
  {
  }

  /** How many events Pop reads before it finds the buffer. */
  function RunLength(s: Stream): (k: nat)
    requires |Buffers(s.queue)| > 0
    ensures k < |s.queue|
  {
    PopSuffix(s);
    |s.queue| - |Pop(s).after.queue| - 1
  }

  /** Pop in terms of the queue's layout: the queue is a run of events, the
      returned buffer, then the rest. */
  lemma {:induction false} PopLayout(s: Stream)
    requires |Buffers(s.queue)| > 0
    ensures var k := RunLength(s);
            && s.queue[k] == BufferItem(Pop(s).buffer)
            && Buffers(s.queue[..k]) == []
            && Pop(s).after.queue == s.queue[k + 1..]
    decreases |s.queue|
  {
    PopSuffix(s);
    var k := RunLength(s);
    var head := s.queue[0];
    if head.BufferItem? {
      PopHead(s);
      assert s.queue[..k] == [];
    } else {
      var t := Skip(s);
      PopSkip(s);
      PopLayout(t);
      assert RunLength(t) == k - 1;
      var run := t.queue[..k - 1];
      assert s.queue[k] == t.queue[k - 1];
      assert s.queue[..k] == [head] + run;
      BuffersAppend([head], run);
    }
  }

  /** The caps and segment Pop leaves active are those of the last CAPS and
      the last SEGMENT event of the run before the buffer. */
  lemma {:induction false} PopActivates(s: Stream)
    requires |Buffers(s.queue)| > 0
    ensures Pop(s).after.lastCaps == LastCaps(s.queue[..RunLength(s)], s.lastCaps)
    ensures Pop(s).after.lastSegment == LastSegment(s.queue[..RunLength(s)], s.lastSegment)
    decreases |s.queue|
  {
    var k := RunLength(s);
    var head := s.queue[0];
    if head.BufferItem? {
      PopHead(s);
      assert s.queue[..k] == [];
    } else {
      var t := Skip(s);
      PopSkip(s);
      PopActivates(t);
      assert RunLength(t) == k - 1;
      var run := t.queue[..k - 1];
      assert s.queue[..k] == [head] + run;
      LastCapsCons(head, run, s.lastCaps);
      LastSegmentCons(head, run, s.lastSegment);
    }
  }

  /** `n` pops in a row: what render's drop loop does to the stream. */
  function DropOldest(s: Stream, n: nat): (r: Stream)
    requires n <= |Buffers(s.queue)|
    ensures Buffers(r.queue) == Buffers(s.queue)[n..]
    decreases n
  {
    if n == 0 then s
    else
      var t := DropOldest(s, n - 1);
      var p := Pop(t);
      var r := p.after;
      assert Buffers(r.queue) == Buffers(t.queue)[1..] == Buffers(s.queue)[n..];
      r
  }

  /** One more drop is one more pop. */
  lemma DropOldestStep(s: Stream, n: nat)
    requires n < |Buffers(s.queue)|
    ensures |Buffers(DropOldest(s, n).queue)| > 0
    ensures DropOldest(s, n + 1) == Pop(DropOldest(s, n)).after
  {
  }

  /** `a` is what is left of `b` after removing items from its head. */
  predicate IsSuffix(a: seq<Item>, b: seq<Item>)
  {
    |a| <= |b| && a == b[|b| - |a|..]
  }

  lemma IsSuffixTrans(a: seq<Item>, b: seq<Item>, c: seq<Item>)
    requires IsSuffix(a, b) && IsSuffix(b, c)
    ensures IsSuffix(a, c)
  {
    assert c[|c| - |a|..] == c[|c| - |b|..][|b| - |a|..];
  }

  /** Dropping takes items from the head of the queue only. */
  lemma {:induction false} DropOldestSuffix(s: Stream, n: nat)
    requires n <= |Buffers(s.queue)|
    ensures IsSuffix(DropOldest(s, n).queue, s.queue)
    decreases n
  {
    if n > 0 {
      var t := DropOldest(s, n - 1);
      var p := Pop(t);
      assert DropOldest(s, n) == p.after;
      DropOldestSuffix(s, n - 1);
      PopSuffix(t);
      IsSuffixTrans(p.after.queue, t.queue, s.queue);
    }
  }

  /** Render drops the oldest buffers only while a drop lets it make room. */
  function Excess(numBuffers: nat, maxBuffers: nat, drop: bool): nat
  {
    if drop && maxBuffers > 0 && numBuffers >= maxBuffers then numBuffers - maxBuffers + 1 else 0
  }

  /** What render leaves when it has room after dropping `n` buffers. */
  function Rendered(s: Stream, n: nat, b: Buffer): Stream
    requires n <= |Buffers(s.queue)|
  {
    var d := DropOldest(s, n);
    d.(queue := d.queue + [BufferItem(b)])
  }

  /** Render keeps the buffers in arrival order: the `n` oldest are gone and
      the new one is last. */
  lemma RenderedBuffers(s: Stream, n: nat, b: Buffer)
    requires n <= |Buffers(s.queue)|
    ensures Buffers(Rendered(s, n, b).queue) == Buffers(s.queue)[n..] + [b]
  {
    BuffersAppend(DropOldest(s, n).queue, [BufferItem(b)]);
  }

  // ---------------------------------------------------------------------
  // The sink

  class AppSink {
    /** The caps property (a filter; the queue does not use it). */
    var caps: Option<Caps>
    var emitSignals: bool
    var numBuffers: nat
    var maxBuffers: nat
    var drop: bool
    var queue: seq<Item>
    var preroll: Option<Buffer>
    var prerollCaps: Option<Caps>
    var lastCaps: Option<Caps>
    var lastSegment: Segment
    var flushing: bool
    var started: bool
    var isEos: bool

    function StreamState(): Stream
      reads this
    {
      Stream(queue, lastCaps, lastSegment)
    }

    /** The counter is the number of buffers in the queue. */
    predicate Valid()
      reads this
    {
      numBuffers == |Buffers(queue)|
    }

    /** gst_app_sink_is_eos: a stopped sink is at EOS, a started one once EOS
        was received and every buffer was pulled. */
    predicate IsEos(): (eos: bool)
      reads this
      ensures Valid() ==> (eos <==> !started || (isEos && Buffers(queue) == []))
    {
      !started || (isEos && numBuffers == 0)
    }

    /** Render would wait for room: a full queue and no permission to drop. */
    predicate WouldWait()
      reads this
    {
      !drop && maxBuffers > 0 && numBuffers >= maxBuffers
    }

    /** gst_app_sink_init, on a zero-filled private struct. */
    constructor ()
      ensures Valid()
      ensures caps == None && !emitSignals && numBuffers == 0 && maxBuffers == 0 && !drop
      ensures queue == [] && preroll == None && prerollCaps == None && lastCaps == None
      ensures lastSegment == Blank && !flushing && !started && !isEos
    {
      caps := None;
      emitSignals := false;
      numBuffers := 0;
      maxBuffers := 0;
      drop := false;
      queue := [];
      preroll := None;
      prerollCaps := None;
      lastCaps := None;
      lastSegment := Blank;
      flushing := false;
      started := false;
      isEos := false;
    }

    /** gst_app_sink_flush_unlocked: not EOS, no preroll, nothing queued. */
    method FlushUnlocked()
      modifies this`isEos, this`preroll, this`queue, this`numBuffers
      ensures Valid()
      ensures !isEos && preroll == None && queue == [] && numBuffers == 0
    {
      isEos := false;
      preroll := None;
      while queue != []
        modifies this`queue
        decreases |queue|
      {
        queue := queue[1..];
      }
      numBuffers := 0;
    }

    /** gst_app_sink_start */
    method Start()
      modifies this`flushing, this`started, this`lastSegment
      ensures !flushing && started && lastSegment == TimeDefaults
    {
      flushing := false;
      started := true;
      lastSegment := TimeDefaults;
    }

    /** gst_app_sink_stop: flushing, stopped, flushed, and no caps remembered.
        Afterwards the sink reports EOS, and render and preroll refuse data. */
    method Stop()
      modifies this`flushing, this`started, this`isEos, this`preroll, this`queue, this`numBuffers,
               this`prerollCaps, this`lastCaps
      ensures Valid() && IsEos()
      ensures flushing && !started
      ensures !isEos && preroll == None && queue == [] && numBuffers == 0
      ensures prerollCaps == None && lastCaps == None
    {
      flushing := true;
      started := false;
      FlushUnlocked();
      prerollCaps := None;
      lastCaps := None;
    }

    /** gst_app_sink_setcaps: queue a CAPS event and remember the caps for the
        preroll sample; the buffer count stays right. */
    method SetCapsEvent(c: Caps)
      requires Valid()
      modifies this`queue, this`prerollCaps
      ensures Valid()
      ensures queue == old(queue) + [CapsItem(c)] && prerollCaps == Some(c)
    {
      BuffersAppend(queue, [CapsItem(c)]);
      queue := queue + [CapsItem(c)];
      prerollCaps := Some(c);
    }

    /** gst_app_sink_event: SEGMENT is queued, EOS marks the sink, FLUSH_STOP
        flushes; FLUSH_START and the rest leave the state alone. */
    method HandleEvent(e: Event)
      requires Valid()
      modifies this`queue, this`isEos, this`preroll, this`numBuffers
      ensures Valid()
      ensures e.SegmentEvent? ==> queue == old(queue) + [SegmentItem(e.segment)] && unchanged(this`isEos, this`preroll, this`numBuffers)
      ensures e.EosEvent? ==> isEos && unchanged(this`queue, this`preroll, this`numBuffers)
      ensures e.FlushStopEvent? ==> !isEos && preroll == None && queue == [] && numBuffers == 0
      ensures e.FlushStartEvent? || e.OtherEvent? ==> unchanged(this)
    {
      match e
      case SegmentEvent(g) =>
        BuffersAppend(queue, [SegmentItem(g)]);
        queue := queue + [SegmentItem(g)];
      case EosEvent =>
        isEos := true;
      case FlushStopEvent =>
        FlushUnlocked();
      case _ =>
    }

    /** gst_app_sink_preroll: keep the buffer unless flushing. */
    method Preroll(b: Buffer) returns (r: Flow)
      modifies this`preroll
      ensures r == (if flushing then Flushing else Ok)
      ensures preroll == (if flushing then old(preroll) else Some(b))
    {
      if flushing {
        return Flushing;
      }
      preroll := Some(b);
      return Ok;
    }

    /** dequeue_buffer: pop up to and including the oldest buffer, activating
        the queued events on the way. */
    method DequeueBuffer() returns (b: Buffer)
      requires Valid() && numBuffers > 0
      modifies this`queue, this`lastCaps, this`lastSegment, this`numBuffers
      ensures Valid()
      ensures Popped(b, StreamState()) == Pop(old(StreamState()))
      ensures numBuffers == old(numBuffers) - 1
    {
      ghost var goal := Pop(StreamState());
      while true
        invariant |Buffers(queue)| > 0
        invariant Pop(StreamState()) == goal
        invariant numBuffers == old(numBuffers)
        decreases |queue|
      {
        ghost var before := StreamState();
        var item := queue[0];
        queue := queue[1..];
        match item
        case BufferItem(x) =>
          PopHead(before);
          b := x;
          numBuffers := numBuffers - 1;
          break;
        case CapsItem(x) =>
          lastCaps := Some(x);
          PopSkip(before);
          assert StreamState() == Skip(before);
        case SegmentItem(x) =>
          lastSegment := x;
          PopSkip(before);
          assert StreamState() == Skip(before);
      }
    }

    /** gst_app_sink_render: refuse while flushing; on a full queue either
        drop the oldest buffers until there is room or (without `drop`) wait;
        then append the buffer. */
    method Render(b: Buffer) returns (r: Flow)
      requires Valid()
      modifies this`queue, this`lastCaps, this`lastSegment, this`numBuffers
      ensures Valid()
      ensures r == (if flushing then Flushing else if old(WouldWait()) then Wait else Ok)
      ensures r != Ok ==> unchanged(this)
      ensures r == Ok ==>
        && StreamState() == Rendered(old(StreamState()), Excess(old(numBuffers), maxBuffers, drop), b)
        && numBuffers == old(numBuffers) - Excess(old(numBuffers), maxBuffers, drop) + 1
      ensures r == Ok && maxBuffers > 0 ==> numBuffers <= maxBuffers
    {
      if flushing {
        return Flushing;
      }
      ghost var start := StreamState();
      ghost var dropped: nat := 0;
      while maxBuffers > 0 && numBuffers >= maxBuffers
        invariant dropped <= |Buffers(start.queue)|
        invariant StreamState() == DropOldest(start, dropped)
        invariant numBuffers == old(numBuffers) - dropped == |Buffers(queue)|
        invariant dropped > 0 ==> drop && maxBuffers > 0 && numBuffers + 1 >= maxBuffers
        decreases numBuffers
      {
        if !drop {
          return Wait;
        }
        var oldest := DequeueBuffer();
        DropOldestStep(start, dropped);
        dropped := dropped + 1;
      }
      assert dropped == Excess(old(numBuffers), maxBuffers, drop);
      RenderedBuffers(start, dropped, b);
      queue := queue + [BufferItem(b)];
      numBuffers := numBuffers + 1;
      assert StreamState() == Rendered(start, dropped, b);
      return Ok;
    }

    /** gst_app_sink_set_caps */
    method SetCaps(c: Option<Caps>)
      modifies this`caps
      ensures caps == c
    {
      caps := c;
    }

    /** gst_app_sink_set_emit_signals */
    method SetEmitSignals(emit: bool)
      modifies this`emitSignals
      ensures emitSignals == emit
    {
      emitSignals := emit;
    }

    /** gst_app_sink_set_max_buffers: lowering the bound drops nothing; the
        next render makes room. */
    method SetMaxBuffers(max: nat)
      modifies this`maxBuffers
      ensures maxBuffers == max
    {
      maxBuffers := max;
    }

    /** gst_app_sink_set_drop */
    method SetDrop(d: bool)
      modifies this`drop
      ensures drop == d
    {
      drop := d;
    }

    /** gst_app_sink_pull_preroll: the preroll buffer with the preroll caps,
        left in place; NULL when stopped, or at EOS with no preroll. */
    method PullPreroll() returns (r: Pulled)
      ensures r.Got? <==> started && preroll.Some?
      ensures r.Null? <==> !started || (preroll == None && isEos)
      ensures r.Got? ==> r.sample == Sample(preroll.value, prerollCaps, lastSegment)
    {
      if !started {
        return Null;
      }
      if preroll.Some? {
        return Got(Sample(preroll.value, prerollCaps, lastSegment));
      }
      if isEos {
        return Null;
      }
      return Blocks;
    }

    /** gst_app_sink_pull_sample: NULL exactly when is_eos holds; otherwise the
        oldest buffer with the caps and segment active once it is dequeued,
        or a wait while the queue is empty. */
    method PullSample() returns (r: Pulled)
      requires Valid()
      modifies this`queue, this`lastCaps, this`lastSegment, this`numBuffers
      ensures Valid()
      ensures r.Null? <==> old(IsEos())
      ensures r.Got? <==> started && old(numBuffers) > 0
      ensures !r.Got? ==> unchanged(this)
      ensures r.Got? ==>
        var p := Pop(old(StreamState()));
        && r.sample == Sample(p.buffer, p.after.lastCaps, p.after.lastSegment)
        && StreamState() == p.after
        && numBuffers == old(numBuffers) - 1
      ensures r.Got? ==> [r.sample.buffer] + Buffers(queue) == Buffers(old(queue))
    {
      if !started {
        return Null;
      }
      if numBuffers == 0 {
        if isEos {
          return Null;
        }
        return Blocks;
      }
      var b := DequeueBuffer();
      return Got(Sample(b, lastCaps, lastSegment));
    }
  }
}
