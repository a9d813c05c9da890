/** The client role (`Client` in network_tcp_auto/client.py): its lifecycle
    flags, its outbound queue and the read and write loops of its one
    connection, run one after the other instead of as concurrent tasks. */
module TcpClient {
  import opened Framing

  /** What resolving a discovered service and connecting to it produced. */
  datatype ConnectAttempt =
    | NoServiceInfo  // `get_service_info` returned nothing
    | Refused        // `open_connection` raised ConnectionRefusedError
    | Opened         // the connection task was created

  /** Items the write loop takes from queue `q` before it stops. */
  function Taken(q: seq<Payload>): (n: nat)
    ensures n <= |q|
    ensures n == |q| || n == FirstStop(q) + 1
  {
    if EndAt(q) == Waiting then |q| else FirstStop(q) + 1
  }

  /** What is left on the queue once the write loop has stopped. */
  function Remaining(q: seq<Payload>): seq<Payload>
  {
    q[Taken(q)..]
  }

  /** A drained queue leaves nothing behind; otherwise everything after
      the item the loop stopped at is still queued, in order. */
  lemma RemainingAfterStop(q: seq<Payload>)
    ensures EndAt(q) == Waiting ==> Remaining(q) == []
    ensures EndAt(q) != Waiting ==> Remaining(q) == q[FirstStop(q) + 1..]
  {
  }

  /** `task_done()` calls the write loop makes on queue `q`: one per item
      taken, except an over-long item whose header raised first. */
  function TaskDoneCount(q: seq<Payload>): (n: nat)
    ensures n == Taken(q) || (EndAt(q) == Overflow && n + 1 == Taken(q))
  {
    if EndAt(q) == Overflow then FirstStop(q) else Taken(q)
  }

  class Client {
    /** `__browser is not None` */
    var browsing: bool
    /** `__server_connection is not None` */
    var connected: bool
    /** `__shutdown_in_progress` */
    var shutdownInProgress: bool
    /** Contents of `__queue`, head first. */
    var queue: seq<Payload>
    /** The queue's `maxsize`; 0 means unbounded. */
    const maxsize: nat
    /** Counts emitted through `connection_changed`, in order. */
    var connectionEvents: seq<nat>
    /** Payloads emitted through `data_rx`, in order. */
    var received: seq<Payload>
    /** Calls to `queue.task_done()`. */
    var tasksDone: nat

    /** Browsing stops as the connection is set up and resumes only after
        it is gone, so the two never hold together between operations. */
    ghost predicate Valid()
      reads this
    {
      !(browsing && connected)
    }

    predicate IsRunning()
      reads this
    {
      browsing || connected
    }

    constructor ()
      ensures Valid() && !IsRunning() && !shutdownInProgress
      ensures queue == [] && maxsize == 0
      ensures connectionEvents == [] && received == [] && tasksDone == 0
    {
      browsing, connected, shutdownInProgress := false, false, false;
      queue := [];
      maxsize := 0;
      connectionEvents, received, tasksDone := [], [], 0;
    }

    /** Starts browsing, unless the client already runs. */
    method Start()
      requires Valid()
      modifies this`browsing
      ensures Valid() && IsRunning()
      ensures old(IsRunning()) ==> browsing == old(browsing)
      ensures !old(IsRunning()) ==> browsing
    {
      if IsRunning() {
        return;
      }
      browsing := true;
    }

    /** Queues `data` for the write loop; drops it when the queue is full. */
    method Send(data: Payload) returns (queued: bool)
      modifies this`queue
      ensures queued <==> maxsize == 0 || |old(queue)| < maxsize
      ensures queue == if queued then old(queue) + [data] else old(queue)
    {
      queued := maxsize == 0 || |queue| < maxsize;
      if queued {
        queue := queue + [data];
      }
    }

    /** A browsed service was resolved: on a successful connect the client
        reports one connection and stops browsing; otherwise it browses on. */
    method FoundService(attempt: ConnectAttempt)
      requires Valid() && browsing
      modifies this`connected, this`browsing, this`connectionEvents
      ensures Valid()
      ensures attempt == Opened ==>
                connected && !browsing && connectionEvents == old(connectionEvents) + [1]
      ensures attempt != Opened ==>
                connected == old(connected) && browsing && connectionEvents == old(connectionEvents)
    {
      if attempt == Opened {
        connected := true;
        connectionEvents := connectionEvents + [1];
        browsing := false;
      }
    }

    /** The write loop: takes items in FIFO order, writes every non-empty one
        as header then payload, and stops at the first empty one without
        writing it. A drained queue leaves it waiting for more. */
    method HandleServerWrite() returns (wire: seq<Byte>, end: WriteEnd)
      modifies this`queue, this`tasksDone
      ensures wire == Encode(old(queue)[..FirstStop(old(queue))])
      ensures end == EndAt(old(queue))
      ensures queue == Remaining(old(queue))
      ensures tasksDone == old(tasksDone) + TaskDoneCount(old(queue))
    {
      ghost var q := queue;
      ghost var i := 0;
      wire := [];
      while true
        invariant 0 <= i <= FirstStop(q)
        invariant queue == q[i..]
        invariant wire == Encode(q[..i])
        invariant tasksDone == old(tasksDone) + i
        decreases |queue|
      {
        if queue == [] {
          Drained(q, i);
          end := Waiting;
          break;
        }
        var data := queue[0];
        queue := queue[1..];
        if |data| > 0 {
          if !Fits(data) {
            StopAtOverflow(q, i);
            end := Overflow;
            return;
          }
          WriteTurn(q, i);
          wire := wire + Header(|data|) + data;
        }
        tasksDone := tasksDone + 1;
        if |data| == 0 {
          StopAtSentinel(q, i);
          end := Closed;
          break;
        }
        i := i + 1;
      }
    }

    /** The read loop over everything the peer sent before end-of-stream:
        every header yields one delivered payload, emitted through `data_rx`
        in the order read; at end-of-stream a sentinel is queued unless a
        shutdown is in progress. */
    method HandleServerRead(incoming: seq<Byte>) returns (msgs: seq<Payload>)
      modifies this`received, this`queue
      ensures msgs == Deframe(incoming)
      ensures received == old(received) + msgs
      ensures queue == if shutdownInProgress then old(queue) else old(queue) + [[]]
    {
      msgs := ReadFrames(incoming);
      received := received + msgs;
      if !shutdownInProgress {
        queue := queue + [[]];
      }
    }

    /** The life of one connection, from both loops to the disconnect
        handling: the write loop drains the queue; the read loop delivers the
        peer's messages; if the write loop was still waiting, it takes the
        sentinel the read loop queued. Then the connection is dropped, a
        count of 0 is reported and browsing resumes unless shutting down. */
    method ServeConnection(incoming: seq<Byte>) returns (wire: seq<Byte>)
      requires Valid() && connected
      requires shutdownInProgress ==> EndAt(queue) != Waiting
      modifies this`queue, this`tasksDone, this`received, this`connected,
               this`browsing, this`connectionEvents
      ensures Valid() && !connected
      ensures browsing <==> !shutdownInProgress
      ensures connectionEvents == old(connectionEvents) + [0]
      ensures wire == Encode(old(queue)[..FirstStop(old(queue))])
      ensures received == old(received) + Deframe(incoming)
      ensures EndAt(old(queue)) == Waiting ==>
                queue == [] && tasksDone == old(tasksDone) + |old(queue)| + 1
      ensures EndAt(old(queue)) != Waiting ==>
                queue == Remaining(old(queue)) + (if shutdownInProgress then [] else [[]])
                && tasksDone == old(tasksDone) + TaskDoneCount(old(queue))
    {
      var end;
      wire, end := HandleServerWrite();
      var msgs := HandleServerRead(incoming);
      if end == Waiting {
        assert queue == [[]];
        LoneSentinel();
        var more, end2 := HandleServerWrite();
        wire := wire + more;
      }
      connected := false;
      connectionEvents := connectionEvents + [0];
      if !shutdownInProgress {
        browsing := true;
      }
    }

    /** Stops the client: marks the shutdown, stops browsing, and if
        connected queues the sentinel and waits for the connection to end.
        The shutdown mark is cleared at the end, unless an over-long item
        ended the write loop: the connection then ends with OverflowError,
        which the wait re-raises before the mark is cleared. */
    method Stop(incoming: seq<Byte>) returns (wire: seq<Byte>)
      requires Valid()
      modifies this
      ensures Valid() && !IsRunning()
      ensures shutdownInProgress <==> old(connected) && EndAt(old(queue) + [[]]) == Overflow
      ensures old(connected) ==>
                connectionEvents == old(connectionEvents) + [0]
                && wire == Encode((old(queue) + [[]])[..FirstStop(old(queue) + [[]])])
                && queue == Remaining(old(queue) + [[]])
                && received == old(received) + Deframe(incoming)
                && tasksDone == old(tasksDone) + TaskDoneCount(old(queue) + [[]])
      ensures !old(connected) ==>
                wire == [] && queue == old(queue) && connectionEvents == old(connectionEvents)
                && received == old(received) && tasksDone == old(tasksDone)
    {
      shutdownInProgress := true;
      if browsing {
        browsing := false;
      }
      wire := [];
      var raised := false;
      if connected {
        queue := queue + [[]];
        SentinelStops(old(queue));
        raised := EndAt(queue) == Overflow;
        wire := ServeConnection(incoming);
      }
      if !raised {
        shutdownInProgress := false;
      }
    }
  }

  /** The loop of `__handle_server_read` until end-of-stream. */
  method ReadFrames(incoming: seq<Byte>) returns (msgs: seq<Payload>)
    ensures msgs == Deframe(incoming)
  {
    var pos := 0;
    msgs := [];
    while pos < |incoming|
      invariant 0 <= pos <= |incoming|
      invariant msgs + Deframe(incoming[pos..]) == Deframe(incoming)
    {
      // `read(4)`: up to four header bytes, at least one before the end,
      // so the source's `if data:` always holds here.
      var h := Min(HeaderSize, |incoming| - pos);
      var data := incoming[pos..pos + h];
      var size := FromLittleEndian(data);
      // `read(size)`: up to `size` payload bytes.
      var n := Min(size, |incoming| - (pos + h));
      ReadTurn(incoming, pos, h, n, msgs);
      data := incoming[pos + h..pos + h + n];
      pos := pos + h + n;
      msgs := msgs + [data];
    }
  }

  /** One turn of the read loop, at offset `pos` of the stream: `read(4)`
      returns `h` header bytes there, and `read(size)` then returns `n`
      payload bytes. */
  lemma DeframeAt(stream: seq<Byte>, pos: nat, h: nat, n: nat)
    requires pos < |stream|
    requires h == Min(HeaderSize, |stream| - pos)
    requires n == Min(FromLittleEndian(stream[pos..pos + h]), |stream| - (pos + h))
    ensures Deframe(stream[pos..]) == [stream[pos + h..pos + h + n]] + Deframe(stream[pos + h + n..])
  {
    var s := stream[pos..];
    assert s[..h] == stream[pos..pos + h];
    assert s[h..h + n] == stream[pos + h..pos + h + n];
    assert s[h + n..] == stream[pos + h + n..];
  }

  /** The read loop's step: with `msgs` delivered so far, the payload the
      next header announces is the next message. */
  lemma ReadTurn(stream: seq<Byte>, pos: nat, h: nat, n: nat, msgs: seq<Payload>)
    requires pos < |stream|
    requires h == Min(HeaderSize, |stream| - pos)
    requires n == Min(FromLittleEndian(stream[pos..pos + h]), |stream| - (pos + h))
    requires msgs + Deframe(stream[pos..]) == Deframe(stream)
    ensures (msgs + [stream[pos + h..pos + h + n]]) + Deframe(stream[pos + h + n..]) == Deframe(stream)
  {
    DeframeAt(stream, pos, h, n);
    SeqAssoc(msgs, [stream[pos + h..pos + h + n]], Deframe(stream[pos + h + n..]));
  }

  lemma SeqAssoc<T>(a: seq<T>, b: seq<T>, c: seq<T>)
    ensures a + (b + c) == (a + b) + c
  {
  }

  /** The write loop's step: an item at `i` that is non-empty and fits
      lies before the first stop, and its frame extends the wire. */
  lemma WriteTurn(q: seq<Payload>, i: nat)
    requires i <= FirstStop(q) && i < |q|
    requires |q[i]| > 0 && Fits(q[i])
    ensures i < FirstStop(q)
    ensures Encode(q[..i + 1]) == Encode(q[..i]) + Frame(q[i])
  {
    assert q[..i + 1] == q[..i] + [q[i]];
    EncodeAppend(q[..i], q[i]);
  }

  /** The write loop meets the sentinel: it stops there, closed, having
      taken one item more than it wrote. */
  lemma StopAtSentinel(q: seq<Payload>, i: nat)
    requires i <= FirstStop(q) && i < |q|
    requires q[i] == []
    ensures FirstStop(q) == i && EndAt(q) == Closed
    ensures Remaining(q) == q[i + 1..] && TaskDoneCount(q) == i + 1
  {
  }

  /** The write loop meets an over-long item: it stops there on the
      overflow, which raises before `task_done`. */
  lemma StopAtOverflow(q: seq<Payload>, i: nat)
    requires i <= FirstStop(q) && i < |q|
    requires |q[i]| > 0 && !Fits(q[i])
    ensures FirstStop(q) == i && EndAt(q) == Overflow
    ensures Remaining(q) == q[i + 1..] && TaskDoneCount(q) == i
  {
  }

  /** The write loop drains the queue: it waits, having taken and written
      every item. */
  lemma Drained(q: seq<Payload>, i: nat)
    requires i <= FirstStop(q) && q[i..] == []
    ensures FirstStop(q) == i == |q| && EndAt(q) == Waiting
    ensures Remaining(q) == [] && TaskDoneCount(q) == |q|
    ensures q[..i] == q
  {
  }

  /** A queue holding only the sentinel: the write loop writes nothing,
      takes it and closes. */
  lemma LoneSentinel()
    ensures FirstStop([[]]) == 0 && EndAt([[]]) == Closed
    ensures Remaining([[]]) == [] && TaskDoneCount([[]]) == 1
    ensures Encode([[]][..0]) == []
  {
    var q: seq<Payload> := [[]];
    assert q[0] == [];
  }

  /** A queue with a sentinel at its tail never leaves the write loop waiting. */
  lemma SentinelStops(q: seq<Payload>)
    ensures EndAt(q + [[]]) != Waiting
  {
    var s := q + [[]];
    assert s[|q|] == [];
  }
}
