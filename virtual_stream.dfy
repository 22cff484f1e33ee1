/** VirtualStream (fr.jazer.session.stream): one FIFO queue of values, a list of
    receivers and a closed flag. Pushing a value to the receivers goes through a
    worker pool in the source; here it is the returned list of notifications, one
    per receiver, in list order. A blocking `take` on an empty queue is the result
    `Blocked`: the call would not return until another thread emits. */
module VirtualStreams {
  import opened Common

  /** One asynchronous call `receiver.onChanged(value)` handed to the worker pool. */
  datatype Notification<R, T> = Notification(receiver: R, value: T)

  /** The outcome of readASlash: Java's null, a value taken from the queue,
      or a call that blocks on an empty queue. */
  datatype Pull<T> = Null | Taken(value: T) | Blocked

  /** `sent` notifies every receiver of `receivers` of `value`, once each, in list order. */
  ghost predicate NotifiesInOrder<R, T>(sent: seq<Notification<R, T>>, receivers: seq<R>, value: T)
  {
    |sent| == |receivers| &&
    forall i :: 0 <= i < |sent| ==> sent[i] == Notification(receivers[i], value)
  }

  class VirtualStream<T(==), R(==)> {
    var closed: bool
    var queue: seq<T>
    var receivers: seq<R>

    constructor ()
      ensures !closed && queue == [] && receivers == []
    {
      closed := false;
      queue := [];
      receivers := [];
    }

    /** Appends `value` at the tail of the queue, then notifies every receiver. */
    method EmitValue(value: T) returns (sent: seq<Notification<R, T>>)
      modifies this`queue
      ensures queue == old(queue) + [value]
      ensures NotifiesInOrder(sent, receivers, value)
    {
      queue := queue + [value];
      sent := SendToReceivers(value);
    }

    /** One notification per registered receiver, in list order (the forEach over receivers). */
    method SendToReceivers(value: T) returns (sent: seq<Notification<R, T>>)
      ensures NotifiesInOrder(sent, receivers, value)
    {
      sent := [];
      var i := 0;
      while i < |receivers|
        invariant i <= |receivers|
        invariant NotifiesInOrder(sent, receivers[..i], value)
      {
        sent := sent + [Notification(receivers[i], value)];
        i := i + 1;
      }
    }

    /** Null once closed, whatever is still queued; otherwise takes the head of the queue,
        or blocks when the queue is empty. */
    method ReadASlash() returns (r: Pull<T>)
      modifies this`queue
      ensures closed ==> r == Null && queue == old(queue)
      ensures !closed && old(queue) != [] ==> r == Taken(old(queue)[0]) && queue == old(queue)[1..]
      ensures !closed && old(queue) == [] ==> r == Blocked && queue == []
    {
      if closed {
        return Null;
      }
      if queue == [] {
        return Blocked;
      }
      r := Taken(queue[0]);
      queue := queue[1..];
    }

    method AddReceiver(receiver: R)
      modifies this`receivers
      ensures receivers == old(receivers) + [receiver]
    {
      receivers := receivers + [receiver];
    }

    /** Removes the first registration of `receiver` only; the others keep their order. */
    method RemoveReceiver(receiver: R)
      modifies this`receivers
      ensures receivers == RemoveFirst(old(receivers), receiver)
    {
      receivers := RemoveFirst(receivers, receiver);
    }

    /** Withdraws one queued occurrence of `value`; says whether there was one. */
    method Slash(value: T) returns (found: bool)
      modifies this`queue
      ensures found <==> value in old(queue)
      ensures queue == RemoveFirst(old(queue), value)
    {
      found := value in queue;
      queue := RemoveFirst(queue, value);
    }

    method HasNext() returns (next: bool)
      ensures next <==> |queue| > 0
    {
      next := queue != [];
    }

    /** Emits `terminal` (queue and receivers) and then marks the stream closed.
        Nothing stops a second call from emitting a second terminal. */
    method Close(terminal: T) returns (sent: seq<Notification<R, T>>)
      modifies this`queue, this`closed
      ensures closed
      ensures queue == old(queue) + [terminal]
      ensures NotifiesInOrder(sent, receivers, terminal)
    {
      sent := EmitValue(terminal);
      closed := true;
    }

    method IsClosed() returns (c: bool)
      ensures c <==> closed
    {
      c := closed;
    }
  }
}
