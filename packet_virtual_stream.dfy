/** PacketVirtualStream (fr.jazer.session.flux): the tag-partitioned stream. One
    FIFO queue and one receiver list per integer tag, each created on first use of
    the tag. Values carry their tag (Java's `T extends TaggedEntity`), read here
    through the function `tagOf` given at construction. */
module PacketStreams {
  import opened Common
  import opened VirtualStreams

  class PacketVirtualStream<T(==), R(==)> {
    const tagOf: T -> int
    var queue: map<int, seq<T>>
    var receivers: map<int, seq<R>>
    var closed: bool

    constructor (tagOf: T -> int)
      ensures this.tagOf == tagOf
      ensures queue == map[] && receivers == map[] && !closed
    {
      this.tagOf := tagOf;
      queue := map[];
      receivers := map[];
      closed := false;
    }

    /** Creates the queue of the value's tag when it has none, appends the value at
        its tail (every other tag's queue unchanged), then notifies the receivers of that tag. */
    method EmitValue(value: T) returns (sent: seq<Notification<R, T>>)
      modifies this`queue
      ensures queue == old(queue)[tagOf(value) := ValuesAt(old(queue), tagOf(value)) + [value]]
      ensures NotifiesInOrder(sent, ValuesAt(receivers, tagOf(value)), value)
    {
      var tag := tagOf(value);
      if tag !in queue {
        queue := queue[tag := []];
      }
      queue := queue[tag := queue[tag] + [value]];
      sent := SendToReceivers(value);
    }

    /** One notification per receiver registered under the value's tag, in list
        order; none when that tag has no receiver list. */
    method SendToReceivers(value: T) returns (sent: seq<Notification<R, T>>)
      ensures tagOf(value) !in receivers ==> sent == []
      ensures tagOf(value) in receivers ==> NotifiesInOrder(sent, receivers[tagOf(value)], value)
    {
      sent := [];
      var tag := tagOf(value);
      if tag in receivers {
        var list := receivers[tag];
        var i := 0;
        while i < |list|
          invariant i <= |list|
          invariant NotifiesInOrder(sent, list[..i], value)
        {
          sent := sent + [Notification(list[i], value)];
          i := i + 1;
        }
      }
    }

    /** Null when closed, with no queue created. Otherwise creates the tag's queue if
        needed and takes its head, or blocks when that queue is empty. */
    method ReadASlash(tag: int) returns (r: Pull<T>)
      modifies this`queue
      ensures closed ==> r == Null && queue == old(queue)
      ensures !closed && ValuesAt(old(queue), tag) == [] ==>
                r == Blocked && queue == old(queue)[tag := []]
      ensures !closed && ValuesAt(old(queue), tag) != [] ==>
                r == Taken(old(queue)[tag][0]) && queue == old(queue)[tag := old(queue)[tag][1..]]
    {
      if closed {
        return Null;
      }
      if tag !in queue {
        queue := queue[tag := []];
      }
      if queue[tag] == [] {
        return Blocked;
      }
      r := Taken(queue[tag][0]);
      queue := queue[tag := queue[tag][1..]];
    }

    /** Creates the tag's receiver list if absent and appends `receiver` to it. */
    method AddReceiver(tag: int, receiver: R)
      modifies this`receivers
      ensures receivers == old(receivers)[tag := ValuesAt(old(receivers), tag) + [receiver]]
    {
      if tag !in receivers {
        receivers := receivers[tag := []];
      }
      receivers := receivers[tag := receivers[tag] + [receiver]];
    }

    /** Removes the first registration of `receiver` from the list of every tag. */
    method RemoveReceiver(receiver: R)
      modifies this`receivers
      ensures receivers.Keys == old(receivers).Keys
      ensures forall tag :: tag in receivers ==> receivers[tag] == RemoveFirst(old(receivers)[tag], receiver)
    {
      receivers := map tag | tag in receivers :: RemoveFirst(receivers[tag], receiver);
    }

    /** Withdraws one queued occurrence of `value` from its tag's queue. That queue
        must exist: the source dereferences it without a check. */
    method Slash(value: T) returns (found: bool)
      requires tagOf(value) in queue
      modifies this`queue
      ensures found <==> value in old(queue)[tagOf(value)]
      ensures queue == old(queue)[tagOf(value) := RemoveFirst(old(queue)[tagOf(value)], value)]
    {
      var tag := tagOf(value);
      found := value in queue[tag];
      queue := queue[tag := RemoveFirst(queue[tag], value)];
    }

    /** Whether the tag's queue holds a value; the queue must exist. */
    method HasNext(tag: int) returns (next: bool)
      requires tag in queue
      ensures next <==> |queue[tag]| > 0
    {
      next := queue[tag] != [];
    }

    /** Marks the stream closed and puts `terminal` once into every queue that exists
        now; tags first used later receive nothing. Receivers are not notified. */
    method Close(terminal: T)
      modifies this`queue, this`closed
      ensures closed
      ensures queue.Keys == old(queue).Keys
      ensures forall tag :: tag in queue ==> queue[tag] == old(queue)[tag] + [terminal]
    {
      closed := true;
      queue := map tag | tag in queue :: queue[tag] + [terminal];
    }

    method IsClosed() returns (c: bool)
      ensures c <==> closed
    {
      c := closed;
    }
  }
}
