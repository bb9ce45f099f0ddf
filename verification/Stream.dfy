/** The reader over pushed stream events: a queue of chunks and one waiting reader. */
module Stream {
  import opened Wrappers

  /** What one `read()` answers. A pending read is answered later, by an event. */
  datatype Answer =
    | Chunk(value: string)      // { done: false, value }
    | End                       // { done: true }
    | Failure(error: string)    // the Error thrown by read()
    | Pending(id: nat)

  datatype Event =
    | ChunkArrived(value: string)
    | StreamEnded(ok: bool, error: Option<string>)
    | InvokeFailed(reason: string)
    | ReadCalled
    | Cancelled

  class StreamReader {
    var queue: seq<string>
    var done: bool
    var error: Option<string>
    var waiter: Option<nat>
    var listening: bool
    var readCount: nat

    /** Chunks accepted by the listener, chunks handed to readers, the answer each read got,
        and the reads whose place as the waiter was taken by a later read. */
    ghost var received: seq<string>
    ghost var delivered: seq<string>
    ghost var answers: map<nat, Answer>
    ghost var displaced: set<nat>

    ghost predicate Valid()
      reads this
    {
      // no lost wake-up: a reader waits only while there is nothing to hand out
      && (waiter.Some? ==> queue == [] && !done)
      // first in, first out, nothing lost and nothing twice
      && received == delivered + queue
      // a read without an answer is the waiter, or was displaced by a later read
      && (forall id: nat :: id < readCount && id !in answers <==> waiter == Some(id) || id in displaced)
      && (forall id: nat :: id in answers ==> id < readCount && !answers[id].Pending?)
      && (waiter.Some? ==> waiter.value !in displaced)
    }

    constructor ()
      ensures Valid() && !done && listening && waiter.None? && queue == [] && received == [] && displaced == {}
    {
      queue, done, error, waiter, listening, readCount := [], false, None, None, true, 0;
      received, delivered, answers, displaced := [], [], map[], {};
    }

    /** Hand `answer` to the waiting reader. */
    method Wake(ghost answer: Answer)
      requires waiter.Some?
      modifies this`waiter, this`answers
      ensures waiter.None? && answers == old(answers)[old(waiter).value := answer]
    {
      answers := answers[waiter.value := answer];
      waiter := None;
    }

    /** A chunk event. A waiting reader gets the chunk at once, otherwise it is queued;
        after `cancel` it is dropped. */
    method OnChunk(chunk: string)
      requires Valid()
      modifies this
      ensures Valid() && done == old(done) && error == old(error) && listening == old(listening)
      ensures readCount == old(readCount) && displaced == old(displaced)
      ensures received == if listening then old(received) + [chunk] else old(received)
      ensures if old(waiter).Some? && listening
              then waiter.None? && delivered == received && answers == old(answers)[old(waiter).value := Chunk(chunk)]
              else waiter == old(waiter) && delivered == old(delivered) && answers == old(answers)
    {
      if !listening { return; }
      queue := queue + [chunk];
      received := received + [chunk];
      if waiter.Some? {
        Wake(Chunk(queue[0]));
        delivered := delivered + [queue[0]];
        queue := queue[1..];
      }
    }

    /** What all endings do: a waiting reader learns that the stream is over. */
    twostate predicate Ended()
      reads this
    {
      && Valid() && done && waiter.None?
      && received == old(received) && delivered == old(delivered) && queue == old(queue)
      && readCount == old(readCount) && displaced == old(displaced)
      && answers == if old(waiter).Some? then old(answers)[old(waiter).value := End] else old(answers)
    }

    /** An end event, ignored after `cancel`. */
    method OnEnd(ok: bool, message: Option<string>)
      requires Valid()
      modifies this
      ensures Valid() && listening == old(listening) && displaced == old(displaced)
      ensures if listening then Ended() else unchanged(this)
      ensures error == if listening && !ok then Some(message.GetOr("stream ended with error")) else old(error)
    {
      if !listening { return; }
      if !ok { error := Some(message.GetOr("stream ended with error")); }
      done := true;
      if waiter.Some? { Wake(End); }
    }

    /** The request itself failed. */
    method OnInvokeFailed(message: string)
      requires Valid()
      modifies this
      ensures Ended() && error == Some(message) && listening == old(listening)
    {
      error, done := Some(message), true;
      if waiter.Some? { Wake(End); }
    }

    /** Queued chunks come first; the end, or the error if its text is not empty, is reported
        only when the queue is empty; otherwise the read waits. A read that finds another one waiting takes its
        place, and that one is never answered. */
    method Read() returns (answer: Answer)
      requires Valid()
      modifies this
      ensures Valid() && done == old(done) && error == old(error) && listening == old(listening)
      ensures received == old(received) && readCount == old(readCount) + 1
      ensures match answer
              case Chunk(value) => old(queue) != [] && value == old(queue)[0] && delivered == old(delivered) + [value]
              case End => old(queue) == [] && done && error.GetOr("") == "" && delivered == received
              case Failure(message) => old(queue) == [] && done && error == Some(message) && message != "" && delivered == received
              case Pending(id) => old(queue) == [] && !done && waiter == Some(id) && delivered == received
      ensures answers == if answer.Pending? then old(answers) else old(answers)[old(readCount) := answer]
      ensures displaced == old(displaced) + (if old(waiter).Some? then {old(waiter).value} else {})
    {
      var id := readCount;
      readCount := readCount + 1;
      if queue != [] {
        answer := Chunk(queue[0]);
        delivered := delivered + [queue[0]];
        queue := queue[1..];
      } else if done {
        answer := if error.GetOr("") != "" then Failure(error.value) else End;
      } else {
        if waiter.Some? { displaced := displaced + {waiter.value}; }
        waiter := Some(id);
        answer := Pending(id);
      }
      if !answer.Pending? { answers := answers[id := answer]; }
    }

    /** `cancel()`: stop listening. */
    method Cancel()
      requires Valid()
      modifies this
      ensures Ended() && !listening && error == old(error)
    {
      listening, done := false, true;
      if waiter.Some? { Wake(End); }
    }

    /** Any run of the reader: whatever events and reads come in whatever order, the chunks
        handed out followed by the queue are the chunks received, and a reader waits only on
        an empty, open stream. A read that is displaced stays without an answer for good, and
        the run is disciplined, no read being made while another waits, exactly when none is
        displaced: then every read has its answer except the one that is waiting, and none
        waits once the stream is done. */
    method Drive(events: seq<Event>) returns (disciplined: bool)
      requires Valid()
      modifies this
      ensures Valid()
      ensures old(displaced) <= displaced && forall id :: id in displaced ==> id < readCount && id !in answers
      ensures disciplined <==> displaced == old(displaced)
      ensures !disciplined ==> exists id: nat :: id in displaced - old(displaced) && waiter != Some(id)
      ensures received == delivered + queue && (waiter.Some? ==> queue == [] && !done)
      ensures disciplined && old(displaced) == {} ==>
                forall id: nat :: id < readCount && id !in answers <==> waiter == Some(id)
      ensures disciplined && old(displaced) == {} && done ==> forall id: nat :: id < readCount ==> id in answers
    {
      disciplined := true;
      for i := 0 to |events|
        invariant Valid()
        invariant old(displaced) <= displaced
        invariant disciplined <==> displaced == old(displaced)
      {
        match events[i]
        case ChunkArrived(value) => OnChunk(value);
        case StreamEnded(ok, message) => OnEnd(ok, message);
        case InvokeFailed(message) => OnInvokeFailed(message);
        case Cancelled => Cancel();
        case ReadCalled =>
          disciplined := disciplined && waiter.None?;
          var _ := Read();
      }
    }
  }
}
