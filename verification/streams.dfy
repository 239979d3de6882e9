/**
 * The stateful resources `filter` drives: the caller's input and output byte
 * streams and the StAX reader opened over the input. Whether a flush or a
 * close fails is a property of the environment, fixed when the resource is
 * created.
 */
module Streams {
  import opened Xml

  /** The caller's input stream, seen through its decompressing, buffering wrapper. */
  class InputStream {
    const bytes: seq<byte>
    const failsOnClose: bool
    var closed: bool

    constructor (bytes: seq<byte>, failsOnClose: bool)
      ensures this.bytes == bytes && this.failsOnClose == failsOnClose && !closed
    {
      this.bytes := bytes;
      this.failsOnClose := failsOnClose;
      closed := false;
    }

    /** Closes the stream; `ok` is false when the close raised an `IOException`. */
    method Close() returns (ok: bool)
      modifies this
      ensures ok == !failsOnClose
      ensures closed == (old(closed) || ok)
    {
      ok := !failsOnClose;
      if ok {
        closed := true;
      }
    }
  }

  /**
   * The caller's output stream behind its buffering wrapper: `written` is
   * everything handed to the wrapper, of which the first `flushed` bytes have
   * been pushed through to the caller's stream.
   */
  class OutputStream {
    var written: seq<byte>
    var flushed: nat
    var closed: bool
    const failsOnFlush: bool
    const failsOnClose: bool

    ghost predicate Valid()
      reads this
    {
      flushed <= |written|
    }

    constructor (failsOnFlush: bool, failsOnClose: bool)
      ensures Valid() && written == [] && flushed == 0 && !closed
      ensures this.failsOnFlush == failsOnFlush && this.failsOnClose == failsOnClose
    {
      written := [];
      flushed := 0;
      closed := false;
      this.failsOnFlush := failsOnFlush;
      this.failsOnClose := failsOnClose;
    }

    /** Appends `bs` to the stream. */
    method Write(bs: seq<byte>)
      requires Valid()
      modifies this
      ensures Valid()
      ensures written == old(written) + bs
      ensures flushed == old(flushed) && closed == old(closed)
    {
      written := written + bs;
    }

    /** Pushes every buffered byte through; `ok` is false when the flush raised an `IOException`. */
    method Flush() returns (ok: bool)
      requires Valid()
      modifies this
      ensures Valid()
      ensures ok == !failsOnFlush
      ensures written == old(written) && closed == old(closed)
      ensures flushed == if ok then |written| else old(flushed)
    {
      ok := !failsOnFlush;
      if ok {
        flushed := |written|;
      }
    }

    /** Closes the stream; `ok` is false when the close raised an `IOException`. */
    method Close() returns (ok: bool)
      requires Valid()
      modifies this
      ensures Valid()
      ensures ok == !failsOnClose
      ensures written == old(written) && flushed == old(flushed)
      ensures closed == (old(closed) || ok)
    {
      ok := !failsOnClose;
      if ok {
        closed := true;
      }
    }
  }

  /**
   * A forward-only cursor over the events of one document. Position 0 is the
   * start-document event; `pos` only ever grows, and never rests on an
   * ill-formed event.
   */
  class XmlStreamReader {
    const events: seq<Event>
    const failsOnClose: bool
    var pos: nat
    var closed: bool

    ghost predicate Valid()
      reads this
    {
      pos < |events| && events[0] == StartDocument && !events[pos].Malformed?
    }

    /** Opens a reader over the events the tokenizer produced after the start of the document. */
    constructor (tokens: seq<Event>, failsOnClose: bool)
      ensures Valid()
      ensures events == [StartDocument] + tokens && this.failsOnClose == failsOnClose
      ensures pos == 0 && !closed
    {
      events := [StartDocument] + tokens;
      this.failsOnClose := failsOnClose;
      pos := 0;
      closed := false;
    }

    /** Whether another event follows the current one. */
    predicate HasNext()
      reads this
      requires Valid()
    {
      pos + 1 < |events|
    }

    /** The event the cursor is on. */
    function Current(): Event
      reads this
      requires Valid()
    {
      events[pos]
    }

    /**
     * Moves to the next event; `ok` is false when that event is ill-formed
     * (an `XMLStreamException`), and the cursor then stays where it was.
     */
    method Next() returns (ok: bool)
      requires Valid() && HasNext()
      modifies this`pos
      ensures Valid()
      ensures ok == !events[old(pos) + 1].Malformed?
      ensures pos == if ok then old(pos) + 1 else old(pos)
    {
      ok := !events[pos + 1].Malformed?;
      if ok {
        pos := pos + 1;
      }
    }

    /**
     * The effect of a materializer on the cursor: the events before `to` have
     * been consumed, each step reading an event that is not ill-formed.
     */
    method ConsumeTo(to: nat)
      requires Valid() && pos < to < |events|
      requires forall k | pos < k <= to :: !events[k].Malformed?
      modifies this`pos
      ensures Valid() && pos == to
    {
      pos := to;
    }

    /** Closes the reader; `ok` is false when the close raised an `XMLStreamException`. */
    method Close() returns (ok: bool)
      requires Valid()
      modifies this`closed
      ensures Valid()
      ensures ok == !failsOnClose
      ensures closed == (old(closed) || ok)
    {
      ok := !failsOnClose;
      if ok {
        closed := true;
      }
    }
  }
}
