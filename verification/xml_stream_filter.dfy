/**
 * The streaming filter engine: a configuration checked once at construction,
 * and `Filter`, which scans a document event by event, materializes every
 * element whose local name is the configured one, tests it with the filter
 * and, when it passes, appends the transformer's bytes to the one output
 * stream shared by all matches.
 *
 * `ScanFrom` and `AtEvent` state, as functions of the document's events,
 * what a complete run of the scan loop does; `Filter` is proved against them
 * and ScanProperties proves what they promise.
 */
module XmlStreamFilters {
  import opened Wrappers
  import opened Xml
  import opened Streams

  const VERSION: string := "1.0"

  /** What a materializer hands back: the sub-document, and where it left the cursor. */
  datatype Materialized = Materialized(tree: Node, next: nat)

  /**
   * The XMLStreamReader-to-DOM transformer, as a function of the document's
   * events and the cursor position it is called at; `None` stands for an
   * exception it threw.
   */
  type DomTreeTransformer = (seq<Event>, nat) -> Option<Materialized>

  /** The filter: a test over a sub-document; `None` stands for an exception. */
  type NodePredicate = Node -> Option<bool>

  /** The transformer: the bytes it writes for a sub-document; `None` stands for an exception. */
  type NodeTransformer = Node -> Option<seq<byte>>

  /** What the XMLInputFactory's reader will deliver for an input, and whether closing it fails. */
  datatype Tokenization = Tokenization(tokens: seq<Event>, failsOnClose: bool)

  /** The XMLInputFactory: tokenizes the bytes of the input stream. */
  type XmlInputFactory = seq<byte> -> Tokenization

  /** The boundary test: the event starts an element whose local name is `elementLocalName`. */
  predicate IsStartOfTargetElement(e: Event, elementLocalName: string)
  {
    e.StartElement? && e.localName == elementLocalName
  }

  /**
   * A successful materialization at `p` leaves the cursor after `p` and on an
   * event of the document, having stepped over no ill-formed event and onto
   * none: a StAX reader throws at the step onto one.
   */
  ghost predicate Progresses(r: Option<Materialized>, events: seq<Event>, p: nat)
  {
    r.Some? ==>
      && p < r.value.next < |events|
      && forall k | p < k <= r.value.next :: !events[k].Malformed?
  }

  /**
   * The contract the engine relies on from its materializer: at every target
   * start of `events` it either throws or consumes at least that event without
   * running off the end of the document or reading an ill-formed event.
   * This is what ends the inner loop.
   */
  ghost predicate Advances(m: DomTreeTransformer, events: seq<Event>, name: string)
  {
    forall p: nat | p < |events| && IsStartOfTargetElement(events[p], name) :: Progresses(m(events, p), events, p)
  }

  /**
   * One materialized target element: where it started, where the cursor was
   * left, the sub-document, the filter's verdict, and the bytes written for it.
   */
  datatype Match = Match(position: nat, end: nat, tree: Node, accepted: bool, emitted: seq<byte>)

  /** The exception that ended a run, and the cursor position at which it was raised. */
  datatype Abort = Abort(error: Exception, position: nat)

  /** Everything a run of the scan loop does: the matches in order, the bytes written, how it ended. */
  datatype Scan = Scan(matches: seq<Match>, output: seq<byte>, failure: Option<Abort>)

  /** A run that handles `m` first and then continues as `rest`. */
  function Then(m: Match, rest: Scan): Scan
  {
    Scan([m] + rest.matches, m.emitted + rest.output, rest.failure)
  }

  datatype XmlStreamFilter = XmlStreamFilter(
    elementLocalName: string,
    filter: NodePredicate,
    transformer: NodeTransformer,
    xmlInputFactory: XmlInputFactory,
    domTreeTransformer: DomTreeTransformer)
  {
    /**
     * The five-argument constructor. Java's `null` is `None`; the checks run in
     * the source's order, so the first failing one decides the exception.
     */
    static function New(
      elementLocalName: Option<string>,
      filter: Option<NodePredicate>,
      transformer: Option<NodeTransformer>,
      xmlInputFactory: Option<XmlInputFactory>,
      domTreeTransformer: Option<DomTreeTransformer>): (r: Result<XmlStreamFilter, Exception>)
      ensures r.Success? <==>
        && elementLocalName.Some? && elementLocalName.value != []
        && filter.Some? && transformer.Some? && xmlInputFactory.Some? && domTreeTransformer.Some?
      ensures r.Success? ==>
        && r.value.elementLocalName == elementLocalName.value
        && r.value.filter == filter.value
        && r.value.transformer == transformer.value
        && r.value.xmlInputFactory == xmlInputFactory.value
        && r.value.domTreeTransformer == domTreeTransformer.value
      ensures elementLocalName.None? ==>
        r == Failure(NullPointerException("XML element's local name must NOT be null."))
      ensures elementLocalName == Some([]) ==>
        r == Failure(IllegalArgumentException("XML element's local name must NOT be empty."))
      ensures elementLocalName.Some? && elementLocalName.value != [] && filter.None? ==>
        r == Failure(NullPointerException("Filter must NOT be null."))
      ensures elementLocalName.Some? && elementLocalName.value != [] && filter.Some? && transformer.None? ==>
        r == Failure(NullPointerException("Transformer must NOT be null."))
      ensures elementLocalName.Some? && elementLocalName.value != [] && filter.Some? && transformer.Some?
              && xmlInputFactory.None? ==>
        r == Failure(NullPointerException("XMLInputFactory must NOT be null."))
      ensures elementLocalName.Some? && elementLocalName.value != [] && filter.Some? && transformer.Some?
              && xmlInputFactory.Some? && domTreeTransformer.None? ==>
        r == Failure(NullPointerException("XMLStreamReader-to-DOM tree transformer must NOT be null."))
    {
      if elementLocalName.None? then
        Failure(NullPointerException("XML element's local name must NOT be null."))
      else if elementLocalName.value == [] then
        Failure(IllegalArgumentException("XML element's local name must NOT be empty."))
      else if filter.None? then
        Failure(NullPointerException("Filter must NOT be null."))
      else if transformer.None? then
        Failure(NullPointerException("Transformer must NOT be null."))
      else if xmlInputFactory.None? then
        Failure(NullPointerException("XMLInputFactory must NOT be null."))
      else if domTreeTransformer.None? then
        Failure(NullPointerException("XMLStreamReader-to-DOM tree transformer must NOT be null."))
      else
        Success(XmlStreamFilter(elementLocalName.value, filter.value, transformer.value,
                                xmlInputFactory.value, domTreeTransformer.value))
    }

    /**
     * Filters `rawInput` into `rawOutput`. Null streams are refused before
     * anything is opened. Otherwise the output receives exactly the bytes of
     * the run `ScanFrom` describes; on normal completion the reader, the
     * output (flushed first) and the input are each closed, a failing close
     * not preventing the others; an exception skips that clean-up entirely.
     * `reader` names the reader the call opened.
     */
    method Filter(rawInput: InputStream?, rawOutput: OutputStream?)
      returns (r: Outcome<Exception>, ghost reader: XmlStreamReader?)
      requires rawOutput != null ==> rawOutput.Valid()
      requires rawInput != null && rawOutput != null ==> MaterializerAdvances(this, Document(this, rawInput.bytes))
      modifies rawInput, rawOutput
      ensures rawInput == null ==>
        && r == Fail(NullPointerException("InputStream must NOT be null."))
        && reader == null
        && (rawOutput != null ==> unchanged(rawOutput))
      ensures rawInput != null && rawOutput == null ==>
        && r == Fail(NullPointerException("OutputStream must NOT be null."))
        && reader == null
        && unchanged(rawInput)
      ensures rawInput != null && rawOutput != null ==>
        var s := ScanFrom(this, Document(this, rawInput.bytes), 0);
        && reader != null && fresh(reader)
        && reader.events == Document(this, rawInput.bytes)
        && reader.failsOnClose == xmlInputFactory(rawInput.bytes).failsOnClose
        && rawOutput.Valid()
        && rawOutput.written == old(rawOutput.written) + s.output
        && (r.Pass? <==> s.failure.None?)
        && (s.failure.Some? ==>
              && r == Fail(s.failure.value.error)
              && !reader.closed
              && rawOutput.flushed == old(rawOutput.flushed)
              && rawOutput.closed == old(rawOutput.closed)
              && rawInput.closed == old(rawInput.closed))
        && (s.failure.None? ==>
              && reader.pos == |reader.events| - 1
              && reader.closed == !reader.failsOnClose
              && rawOutput.flushed == (if rawOutput.failsOnFlush then old(rawOutput.flushed) else |rawOutput.written|)
              && rawOutput.closed == (old(rawOutput.closed) || (!rawOutput.failsOnFlush && !rawOutput.failsOnClose))
              && rawInput.closed == (old(rawInput.closed) || !rawInput.failsOnClose))
    {
      reader := null;
      if rawInput == null {
        return Fail(NullPointerException("InputStream must NOT be null.")), reader;
      }
      if rawOutput == null {
        return Fail(NullPointerException("OutputStream must NOT be null.")), reader;
      }

      var tokenization := xmlInputFactory(rawInput.bytes);
      var rd := new XmlStreamReader(tokenization.tokens, tokenization.failsOnClose);
      reader := rd;
      var failure := ScanLoop(rd, rawOutput);
      if failure.Some? {
        return Fail(failure.value), reader;
      }
      CloseQuietly(rd, rawOutput, rawInput);
      r := Pass;
    }

    /**
     * The scan loop over an open reader: both nested loops, run to the end
     * of the document or to the first exception, which is returned. The
     * output receives exactly the bytes of the run `ScanFrom` describes.
     */
    method ScanLoop(rd: XmlStreamReader, out: OutputStream) returns (failure: Option<Exception>)
      requires rd.Valid() && rd.pos == 0 && out.Valid() && MaterializerAdvances(this, rd.events)
      modifies rd`pos, out
      ensures rd.Valid() && out.Valid()
      ensures out.written == old(out.written) + ScanFrom(this, rd.events, 0).output
      ensures out.flushed == old(out.flushed) && out.closed == old(out.closed)
      ensures failure.None? <==> ScanFrom(this, rd.events, 0).failure.None?
      ensures failure.Some? ==> failure.value == ScanFrom(this, rd.events, 0).failure.value.error
      ensures failure.None? ==> !rd.HasNext()
    {
      ghost var total := ScanFrom(this, rd.events, 0);
      ghost var done: seq<Match> := [];
      ghost var produced: seq<byte> := [];
      while rd.HasNext()
        invariant rd.Valid() && out.Valid() && out.written == old(out.written) + produced
        invariant out.flushed == old(out.flushed) && out.closed == old(out.closed)
        invariant total.matches == done + ScanFrom(this, rd.events, rd.pos).matches
        invariant total.output == produced + ScanFrom(this, rd.events, rd.pos).output
        invariant total.failure == ScanFrom(this, rd.events, rd.pos).failure
        decreases |rd.events| - rd.pos
      {
        ghost var before := rd.pos;
        var ok := rd.Next();
        if !ok {
          return Some(XMLStreamException);
        }
        while IsStartOfTargetElement(rd.Current(), elementLocalName)
          invariant rd.Valid() && out.Valid() && out.written == old(out.written) + produced
          invariant out.flushed == old(out.flushed) && out.closed == old(out.closed)
          invariant before < rd.pos
          invariant total.matches == done + AtEvent(this, rd.events, rd.pos).matches
          invariant total.output == produced + AtEvent(this, rd.events, rd.pos).output
          invariant total.failure == AtEvent(this, rd.events, rd.pos).failure
          decreases |rd.events| - rd.pos
        {
          ghost var m;
          failure, m := HandleTargetElement(rd, out);
          if failure.Some? {
            return;
          }
          done, produced := done + [m], produced + m.emitted;
        }
      }
      failure := None;
    }

    /**
     * One iteration of the inner loop, with the cursor on a target start:
     * materialize the element, test it, and transform it into `out` when it
     * passes. `m` records the match; on an exception nothing is written.
     */
    method HandleTargetElement(rd: XmlStreamReader, out: OutputStream)
      returns (failure: Option<Exception>, ghost m: Match)
      requires rd.Valid() && out.Valid() && MaterializerAdvances(this, rd.events)
      requires IsStartOfTargetElement(rd.Current(), elementLocalName)
      modifies rd`pos, out
      ensures rd.Valid() && out.Valid()
      ensures out.flushed == old(out.flushed) && out.closed == old(out.closed)
      ensures failure.Some? ==>
        && AtEvent(this, rd.events, old(rd.pos)) == Scan([], [], Some(Abort(failure.value, old(rd.pos))))
        && out.written == old(out.written)
      ensures failure.None? ==>
        && old(rd.pos) < rd.pos
        && AtEvent(this, rd.events, old(rd.pos)) == Then(m, AtEvent(this, rd.events, rd.pos))
        && out.written == old(out.written) + m.emitted
    {
      var at := rd.pos;
      m := Match(at, at, Text([]), false, []);
      var materialized := domTreeTransformer(rd.events, at);
      if materialized.None? {
        return Some(RuntimeException(Capability.DomTreeTransformer)), m;
      }
      var domTree := materialized.value.tree;
      rd.ConsumeTo(materialized.value.next);
      var accepted := filter(domTree);
      if accepted.None? {
        return Some(RuntimeException(Capability.Filter)), m;
      }
      if accepted.value {
        var bytes := transformer(domTree);
        if bytes.None? {
          return Some(RuntimeException(Capability.Transformer)), m;
        }
        out.Write(bytes.value);
        m := Match(at, rd.pos, domTree, true, bytes.value);
      } else {
        m := Match(at, rd.pos, domTree, false, []);
      }
      failure := None;
    }
  }

  /** The events a reader opened over `bytes` delivers, start-document event first. */
  ghost function Document(f: XmlStreamFilter, bytes: seq<byte>): seq<Event>
  {
    [StartDocument] + f.xmlInputFactory(bytes).tokens
  }

  /** The configured materializer keeps its contract on `events`. */
  ghost predicate MaterializerAdvances(f: XmlStreamFilter, events: seq<Event>)
  {
    Advances(f.domTreeTransformer, events, f.elementLocalName)
  }

  /**
   * The rest of a run, from the top of the outer loop with the cursor at
   * `pos`: stop when no event follows, fail on an ill-formed one, otherwise
   * step onto it and run the inner loop there.
   */
  ghost function ScanFrom(f: XmlStreamFilter, events: seq<Event>, pos: nat): Scan
    requires pos < |events| && MaterializerAdvances(f, events)
    decreases |events| - pos, 0
  {
    if pos + 1 == |events| then
      Scan([], [], None)
    else if events[pos + 1].Malformed? then
      Scan([], [], Some(Abort(XMLStreamException, pos + 1)))
    else
      AtEvent(f, events, pos + 1)
  }

  /**
   * The rest of a run, from the inner loop's test with the cursor at `pos`:
   * a target start is materialized, tested and possibly transformed, and the
   * test is repeated where the materializer left the cursor; any other event
   * returns to the outer loop.
   */
  ghost function AtEvent(f: XmlStreamFilter, events: seq<Event>, pos: nat): Scan
    requires pos < |events| && MaterializerAdvances(f, events)
    decreases |events| - pos, 1
  {
    if !IsStartOfTargetElement(events[pos], f.elementLocalName) then
      ScanFrom(f, events, pos)
    else
      match f.domTreeTransformer(events, pos)
      case None => Scan([], [], Some(Abort(RuntimeException(Capability.DomTreeTransformer), pos)))
      case Some(m) =>
        match f.filter(m.tree)
        case None => Scan([], [], Some(Abort(RuntimeException(Capability.Filter), pos)))
        case Some(false) => Then(Match(pos, m.next, m.tree, false, []), AtEvent(f, events, m.next))
        case Some(true) =>
          match f.transformer(m.tree)
          case None => Scan([], [], Some(Abort(RuntimeException(Capability.Transformer), pos)))
          case Some(bytes) => Then(Match(pos, m.next, m.tree, true, bytes), AtEvent(f, events, m.next))
  }

  /** Releases the three resources of a run, in order, each attempt independent of the others. */
  method CloseQuietly(reader: XmlStreamReader, out: OutputStream, input: InputStream)
    requires reader.Valid() && out.Valid()
    modifies reader, out, input
    ensures reader.Valid() && reader.pos == old(reader.pos)
    ensures reader.closed == (old(reader.closed) || !reader.failsOnClose)
    ensures out.Valid() && out.written == old(out.written)
    ensures out.flushed == (if out.failsOnFlush then old(out.flushed) else |out.written|)
    ensures out.closed == (old(out.closed) || (!out.failsOnFlush && !out.failsOnClose))
    ensures input.closed == (old(input.closed) || !input.failsOnClose)
  {
    CloseReaderQuietly(reader);
    CloseOutputQuietly(out);
    CloseInputQuietly(input);
  }

  /** Flushes then closes `out`; a failing flush skips the close, and neither failure escapes. */
  method CloseOutputQuietly(out: OutputStream)
    requires out.Valid()
    modifies out
    ensures out.Valid() && out.written == old(out.written)
    ensures out.flushed == (if out.failsOnFlush then old(out.flushed) else |out.written|)
    ensures out.closed == (old(out.closed) || (!out.failsOnFlush && !out.failsOnClose))
    ensures out.closed && !old(out.closed) ==> out.flushed == |out.written|
  {
    var flushed := out.Flush();
    if flushed {
      var _ := out.Close();
    }
  }

  /** Closes `reader`, swallowing the `XMLStreamException` a failing close raises. */
  method CloseReaderQuietly(reader: XmlStreamReader)
    requires reader.Valid()
    modifies reader
    ensures reader.Valid() && reader.pos == old(reader.pos)
    ensures reader.closed == (old(reader.closed) || !reader.failsOnClose)
  {
    var _ := reader.Close();
  }

  /** Closes `input`, swallowing the `IOException` a failing close raises. */
  method CloseInputQuietly(input: InputStream)
    modifies input
    ensures input.closed == (old(input.closed) || !input.failsOnClose)
  {
    var _ := input.Close();
  }
}
