# XmlStreamFilter, modelled in Dafny

This project models the streaming filter engine of `xml-stream-filter`: the
class `XmlStreamFilter`. The engine pulls events from a StAX reader over a
large XML document. At each start element whose local name is the configured
one, it hands the reader to a DOM materializer, which consumes that element
and returns it as a standalone tree. It then tests the tree with the
configured filter and, when the filter accepts it, runs the configured
transformer, which writes to the one output stream shared by every match. At
the end it closes the reader, flushes and closes the output, and closes the
input, ignoring any failure to close.

Modules:

- `Wrappers` (`wrappers.dfy`): `Option`, `Result` and `Outcome`.
- `Xml` (`xml.dfy`): bytes, StAX events, sub-document trees and the exceptions a run can end with.
- `Streams` (`streams.dfy`): the stateful resources, as classes.
  - `InputStream`, `OutputStream`: the caller's byte streams, seen through their wrappers. The output records how much has been flushed.
  - `XmlStreamReader`: a forward-only cursor over the document's events. Position 0 is the start-document event.
  - Whether a flush or a close fails is fixed when a resource is created.
- `XmlStreamFilters` (`xml_stream_filter.dfy`): the engine.
  - The configuration is the immutable datatype `XmlStreamFilter`, built by `New`, which makes the constructor's checks.
  - `Filter` is the `filter` method. It calls `ScanLoop` (the two nested `while` loops) and `HandleTargetElement` (one iteration of the inner loop), and then the `CloseQuietly` family.
  - The ghost functions `ScanFrom` (the outer loop) and `AtEvent` (the inner loop's test) give, as a `Scan`, what a run does on a sequence of events: its matches in order, the bytes written, and the exception that ended it, if any. The methods are proved against them.
- `ScanProperties` (`scan_properties.dfy`): what a run promises, proved about `ScanFrom`/`AtEvent` by mutual induction.
- `Scenarios` (`scenarios.dfy`): the book document from the transformer's test, filtered with stand-ins for the XPath queries and a materializer that keeps the engine's contract.

The capabilities are function-typed fields: the filter, the transformer, the
XMLInputFactory and the DOM materializer. Java's `null` becomes `None` for the
constructor's arguments and a nullable reference (`InputStream?`,
`OutputStream?`) for `filter`'s arguments. An unchecked exception thrown by a
capability is a `None` result. The materializer is a function of the events
and the cursor position, returning the tree and the position where it leaves
the cursor. `Filter` applies that position to the reader.

`Filter` and the methods it calls require the materializer's contract,
`Advances`: at each target start, a successful materialization moves the
cursor forward, never past the last event, and without reading an ill-formed
event. A StAX reader throws at the step onto an ill-formed event, so it can
neither rest on one nor step past one. The reader model keeps the same rule:
its cursor never rests on an ill-formed event, and `ConsumeTo` steps over
none. Without progress, the source's inner loop would not terminate.

Behaviour a reader might not expect:

- **Clean-up.** The code closes the resources only on normal completion. The `closeQuietly` call at line 79 follows the loop and is not in a `finally`. So when the reader, the materializer, the filter or the transformer throws, `Filter` leaves every resource open and the output unflushed. The output keeps the bytes the earlier matches wrote, and the reader stays where it failed. One might expect clean-up on every exit path; the code closes only after the loop completes, and the model does the same.
- **Flush then close.** Flushing and closing the output share one `try` block (lines 94-96). So a failing flush skips the close of the output. The reader and the input are still closed.
- **Nested elements with the target name.** No match ever starts inside the events an earlier match consumed (`NestedTargetsAreNotMatchedSeparately`). So with a materializer that consumes the whole element through its end event, as `ReferenceMaterializer` does, a nested element with the target name goes out with the enclosing match and is never matched on its own. The engine itself demands only progress of its materializer (`Advances`), not that it consume through the end event.
- **Failure to create the reader.** An `XMLStreamException` from `createXMLStreamReader` (line 66) is not modelled separately. Its observable effect is the same as an ill-formed first event: an `XMLStreamException`, no output, nothing closed.

## Model

| member | source | states |
|---|---|---|
| XmlStreamFilters.XmlStreamFilter.New | src/main/java/com/carmatechnologies/utilities/xml/XmlStreamFilter.java:47-55 | construction succeeds iff the local name is present and non-empty and all four capabilities are present; the result then holds every argument unchanged; otherwise the first failing check, in the source's order, gives the exception and its message (NullPointerException for a missing value, IllegalArgumentException for an empty name) |
| XmlStreamFilters.XmlStreamFilter.Filter | src/main/java/com/carmatechnologies/utilities/xml/XmlStreamFilter.java:57-80 | a null input, then a null output, fails with its NullPointerException before anything is opened or changed; otherwise the output gains exactly the bytes of the run `ScanFrom` describes; the call succeeds iff that run has no failure; on failure the exception is the run's and no resource is flushed or closed; on success the reader has consumed the last event and the reader, the output and the input are each closed unless their own close fails, and the output is flushed first, with a failing flush skipping only the output's close |
| XmlStreamFilters.XmlStreamFilter.ScanLoop | src/main/java/com/carmatechnologies/utilities/xml/XmlStreamFilter.java:69-77 | the nested loops terminate; the output gains exactly `ScanFrom(f, events, 0).output` for its own configuration `f`; the first exception ends the loops and is returned; a loop that ends without one has consumed the document (`hasNext` is false); the output is neither flushed nor closed inside the loop |
| XmlStreamFilters.XmlStreamFilter.HandleTargetElement | src/main/java/com/carmatechnologies/utilities/xml/XmlStreamFilter.java:71-76 | at a target start: an exception from the materializer, the filter or the transformer is the whole rest of the run, failing at that position, and leaves the output untouched; without one, the cursor moves strictly forward, and the step is exactly one `Match` followed by the rest of the run from the new cursor position, with the transformer's bytes written only when the filter accepted |
| XmlStreamFilters.CloseQuietly | src/main/java/com/carmatechnologies/utilities/xml/XmlStreamFilter.java:87-91 | the reader, the output and the input are each attempted; each ends closed unless its own close (or, for the output, its flush) fails, whatever happened to the others; nothing is written and the cursor does not move |
| XmlStreamFilters.CloseOutputQuietly | src/main/java/com/carmatechnologies/utilities/xml/XmlStreamFilter.java:93-100 | flushes everything written unless the flush fails; closes only after a successful flush; an output it closes is fully flushed; no failure escapes |
| XmlStreamFilters.CloseReaderQuietly | src/main/java/com/carmatechnologies/utilities/xml/XmlStreamFilter.java:102-108 | the reader ends closed unless its close fails, which is swallowed; the cursor does not move |
| XmlStreamFilters.CloseInputQuietly | src/main/java/com/carmatechnologies/utilities/xml/XmlStreamFilter.java:90 | the input ends closed unless its close fails, which is swallowed |
| Streams.XmlStreamReader.constructor | src/main/java/com/carmatechnologies/utilities/xml/XmlStreamFilter.java:66 | a new reader is open and on the start-document event, followed by the tokenizer's events |
| Streams.XmlStreamReader.Next | src/main/java/com/carmatechnologies/utilities/xml/XmlStreamFilter.java:69-70 | when another event exists, advances the cursor by exactly one event, or fails with the cursor unmoved when that event is ill-formed |
| Streams.XmlStreamReader.ConsumeTo | src/main/java/com/carmatechnologies/utilities/xml/XmlStreamFilter.java:72 | the materializer's effect on the reader: the cursor moves strictly forward onto an event of the document, over and onto events that are not ill-formed |
| Streams.XmlStreamReader.Close | src/main/java/com/carmatechnologies/utilities/xml/XmlStreamFilter.java:104 | the reader ends closed exactly when its close does not fail |
| Streams.OutputStream.Write | src/main/java/com/carmatechnologies/utilities/xml/XmlStreamFilter.java:74 | the bytes are appended to what was written, the flushed prefix and the closed state are unchanged |
| Streams.OutputStream.Flush | src/main/java/com/carmatechnologies/utilities/xml/XmlStreamFilter.java:95 | unless it fails, everything written is flushed; nothing else changes |
| Streams.OutputStream.Close | src/main/java/com/carmatechnologies/utilities/xml/XmlStreamFilter.java:96 | the output ends closed exactly when its close does not fail; the bytes are unchanged |
| Streams.InputStream.Close | src/main/java/com/carmatechnologies/utilities/xml/XmlStreamFilter.java:90 | the input ends closed exactly when its close does not fail |
| ScanProperties.ScanFromExplained | src/main/java/com/carmatechnologies/utilities/xml/XmlStreamFilter.java:69-77 | from the top of the outer loop, every match agrees with the capabilities, matches are in order after the cursor, the output is the accepted matches' bytes, a failure has a cause, no event before the failure (or, on a run that completes, none at all) is ill-formed, and every target start before the failure is handled |
| ScanProperties.AtEventExplained | src/main/java/com/carmatechnologies/utilities/xml/XmlStreamFilter.java:71-76 | the same promises from the inner loop's test, counting the event under the cursor |
| ScanProperties.ThenExplained | src/main/java/com/carmatechnologies/utilities/xml/XmlStreamFilter.java:71-76 | handling one more match before the rest of a run keeps all the promises above |
| ScanProperties.MatchesAgreeWithCapabilities | src/main/java/com/carmatechnologies/utilities/xml/XmlStreamFilter.java:71-75 | the materializer is invoked only on a START_ELEMENT whose local name is the configured one (end elements, text and other names never trigger it); each sub-document gets exactly one verdict from the filter; transformer bytes are recorded iff the verdict is true |
| ScanProperties.MatchesInDocumentOrder | src/main/java/com/carmatechnologies/utilities/xml/XmlStreamFilter.java:69-77 | matches come in strictly increasing cursor position, each consuming a non-empty region that ends on an event of the document and before the next match starts |
| ScanProperties.OutputIsAcceptedMatchesInOrder | src/main/java/com/carmatechnologies/utilities/xml/XmlStreamFilter.java:64-75 | the output is exactly the in-order concatenation of the transformer's bytes for the accepted matches |
| ScanProperties.EveryTargetStartIsHandled | src/main/java/com/carmatechnologies/utilities/xml/XmlStreamFilter.java:69-72 | every target start before the point of failure (anywhere, on a run that completes) is a match or lies inside the region an earlier match consumed |
| ScanProperties.NestedTargetsAreNotMatchedSeparately | src/main/java/com/carmatechnologies/utilities/xml/XmlStreamFilter.java:71-72 | no match starts inside the region consumed by another match |
| ScanProperties.FailuresHaveACause | src/main/java/com/carmatechnologies/utilities/xml/XmlStreamFilter.java:69-77 | a run fails only with an XMLStreamException on an ill-formed event, or at a target start with the exception of the capability that threw there (the materializer; the filter on the materialized tree; the transformer on an accepted tree); the failure comes after every match |
| ScanProperties.NoCauseMeansSuccess | src/main/java/com/carmatechnologies/utilities/xml/XmlStreamFilter.java:69-77 | a document without ill-formed events, at whose target starts no capability throws, is filtered to completion |
| ScanProperties.SuccessMeansWellFormed | src/main/java/com/carmatechnologies/utilities/xml/XmlStreamFilter.java:69-77 | a run that completes read no ill-formed event: every event after the start of the document is well-formed, including those inside matched elements |
| ScanProperties.SucceedsIffWellFormed | src/main/java/com/carmatechnologies/utilities/xml/XmlStreamFilter.java:69-77 | when no capability throws, a run completes exactly when the document holds no ill-formed event |
| ScanProperties.NoTargetMeansEmptyOutput | src/main/java/com/carmatechnologies/utilities/xml/XmlStreamFilter.java:69-77 | a document with no target start gives no match and no output; it can fail only on an ill-formed event, so a well-formed one succeeds |
| Scenarios.ReferenceMaterializer | src/main/java/com/carmatechnologies/utilities/xml/XmlStreamFilter.java:44 | a materializer for the default configuration's place: on success the start event at the cursor is an element's, the tree is an element of that name, the cursor lands just past an end event with that name, strictly forward, before the last event, having read no ill-formed event (it throws instead) |
| Scenarios.ParsedElementIsWellFormed | src/main/java/com/carmatechnologies/utilities/xml/XmlStreamFilter.java:72 | an element the stand-in materializer parses contains no ill-formed event, up to its end event |
| Scenarios.ParsedContentIsWellFormed | src/main/java/com/carmatechnologies/utilities/xml/XmlStreamFilter.java:72 | content that parses contains no ill-formed event, up to and including the end event closing it |
| Scenarios.ReferenceMaterializerAdvances | src/main/java/com/carmatechnologies/utilities/xml/XmlStreamFilter.java:71-72 | that materializer keeps the engine's contract on every document, for every target name |
| Scenarios.BookIsMaterializedWhole | src/test/java/com/carmatechnologies/utilities/xml/transformer/XPathToOutputStreamTransformerTest.java:19-29 | the book element of the test document is materialized as its full subtree, the cursor left on the end-document event |
| Scenarios.TagsParse | src/test/java/com/carmatechnologies/utilities/xml/transformer/XPathToOutputStreamTransformerTest.java:24-28 | the book's `tags` element parses into its three `tag` children, `italian`, `food` and `pasta`, in order |
| Scenarios.BookParses | src/test/java/com/carmatechnologies/utilities/xml/transformer/XPathToOutputStreamTransformerTest.java:19-29 | the test's book element parses into the tree of its title, author, year, price and tags, ending just past `</book>` |
| Scenarios.BookQueries | src/test/java/com/carmatechnologies/utilities/xml/transformer/XPathToOutputStreamTransformerTest.java:19-38 | on the test's book, the tag stand-in is true exactly for the book's tags (`italian`, `food`, `pasta`), and the title stand-in gives `Everyday Italian` and a newline, as the title query of the test does |
| Scenarios.BookScenario | src/test/java/com/carmatechnologies/utilities/xml/transformer/XPathToOutputStreamTransformerTest.java:31-39 | filtering the book document gives one match, accepted iff the tag is one of the book's; the output is then exactly the title line, and otherwise empty |
| Scenarios.FilterBookDocument | src/main/java/com/carmatechnologies/utilities/xml/XmlStreamFilter.java:57-80 | the whole `filter` call on the book document succeeds and writes exactly the title line when the book has the tag, and nothing otherwise |

## Left out

- Gzip auto-detection and the input's buffering wrapper (line 63). They are treated as the identity: the model's input stream is what the engine reads.
- The `IOException` that `filter` declares (line 58). Only the wrapping at lines 63-64 can raise it outside the clean-up, and the wrapping is not modelled, so `Xml.Exception` has no case for it. A read failure while parsing is reported by StAX as an `XMLStreamException`, and the model shows it as a `Malformed` event.
- The buffered output wrapper's automatic write-through (line 64). The wrapper is modelled only through explicit flushes. `flushed` counts what `Flush` pushed through; a buffer's automatic write-through when it fills is not modelled. So `Filter`'s promise that nothing is flushed after an exception does not hold for the caller's stream once the output exceeds the buffer's size.
- The logging of the swallowed `IOException` by Guava's `Closeables.closeQuietly` (line 90). The model only swallows the failure, as the code itself does for the output and the reader (lines 97-99, 105-107).
- UTF-8 decoding and tokenizing (line 66). The XMLInputFactory is a function from the input's bytes to the reader's events. An ill-formed document is a `Malformed` event.
- Attributes, namespaces and the other StAX event kinds. The reader's events are start and end elements, text, comments and the document boundaries.
- The body of `XMLStreamReaderToDomTreeTransformer`. The DOM materializer is described only by its contract. `Scenarios.ReferenceMaterializer` is a stand-in; the library's own materializer is not part of this model.
- `XPathPredicate` and `XPathToOutputStreamTransformer`. They are opaque capabilities. The scenarios use small Dafny stand-ins for the two queries of the tests.
- The three-argument constructor (lines 43-45). It passes the default XMLInputFactory and materializer, both foreign, to `New`.
- `main` and the command-line factory (lines 110-113): argument parsing and standard input/output wiring.
- Partial output of a transformer that throws. The model's transformer either returns all its bytes or throws before writing any.
- Writes to, or reads from, a stream the caller had already closed. Whether they fail depends on the stream, so the model lets them proceed.
- The `MutablePair` output holder (lines 67, 74). The transformer is called with the sub-document and its bytes are appended to the shared output, which is the effect of overwriting the pair's first element before each call.
- `VERSION` is kept as a constant and has no behaviour.
