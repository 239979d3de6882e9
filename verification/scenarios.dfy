/**
 * Concrete runs of the engine on the book document the XPath adapters are
 * exercised with: a materializer that keeps the contract the engine relies
 * on, stand-ins for the two XPath queries, and the outputs they give.
 */
module Scenarios {
  import opened Wrappers
  import opened Xml
  import opened Streams
  import opened XmlStreamFilters
  import opened ScanProperties

  /**
   * Builds the element whose start event is at `p`, returning it with the
   * position just after its end event; `None` for truncated or ill-formed input.
   */
  function ParseElement(events: seq<Event>, p: nat): (r: Option<(Node, nat)>)
    ensures r.Some? ==> p < r.value.1 <= |events|
    decreases |events| - p, 0
  {
    if p < |events| && events[p].StartElement? then
      match ParseContent(events, p + 1)
      case None => None
      case Some((children, q)) =>
        if events[q].localName == events[p].localName then Some((Element(events[p].localName, children), q + 1))
        else None
    else None
  }

  /**
   * Builds the children that start at `p`, returning them with the position
   * of the end event that closes their parent.
   */
  function ParseContent(events: seq<Event>, p: nat): (r: Option<(seq<Node>, nat)>)
    ensures r.Some? ==> p <= r.value.1 < |events| && events[r.value.1].EndElement?
    decreases |events| - p, 1
  {
    if p >= |events| then None
    else match events[p]
      case EndElement(_) => Some(([], p))
      case StartElement(_) =>
        (match ParseElement(events, p)
         case None => None
         case Some((child, q)) =>
           match ParseContent(events, q)
           case None => None
           case Some((siblings, end)) => Some(([child] + siblings, end)))
      case Characters(text) =>
        (match ParseContent(events, p + 1)
         case None => None
         case Some((siblings, end)) => Some(([Text(text)] + siblings, end)))
      case Comment(_) => ParseContent(events, p + 1)
      case _ => None
  }

  /**
   * A DOM materializer: the element at `p` as a tree, the cursor left just
   * after its end event. Throws when the element is not closed before the
   * last event of the document, or when the event after its end is
   * ill-formed (the reader's step onto it raises the error).
   */
  function ReferenceMaterializer(events: seq<Event>, p: nat): (r: Option<Materialized>)
    ensures Progresses(r, events, p)
    ensures r.Some? ==>
      && events[p].StartElement?
      && events[r.value.next - 1] == EndElement(events[p].localName)
      && r.value.tree.Element? && r.value.tree.name == events[p].localName
  {
    match ParseElement(events, p)
    case None => None
    case Some((tree, next)) =>
      ParsedElementIsWellFormed(events, p);
      if next < |events| && !events[next].Malformed? then Some(Materialized(tree, next)) else None
  }

  /** An element that parses reads no ill-formed event, up to its end event. */
  lemma {:induction false} ParsedElementIsWellFormed(events: seq<Event>, p: nat)
    requires ParseElement(events, p).Some?
    ensures forall k | p <= k < ParseElement(events, p).value.1 :: !events[k].Malformed?
    decreases |events| - p, 0
  {
    ParsedContentIsWellFormed(events, p + 1);
  }

  /** Content that parses reads no ill-formed event, up to and including the end event closing it. */
  lemma {:induction false} ParsedContentIsWellFormed(events: seq<Event>, p: nat)
    requires ParseContent(events, p).Some?
    ensures forall k | p <= k <= ParseContent(events, p).value.1 :: !events[k].Malformed?
    decreases |events| - p, 1
  {
    match events[p]
    case EndElement(_) =>
    case StartElement(_) =>
      ParsedElementIsWellFormed(events, p);
      ParsedContentIsWellFormed(events, ParseElement(events, p).value.1);
    case Characters(_) =>
      ParsedContentIsWellFormed(events, p + 1);
    case Comment(_) =>
      ParsedContentIsWellFormed(events, p + 1);
  }

  /**
   * The stand-in keeps the engine's materializer contract on every document,
   * for every target name: its own ensures, quantified over the target starts.
   */
  lemma ReferenceMaterializerAdvances(events: seq<Event>, name: string)
    ensures Advances(ReferenceMaterializer, events, name)
  {
  }

  /** The UTF-8 bytes of `s`, for text whose characters are all ASCII. */
  function AsciiBytes(s: string): seq<byte>
  {
    seq(|s|, i requires 0 <= i < |s| => ((s[i] as int) % 256) as byte)
  }

  /** The text directly inside `n`. */
  function TextOf(n: Node): string
  {
    match n
    case Text(t) => t
    case Element(_, children) => TextOfAll(children)
  }

  function TextOfAll(ns: seq<Node>): string
  {
    if ns == [] then [] else (if ns[0].Text? then ns[0].content else []) + TextOfAll(ns[1..])
  }

  /** The first child element of `n` named `name`. */
  function ChildNamed(n: Node, name: string): Option<Node>
  {
    if n.Text? then None else FirstNamed(n.children, name)
  }

  function FirstNamed(ns: seq<Node>, name: string): (r: Option<Node>)
    ensures r.Some? ==> r.value.Element? && r.value.name == name
  {
    if ns == [] then None
    else if ns[0].Element? && ns[0].name == name then Some(ns[0])
    else FirstNamed(ns[1..], name)
  }

  /** Some element of `ns` named `name` has text `text`. */
  predicate SomeNamedWithText(ns: seq<Node>, name: string, text: string)
  {
    exists i | 0 <= i < |ns| :: ns[i].Element? && ns[i].name == name && TextOf(ns[i]) == text
  }

  /** Stand-in for the query `//book/tags/tag[text() = tag]` evaluated on a `book` sub-document. */
  function HasTag(tag: string): NodePredicate
  {
    n => Some(match ChildNamed(n, "tags")
              case None => false
              case Some(tags) => SomeNamedWithText(tags.children, "tag", tag))
  }

  /** Stand-in for the transformer of `//book/title/text()`: the title, then a newline. */
  function TitleLine(n: Node): Option<seq<byte>>
  {
    match ChildNamed(n, "title")
    case None => Some([])
    case Some(title) => Some(AsciiBytes(TextOf(title) + "\n"))
  }

  /** The events of an element holding only text. */
  function Leaf(name: string, text: string): seq<Event>
  {
    [StartElement(name), Characters(text), EndElement(name)]
  }

  /**
   * What a tokenizer delivers, after its start event, for the book document
   * of the transformer's test (attributes and the whitespace between elements
   * are not modelled).
   */
  const BookTokens: seq<Event> :=
    [StartElement("book")]
    + Leaf("title", "Everyday Italian")
    + Leaf("author", "Giada De Laurentiis")
    + Leaf("year", "2005")
    + Leaf("price", "30.00")
    + [StartElement("tags")]
    + Leaf("tag", "italian")
    + Leaf("tag", "food")
    + Leaf("tag", "pasta")
    + [EndElement("tags"), EndElement("book"), EndDocument]

  /** A factory whose reader delivers the book document, whatever the bytes. */
  function BookFactory(bytes: seq<byte>): Tokenization
  {
    Tokenization(BookTokens, false)
  }

  function BookFilter(tag: string): XmlStreamFilter
  {
    XmlStreamFilter("book", HasTag(tag), TitleLine, BookFactory, ReferenceMaterializer)
  }

  function LeafNode(name: string, text: string): Node
  {
    Element(name, [Text(text)])
  }

  const Tags: Node := Element("tags", [LeafNode("tag", "italian"), LeafNode("tag", "food"), LeafNode("tag", "pasta")])

  const BookTree: Node := Element("book", [
    LeafNode("title", "Everyday Italian"),
    LeafNode("author", "Giada De Laurentiis"),
    LeafNode("year", "2005"),
    LeafNode("price", "30.00"),
    Tags])

  /** An element holding only text is materialized as that text under the element. */
  lemma LeafParses(e: seq<Event>, p: nat, name: string, text: string)
    requires p + 3 <= |e| && e[p..p + 3] == Leaf(name, text)
    ensures ParseElement(e, p) == Some((LeafNode(name, text), p + 3))
  {
    assert e[p] == StartElement(name) && e[p + 1] == Characters(text) && e[p + 2] == EndElement(name);
    assert ParseContent(e, p + 2) == Some(([], p + 2));
    assert [Text(text)] + [] == [Text(text)];
  }

  /** A child element followed by its siblings: one unfolding of `ParseContent`, instantiated for the callers. */
  lemma ChildThenSiblings(e: seq<Event>, p: nat, child: Node, q: nat, siblings: seq<Node>, end: nat)
    requires p < |e| && e[p].StartElement?
    requires ParseElement(e, p) == Some((child, q)) && ParseContent(e, q) == Some((siblings, end))
    ensures ParseContent(e, p) == Some(([child] + siblings, end))
  {
  }

  /** The one `book` element is materialized whole, as the tree the document describes. */
  lemma BookIsMaterializedWhole()
    ensures ReferenceMaterializer([StartDocument] + BookTokens, 1) == Some(Materialized(BookTree, 26))
  {
    BookParses();
  }

  /** The `tags` element of the book parses into its three `tag` children. */
  lemma TagsParse()
    ensures ParseElement([StartDocument] + BookTokens, 14) == Some((Tags, 25))
  {
    var e := [StartDocument] + BookTokens;
    assert |e| == 27;
    LeafParses(e, 15, "tag", "italian");
    LeafParses(e, 18, "tag", "food");
    LeafParses(e, 21, "tag", "pasta");
    assert ParseContent(e, 24) == Some(([], 24));
    ChildThenSiblings(e, 21, LeafNode("tag", "pasta"), 24, [], 24);
    assert [LeafNode("tag", "pasta")] + [] == [LeafNode("tag", "pasta")];
    assert [LeafNode("tag", "food")] + [LeafNode("tag", "pasta")] == [LeafNode("tag", "food"), LeafNode("tag", "pasta")];
    ChildThenSiblings(e, 18, LeafNode("tag", "food"), 21, [LeafNode("tag", "pasta")], 24);
    ChildThenSiblings(e, 15, LeafNode("tag", "italian"), 18, [LeafNode("tag", "food"), LeafNode("tag", "pasta")], 24);
    assert [LeafNode("tag", "italian")] + [LeafNode("tag", "food"), LeafNode("tag", "pasta")] == Tags.children;
  }

  /** The `book` element parses as the tree the document describes, up to the end-document event. */
  lemma BookParses()
    ensures ParseElement([StartDocument] + BookTokens, 1) == Some((BookTree, 26))
  {
    var e := [StartDocument] + BookTokens;
    assert |e| == 27;
    TagsParse();
    LeafParses(e, 2, "title", "Everyday Italian");
    LeafParses(e, 5, "author", "Giada De Laurentiis");
    LeafParses(e, 8, "year", "2005");
    LeafParses(e, 11, "price", "30.00");
    assert ParseContent(e, 25) == Some(([], 25));
    ChildThenSiblings(e, 14, Tags, 25, [], 25);
    assert [Tags] + [] == [Tags];
    ChildThenSiblings(e, 11, LeafNode("price", "30.00"), 14, [Tags], 25);
    assert [LeafNode("price", "30.00")] + [Tags] == [LeafNode("price", "30.00"), Tags];
    ChildThenSiblings(e, 8, LeafNode("year", "2005"), 11, [LeafNode("price", "30.00"), Tags], 25);
    assert [LeafNode("year", "2005")] + [LeafNode("price", "30.00"), Tags] == [LeafNode("year", "2005"), LeafNode("price", "30.00"), Tags];
    ChildThenSiblings(e, 5, LeafNode("author", "Giada De Laurentiis"), 8,
                      [LeafNode("year", "2005"), LeafNode("price", "30.00"), Tags], 25);
    assert [LeafNode("author", "Giada De Laurentiis")] + [LeafNode("year", "2005"), LeafNode("price", "30.00"), Tags]
        == [LeafNode("author", "Giada De Laurentiis"), LeafNode("year", "2005"), LeafNode("price", "30.00"), Tags];
    ChildThenSiblings(e, 2, LeafNode("title", "Everyday Italian"), 5,
                      [LeafNode("author", "Giada De Laurentiis"), LeafNode("year", "2005"), LeafNode("price", "30.00"), Tags], 25);
    assert [LeafNode("title", "Everyday Italian")]
         + [LeafNode("author", "Giada De Laurentiis"), LeafNode("year", "2005"), LeafNode("price", "30.00"), Tags]
        == BookTree.children;
    assert ParseElement(e, 1) == Some((BookTree, 26));
  }

  /** The book's tags are `italian`, `food` and `pasta`, and its title line is `Everyday Italian`. */
  lemma BookQueries(tag: string)
    ensures HasTag(tag)(BookTree) == Some(tag == "italian" || tag == "food" || tag == "pasta")
    ensures TitleLine(BookTree) == Some(AsciiBytes("Everyday Italian\n"))
  {
    var title := LeafNode("title", "Everyday Italian");
    var kids := BookTree.children;
    assert kids[0] == title;
    assert FirstNamed(kids, "title") == Some(title);
    assert kids[4..] == [Tags];
    assert FirstNamed(kids[4..], "tags") == Some(Tags);
    assert kids[3..][1..] == kids[4..];
    assert FirstNamed(kids[3..], "tags") == Some(Tags);
    assert kids[2..][1..] == kids[3..];
    assert FirstNamed(kids[2..], "tags") == Some(Tags);
    assert kids[1..][1..] == kids[2..];
    assert FirstNamed(kids[1..], "tags") == Some(Tags);
    assert FirstNamed(kids, "tags") == Some(Tags);
    forall n: Node, t: string | n == LeafNode("tag", t)
      ensures TextOf(n) == t
    {
      assert TextOfAll([Text(t)]) == t + TextOfAll([]);
    }
    assert TextOf(title) + "\n" == "Everyday Italian\n";
    assert TextOf(Tags.children[0]) == "italian";
    assert TextOf(Tags.children[1]) == "food";
    assert TextOf(Tags.children[2]) == "pasta";
    if SomeNamedWithText(Tags.children, "tag", tag) {
      var i :| 0 <= i < 3 && Tags.children[i].Element? && Tags.children[i].name == "tag" && TextOf(Tags.children[i]) == tag;
      assert i == 0 || i == 1 || i == 2;
    }
  }

  /**
   * Filtering the book document with "has tag `tag`" gives one match; it is
   * accepted, and its title line is the whole output, exactly when `tag` is
   * one of the book's tags.
   */
  lemma BookScenario(tag: string)
    ensures MaterializerAdvances(BookFilter(tag), [StartDocument] + BookTokens)
    ensures var accepted := tag == "italian" || tag == "food" || tag == "pasta";
      var line := if accepted then AsciiBytes("Everyday Italian\n") else [];
      ScanFrom(BookFilter(tag), [StartDocument] + BookTokens, 0) ==
        Scan([Match(1, 26, BookTree, accepted, line)], line, None)
  {
    var e := [StartDocument] + BookTokens;
    var f := BookFilter(tag);
    ReferenceMaterializerAdvances(e, "book");
    BookIsMaterializedWhole();
    BookQueries(tag);
    assert AtEvent(f, e, 26) == Scan([], [], None);
    assert ScanFrom(f, e, 0) == AtEvent(f, e, 1);
  }

  /**
   * The whole `filter` call on the book document: it succeeds, writes the
   * title line exactly when the book has tag `tag`, and leaves the output
   * flushed and closed and the input closed.
   */
  method FilterBookDocument(tag: string) returns (r: Outcome<Exception>, written: seq<byte>)
    ensures r == Pass
    ensures written == if tag == "italian" || tag == "food" || tag == "pasta" then AsciiBytes("Everyday Italian\n") else []
  {
    var input := new InputStream([], false);
    var output := new OutputStream(false, false);
    BookScenario(tag);
    ghost var reader;
    r, reader := BookFilter(tag).Filter(input, output);
    assert output.closed && output.flushed == |output.written| && input.closed && reader.closed;
    written := output.written;
  }
}
