/**
 * The vocabulary shared by the engine and its collaborators: bytes, the
 * lexical events of a pull parser, the trees a matched element is turned
 * into, and the exceptions that can end a run.
 */
module Xml {

  /** An octet of an input or output byte stream. */
  newtype byte = x: int | 0 <= x < 256

  /**
   * One lexical event of a StAX pull parser. `Malformed` marks the point at
   * which the tokenizer finds the input ill-formed: advancing onto it raises
   * an `XMLStreamException`.
   */
  datatype Event =
    | StartDocument
    | EndDocument
    | StartElement(localName: string)
    | EndElement(localName: string)
    | Characters(text: string)
    | Comment(text: string)
    | Malformed

  /** An addressable sub-document: a tree with no link back to the reader. */
  datatype Node =
    | Element(name: string, children: seq<Node>)
    | Text(content: string)

  /** Which configured capability threw an unchecked exception. */
  datatype Capability = DomTreeTransformer | Filter | Transformer

  /** The exceptions a construction or a `filter` call can end with. */
  datatype Exception =
    | NullPointerException(message: string)
    | IllegalArgumentException(message: string)
    | XMLStreamException
    | RuntimeException(origin: Capability)
}
