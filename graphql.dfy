/**
 * The part of the GraphQL document tree the engine looks at, and the collaborators
 * it calls without defining them (printer, parser, id generator, user predicates,
 * cache fingerprint).
 */
module GraphQL {
  import opened Types

  datatype Document = Document(definitions: seq<Definition>)

  /** An operation with its selections; any other definition (a fragment, say) is opaque. */
  datatype Definition = OperationDefinition(selections: seq<Selection>) | OtherDefinition(kind: string)

  /**
   * A field node without a selection set (a leaf), a field node with one (possibly
   * empty), or any other selection (a fragment spread, an inline fragment), which is
   * opaque. Aliases, arguments and directives are not represented.
   */
  datatype Selection =
    | LeafField(name: string)
    | Field(name: string, selections: seq<Selection>)
    | OtherSelection(kind: string)

  /** What the engine receives from outside. */
  datatype Env = Env(
    printer: Document -> string,
    parser: string -> Option<Document>,  // None: the text does not parse
    uuid: nat -> string,                 // the i-th id generated during one expansion
    evalFn: Evaluator,
    fingerprint: (Option<SelectionOptions>, Registry) -> string)

  /** No two calls of the id generator return the same id. */
  ghost predicate UniqueIds(uuid: nat -> string) {
    forall i, j :: uuid(i) == uuid(j) ==> i == j
  }

  /** The outcome of a call that ends in a parse: a document, or the text that failed to parse. */
  datatype Parsed = Parsed(doc: Document) | SyntaxError(text: string)

  function Parse(env: Env, text: string): (r: Parsed)
    ensures r.Parsed? <==> env.parser(text).Some?
    ensures r.Parsed? ==> r.doc == env.parser(text).value
    ensures r.SyntaxError? ==> r.text == text
  {
    match env.parser(text)
    case Some(d) => Parsed(d)
    case None => SyntaxError(text)
  }
}
