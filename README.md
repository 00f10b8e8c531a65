# apollo-dynamic, modelled in Dafny

apollo-dynamic rewrites GraphQL documents before they are sent. A developer marks
classes as entity types (`@SelectionType(name, options)`) and their properties as
selection fields (`@SelectionField(...)`). Both decorators record what they see in one
process-wide registry, `ApolloDynamicFactory`.

`select(document, selectionOptions)` then expands the document in four steps:
- It copies the document by printing and re-parsing it.
- It scans the copy: every leaf field whose name is a registered entity is renamed to a
  per-entity placeholder token (`scanSelectionFields`).
- It prints the scanned copy and replaces every token with a synthesized selection
  (`replaceSelectionFields`, `createEntityFields`):
  - Scalar fields are included unless their `include`/`skip` predicates exclude them.
  - Relational fields are included only when the merged `relations` option requests them.
- It re-parses the result.

The result can be cached in one persistent storage slot, under a key made of the
printed document and a fingerprint of the options and the registry.

The model has one Dafny module per concern:
- `Types`: the option and registry values.
- `Factory`: the registry, a class whose maps the decorators update in place.
- `SelectionTypeDecorator` and `SelectionFieldDecorator`: the two decorators, as
  methods on the registry.
- `Text`: `join`, and `replaceAll` with a replacement string that is inserted literally
  (see "## Left out" for `$` patterns).
- `GraphQL`: the part of the document tree the engine inspects, and the collaborators
  it only calls.
- `Scanner`: the placeholder scan.
- `Synthesizer`: `createEntityFields`.
- `Substitution`: the option merge and the token substitution.
- `Select`: the pipeline and the cache.

Each loop of the source is a method. Each method is proved equal to a specification
function, and lemmas state what those functions guarantee.

JavaScript truthiness is modelled explicitly:
- A condition set maps each name to the truthiness of its value, and a missing name
  reads as false.
- A condition name that is the empty string counts as no predicate.
- A registered type whose class name is empty does not match.
- Any object is truthy, including an empty `{}` and an empty selection set.

Details of the code worth noting:
- A field with a selection set, even an empty one, is not a leaf, so it is never
  renamed.
- Fragment definitions, fragment spreads and inline fragments are not scanned.
- A cache hit also needs the stored text to be non-empty.
- A miss replaces every earlier entry stored under the same printed document.

## Model

| member | source | states |
|---|---|---|
| Factory.ApolloDynamicFactory.constructor | lib/builder/apollo-dynamic.factory.ts:7-12 | The registry starts with no types, no defaults, no field lists and the cache disabled. |
| SelectionTypeDecorator.DefaultOf | lib/decorators/selection-type.decorator.ts:13 | The default recorded is `options.default` when given and the empty options otherwise. |
| SelectionTypeDecorator.SelectionType | lib/decorators/selection-type.decorator.ts:10-15 | Registration maps the public name to the class name and records its default options. It leaves the field lists and the cache flag unchanged. |
| SelectionTypeDecorator.RegisterTwice | lib/decorators/selection-type.decorator.ts:10-15 | Registering one name twice keeps the later class name and default (last wins). Every other name keeps its type and default entries, and the field lists and cache flag are unchanged. |
| SelectionFieldDecorator.NormaliseArgs | lib/decorators/selection-field.decorator.ts:17-22 | A function as first argument is the type reference, and the second argument is the options. Otherwise the field is scalar and the first argument is the options. Missing options become empty options. |
| SelectionFieldDecorator.ScalarIgnoresSecond | lib/decorators/selection-field.decorator.ts:17-20 | Without a type function, the second argument has no effect and the field is scalar. |
| SelectionFieldDecorator.Descriptor | lib/decorators/selection-field.decorator.ts:26 | The stored descriptor carries the property name and the normalised type reference and options. |
| SelectionFieldDecorator.SelectionField | lib/decorators/selection-field.decorator.ts:16-27 | Exactly one descriptor is appended at the end of the class's field list. An absent list is created empty first. No other list or registry map changes. |
| Text.JoinAppend | lib/builder/apollo-dynamic.factory.ts:153 | Joining two non-empty piece lists puts exactly one separator between their joins. |
| Text.ReplaceAbsent | lib/builder/apollo-dynamic.factory.ts:125 | `replaceAll` of a pattern that does not occur leaves the text unchanged. |
| Text.ReplaceSkip | lib/builder/apollo-dynamic.factory.ts:125 | A prefix in which no occurrence starts is copied unchanged before the replaced rest. |
| Text.ReplaceJoined | lib/builder/apollo-dynamic.factory.ts:125 | Text made of clean chunks separated by the pattern becomes the same chunks separated by the replacement, so every occurrence is replaced. |
| GraphQL.Parse | lib/builder/apollo-dynamic.factory.ts:128 | Parsing yields a document exactly when the parser accepts the text. Otherwise it yields the failing text. |
| Scanner.TokensOfKeys | lib/builder/apollo-dynamic.factory.ts:92 | The token dictionary has exactly the recorded entity names as keys. |
| Scanner.TokensOfAt | lib/builder/apollo-dynamic.factory.ts:92 | The i-th entity recorded gets the i-th generated id. |
| Scanner.TokensDistinct | lib/builder/apollo-dynamic.factory.ts:92 | With an id generator that never repeats, different entities get different tokens. |
| Scanner.TokensExtend | lib/builder/apollo-dynamic.factory.ts:92 | Recording further entities never changes an existing entity's token. |
| Scanner.AppendNewProps | lib/builder/apollo-dynamic.factory.ts:92 | The dictionary order stays duplicate-free. It keeps the old keys as a prefix and adds exactly the names not yet present, each once. |
| Scanner.AppendNewOrder | lib/builder/apollo-dynamic.factory.ts:92 | The added names come in order of first occurrence: an added name precedes another only if it occurs before every occurrence of the other. That order decides which generated id each entity gets and the order of `Object.keys`. |
| Scanner.AppendNewConcat | lib/builder/apollo-dynamic.factory.ts:92 | Recording names in two batches is the same as recording them at once. |
| Scanner.MatchedConcat | lib/builder/apollo-dynamic.factory.ts:91 | Filtering for registered names distributes over concatenation. |
| Scanner.MatchedMembers | lib/builder/apollo-dynamic.factory.ts:91 | A name survives the filter exactly when it occurs and names a registered type with a truthy class name. |
| Scanner.RenameFrame | lib/builder/apollo-dynamic.factory.ts:91-94 | Renaming a subtree depends only on the tokens of the entities that occur in it. |
| Scanner.RenameFrames | lib/builder/apollo-dynamic.factory.ts:86-89 | The same holds for a list of selections. |
| Scanner.LeafNamesContain | lib/builder/apollo-dynamic.factory.ts:86-89 | The leaf names of each selection occur among those of its list. |
| Scanner.LeafNamesStep | lib/builder/apollo-dynamic.factory.ts:87-89 | The leaf names of a list prefix grow by the leaf names of the next selection. |
| Scanner.RenamedLeaves | lib/builder/apollo-dynamic.factory.ts:85-95 | Renaming a selection list renames its leaf names one by one, in the same order. |
| Scanner.RenamedLeavesOf | lib/builder/apollo-dynamic.factory.ts:85-95 | The same holds for one selection. |
| Scanner.RenameKeepsShape | lib/builder/apollo-dynamic.factory.ts:85-95 | Renaming keeps every node's kind, nesting, and the names of non-leaf fields. |
| Scanner.RenameUnmatched | lib/builder/apollo-dynamic.factory.ts:85-95 | A selection list with no registered leaf name is left unchanged. |
| Scanner.RenameUnmatchedOf | lib/builder/apollo-dynamic.factory.ts:85-95 | The same holds for one selection. |
| Scanner.DefinitionsLeafNamesContain | lib/builder/apollo-dynamic.factory.ts:77-84 | The leaf names of each definition occur among those of the document. |
| Scanner.RenameDefinitionsFrame | lib/builder/apollo-dynamic.factory.ts:77-84 | Renaming the definitions depends only on the tokens of the entities that occur in them. |
| Scanner.RenamedDefinitionLeaves | lib/builder/apollo-dynamic.factory.ts:77-84 | The document's leaf names are renamed one by one. |
| Scanner.RenameSelectionsSnoc | lib/builder/apollo-dynamic.factory.ts:87-89 | Renaming one more selection of a list extends the renamed prefix by that selection renamed. |
| Scanner.RenameDefinitionsSnoc | lib/builder/apollo-dynamic.factory.ts:78-80 | Renaming one more definition extends the renamed prefix by that definition renamed. |
| Scanner.RenameNamesConcat | lib/builder/apollo-dynamic.factory.ts:91-93 | Renaming names distributes over concatenation. |
| Scanner.ScanStep | lib/builder/apollo-dynamic.factory.ts:87-89 | One more selection extends the dictionary by its own entities. Tokens of earlier entities do not change. |
| Scanner.ScanLeafStep | lib/builder/apollo-dynamic.factory.ts:91-93 | A leaf naming a registered entity seen for the first time is appended to the dictionary with the next id. Any other leaf leaves the dictionary as it was. |
| Scanner.ScanDefinitionStep | lib/builder/apollo-dynamic.factory.ts:78-80 | One more definition extends the dictionary by its own entities. Tokens of earlier entities do not change. |
| Scanner.ScanSelection | lib/builder/apollo-dynamic.factory.ts:85-95 | The scan of one selection adds its new registered leaf names to the dictionary, each with a fresh id. It returns the selection with each registered leaf renamed to its token. |
| Scanner.ScanSelections | lib/builder/apollo-dynamic.factory.ts:86-89 | The same holds for a selection list, walked depth-first and left to right. |
| Scanner.ScanDefinition | lib/builder/apollo-dynamic.factory.ts:81-84 | The same holds for a definition; a non-operation definition is left alone. |
| Scanner.ScanDocument | lib/builder/apollo-dynamic.factory.ts:76-97 | The same holds for a whole document, definition by definition. |
| Scanner.ScanCorrect | lib/builder/apollo-dynamic.factory.ts:76-97 | After a scan from an empty dictionary, the keys are exactly the registered leaf names. Every matched leaf, and only a matched leaf, carries its entity's token. The shape is kept. Tokens are distinct when ids are unique. A document with no matched leaf comes back unchanged with an empty dictionary. |
| Substitution.Assign | lib/builder/apollo-dynamic.factory.ts:112-123 | `Object.assign` of three layers has every key of any layer, with the value of the highest layer that has it. |
| Substitution.ConditionPrecedence | lib/builder/apollo-dynamic.factory.ts:106-108 | For conditions, entity-specific entries beat call-wide ones, which beat registry defaults. Without an entity entry, the merge is the defaults overridden by the call-wide set. |
| Substitution.RelationPrecedence | lib/builder/apollo-dynamic.factory.ts:103-105 | The same precedence holds for relations, entry by entry and shallowly. |
| Substitution.EveryOccurrenceReplaced | lib/builder/apollo-dynamic.factory.ts:125 | An entity's substitution step replaces every occurrence of its token with that entity's synthesized selection. |
| Substitution.SubstitutedStep | lib/builder/apollo-dynamic.factory.ts:102-126 | One more entity's step replaces its token, in the text so far, with that entity's synthesized selection. |
| Substitution.ReplaceSelectionFields | lib/builder/apollo-dynamic.factory.ts:99-129 | The result is the parse of the printed document with each recorded entity's token replaced in dictionary order. Each replacement is that entity's selection, synthesized from the merged relations and conditions. |
| Synthesizer.UnregisteredIsEmpty | lib/builder/apollo-dynamic.factory.ts:133 | A class without registered fields synthesizes to the empty selection. |
| Synthesizer.PredicateRules | lib/builder/apollo-dynamic.factory.ts:134-144 | An absent include holds and an absent skip does not. A missing condition reads as false. A true skip always excludes the field. |
| Synthesizer.ScalarField | lib/builder/apollo-dynamic.factory.ts:145 | A scalar field contributes its name exactly when it is emitted, whatever the relations. |
| Synthesizer.RelationalField | lib/builder/apollo-dynamic.factory.ts:146-150 | A relational field contributes exactly when it is emitted and requested. It then wraps the nested entity's selection, built from the nested relations and the same conditions, in `name{` … `}`. |
| Synthesizer.PiecesAppend | lib/builder/apollo-dynamic.factory.ts:133-152 | Fields contribute in registration order: a field appended last contributes last. |
| Synthesizer.ScalarsOnly | lib/builder/apollo-dynamic.factory.ts:133-152 | Without any requested relation, the pieces are exactly the emitted scalar names, in registration order. |
| Synthesizer.CreateEntityFields | lib/builder/apollo-dynamic.factory.ts:131-154 | The text returned is the class's synthesized selection: its field pieces, recursively, joined by newlines. |
| Select.UnmatchedDocumentIsReparsed | lib/builder/apollo-dynamic.factory.ts:56-72 | A document with no registered leaf field is only printed and parsed again. |
| Select.Expand | lib/builder/apollo-dynamic.factory.ts:56-62 | The expansion is the copy, scanned from an empty dictionary, then substituted with the given options (`{}` when absent) and re-parsed. |
| Select.Select | lib/builder/apollo-dynamic.factory.ts:16-74 | With the cache disabled, the store is cleared and the document expanded. On a hit, the stored text is re-parsed and the store is untouched. On a miss, the document is expanded; a successful result's printed text becomes the only entry under the document key. |
| Select.SelectTwice | lib/builder/apollo-dynamic.factory.ts:53-70 | With the cache enabled and the registry unchanged, a second identical call after a hit returns the same result. After a miss that was successful, with a non-empty printed result, the second call returns the stored text re-parsed instead of expanding again. |
| Select.StaleEntryMisses | lib/builder/apollo-dynamic.factory.ts:25-45 | An entry stored under one fingerprint of the options and registry is not served for a different fingerprint. |

## Left out

- Storage and its JSON encoding: the storage slot is a field holding the decoded cache map. Malformed stored JSON makes the code throw; that is not modelled.
- `print`, `parse` and `uuid` are not part of this model. They are parameters, as are the bodies of user `include`/`skip` functions. The cache fingerprint, built with `JSON.stringify` and `Function.prototype.toString`, is a parameter too.
- Console logging in `select` has no effect on the result and is left out.
- Decorator mechanics (the `target` object, `target.constructor.name`, evaluating the type function) are left out. Each decorator is a method taking the class name it resolves to.
- `lib/index.ts` (re-exports) is not part of this model.
- Aliases, arguments and directives of fields are not represented. They do not influence the scan, which looks only at field names.
- Scanner.ScanDocument: the source renames leaves in place in a fresh copy; the model returns the renamed copy as a value, so aliasing of nodes is not modelled.
- Keys inherited through the JavaScript prototype chain (`types["toString"]`, say) are not modelled: every map holds only its own keys.
- An entity whose public name is `relations` or `conditions` would make its entity-specific options collide with the call-wide keys. The model keeps the two apart.
- Condition values are reduced to their truthiness, and a `relations` value that is not an object to its truthiness.
- Substitution.EveryOccurrenceReplaced: the property is stated one entity at a time. It assumes a token occurs in the printed text only where it was placed, which holds for generated ids but is not modelled.
- Text.ReplaceAll: `String.prototype.replaceAll` expands the patterns `$$`, `$&`, `` $` `` and `$'` in a replacement string; the model inserts the replacement literally. A property name containing `$` (a `$$ref` field, say) therefore comes out differently in the source (`$ref`) than in the model (`$$ref`).
- Cyclic relations: relation values are finite trees. A relations object that contains itself, combined with a self-referencing entity, makes `createEntityFields` recurse until the stack overflows; the model cannot express such an input, and its termination argument relies on that.
- Symbol property keys: property keys are strings. A property decorated under a symbol key makes the string concatenation and the `join` in `createEntityFields` throw a TypeError; that case is not modelled.
