/**
 * The substitution engine (`replaceSelectionFields`): merges the three option levels
 * per entity, synthesizes the entity's selection, replaces every occurrence of its
 * token in the printed document, and re-parses the result.
 */
module Substitution {
  import opened Types
  import opened Text
  import opened Factory
  import opened GraphQL
  import opened Scanner
  import opened Synthesizer

  /** The own entries `Object.assign` copies from `relations || {}`: an object's entries, or none. */
  function OwnRelations(r: Option<Relations>): map<string, Relations> {
    if r.Some? && r.value.Obj? then r.value.entries else map[]
  }

  function OwnConditions(c: Option<Conditions>): Conditions {
    c.GetOr(map[])
  }

  /** `Object.assign({}, low, mid, high)`: a shallow key-by-key merge in which the last source wins. */
  function Assign<V>(low: map<string, V>, mid: map<string, V>, high: map<string, V>): (r: map<string, V>)
    ensures forall k :: k in r <==> k in low || k in mid || k in high
    ensures forall k :: k in high ==> r[k] == high[k]
    ensures forall k :: k in mid && k !in high ==> r[k] == mid[k]
    ensures forall k :: k in low && k !in mid && k !in high ==> r[k] == low[k]
  {
    low + mid + high
  }

  /** `selectionOptions[type] ? selectionOptions[type].relations : selectionOptions.relations` */
  function EntityRelations(options: SelectionOptions, selectionType: string): Option<Relations> {
    if selectionType in options.entities then options.entities[selectionType].relations else options.relations
  }

  function EntityConditions(options: SelectionOptions, selectionType: string): Option<Conditions> {
    if selectionType in options.entities then options.entities[selectionType].conditions else options.conditions
  }

  /** `ApolloDynamic.default[type]?.relations || {}` */
  function DefaultRelations(defaults: map<string, SelectionOptions>, selectionType: string): map<string, Relations> {
    if selectionType in defaults then OwnRelations(defaults[selectionType].relations) else map[]
  }

  function DefaultConditions(defaults: map<string, SelectionOptions>, selectionType: string): Conditions {
    if selectionType in defaults then OwnConditions(defaults[selectionType].conditions) else map[]
  }

  function MergedRelations(defaults: map<string, SelectionOptions>, options: SelectionOptions, selectionType: string): map<string, Relations> {
    Assign(DefaultRelations(defaults, selectionType), OwnRelations(options.relations),
           OwnRelations(EntityRelations(options, selectionType)))
  }

  function MergedConditions(defaults: map<string, SelectionOptions>, options: SelectionOptions, selectionType: string): Conditions {
    Assign(DefaultConditions(defaults, selectionType), OwnConditions(options.conditions),
           OwnConditions(EntityConditions(options, selectionType)))
  }

  /**
   * Merge precedence for one condition name: the entity-specific entry wins over the
   * call-wide one, which wins over the registry default; without an entity-specific
   * entry the merge is the default overridden by the call-wide set.
   */
  lemma ConditionPrecedence(defaults: map<string, SelectionOptions>, options: SelectionOptions, selectionType: string, k: string)
    ensures var merged := MergedConditions(defaults, options, selectionType);
      && (selectionType in options.entities && k in OwnConditions(options.entities[selectionType].conditions)
          ==> k in merged && merged[k] == options.entities[selectionType].conditions.value[k])
      && (selectionType !in options.entities && k in OwnConditions(options.conditions)
          ==> k in merged && merged[k] == options.conditions.value[k])
      && (selectionType !in options.entities ==>
            merged == DefaultConditions(defaults, selectionType) + OwnConditions(options.conditions))
      && (k !in OwnConditions(options.conditions) && k !in OwnConditions(EntityConditions(options, selectionType))
          && selectionType in defaults && k in OwnConditions(defaults[selectionType].conditions)
          ==> k in merged && merged[k] == defaults[selectionType].conditions.value[k])
  {
    var d, c := DefaultConditions(defaults, selectionType), OwnConditions(options.conditions);
    if selectionType !in options.entities {
      assert Assign(d, c, c) == d + c;
    }
  }

  /** The same precedence for relations, entry by entry (shallow: a nested relation value is taken whole). */
  lemma RelationPrecedence(defaults: map<string, SelectionOptions>, options: SelectionOptions, selectionType: string, k: string)
    ensures var merged := MergedRelations(defaults, options, selectionType);
      && (selectionType in options.entities && k in OwnRelations(options.entities[selectionType].relations)
          ==> k in merged && merged[k] == options.entities[selectionType].relations.value.entries[k])
      && (selectionType !in options.entities ==>
            merged == DefaultRelations(defaults, selectionType) + OwnRelations(options.relations))
      && (k !in OwnRelations(options.relations) && k !in OwnRelations(EntityRelations(options, selectionType))
          && selectionType in defaults && k in OwnRelations(defaults[selectionType].relations)
          ==> k in merged && merged[k] == defaults[selectionType].relations.value.entries[k])
  {
    var d, c := DefaultRelations(defaults, selectionType), OwnRelations(options.relations);
    if selectionType !in options.entities {
      assert Assign(d, c, c) == d + c;
    }
  }

  /** The selection text synthesized for one scanned entity. */
  function EntityTextFor(reg: Registry, selectionType: string, options: SelectionOptions, eval: Evaluator): string
    requires selectionType in reg.types
  {
    EntityText(reg.selectionFields, reg.types[selectionType],
               Obj(MergedRelations(reg.defaults, options, selectionType)),
               MergedConditions(reg.defaults, options, selectionType), eval)
  }

  /** The printed text after the tokens of `order[..]` have been replaced, one entity after the other. */
  function SubstitutedText(reg: Registry, text: string, order: seq<string>, token: map<string, string>,
                           options: SelectionOptions, eval: Evaluator): string
    requires forall k :: k in order ==> k in token && k in reg.types
    decreases |order|
  {
    if order == [] then text
    else
      var last := order[|order| - 1];
      ReplaceAll(SubstitutedText(reg, text, order[..|order| - 1], token, options, eval),
                 token[last], EntityTextFor(reg, last, options, eval))
  }

  /**
   * Each entity's step replaces every occurrence of its token: when the text before
   * that step is made of clean chunks separated by the token, the step yields the same
   * chunks separated by the entity's synthesized selection.
   */
  lemma EveryOccurrenceReplaced(reg: Registry, text: string, order: seq<string>, token: map<string, string>,
                                options: SelectionOptions, eval: Evaluator, chunks: seq<string>)
    requires forall k :: k in order ==> k in token && k in reg.types
    requires order != [] && token[order[|order| - 1]] != [] && |chunks| > 0
    requires forall i :: 0 <= i < |chunks| ==> Clean(chunks[i], token[order[|order| - 1]])
    requires SubstitutedText(reg, text, order[..|order| - 1], token, options, eval) == Join(chunks, token[order[|order| - 1]])
    ensures SubstitutedText(reg, text, order, token, options, eval)
            == Join(chunks, EntityTextFor(reg, order[|order| - 1], options, eval))
  {
    var last := order[|order| - 1];
    ReplaceJoined(chunks, token[last], EntityTextFor(reg, last, options, eval));
  }

  /** One more entity substituted: its token replaced in the text so far. */
  lemma SubstitutedStep(reg: Registry, text: string, order: seq<string>, i: nat, token: map<string, string>,
                        options: SelectionOptions, eval: Evaluator)
    requires forall k :: k in order ==> k in token && k in reg.types
    requires i < |order|
    ensures SubstitutedText(reg, text, order[..i + 1], token, options, eval)
            == ReplaceAll(SubstitutedText(reg, text, order[..i], token, options, eval),
                          token[order[i]], EntityTextFor(reg, order[i], options, eval))
  {
    assert order[..i + 1][..i] == order[..i];
  }

  /** `replaceSelectionFields`: substitute every scanned entity, in dictionary order, then re-parse. */
  method ReplaceSelectionFields(f: ApolloDynamicFactory, document: Document, selectionFields: PlaceholderMap,
                                options: SelectionOptions, env: Env) returns (r: Parsed)
    requires forall k :: k in selectionFields.order ==> k in selectionFields.token && k in f.types
    ensures r == Parse(env, SubstitutedText(f.Snapshot(), env.printer(document), selectionFields.order,
                                             selectionFields.token, options, env.evalFn))
  {
    var docStr := env.printer(document);
    var keys := selectionFields.order;
    ghost var reg := f.Snapshot();
    var i := 0;
    while i < |keys|
      invariant 0 <= i <= |keys|
      invariant docStr == SubstitutedText(reg, env.printer(document), keys[..i], selectionFields.token, options, env.evalFn)
    {
      var selectionType := keys[i];
      var entityRelations := EntityRelations(options, selectionType);
      var entityConditions := EntityConditions(options, selectionType);
      var relations := Assign(DefaultRelations(f.defaults, selectionType), OwnRelations(options.relations), OwnRelations(entityRelations));
      var conditions := Assign(DefaultConditions(f.defaults, selectionType), OwnConditions(options.conditions), OwnConditions(entityConditions));
      var entityStr := CreateEntityFields(f, f.types[selectionType], Obj(relations), conditions, env.evalFn);
      assert entityStr == EntityTextFor(reg, selectionType, options, env.evalFn);
      SubstitutedStep(reg, env.printer(document), keys, i, selectionFields.token, options, env.evalFn);
      docStr := ReplaceAll(docStr, selectionFields.token[selectionType], entityStr);
      i := i + 1;
    }
    assert keys[..i] == keys;
    r := Parse(env, docStr);
  }
}
