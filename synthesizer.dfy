/**
 * The selection synthesizer (`createEntityFields`): the text of one entity's field
 * selection. Scalar fields are opt-out through their include/skip predicates;
 * relational fields are opt-in through the `relations` tree; one flat condition set
 * is consulted at every depth.
 */
module Synthesizer {
  import opened Types
  import opened Text
  import opened Factory

  /** `conditions[name]`: a missing condition reads as `undefined`, which is false. */
  function Lookup(conditions: Conditions, name: string): bool {
    name in conditions && conditions[name]
  }

  /**
   * The truth value of an include or skip predicate. A missing predicate, or a
   * condition name that is the (falsy) empty string, gives `absent`.
   */
  function Resolve(p: Option<Predicate>, absent: bool, conditions: Conditions, eval: Evaluator): bool {
    match p
    case None => absent
    case Some(Flag(name)) => if name == "" then absent else Lookup(conditions, name)
    case Some(Fn(id)) => eval(id, conditions)
  }

  /** A field is emitted when its include predicate holds and its skip predicate does not. */
  predicate Emitted(field: FieldDescriptor, conditions: Conditions, eval: Evaluator) {
    Resolve(field.options.includeIf, true, conditions, eval) && !Resolve(field.options.skipIf, false, conditions, eval)
  }

  /** The relations request `key`: they are an object holding a truthy entry under `key`. */
  predicate Requested(relations: Relations, key: string) {
    relations.Obj? && key in relations.entries && Truthy(relations.entries[key])
  }

  /** The text pieces one field contributes. */
  function FieldPieces(selectionFields: map<string, seq<FieldDescriptor>>, field: FieldDescriptor,
                       relations: Relations, conditions: Conditions, eval: Evaluator): seq<string>
    decreases relations, 0, 0
  {
    if !Emitted(field, conditions, eval) then []
    else if field.typeFunction.None? then [field.propertyKey]
    else if relations.Obj? && field.propertyKey in relations.entries && Truthy(relations.entries[field.propertyKey]) then
      [field.propertyKey + "{",
       EntityText(selectionFields, field.typeFunction.value, relations.entries[field.propertyKey], conditions, eval),
       "}"]
    else []
  }

  /** The pieces of a field list, field after field. */
  function FieldsPieces(selectionFields: map<string, seq<FieldDescriptor>>, fields: seq<FieldDescriptor>,
                        relations: Relations, conditions: Conditions, eval: Evaluator): seq<string>
    decreases relations, 1, |fields|
  {
    if fields == [] then []
    else FieldPieces(selectionFields, fields[0], relations, conditions, eval)
         + FieldsPieces(selectionFields, fields[1..], relations, conditions, eval)
  }

  /** The selection text of class `className`: its pieces joined by newlines. */
  function EntityText(selectionFields: map<string, seq<FieldDescriptor>>, className: string,
                      relations: Relations, conditions: Conditions, eval: Evaluator): string
    decreases relations, 2, 0
  {
    Join(FieldsPieces(selectionFields, FieldList(selectionFields, className), relations, conditions, eval), "\n")
  }

  /** A class with no registered field list synthesizes to the empty selection. */
  lemma UnregisteredIsEmpty(selectionFields: map<string, seq<FieldDescriptor>>, className: string,
                            relations: Relations, conditions: Conditions, eval: Evaluator)
    requires className !in selectionFields || selectionFields[className] == []
    ensures EntityText(selectionFields, className, relations, conditions, eval) == ""
  {
  }

  /**
   * How predicates decide emission: an absent include is true and an absent skip is
   * false, a missing condition reads as false, and a true skip always wins.
   */
  lemma PredicateRules(field: FieldDescriptor, conditions: Conditions, eval: Evaluator)
    ensures field.options == NoFieldOptions ==> Emitted(field, conditions, eval)
    ensures Resolve(field.options.skipIf, false, conditions, eval) ==> !Emitted(field, conditions, eval)
    ensures field.options.includeIf.Some? && field.options.includeIf.value.Flag? &&
            field.options.includeIf.value.name != "" && field.options.includeIf.value.name !in conditions
            ==> !Emitted(field, conditions, eval)
    ensures field.options.includeIf.None? && field.options.skipIf.Some? && field.options.skipIf.value.Flag? &&
            field.options.skipIf.value.name !in conditions
            ==> Emitted(field, conditions, eval)
    ensures field.options.skipIf.Some? && field.options.skipIf.value.Fn?
            ==> (eval(field.options.skipIf.value.id, conditions) ==> !Emitted(field, conditions, eval))
  {
  }

  /** A scalar field contributes its property name exactly when it is emitted, whatever the relations. */
  lemma ScalarField(selectionFields: map<string, seq<FieldDescriptor>>, field: FieldDescriptor,
                    relations: Relations, conditions: Conditions, eval: Evaluator)
    requires field.typeFunction.None?
    ensures FieldPieces(selectionFields, field, relations, conditions, eval) ==
            if Emitted(field, conditions, eval) then [field.propertyKey] else []
  {
  }

  /**
   * A relational field contributes something only when it is emitted and requested by
   * the relations; it then wraps the nested entity's text, synthesized from the nested
   * relations and the same conditions, in `name{` and `}`.
   */
  lemma RelationalField(selectionFields: map<string, seq<FieldDescriptor>>, field: FieldDescriptor,
                        relations: Relations, conditions: Conditions, eval: Evaluator)
    requires field.typeFunction.Some?
    ensures FieldPieces(selectionFields, field, relations, conditions, eval) != [] <==>
            Emitted(field, conditions, eval) && Requested(relations, field.propertyKey)
    ensures Emitted(field, conditions, eval) && Requested(relations, field.propertyKey) ==>
            FieldPieces(selectionFields, field, relations, conditions, eval) ==
            [field.propertyKey + "{",
             EntityText(selectionFields, field.typeFunction.value, relations.entries[field.propertyKey], conditions, eval),
             "}"]
  {
  }

  /** Fields are emitted in registration order: a field appended last contributes last. */
  lemma {:induction false} PiecesAppend(selectionFields: map<string, seq<FieldDescriptor>>, fields: seq<FieldDescriptor>,
                                        field: FieldDescriptor, relations: Relations, conditions: Conditions, eval: Evaluator)
    ensures FieldsPieces(selectionFields, fields + [field], relations, conditions, eval) ==
            FieldsPieces(selectionFields, fields, relations, conditions, eval)
            + FieldPieces(selectionFields, field, relations, conditions, eval)
    decreases |fields|
  {
    if fields == [] {
      assert [field][1..] == [];
    } else {
      assert (fields + [field])[1..] == fields[1..] + [field];
      PiecesAppend(selectionFields, fields[1..], field, relations, conditions, eval);
    }
  }

  /** The property names of the emitted scalar fields, in order. */
  function EmittedScalars(fields: seq<FieldDescriptor>, conditions: Conditions, eval: Evaluator): seq<string> {
    if fields == [] then []
    else (if fields[0].typeFunction.None? && Emitted(fields[0], conditions, eval) then [fields[0].propertyKey] else [])
         + EmittedScalars(fields[1..], conditions, eval)
  }

  /** No requested relation: the selection is exactly the emitted scalars, in registration order. */
  lemma {:induction false} ScalarsOnly(selectionFields: map<string, seq<FieldDescriptor>>, fields: seq<FieldDescriptor>,
                                       relations: Relations, conditions: Conditions, eval: Evaluator)
    requires forall f :: f in fields ==> !Requested(relations, f.propertyKey)
    ensures FieldsPieces(selectionFields, fields, relations, conditions, eval) == EmittedScalars(fields, conditions, eval)
    decreases |fields|
  {
    if fields != [] {
      assert fields[0] in fields;
      assert forall f :: f in fields[1..] ==> f in fields;
      ScalarsOnly(selectionFields, fields[1..], relations, conditions, eval);
    }
  }

  /** `createEntityFields`: walks the class's field list and recurses into requested relations. */
  method CreateEntityFields(f: ApolloDynamicFactory, selectionType: string, relations: Relations,
                            conditions: Conditions, eval: Evaluator) returns (s: string)
    ensures s == EntityText(f.selectionFields, selectionType, relations, conditions, eval)
    decreases relations
  {
    var fields := FieldList(f.selectionFields, selectionType);
    var fieldsStr: seq<string> := [];
    var i := 0;
    while i < |fields|
      invariant 0 <= i <= |fields|
      invariant fieldsStr == FieldsPieces(f.selectionFields, fields[..i], relations, conditions, eval)
    {
      var field := fields[i];
      var included := Resolve(field.options.includeIf, true, conditions, eval);
      var skipped := Resolve(field.options.skipIf, false, conditions, eval);
      if included && !skipped {
        if field.typeFunction.None? {
          fieldsStr := fieldsStr + [field.propertyKey];
        } else if relations.Obj? && field.propertyKey in relations.entries && Truthy(relations.entries[field.propertyKey]) {
          var nested := CreateEntityFields(f, field.typeFunction.value, relations.entries[field.propertyKey], conditions, eval);
          fieldsStr := fieldsStr + [field.propertyKey + "{", nested, "}"];
        }
      }
      PiecesAppend(f.selectionFields, fields[..i], field, relations, conditions, eval);
      assert fields[..i + 1] == fields[..i] + [field];
      i := i + 1;
    }
    assert fields[..i] == fields;
    s := Join(fieldsStr, "\n");
  }
}
