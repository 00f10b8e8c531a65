/** Values shared by the registry, the decorators and the expansion engine. */
module Types {

  datatype Option<+T> = None | Some(value: T) {
    function GetOr(default: T): T {
      match this
      case Some(v) => v
      case None => default
    }
  }

  /** Identifier of a user-supplied predicate function; its body is not modelled. */
  type FnId = nat

  /** A condition set: every condition name mapped to the truthiness of its value. */
  type Conditions = map<string, bool>

  /** Applies the user predicate function `id` to a condition set. */
  type Evaluator = (FnId, Conditions) -> bool

  /** An `include` or `skip` predicate: a condition name to look up, or a function of the conditions. */
  datatype Predicate = Flag(name: string) | Fn(id: FnId)

  /** The options of one selection field (`FieldOptions`): its `include` and `skip` predicates. */
  datatype FieldOptions = FieldOptions(includeIf: Option<Predicate>, skipIf: Option<Predicate>)

  const NoFieldOptions := FieldOptions(None, None)

  /**
   * A registered field: the class name its type function returns (None for a scalar),
   * its options and its property name.
   */
  datatype FieldDescriptor = FieldDescriptor(typeFunction: Option<string>, options: FieldOptions, propertyKey: string)

  /**
   * A `relations` value: a plain object whose entries are relation values, or any
   * other (non-object) value, kept only as its truthiness.
   */
  datatype Relations = Obj(entries: map<string, Relations>) | Scalar(truthy: bool)

  predicate Truthy(r: Relations) {
    r.Obj? || r.truthy
  }

  /**
   * `SelectionOptions`: call-wide relations and conditions, and the entity-specific
   * entries found under an entity's public name.
   */
  datatype SelectionOptions = SelectionOptions(
    relations: Option<Relations>,
    conditions: Option<Conditions>,
    entities: map<string, SelectionOptions>)

  const EmptyOptions := SelectionOptions(None, None, map[])

  /** `TypeOptions` of the type decorator. */
  datatype TypeOptions = TypeOptions(default: Option<SelectionOptions>)

  /** The fields registered on a class, in registration order (none when it has no list). */
  function FieldList(selectionFields: map<string, seq<FieldDescriptor>>, className: string): seq<FieldDescriptor> {
    if className in selectionFields then selectionFields[className] else []
  }

  /** A snapshot of the three registry maps. */
  datatype Registry = Registry(
    types: map<string, string>,
    defaults: map<string, SelectionOptions>,
    selectionFields: map<string, seq<FieldDescriptor>>)
}
