/** The property decorator that appends a field descriptor to its class's field list. */
module SelectionFieldDecorator {
  import opened Types
  import opened Factory

  /** The decorator's first argument: a type function (kept as the class name it returns) or field options. */
  datatype FieldArg = TypeFunc(className: string) | Options(options: FieldOptions)

  predicate IsTypeFunc(first: Option<FieldArg>) {
    first.Some? && first.value.TypeFunc?
  }

  /**
   * Argument normalisation: a function first argument is the type reference and the
   * second argument the options; otherwise the field is scalar and the first argument
   * is the options (the second is ignored). Missing options become `{}`.
   */
  function NormaliseArgs(first: Option<FieldArg>, second: Option<FieldOptions>): (r: (Option<string>, FieldOptions))
    ensures r.0.Some? <==> IsTypeFunc(first)
    ensures IsTypeFunc(first) ==> r.0.value == first.value.className
    ensures IsTypeFunc(first) && second.Some? ==> r.1 == second.value
    ensures !IsTypeFunc(first) && first.Some? ==> r.1 == first.value.options
    ensures (IsTypeFunc(first) && second.None?) || first.None? ==> r.1 == NoFieldOptions
  {
    var (typeFunc, opt) :=
      if IsTypeFunc(first) then (Some(first.value.className), second)
      else (None, if first.Some? then Some(first.value.options) else None);
    (typeFunc, opt.GetOr(NoFieldOptions))
  }

  /** A scalar field's options never depend on the second argument. */
  lemma ScalarIgnoresSecond(first: Option<FieldArg>, s1: Option<FieldOptions>, s2: Option<FieldOptions>)
    requires !IsTypeFunc(first)
    ensures NormaliseArgs(first, s1) == NormaliseArgs(first, s2)
    ensures NormaliseArgs(first, s1).0 == None
  {
  }

  /** The descriptor stored for one decorated property. */
  function Descriptor(first: Option<FieldArg>, second: Option<FieldOptions>, propertyKey: string): (d: FieldDescriptor)
    ensures d.propertyKey == propertyKey
    ensures (d.typeFunction, d.options) == NormaliseArgs(first, second)
  {
    var (typeFunc, opt) := NormaliseArgs(first, second);
    FieldDescriptor(typeFunc, opt, propertyKey)
  }


  /**
   * Appends exactly one descriptor at the end of `className`'s list, creating the
   * list first when absent; every other class's list and the other maps are kept.
   */
  method SelectionField(f: ApolloDynamicFactory, className: string, propertyKey: string,
                        first: Option<FieldArg>, second: Option<FieldOptions>)
    modifies f
    ensures f.selectionFields ==
      old(f.selectionFields)[className := FieldList(old(f.selectionFields), className) + [Descriptor(first, second, propertyKey)]]
    ensures f.types == old(f.types) && f.defaults == old(f.defaults) && f.cache == old(f.cache)
  {
    var (typeFunc, opt) := NormaliseArgs(first, second);
    if className !in f.selectionFields {
      f.selectionFields := f.selectionFields[className := []];
    }
    f.selectionFields := f.selectionFields[className := f.selectionFields[className] + [FieldDescriptor(typeFunc, opt, propertyKey)]];
  }
}
