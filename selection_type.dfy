/** The class decorator that registers an entity type under its public name. */
module SelectionTypeDecorator {
  import opened Types
  import opened Factory

  /** The default options recorded for a registration: `options.default`, or `{}`. */
  function DefaultOf(options: Option<TypeOptions>): (d: SelectionOptions)
    ensures options.Some? && options.value.default.Some? ==> d == options.value.default.value
    ensures options.None? || options.value.default.None? ==> d == EmptyOptions
  {
    if options.Some? && options.value.default.Some? then options.value.default.value else EmptyOptions
  }

  /**
   * Registers the class `className` under `name`. A name registered before is
   * silently overwritten in both maps; entries for every other name are kept.
   */
  method SelectionType(f: ApolloDynamicFactory, name: string, className: string, options: Option<TypeOptions>)
    modifies f
    ensures f.types == old(f.types)[name := className]
    ensures f.defaults == old(f.defaults)[name := DefaultOf(options)]
    ensures f.selectionFields == old(f.selectionFields) && f.cache == old(f.cache)
  {
    f.types := f.types[name := className];
    f.defaults := f.defaults[name := DefaultOf(options)];
  }

  /** Registering twice under one name leaves exactly the second registration. */
  method RegisterTwice(f: ApolloDynamicFactory, name: string, first: string, second: string,
                       o1: Option<TypeOptions>, o2: Option<TypeOptions>)
    modifies f
    ensures f.types == old(f.types)[name := second]
    ensures f.defaults == old(f.defaults)[name := DefaultOf(o2)]
    ensures f.selectionFields == old(f.selectionFields) && f.cache == old(f.cache)
  {
    SelectionType(f, name, first, o1);
    SelectionType(f, name, second, o2);
  }
}
