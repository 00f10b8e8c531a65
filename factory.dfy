/** The process-wide registry that the decorators fill and the expansion engine reads. */
module Factory {
  import opened Types

  class ApolloDynamicFactory {
    /** Class name -> the fields registered on that class, in registration order. */
    var selectionFields: map<string, seq<FieldDescriptor>>
    /** Public entity name -> class name. */
    var types: map<string, string>
    /** Public entity name -> default selection options. */
    var defaults: map<string, SelectionOptions>
    /** Whether `select` memoizes its results. */
    var cache: bool

    constructor ()
      ensures selectionFields == map[] && types == map[] && defaults == map[]
      ensures !cache
    {
      selectionFields := map[];
      types := map[];
      defaults := map[];
      cache := false;
    }

    /** The registry maps as one value, for the pure parts of the engine. */
    function Snapshot(): Registry
      reads this
    {
      Registry(types, defaults, selectionFields)
    }
  }
}
