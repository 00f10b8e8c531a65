/**
 * The entry point `select`: the expansion pipeline (copy, scan, substitute, re-parse)
 * behind an optional two-level cache kept in one persistent storage slot.
 */
module Select {
  import opened Types
  import opened Factory
  import opened GraphQL
  import opened Scanner
  import opened Substitution

  /** Cached texts: printed document -> (document + options + registry fingerprint) -> printed result. */
  type CacheMap = map<string, map<string, string>>

  /** The persistent storage slot that holds the cache (absent: nothing stored). */
  class CacheStore {
    var item: Option<CacheMap>

    constructor ()
      ensures item.None?
    {
      item := None;
    }
  }

  /** The expansion of a document without the cache, as a function of the registry and the collaborators. */
  function Expansion(reg: Registry, env: Env, document: Document, options: Option<SelectionOptions>): Parsed {
    match Parse(env, env.printer(document))
    case SyntaxError(text) => SyntaxError(text)
    case Parsed(copy) =>
      ScanCorrect(copy, reg.types, env.uuid);
      var (scanned, pm) := Scan(copy, reg.types, env.uuid);
      TokensOfKeys(pm.order, env.uuid);
      MatchedMembers(reg.types, DefinitionsLeafNames(copy.definitions));
      Parse(env, SubstitutedText(reg, env.printer(scanned), pm.order, pm.token, options.GetOr(EmptyOptions), env.evalFn))
  }

  /**
   * A document none of whose leaf fields names a registered entity is only printed
   * and parsed again: no token is generated and no text is substituted.
   */
  lemma UnmatchedDocumentIsReparsed(reg: Registry, env: Env, document: Document, options: Option<SelectionOptions>)
    requires env.parser(env.printer(document)).Some?
    requires forall n :: n in DefinitionsLeafNames(env.parser(env.printer(document)).value.definitions) ==> !Matches(reg.types, n)
    ensures Expansion(reg, env, document, options) == Parse(env, env.printer(env.parser(env.printer(document)).value))
  {
    var copy := env.parser(env.printer(document)).value;
    ScanCorrect(copy, reg.types, env.uuid);
  }

  /** The expansion pipeline of `select` (the branch taken on a cache miss). */
  method Expand(f: ApolloDynamicFactory, env: Env, document: Document, options: Option<SelectionOptions>) returns (r: Parsed)
    ensures r == Expansion(f.Snapshot(), env, document, options)
  {
    var copy := Parse(env, env.printer(document));
    if copy.SyntaxError? {
      return copy;
    }
    var empty := PlaceholderMap([], map[]);
    var scanned, selectionFields := ScanDocument(copy.doc, f.types, empty, env.uuid);
    ScanCorrect(copy.doc, f.types, env.uuid);
    TokensOfKeys(selectionFields.order, env.uuid);
    MatchedMembers(f.types, DefinitionsLeafNames(copy.doc.definitions));
    r := ReplaceSelectionFields(f, scanned, selectionFields, options.GetOr(EmptyOptions), env);
  }

  /** The outer cache key: the printed document. */
  function CacheKey(env: Env, document: Document): string {
    env.printer(document)
  }

  /** The inner cache key: the printed document followed by the fingerprint of the options and the whole registry. */
  function CacheContent(env: Env, document: Document, options: Option<SelectionOptions>, reg: Registry): string {
    CacheKey(env, document) + env.fingerprint(options, reg)
  }

  function Stored(item: Option<CacheMap>): CacheMap {
    item.GetOr(map[])
  }

  /** A cache hit: the entry exists and its text is truthy (not empty). */
  predicate Hit(cached: CacheMap, key: string, content: string) {
    key in cached && content in cached[key] && cached[key][content] != ""
  }

  /**
   * `select`. With the cache disabled, the stored cache is removed and the document is
   * expanded. With it enabled, a hit returns the stored text re-parsed, without
   * expanding and without touching the store; a miss expands the document and, when
   * that succeeds, stores the printed result as the only entry under the document key.
   */
  method Select(f: ApolloDynamicFactory, store: CacheStore, env: Env, document: Document, options: Option<SelectionOptions>)
    returns (r: Parsed)
    modifies store
    ensures !f.cache ==> store.item.None? && r == Expansion(f.Snapshot(), env, document, options)
    ensures f.cache ==>
      var key, content := CacheKey(env, document), CacheContent(env, document, options, f.Snapshot());
      var cached := Stored(old(store.item));
      if Hit(cached, key, content) then
        r == Parse(env, cached[key][content]) && store.item == old(store.item)
      else
        && r == Expansion(f.Snapshot(), env, document, options)
        && store.item == if r.Parsed? then Some(cached[key := map[content := env.printer(r.doc)]]) else old(store.item)
  {
    var cacheKey: string := "";
    var cacheContent: string := "";
    var cachedDocuments: CacheMap := map[];

    if f.cache {
      cacheKey := env.printer(document);
      cacheContent := cacheKey + env.fingerprint(options, f.Snapshot());
      cachedDocuments := if store.item.Some? then store.item.value else map[];
    } else {
      store.item := None;
    }

    if f.cache && cacheKey in cachedDocuments && cacheContent in cachedDocuments[cacheKey]
       && cachedDocuments[cacheKey][cacheContent] != "" {
      r := Parse(env, cachedDocuments[cacheKey][cacheContent]);
    } else {
      r := Expand(f, env, document, options);
      if f.cache && r.Parsed? {
        cachedDocuments := cachedDocuments[cacheKey := map[]];
        cachedDocuments := cachedDocuments[cacheKey := cachedDocuments[cacheKey][cacheContent := env.printer(r.doc)]];
        assert cachedDocuments == Stored(old(store.item))[cacheKey := map[cacheContent := env.printer(r.doc)]];
        store.item := Some(cachedDocuments);
      }
    }
  }

  /**
   * Two identical calls with the cache enabled and the registry unchanged: after a
   * successful miss whose printed result is not empty, the second call is served from
   * the cache (the stored text re-parsed, no second expansion); after a hit, both calls
   * return the same.
   */
  method SelectTwice(f: ApolloDynamicFactory, store: CacheStore, env: Env, document: Document, options: Option<SelectionOptions>)
    returns (r1: Parsed, r2: Parsed)
    requires f.cache
    modifies store
    ensures var key, content := CacheKey(env, document), CacheContent(env, document, options, f.Snapshot());
      Hit(Stored(old(store.item)), key, content) ==> r2 == r1
    ensures var key, content := CacheKey(env, document), CacheContent(env, document, options, f.Snapshot());
      !Hit(Stored(old(store.item)), key, content) && r1.Parsed? && env.printer(r1.doc) != "" ==>
        r2 == Parse(env, env.printer(r1.doc))
  {
    r1 := Select(f, store, env, document, options);
    r2 := Select(f, store, env, document, options);
  }

  /**
   * A stored entry is served only for its own fingerprint: when the options or the
   * registry give another fingerprint, a cache holding only the old entry misses.
   */
  lemma StaleEntryMisses(env: Env, document: Document, options: Option<SelectionOptions>, reg1: Registry, reg2: Registry, text: string)
    requires env.fingerprint(options, reg1) != env.fingerprint(options, reg2)
    ensures var key := CacheKey(env, document);
      !Hit(map[key := map[CacheContent(env, document, options, reg1) := text]], key, CacheContent(env, document, options, reg2))
  {
    var key := CacheKey(env, document);
    var c1, c2 := CacheContent(env, document, options, reg1), CacheContent(env, document, options, reg2);
    assert c1[|key|..] == env.fingerprint(options, reg1);
    assert c2[|key|..] == env.fingerprint(options, reg2);
  }
}
