/**
 * The placeholder scanner (`scanSelectionFields`): a depth-first walk that renames
 * every leaf field whose name is a registered entity to that entity's token, one
 * token per entity, and records the entity -> token dictionary.
 */
module Scanner {
  import opened Types
  import opened GraphQL

  /** `types[name]` is truthy: registered, with a non-empty class name. */
  predicate Matches(types: map<string, string>, name: string) {
    name in types && types[name] != ""
  }

  predicate Distinct(s: seq<string>) {
    forall i, j :: 0 <= i < j < |s| ==> s[i] != s[j]
  }

  /**
   * The entity -> token dictionary, with its keys in insertion order (the order in
   * which `Object.keys` lists them).
   */
  datatype PlaceholderMap = PlaceholderMap(order: seq<string>, token: map<string, string>)

  /** The token map of a key order: the i-th key gets the i-th generated id. */
  function TokensOf(order: seq<string>, uuid: nat -> string): map<string, string>
    decreases |order|
  {
    if order == [] then map[]
    else TokensOf(order[..|order| - 1], uuid)[order[|order| - 1] := uuid(|order| - 1)]
  }

  function Placeholders(order: seq<string>, uuid: nat -> string): PlaceholderMap {
    PlaceholderMap(order, TokensOf(order, uuid))
  }

  /** Every key inserted once, and its token generated when it was inserted. */
  predicate WellFormed(pm: PlaceholderMap, uuid: nat -> string) {
    Distinct(pm.order) && pm == Placeholders(pm.order, uuid)
  }

  /** `order` extended by the names it lacks, each at its first occurrence. */
  function AppendNew(order: seq<string>, names: seq<string>): seq<string>
    decreases |names|
  {
    if names == [] then order
    else
      var prev := AppendNew(order, names[..|names| - 1]);
      if names[|names| - 1] in prev then prev else prev + [names[|names| - 1]]
  }

  /** The names that match a registered entity, in order. */
  function Matched(types: map<string, string>, names: seq<string>): seq<string>
    decreases |names|
  {
    if names == [] then []
    else Matched(types, names[..|names| - 1])
         + (if Matches(types, names[|names| - 1]) then [names[|names| - 1]] else [])
  }

  // ---- The names of the leaf fields, in depth-first order ----

  function LeafNamesOf(s: Selection): seq<string>
    decreases s
  {
    match s
    case LeafField(name) => [name]
    case Field(_, children) => LeafNames(children)
    case OtherSelection(_) => []
  }

  function LeafNames(sels: seq<Selection>): seq<string>
    decreases sels
  {
    if sels == [] then [] else LeafNames(sels[..|sels| - 1]) + LeafNamesOf(sels[|sels| - 1])
  }

  function DefinitionLeafNames(d: Definition): seq<string> {
    match d
    case OperationDefinition(sels) => LeafNames(sels)
    case OtherDefinition(_) => []
  }

  function DefinitionsLeafNames(defs: seq<Definition>): seq<string>
    decreases |defs|
  {
    if defs == [] then []
    else DefinitionsLeafNames(defs[..|defs| - 1]) + DefinitionLeafNames(defs[|defs| - 1])
  }

  // ---- The tree after renaming, given the final token map ----

  function RenameSelection(s: Selection, types: map<string, string>, token: map<string, string>): Selection
    decreases s
  {
    match s
    case LeafField(name) => if Matches(types, name) && name in token then LeafField(token[name]) else s
    case Field(name, children) => Field(name, RenameSelections(children, types, token))
    case OtherSelection(_) => s
  }

  function RenameSelections(sels: seq<Selection>, types: map<string, string>, token: map<string, string>): seq<Selection>
    decreases sels
  {
    seq(|sels|, i requires 0 <= i < |sels| => RenameSelection(sels[i], types, token))
  }

  function RenameDefinition(d: Definition, types: map<string, string>, token: map<string, string>): Definition {
    match d
    case OperationDefinition(sels) => OperationDefinition(RenameSelections(sels, types, token))
    case OtherDefinition(_) => d
  }

  function RenameDefinitions(defs: seq<Definition>, types: map<string, string>, token: map<string, string>): seq<Definition> {
    seq(|defs|, i requires 0 <= i < |defs| => RenameDefinition(defs[i], types, token))
  }

  /** The whole scan as a function of the document: the renamed document and its placeholder map. */
  function Scan(doc: Document, types: map<string, string>, uuid: nat -> string): (Document, PlaceholderMap) {
    var pm := Placeholders(AppendNew([], Matched(types, DefinitionsLeafNames(doc.definitions))), uuid);
    (Document(RenameDefinitions(doc.definitions, types, pm.token)), pm)
  }

  // ---- Lemmas about the dictionary ----

  lemma {:induction false} TokensOfKeys(order: seq<string>, uuid: nat -> string)
    ensures forall n :: n in TokensOf(order, uuid) <==> n in order
    decreases |order|
  {
    if order != [] {
      TokensOfKeys(order[..|order| - 1], uuid);
      assert order == order[..|order| - 1] + [order[|order| - 1]];
    }
  }

  /** In a key order without repeats, the i-th key's token is the i-th id. */
  lemma {:induction false} TokensOfAt(order: seq<string>, uuid: nat -> string, i: nat)
    requires Distinct(order) && i < |order|
    ensures order[i] in TokensOf(order, uuid) && TokensOf(order, uuid)[order[i]] == uuid(i)
    decreases |order|
  {
    if i < |order| - 1 {
      TokensOfAt(order[..|order| - 1], uuid, i);
    }
  }

  /** Distinct entities receive distinct tokens when the ids are unique. */
  lemma TokensDistinct(pm: PlaceholderMap, uuid: nat -> string)
    requires WellFormed(pm, uuid) && UniqueIds(uuid)
    ensures forall a, b :: a in pm.token && b in pm.token && a != b ==> pm.token[a] != pm.token[b]
  {
    TokensOfKeys(pm.order, uuid);
    forall a, b | a in pm.token && b in pm.token && a != b ensures pm.token[a] != pm.token[b] {
      var i :| 0 <= i < |pm.order| && pm.order[i] == a;
      var j :| 0 <= j < |pm.order| && pm.order[j] == b;
      TokensOfAt(pm.order, uuid, i);
      TokensOfAt(pm.order, uuid, j);
    }
  }

  /** Extending a key order keeps the tokens of the keys already present. */
  lemma TokensExtend(o1: seq<string>, o2: seq<string>, uuid: nat -> string)
    requires Distinct(o2) && |o1| <= |o2| && o2[..|o1|] == o1
    ensures forall n :: n in o1 ==>
              n in TokensOf(o1, uuid) && n in TokensOf(o2, uuid) && TokensOf(o2, uuid)[n] == TokensOf(o1, uuid)[n]
  {
    forall n | n in o1
      ensures n in TokensOf(o1, uuid) && n in TokensOf(o2, uuid) && TokensOf(o2, uuid)[n] == TokensOf(o1, uuid)[n]
    {
      var i :| 0 <= i < |o1| && o1[i] == n;
      assert o2[i] == n;
      TokensOfAt(o1, uuid, i);
      TokensOfAt(o2, uuid, i);
    }
  }

  /** `AppendNew` keeps the old order as a prefix, adds exactly the new names, and never repeats one. */
  lemma {:induction false} AppendNewProps(order: seq<string>, names: seq<string>)
    requires Distinct(order)
    ensures var r := AppendNew(order, names);
      && |order| <= |r| && r[..|order|] == order
      && Distinct(r)
      && forall n :: n in r <==> n in order || n in names
    decreases |names|
  {
    if names != [] {
      var init := names[..|names| - 1];
      AppendNewProps(order, init);
      assert names == init + [names[|names| - 1]];
    }
  }

  /**
   * The names `AppendNew` adds come in order of first occurrence: an added name stands
   * before another only when it occurs in `names` before every occurrence of the other.
   */
  lemma {:induction false} AppendNewOrder(order: seq<string>, names: seq<string>)
    requires Distinct(order)
    ensures var r := AppendNew(order, names);
      forall i, j, k :: |order| <= i < j < |r| && 0 <= k < |names| && names[k] == r[j] ==> r[i] in names[..k]
    decreases |names|
  {
    if names != [] {
      var n := |names| - 1;
      var init, last := names[..n], names[n];
      var prev := AppendNew(order, init);
      var r := AppendNew(order, names);
      AppendNewOrder(order, init);
      AppendNewProps(order, init);
      forall i, j, k | |order| <= i < j < |r| && 0 <= k < |names| && names[k] == r[j]
        ensures r[i] in names[..k]
      {
        assert prev[..|order|] == order;
        assert r[i] == prev[i] && r[i] !in order by {
          assert forall a, b :: 0 <= a < b < |prev| ==> prev[a] != prev[b];
        }
        if k < n {
          assert init[..k] == names[..k];
          assert names[k] == init[k];
          assert r[j] in prev;
          assert r[j] == prev[j];
        } else {
          assert names[..k] == init;
        }
      }
    }
  }

  lemma {:induction false} AppendNewConcat(order: seq<string>, a: seq<string>, b: seq<string>)
    ensures AppendNew(order, a + b) == AppendNew(AppendNew(order, a), b)
    decreases |b|
  {
    if b == [] {
      assert a + b == a;
    } else {
      assert (a + b)[..|a + b| - 1] == a + b[..|b| - 1];
      AppendNewConcat(order, a, b[..|b| - 1]);
    }
  }

  lemma {:induction false} MatchedConcat(types: map<string, string>, a: seq<string>, b: seq<string>)
    ensures Matched(types, a + b) == Matched(types, a) + Matched(types, b)
    decreases |b|
  {
    if b == [] {
      assert a + b == a;
    } else {
      assert (a + b)[..|a + b| - 1] == a + b[..|b| - 1];
      MatchedConcat(types, a, b[..|b| - 1]);
    }
  }

  lemma {:induction false} MatchedMembers(types: map<string, string>, names: seq<string>)
    ensures forall n :: n in Matched(types, names) <==> n in names && Matches(types, n)
    decreases |names|
  {
    if names != [] {
      MatchedMembers(types, names[..|names| - 1]);
      assert names == names[..|names| - 1] + [names[|names| - 1]];
    }
  }

  // ---- Lemmas about renaming ----

  /** Two token maps that agree on the given names. */
  predicate Agree(t1: map<string, string>, t2: map<string, string>, names: seq<string>) {
    forall n :: n in names ==> n in t1 && n in t2 && t1[n] == t2[n]
  }

  /** Renaming depends only on the tokens of the matched leaf names. */
  lemma {:induction false} RenameFrame(s: Selection, types: map<string, string>, t1: map<string, string>, t2: map<string, string>)
    requires Agree(t1, t2, Matched(types, LeafNamesOf(s)))
    ensures RenameSelection(s, types, t1) == RenameSelection(s, types, t2)
    decreases s
  {
    match s
    case LeafField(name) =>
      MatchedMembers(types, [name]);
    case Field(name, children) =>
      RenameFrames(children, types, t1, t2);
    case OtherSelection(_) =>
  }

  lemma {:induction false} RenameFrames(sels: seq<Selection>, types: map<string, string>, t1: map<string, string>, t2: map<string, string>)
    requires Agree(t1, t2, Matched(types, LeafNames(sels)))
    ensures RenameSelections(sels, types, t1) == RenameSelections(sels, types, t2)
    decreases sels
  {
    forall i | 0 <= i < |sels| ensures RenameSelection(sels[i], types, t1) == RenameSelection(sels[i], types, t2) {
      LeafNamesContain(sels, i);
      MatchedMembers(types, LeafNames(sels));
      MatchedMembers(types, LeafNamesOf(sels[i]));
      RenameFrame(sels[i], types, t1, t2);
    }
  }

  /** The leaves of one selection are among the leaves of a list that contains it. */
  lemma {:induction false} LeafNamesContain(sels: seq<Selection>, i: nat)
    requires i < |sels|
    ensures forall n :: n in LeafNamesOf(sels[i]) ==> n in LeafNames(sels)
    decreases |sels|
  {
    if i < |sels| - 1 {
      LeafNamesContain(sels[..|sels| - 1], i);
    }
  }

  lemma LeafNamesStep(sels: seq<Selection>, i: nat)
    requires i < |sels|
    ensures LeafNames(sels[..i + 1]) == LeafNames(sels[..i]) + LeafNamesOf(sels[i])
  {
    assert sels[..i + 1][..i] == sels[..i];
  }

  /** The leaf names after renaming: each matched leaf name replaced by its entity's token. */
  function RenameNames(names: seq<string>, types: map<string, string>, token: map<string, string>): seq<string> {
    seq(|names|, i requires 0 <= i < |names| =>
      if Matches(types, names[i]) && names[i] in token then token[names[i]] else names[i])
  }

  /**
   * Renaming rewrites exactly the matched leaves, in place: a leaf is renamed iff its
   * name is a registered entity (with a token), and every leaf of one entity gets
   * that entity's single token.
   */
  lemma {:induction false} RenamedLeaves(sels: seq<Selection>, types: map<string, string>, token: map<string, string>)
    ensures LeafNames(RenameSelections(sels, types, token)) == RenameNames(LeafNames(sels), types, token)
    decreases sels
  {
    if sels != [] {
      var k := |sels| - 1;
      var r := RenameSelections(sels, types, token);
      assert r[..k] == RenameSelections(sels[..k], types, token);
      RenamedLeaves(sels[..k], types, token);
      RenamedLeavesOf(sels[k], types, token);
      RenameNamesConcat(LeafNames(sels[..k]), LeafNamesOf(sels[k]), types, token);
    }
  }

  lemma {:induction false} RenamedLeavesOf(s: Selection, types: map<string, string>, token: map<string, string>)
    ensures LeafNamesOf(RenameSelection(s, types, token)) == RenameNames(LeafNamesOf(s), types, token)
    decreases s
  {
    match s
    case LeafField(name) =>
    case Field(name, children) =>
      RenamedLeaves(children, types, token);
    case OtherSelection(_) =>
  }

  /** Same tree shape: the same nodes with the same names, except that leaf field names may differ. */
  predicate SameShape(a: Selection, b: Selection)
    decreases a
  {
    match a
    case LeafField(_) => b.LeafField?
    case Field(name, children) =>
      b.Field? && b.name == name && |b.selections| == |children|
      && forall i :: 0 <= i < |children| ==> SameShape(children[i], b.selections[i])
    case OtherSelection(_) => b == a
  }

  /** A field with a sub-selection is never renamed; only leaf names can change. */
  lemma {:induction false} RenameKeepsShape(s: Selection, types: map<string, string>, token: map<string, string>)
    ensures SameShape(s, RenameSelection(s, types, token))
    decreases s
  {
    match s
    case LeafField(name) =>
    case Field(name, children) =>
      forall i | 0 <= i < |children| ensures SameShape(children[i], RenameSelections(children, types, token)[i]) {
        RenameKeepsShape(children[i], types, token);
      }
    case OtherSelection(_) =>
  }

  /** With no matched leaf, renaming leaves the selections unchanged. */
  lemma {:induction false} RenameUnmatched(sels: seq<Selection>, types: map<string, string>, token: map<string, string>)
    requires forall n :: n in LeafNames(sels) ==> !Matches(types, n)
    ensures RenameSelections(sels, types, token) == sels
    decreases sels
  {
    forall i | 0 <= i < |sels| ensures RenameSelection(sels[i], types, token) == sels[i] {
      LeafNamesContain(sels, i);
      RenameUnmatchedOf(sels[i], types, token);
    }
  }

  lemma {:induction false} RenameUnmatchedOf(s: Selection, types: map<string, string>, token: map<string, string>)
    requires forall n :: n in LeafNamesOf(s) ==> !Matches(types, n)
    ensures RenameSelection(s, types, token) == s
    decreases s
  {
    match s
    case LeafField(name) =>
      assert name in LeafNamesOf(s);
    case Field(name, children) =>
      RenameUnmatched(children, types, token);
    case OtherSelection(_) =>
  }

  // ---- Definitions and documents ----

  lemma {:induction false} DefinitionsLeafNamesContain(defs: seq<Definition>, i: nat)
    requires i < |defs|
    ensures forall n :: n in DefinitionLeafNames(defs[i]) ==> n in DefinitionsLeafNames(defs)
    decreases |defs|
  {
    if i < |defs| - 1 {
      DefinitionsLeafNamesContain(defs[..|defs| - 1], i);
    }
  }

  lemma RenameDefinitionsFrame(defs: seq<Definition>, types: map<string, string>, t1: map<string, string>, t2: map<string, string>)
    requires Agree(t1, t2, Matched(types, DefinitionsLeafNames(defs)))
    ensures RenameDefinitions(defs, types, t1) == RenameDefinitions(defs, types, t2)
  {
    forall i | 0 <= i < |defs| ensures RenameDefinition(defs[i], types, t1) == RenameDefinition(defs[i], types, t2) {
      DefinitionsLeafNamesContain(defs, i);
      MatchedMembers(types, DefinitionsLeafNames(defs));
      MatchedMembers(types, DefinitionLeafNames(defs[i]));
      if defs[i].OperationDefinition? {
        RenameFrames(defs[i].selections, types, t1, t2);
      }
    }
  }

  lemma {:induction false} RenamedDefinitionLeaves(defs: seq<Definition>, types: map<string, string>, token: map<string, string>)
    ensures DefinitionsLeafNames(RenameDefinitions(defs, types, token)) == RenameNames(DefinitionsLeafNames(defs), types, token)
    decreases |defs|
  {
    if defs != [] {
      var k := |defs| - 1;
      var r := RenameDefinitions(defs, types, token);
      assert r[..k] == RenameDefinitions(defs[..k], types, token);
      assert r[k] == RenameDefinition(defs[k], types, token);
      assert DefinitionsLeafNames(r) == DefinitionsLeafNames(r[..k]) + DefinitionLeafNames(r[k]);
      RenamedDefinitionLeaves(defs[..k], types, token);
      if defs[k].OperationDefinition? {
        RenamedLeaves(defs[k].selections, types, token);
      }
      assert DefinitionLeafNames(r[k]) == RenameNames(DefinitionLeafNames(defs[k]), types, token);
      RenameNamesConcat(DefinitionsLeafNames(defs[..k]), DefinitionLeafNames(defs[k]), types, token);
    }
  }

  /** Same document shape: definitions and selections match one for one, only leaf names may differ. */
  predicate SameDocumentShape(a: Document, b: Document) {
    |a.definitions| == |b.definitions|
    && forall i :: 0 <= i < |a.definitions| ==>
         match a.definitions[i]
         case OperationDefinition(sels) =>
           b.definitions[i].OperationDefinition? && |b.definitions[i].selections| == |sels|
           && forall k :: 0 <= k < |sels| ==> SameShape(sels[k], b.definitions[i].selections[k])
         case OtherDefinition(_) => b.definitions[i] == a.definitions[i]
  }

  // ---- The scan itself ----

  lemma RenameSelectionsSnoc(sels: seq<Selection>, i: nat, types: map<string, string>, token: map<string, string>)
    requires i < |sels|
    ensures RenameSelections(sels[..i + 1], types, token) == RenameSelections(sels[..i], types, token) + [RenameSelection(sels[i], types, token)]
  {
  }

  lemma RenameDefinitionsSnoc(defs: seq<Definition>, i: nat, types: map<string, string>, token: map<string, string>)
    requires i < |defs|
    ensures RenameDefinitions(defs[..i + 1], types, token) == RenameDefinitions(defs[..i], types, token) + [RenameDefinition(defs[i], types, token)]
  {
  }

  lemma RenameNamesConcat(a: seq<string>, b: seq<string>, types: map<string, string>, token: map<string, string>)
    ensures RenameNames(a + b, types, token) == RenameNames(a, types, token) + RenameNames(b, types, token)
  {
  }

  /** One step of the walk over a list: the dictionary and the renamed prefix after selection `i`. */
  lemma ScanStep(sels: seq<Selection>, i: nat, types: map<string, string>,
                 pm0: PlaceholderMap, pm: PlaceholderMap, pm1: PlaceholderMap, uuid: nat -> string)
    requires i < |sels| && WellFormed(pm0, uuid) && WellFormed(pm, uuid) && WellFormed(pm1, uuid)
    requires pm == Placeholders(AppendNew(pm0.order, Matched(types, LeafNames(sels[..i]))), uuid)
    requires pm1 == Placeholders(AppendNew(pm.order, Matched(types, LeafNamesOf(sels[i]))), uuid)
    ensures pm1 == Placeholders(AppendNew(pm0.order, Matched(types, LeafNames(sels[..i + 1]))), uuid)
    ensures RenameSelections(sels[..i], types, pm.token) == RenameSelections(sels[..i], types, pm1.token)
  {
    LeafNamesStep(sels, i);
    MatchedConcat(types, LeafNames(sels[..i]), LeafNamesOf(sels[i]));
    AppendNewConcat(pm0.order, Matched(types, LeafNames(sels[..i])), Matched(types, LeafNamesOf(sels[i])));
    AppendNewProps(pm0.order, Matched(types, LeafNames(sels[..i])));
    AppendNewProps(pm.order, Matched(types, LeafNamesOf(sels[i])));
    TokensExtend(pm.order, pm1.order, uuid);
    RenameFrames(sels[..i], types, pm.token, pm1.token);
  }

  /**
   * The dictionary after one leaf: unchanged unless the leaf names a registered entity
   * seen for the first time, which is then appended with the next generated id.
   */
  lemma ScanLeafStep(name: string, types: map<string, string>, pm: PlaceholderMap, uuid: nat -> string)
    requires WellFormed(pm, uuid)
    ensures var pm' := Placeholders(AppendNew(pm.order, Matched(types, [name])), uuid);
      && WellFormed(pm', uuid)
      && (Matches(types, name) && name !in pm.token ==>
            pm' == PlaceholderMap(pm.order + [name], pm.token[name := uuid(|pm.order|)]))
      && (Matches(types, name) && name in pm.token ==> pm' == pm)
      && (!Matches(types, name) ==> pm' == pm)
  {
    var names := Matched(types, [name]);
    var o := AppendNew(pm.order, names);
    assert [name][..0] == [];
    assert names == Matched(types, []) + (if Matches(types, name) then [name] else []);
    assert o == if names == [] then pm.order else AppendNew(pm.order, []) + (if name in pm.order then [] else [name]);
    TokensOfKeys(pm.order, uuid);
    if Matches(types, name) {
      assert names == [name];
      if name in pm.order {
        assert o == pm.order;
      } else {
        assert o == pm.order + [name];
        DistinctSnoc(pm.order, name);
        assert o[..|o| - 1] == pm.order;
        assert TokensOf(o, uuid) == pm.token[name := uuid(|pm.order|)];
      }
    } else {
      assert names == [];
    }
  }

  lemma DistinctSnoc(order: seq<string>, x: string)
    requires Distinct(order) && x !in order
    ensures Distinct(order + [x])
  {
  }

  /** One step of the walk over the definitions: the dictionary and the renamed prefix after definition `i`. */
  lemma ScanDefinitionStep(defs: seq<Definition>, i: nat, types: map<string, string>,
                           pm0: PlaceholderMap, pm: PlaceholderMap, pm1: PlaceholderMap, uuid: nat -> string)
    requires i < |defs| && WellFormed(pm0, uuid) && WellFormed(pm, uuid) && WellFormed(pm1, uuid)
    requires pm == Placeholders(AppendNew(pm0.order, Matched(types, DefinitionsLeafNames(defs[..i]))), uuid)
    requires pm1 == Placeholders(AppendNew(pm.order, Matched(types, DefinitionLeafNames(defs[i]))), uuid)
    ensures pm1 == Placeholders(AppendNew(pm0.order, Matched(types, DefinitionsLeafNames(defs[..i + 1]))), uuid)
    ensures RenameDefinitions(defs[..i], types, pm.token) == RenameDefinitions(defs[..i], types, pm1.token)
  {
    assert defs[..i + 1][..i] == defs[..i];
    MatchedConcat(types, DefinitionsLeafNames(defs[..i]), DefinitionLeafNames(defs[i]));
    AppendNewConcat(pm0.order, Matched(types, DefinitionsLeafNames(defs[..i])), Matched(types, DefinitionLeafNames(defs[i])));
    AppendNewProps(pm0.order, Matched(types, DefinitionsLeafNames(defs[..i])));
    AppendNewProps(pm.order, Matched(types, DefinitionLeafNames(defs[i])));
    TokensExtend(pm.order, pm1.order, uuid);
    RenameDefinitionsFrame(defs[..i], types, pm.token, pm1.token);
  }

  /** `scanSelectionFields` on one selection: a leaf is renamed, a field with a selection set is descended into. */
  method ScanSelection(s: Selection, types: map<string, string>, pm: PlaceholderMap, uuid: nat -> string)
    returns (s': Selection, pm': PlaceholderMap)
    requires WellFormed(pm, uuid)
    ensures pm' == Placeholders(AppendNew(pm.order, Matched(types, LeafNamesOf(s))), uuid)
    ensures WellFormed(pm', uuid)
    ensures s' == RenameSelection(s, types, pm'.token)
    decreases s
  {
    match s
    case LeafField(name) =>
      ScanLeafStep(name, types, pm, uuid);
      if Matches(types, name) {
        if name !in pm.token {
          pm' := PlaceholderMap(pm.order + [name], pm.token[name := uuid(|pm.order|)]);
        } else {
          pm' := pm;
        }
        s' := LeafField(pm'.token[name]);
      } else {
        s', pm' := s, pm;
      }
    case Field(name, children) =>
      var children', pm1 := ScanSelections(children, types, pm, uuid);
      s', pm' := Field(name, children'), pm1;
    case OtherSelection(_) =>
      s', pm' := s, pm;
  }

  /** `scanSelectionFields` over a selection list, in order. */
  method ScanSelections(sels: seq<Selection>, types: map<string, string>, pm: PlaceholderMap, uuid: nat -> string)
    returns (sels': seq<Selection>, pm': PlaceholderMap)
    requires WellFormed(pm, uuid)
    ensures pm' == Placeholders(AppendNew(pm.order, Matched(types, LeafNames(sels))), uuid)
    ensures WellFormed(pm', uuid)
    ensures sels' == RenameSelections(sels, types, pm'.token)
    decreases sels
  {
    sels' := [];
    pm' := pm;
    var i := 0;
    while i < |sels|
      invariant 0 <= i <= |sels|
      invariant pm' == Placeholders(AppendNew(pm.order, Matched(types, LeafNames(sels[..i]))), uuid)
      invariant WellFormed(pm', uuid)
      invariant sels' == RenameSelections(sels[..i], types, pm'.token)
    {
      var s', pm1 := ScanSelection(sels[i], types, pm', uuid);
      ScanStep(sels, i, types, pm, pm', pm1, uuid);
      RenameSelectionsSnoc(sels, i, types, pm1.token);
      sels' := sels' + [s'];
      pm' := pm1;
      i := i + 1;
    }
    assert sels[..i] == sels;
  }

  /** `scanSelectionFields` on a definition: an operation's selections are scanned, anything else is left alone. */
  method ScanDefinition(d: Definition, types: map<string, string>, pm: PlaceholderMap, uuid: nat -> string)
    returns (d': Definition, pm': PlaceholderMap)
    requires WellFormed(pm, uuid)
    ensures pm' == Placeholders(AppendNew(pm.order, Matched(types, DefinitionLeafNames(d))), uuid)
    ensures WellFormed(pm', uuid)
    ensures d' == RenameDefinition(d, types, pm'.token)
  {
    match d
    case OperationDefinition(sels) =>
      var sels', pm1 := ScanSelections(sels, types, pm, uuid);
      d', pm' := OperationDefinition(sels'), pm1;
    case OtherDefinition(_) =>
      d', pm' := d, pm;
  }

  /** `scanSelectionFields` on the document: every definition in order. */
  method ScanDocument(doc: Document, types: map<string, string>, pm: PlaceholderMap, uuid: nat -> string)
    returns (doc': Document, pm': PlaceholderMap)
    requires WellFormed(pm, uuid)
    ensures pm' == Placeholders(AppendNew(pm.order, Matched(types, DefinitionsLeafNames(doc.definitions))), uuid)
    ensures WellFormed(pm', uuid)
    ensures doc' == Document(RenameDefinitions(doc.definitions, types, pm'.token))
  {
    var defs := doc.definitions;
    var out: seq<Definition> := [];
    pm' := pm;
    var i := 0;
    while i < |defs|
      invariant 0 <= i <= |defs|
      invariant pm' == Placeholders(AppendNew(pm.order, Matched(types, DefinitionsLeafNames(defs[..i]))), uuid)
      invariant WellFormed(pm', uuid)
      invariant out == RenameDefinitions(defs[..i], types, pm'.token)
    {
      var d', pm1 := ScanDefinition(defs[i], types, pm', uuid);
      ScanDefinitionStep(defs, i, types, pm, pm', pm1, uuid);
      RenameDefinitionsSnoc(defs, i, types, pm1.token);
      out := out + [d'];
      pm' := pm1;
      i := i + 1;
    }
    assert defs[..i] == defs;
    doc' := Document(out);
  }

  /**
   * What the scan of a document achieves: the dictionary holds exactly the registered
   * entity names among the leaf fields, each with its own token, in order of first
   * occurrence; every matched leaf, and only a matched leaf, now carries its entity's
   * token; the document keeps its shape; and a document with no matched leaf comes
   * back unchanged with an empty dictionary.
   */
  lemma ScanCorrect(doc: Document, types: map<string, string>, uuid: nat -> string)
    ensures var (doc', pm) := Scan(doc, types, uuid);
      && WellFormed(pm, uuid)
      && (forall n :: n in pm.token <==> n in DefinitionsLeafNames(doc.definitions) && Matches(types, n))
      && DefinitionsLeafNames(doc'.definitions) == RenameNames(DefinitionsLeafNames(doc.definitions), types, pm.token)
      && SameDocumentShape(doc, doc')
      && (UniqueIds(uuid) ==> forall a, b :: a in pm.token && b in pm.token && a != b ==> pm.token[a] != pm.token[b])
      && ((forall n :: n in DefinitionsLeafNames(doc.definitions) ==> !Matches(types, n)) ==> doc' == doc && pm.order == [])
  {
    var names := DefinitionsLeafNames(doc.definitions);
    var (doc', pm) := Scan(doc, types, uuid);
    AppendNewProps([], Matched(types, names));
    MatchedMembers(types, names);
    TokensOfKeys(pm.order, uuid);
    RenamedDefinitionLeaves(doc.definitions, types, pm.token);
    forall i | 0 <= i < |doc.definitions| && doc.definitions[i].OperationDefinition?
      ensures forall k :: 0 <= k < |doc.definitions[i].selections| ==>
                SameShape(doc.definitions[i].selections[k], doc'.definitions[i].selections[k])
    {
      forall k | 0 <= k < |doc.definitions[i].selections|
        ensures SameShape(doc.definitions[i].selections[k], doc'.definitions[i].selections[k])
      {
        RenameKeepsShape(doc.definitions[i].selections[k], types, pm.token);
      }
    }
    if UniqueIds(uuid) {
      TokensDistinct(pm, uuid);
    }
    if forall n :: n in names ==> !Matches(types, n) {
      forall i | 0 <= i < |doc.definitions| ensures RenameDefinition(doc.definitions[i], types, pm.token) == doc.definitions[i] {
        DefinitionsLeafNamesContain(doc.definitions, i);
        if doc.definitions[i].OperationDefinition? {
          RenameUnmatched(doc.definitions[i].selections, types, pm.token);
        }
      }
      assert doc'.definitions == doc.definitions;
    }
  }
}
