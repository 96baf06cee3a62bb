/**
  The rewrite passes of the schema conversion, each as a function on one
  node or statement: the `sanity` import, removal of `__experimental_actions`
  properties, the `defineType`/`defineField` wrapping, and the default-export
  to named-export rewrite.
 */
module SchemaPasses {
  import opened JsAst

  const ActionsKey := "__experimental_actions"
  const FieldsKey := "fields"
  const DefineType := "defineType"
  const DefineField := "defineField"
  const SanitySource := "sanity"

  /** The key `__experimental_actions` as it stands in a property: an identifier. */
  const ActionsKeyNode: Node := Identifier(ActionsKey)

  /**
    `import { defineField, defineType } from "sanity"`: it brings both factories
    into scope and holds no expression node for the later passes to touch.
   */
  function SanityImport(): (s: Statement)
    ensures s.ImportDeclaration? && s.source == SanitySource
    ensures multiset(s.specifiers) == multiset{DefineField, DefineType}
    ensures StatementSize(s) == 0 && StatementPropKeys(s) == multiset{}
  {
    ImportDeclaration([DefineField, DefineType], SanitySource)
  }

  // ---------------------------------------------------------------------------
  // Removing `__experimental_actions`
  // ---------------------------------------------------------------------------

  predicate IsActionsProperty(n: Node) {
    HasKeyName(n, ActionsKey)
  }

  /**
    `n` with every `__experimental_actions` property dropped from its parent's
    list. The node keeps its kind, a leaf is untouched, and the nodes that
    disappear are exactly those of the dropped properties.
   */
  function StripNode(n: Node): (r: Node)
    ensures SameKind(r, n)
    ensures n.Identifier? || n.Literal? ==> r == n
    ensures IsActionsProperty(r) <==> IsActionsProperty(n)
    ensures Size(r) + RemovedSize(n) == Size(n)
    ensures DropsOnlyActions(n, r)
    decreases n
  {
    match n
    case ObjectExpression(ps) => ObjectExpression(StripList(ps))
    case Property(k, v) => Property(StripNode(k), StripNode(v))
    case ArrayExpression(es) => ArrayExpression(StripList(es))
    case CallExpression(f, args) => CallExpression(StripNode(f), StripList(args))
    case Identifier(_) => n
    case Literal(_) => n
    case Other(cs) => Other(StripList(cs))
  }

  /** A child list without its `__experimental_actions` properties, the rest stripped in turn. */
  function StripList(ns: seq<Node>): (r: seq<Node>)
    ensures |r| <= |ns|
    ensures forall i :: 0 <= i < |r| ==> !IsActionsProperty(r[i])
    ensures SizeList(r) + RemovedSizeList(ns) == SizeList(ns)
    ensures DropsOnlyActionsList(ns, r)
    decreases ns
  {
    if ns == [] then []
    else if IsActionsProperty(ns[0]) then StripList(ns[1..])
    else
      var rest := StripList(ns[1..]);
      var r := [StripNode(ns[0])] + rest;
      assert r[1..] == rest;
      r
  }

  /** One statement with its `__experimental_actions` properties removed; its kind and declared name stay. */
  function StripStatement(s: Statement): (r: Statement)
    ensures s.ImportDeclaration? ==> r == s
    ensures r.ExportDefaultDeclaration? <==> s.ExportDefaultDeclaration?
    ensures s.ExportNamedDeclaration? ==>
      r.ExportNamedDeclaration? && r.variable.kind == s.variable.kind && r.variable.id == s.variable.id
    ensures s.OtherStatement? ==> r.OtherStatement?
    ensures StatementSize(r) + StatementRemovedSize(s) == StatementSize(s)
    ensures StatementDropsOnlyActions(s, r)
  {
    match s
    case ImportDeclaration(_, _) => s
    case ExportDefaultDeclaration(d) => ExportDefaultDeclaration(StripNode(d))
    case ExportNamedDeclaration(v) =>
      ExportNamedDeclaration(VariableDeclaration(v.kind, v.id, StripNode(v.init)))
    case OtherStatement(cs) => OtherStatement(StripList(cs))
  }

  /**
    `r` is `n` with some `__experimental_actions` properties deleted from the
    child lists that hold them: every other node stays, in its place and order.
   */
  predicate DropsOnlyActions(n: Node, r: Node)
    decreases n
  {
    match n
    case ObjectExpression(ps) => r.ObjectExpression? && DropsOnlyActionsList(ps, r.properties)
    case Property(k, v) => r.Property? && DropsOnlyActions(k, r.key) && DropsOnlyActions(v, r.value)
    case ArrayExpression(es) => r.ArrayExpression? && DropsOnlyActionsList(es, r.elements)
    case CallExpression(f, args) =>
      r.CallExpression? && DropsOnlyActions(f, r.callee) && DropsOnlyActionsList(args, r.arguments)
    case Identifier(_) => r == n
    case Literal(_) => r == n
    case Other(cs) => r.Other? && DropsOnlyActionsList(cs, r.children)
  }

  /** Each element of `ns` is either an `__experimental_actions` property that is left out, or kept in order. */
  predicate DropsOnlyActionsList(ns: seq<Node>, rs: seq<Node>)
    decreases ns
  {
    if ns == [] then rs == []
    else
      var kept := rs != [] && DropsOnlyActions(ns[0], rs[0]) && DropsOnlyActionsList(ns[1..], rs[1..]);
      if IsActionsProperty(ns[0]) then kept || DropsOnlyActionsList(ns[1..], rs) else kept
  }

  predicate StatementDropsOnlyActions(s: Statement, r: Statement) {
    match s
    case ImportDeclaration(_, _) => r == s
    case ExportDefaultDeclaration(d) => r.ExportDefaultDeclaration? && DropsOnlyActions(d, r.declaration)
    case ExportNamedDeclaration(v) =>
      && r.ExportNamedDeclaration? && r.variable.kind == v.kind && r.variable.id == v.id
      && DropsOnlyActions(v.init, r.variable.init)
    case OtherStatement(cs) => r.OtherStatement? && DropsOnlyActionsList(cs, r.children)
  }

  /** The number of nodes inside the properties that the removal drops. */
  function RemovedSize(n: Node): nat
    decreases n
  {
    match n
    case ObjectExpression(ps) => RemovedSizeList(ps)
    case Property(k, v) => RemovedSize(k) + RemovedSize(v)
    case ArrayExpression(es) => RemovedSizeList(es)
    case CallExpression(f, args) => RemovedSize(f) + RemovedSizeList(args)
    case Identifier(_) => 0
    case Literal(_) => 0
    case Other(cs) => RemovedSizeList(cs)
  }

  function RemovedSizeList(ns: seq<Node>): nat
    decreases ns
  {
    if ns == [] then 0
    else
      var first := if IsActionsProperty(ns[0]) then Size(ns[0]) else RemovedSize(ns[0]);
      first + RemovedSizeList(ns[1..])
  }

  function StatementRemovedSize(s: Statement): nat {
    match s
    case ImportDeclaration(_, _) => 0
    case ExportDefaultDeclaration(d) => RemovedSize(d)
    case ExportNamedDeclaration(v) => RemovedSize(v.init)
    case OtherStatement(cs) => RemovedSizeList(cs)
  }

  /** The keys of the properties that the removal drops, their own and those inside them. */
  function RemovedKeys(n: Node): multiset<Node>
    decreases n
  {
    match n
    case ObjectExpression(ps) => RemovedKeysList(ps)
    case Property(k, v) => RemovedKeys(k) + RemovedKeys(v)
    case ArrayExpression(es) => RemovedKeysList(es)
    case CallExpression(f, args) => RemovedKeys(f) + RemovedKeysList(args)
    case Identifier(_) => multiset{}
    case Literal(_) => multiset{}
    case Other(cs) => RemovedKeysList(cs)
  }

  function RemovedKeysList(ns: seq<Node>): multiset<Node>
    decreases ns
  {
    if ns == [] then multiset{}
    else
      var first := if IsActionsProperty(ns[0]) then PropKeys(ns[0]) else RemovedKeys(ns[0]);
      first + RemovedKeysList(ns[1..])
  }

  function StatementRemovedKeys(s: Statement): multiset<Node> {
    match s
    case ImportDeclaration(_, _) => multiset{}
    case ExportDefaultDeclaration(d) => RemovedKeys(d)
    case ExportNamedDeclaration(v) => RemovedKeys(v.init)
    case OtherStatement(cs) => RemovedKeysList(cs)
  }

  lemma {:induction false} StripLeavesNoActions(n: Node)
    requires WellFormed(n) && !IsActionsProperty(n)
    ensures ActionsKeyNode !in PropKeys(StripNode(n))
    decreases n
  {
    match n
    case ObjectExpression(ps) => StripListLeavesNoActions(ps);
    case Property(k, v) =>
      StripLeavesNoActions(k);
      StripLeavesNoActions(v);
    case ArrayExpression(es) => StripListLeavesNoActions(es);
    case CallExpression(f, args) =>
      StripLeavesNoActions(f);
      StripListLeavesNoActions(args);
    case Identifier(_) =>
    case Literal(_) =>
    case Other(cs) => StripListLeavesNoActions(cs);
  }

  lemma {:induction false} StripListLeavesNoActions(ns: seq<Node>)
    requires WellFormedList(ns)
    ensures ActionsKeyNode !in PropKeysList(StripList(ns))
    decreases ns
  {
    if ns != [] {
      StripListLeavesNoActions(ns[1..]);
      if !IsActionsProperty(ns[0]) {
        StripLeavesNoActions(ns[0]);
        assert StripList(ns) == [StripNode(ns[0])] + StripList(ns[1..]);
        assert ([StripNode(ns[0])] + StripList(ns[1..]))[1..] == StripList(ns[1..]);
      }
    }
  }

  /** A tree without `__experimental_actions` properties is left exactly as it was. */
  lemma {:induction false} StripKeepsTreeWithoutActions(n: Node)
    requires ActionsKeyNode !in PropKeys(n)
    ensures StripNode(n) == n
    decreases n
  {
    match n
    case ObjectExpression(ps) => StripListKeepsListWithoutActions(ps);
    case Property(k, v) =>
      StripKeepsTreeWithoutActions(k);
      StripKeepsTreeWithoutActions(v);
    case ArrayExpression(es) => StripListKeepsListWithoutActions(es);
    case CallExpression(f, args) =>
      StripKeepsTreeWithoutActions(f);
      StripListKeepsListWithoutActions(args);
    case Identifier(_) =>
    case Literal(_) =>
    case Other(cs) => StripListKeepsListWithoutActions(cs);
  }

  lemma {:induction false} StripListKeepsListWithoutActions(ns: seq<Node>)
    requires ActionsKeyNode !in PropKeysList(ns)
    ensures StripList(ns) == ns
    decreases ns
  {
    if ns != [] {
      assert ActionsKeyNode !in PropKeys(ns[0]);
      StripKeepsTreeWithoutActions(ns[0]);
      StripListKeepsListWithoutActions(ns[1..]);
      assert [ns[0]] + ns[1..] == ns;
    }
  }

  /**
    Only removed properties and what they contain disappear: the key of every
    property of the input, string and computed keys included, is either still
    present or inside a removed property.
   */
  lemma {:induction false} StripPropKeysAccount(n: Node)
    ensures PropKeys(n) == PropKeys(StripNode(n)) + RemovedKeys(n)
    decreases n
  {
    match n
    case ObjectExpression(ps) => StripListPropKeysAccount(ps);
    case Property(k, v) =>
      StripPropKeysAccount(k);
      StripPropKeysAccount(v);
      PropertyPropKeysAccount(k, v);
    case ArrayExpression(es) => StripListPropKeysAccount(es);
    case CallExpression(f, args) =>
      StripPropKeysAccount(f);
      StripListPropKeysAccount(args);
    case Identifier(_) =>
    case Literal(_) =>
    case Other(cs) => StripListPropKeysAccount(cs);
  }

  /** The property case of the accounting above: the key keeps its keyLabel. */
  lemma PropertyPropKeysAccount(k: Node, v: Node)
    requires PropKeys(k) == PropKeys(StripNode(k)) + RemovedKeys(k)
    requires PropKeys(v) == PropKeys(StripNode(v)) + RemovedKeys(v)
    ensures var n := Property(k, v);
      PropKeys(n) == PropKeys(StripNode(n)) + RemovedKeys(n)
  {
    var sk, sv := StripNode(k), StripNode(v);
    var keyLabel := multiset{KeyLabel(k)};
    assert KeyLabel(sk) == KeyLabel(k);
    calc {
      PropKeys(Property(k, v));
      keyLabel + PropKeys(k) + PropKeys(v);
      keyLabel + (PropKeys(sk) + RemovedKeys(k)) + (PropKeys(sv) + RemovedKeys(v));
      { Regroup(keyLabel, PropKeys(sk), RemovedKeys(k), PropKeys(sv), RemovedKeys(v)); }
      (keyLabel + PropKeys(sk) + PropKeys(sv)) + (RemovedKeys(k) + RemovedKeys(v));
      PropKeys(StripNode(Property(k, v))) + RemovedKeys(Property(k, v));
    }
  }

  lemma Regroup(a: multiset<Node>, b: multiset<Node>, c: multiset<Node>, d: multiset<Node>, e: multiset<Node>)
    ensures a + (b + c) + (d + e) == (a + b + d) + (c + e)
  {
  }

  lemma {:induction false} StripListPropKeysAccount(ns: seq<Node>)
    ensures PropKeysList(ns) == PropKeysList(StripList(ns)) + RemovedKeysList(ns)
    decreases ns
  {
    if ns != [] {
      StripListPropKeysAccount(ns[1..]);
      if !IsActionsProperty(ns[0]) {
        StripPropKeysAccount(ns[0]);
        var rest := StripList(ns[1..]);
        assert ([StripNode(ns[0])] + rest)[1..] == rest;
      }
    }
  }

  /** The same accounting for one statement. */
  lemma StripStatementPropKeysAccount(s: Statement)
    ensures StatementPropKeys(s) == StatementPropKeys(StripStatement(s)) + StatementRemovedKeys(s)
  {
    match s
    case ImportDeclaration(_, _) =>
    case ExportDefaultDeclaration(d) => StripPropKeysAccount(d);
    case ExportNamedDeclaration(v) => StripPropKeysAccount(v.init);
    case OtherStatement(cs) => StripListPropKeysAccount(cs);
  }

  lemma StripStatementLeavesNoActions(s: Statement)
    requires WellFormedStatement(s)
    ensures ActionsKeyNode !in StatementPropKeys(StripStatement(s))
  {
    match s
    case ImportDeclaration(_, _) =>
    case ExportDefaultDeclaration(d) => StripLeavesNoActions(d);
    case ExportNamedDeclaration(v) => StripLeavesNoActions(v.init);
    case OtherStatement(cs) => StripListLeavesNoActions(cs);
  }

  /**
    The removal is the only way to delete `__experimental_actions` properties
    from child lists, keeping everything else in place, so that none is left.
   */
  lemma {:induction false} StripIsOnlyRemoval(n: Node, r: Node)
    requires DropsOnlyActions(n, r) && ActionsKeyNode !in PropKeys(r)
    ensures r == StripNode(n)
    decreases n
  {
    match n
    case ObjectExpression(ps) => StripListIsOnlyRemoval(ps, r.properties);
    case Property(k, v) =>
      StripIsOnlyRemoval(k, r.key);
      StripIsOnlyRemoval(v, r.value);
    case ArrayExpression(es) => StripListIsOnlyRemoval(es, r.elements);
    case CallExpression(f, args) =>
      StripIsOnlyRemoval(f, r.callee);
      StripListIsOnlyRemoval(args, r.arguments);
    case Identifier(_) =>
    case Literal(_) =>
    case Other(cs) => StripListIsOnlyRemoval(cs, r.children);
  }

  lemma {:induction false} StripListIsOnlyRemoval(ns: seq<Node>, rs: seq<Node>)
    requires DropsOnlyActionsList(ns, rs) && ActionsKeyNode !in PropKeysList(rs)
    ensures rs == StripList(ns)
    decreases ns
  {
    if ns != [] {
      if IsActionsProperty(ns[0]) && DropsOnlyActionsList(ns[1..], rs) {
        StripListIsOnlyRemoval(ns[1..], rs);
      } else if IsActionsProperty(ns[0]) {
        KeptActionsPropertyIsVisible(ns[0], rs);
        assert false;
      } else {
        StripIsOnlyRemoval(ns[0], rs[0]);
        StripListIsOnlyRemoval(ns[1..], rs[1..]);
        assert rs == [rs[0]] + rs[1..];
      }
    }
  }

  /** An `__experimental_actions` property that is kept shows up among the keys of the list. */
  lemma KeptActionsPropertyIsVisible(n: Node, rs: seq<Node>)
    requires IsActionsProperty(n) && rs != [] && DropsOnlyActions(n, rs[0])
    ensures ActionsKeyNode in PropKeysList(rs)
  {
    assert rs[0].key == ActionsKeyNode;
    assert ActionsKeyNode in PropKeys(rs[0]);
  }

  /** The same for one statement. */
  lemma StripStatementIsOnlyRemoval(s: Statement, r: Statement)
    requires StatementDropsOnlyActions(s, r) && ActionsKeyNode !in StatementPropKeys(r)
    ensures r == StripStatement(s)
  {
    match s
    case ImportDeclaration(_, _) =>
    case ExportDefaultDeclaration(d) => StripIsOnlyRemoval(d, r.declaration);
    case ExportNamedDeclaration(v) => StripIsOnlyRemoval(v.init, r.variable.init);
    case OtherStatement(cs) => StripListIsOnlyRemoval(cs, r.children);
  }

  // ---------------------------------------------------------------------------
  // Wrapping in `defineType` / `defineField`
  // ---------------------------------------------------------------------------

  /**
    What an object literal's rewrite needs to know of its surroundings: its
    parent node, and for an element of an array whether that array's parent is
    a property whose key is the identifier `fields`.
   */
  datatype Parent =
    | ExportDefaultParent
    | FieldsPropertyParent
    | ArrayParent(heldByFields: bool)
    | OtherParent

  /** The parent that both children of a property with key `key` see. */
  function PropertyChildParent(key: Node): Parent {
    if key == Identifier(FieldsKey) then FieldsPropertyParent else OtherParent
  }

  function FactoryCall(factory: string, o: Node): Node {
    CallExpression(Identifier(factory), [o])
  }

  /** `n` is `factory(<object literal>)`. */
  predicate IsFactoryCall(n: Node, factory: string) {
    n.CallExpression? && n.callee == Identifier(factory)
    && |n.arguments| == 1 && n.arguments[0].ObjectExpression?
  }

  /**
    Every object literal that is directly a default export's declaration
    becomes `defineType(obj)`; otherwise every one that is directly an element
    of an array held by a `fields` property becomes `defineField(obj)`. Each
    object is classified by its place in the tree the pass starts from.
   */
  function WrapNode(n: Node, parent: Parent): (r: Node)
    ensures n.ObjectExpression? && parent == ExportDefaultParent ==>
      IsFactoryCall(r, DefineType) && |r.arguments[0].properties| == |n.properties|
    ensures n.ObjectExpression? && parent == ArrayParent(true) ==>
      IsFactoryCall(r, DefineField) && |r.arguments[0].properties| == |n.properties|
    ensures n.ObjectExpression? && parent != ExportDefaultParent && parent != ArrayParent(true) ==>
      r.ObjectExpression? && |r.properties| == |n.properties|
    ensures !n.ObjectExpression? ==> SameKind(r, n)
    ensures n.Identifier? || n.Literal? ==> r == n
    decreases n
  {
    match n
    case ObjectExpression(ps) =>
      var o := ObjectExpression(WrapList(ps, OtherParent));
      if parent == ExportDefaultParent then FactoryCall(DefineType, o)
      else if parent == ArrayParent(true) then FactoryCall(DefineField, o)
      else o
    case Property(k, v) =>
      var c := PropertyChildParent(k);
      Property(WrapNode(k, c), WrapNode(v, c))
    case ArrayExpression(es) => ArrayExpression(WrapList(es, ArrayParent(parent == FieldsPropertyParent)))
    case CallExpression(f, args) => CallExpression(WrapNode(f, OtherParent), WrapList(args, OtherParent))
    case Identifier(_) => n
    case Literal(_) => n
    case Other(cs) => Other(WrapList(cs, OtherParent))
  }

  /** Every element of a child list is rewritten in its place, all with the same parent. */
  function WrapList(ns: seq<Node>, parent: Parent): (r: seq<Node>)
    ensures |r| == |ns|
    ensures forall i :: 0 <= i < |ns| ==> r[i] == WrapNode(ns[i], parent)
    decreases ns
  {
    if ns == [] then []
    else
      var rest := WrapList(ns[1..], parent);
      var r := [WrapNode(ns[0], parent)] + rest;
      assert forall i :: 1 <= i < |ns| ==> r[i] == rest[i - 1] && ns[i] == ns[1..][i - 1];
      r
  }

  /** The wrapping of one statement: the default-exported object becomes `defineType(obj)`. */
  function WrapStatement(s: Statement): (r: Statement)
    ensures s.ImportDeclaration? ==> r == s
    ensures r.ExportDefaultDeclaration? <==> s.ExportDefaultDeclaration?
    ensures s.ExportDefaultDeclaration? && s.declaration.ObjectExpression? ==>
      IsFactoryCall(r.declaration, DefineType)
    ensures s.ExportNamedDeclaration? ==>
      r.ExportNamedDeclaration? && r.variable.kind == s.variable.kind && r.variable.id == s.variable.id
    ensures s.OtherStatement? ==> r.OtherStatement? && |r.children| == |s.children|
  {
    match s
    case ImportDeclaration(_, _) => s
    case ExportDefaultDeclaration(d) => ExportDefaultDeclaration(WrapNode(d, ExportDefaultParent))
    case ExportNamedDeclaration(v) =>
      ExportNamedDeclaration(VariableDeclaration(v.kind, v.id, WrapNode(v.init, OtherParent)))
    case OtherStatement(cs) => OtherStatement(WrapList(cs, OtherParent))
  }

  /** Removes one `defineType(...)`/`defineField(...)` layer around every object literal. */
  function Unwrap(n: Node): Node
    decreases n
  {
    match n
    case ObjectExpression(ps) => ObjectExpression(UnwrapList(ps))
    case Property(k, v) => Property(Unwrap(k), Unwrap(v))
    case ArrayExpression(es) => ArrayExpression(UnwrapList(es))
    case CallExpression(f, args) =>
      if IsFactoryCall(n, DefineType) || IsFactoryCall(n, DefineField) then
        ObjectExpression(UnwrapList(args[0].properties))
      else CallExpression(Unwrap(f), UnwrapList(args))
    case Identifier(_) => n
    case Literal(_) => n
    case Other(cs) => Other(UnwrapList(cs))
  }

  function UnwrapList(ns: seq<Node>): seq<Node>
    decreases ns
  {
    if ns == [] then [] else [Unwrap(ns[0])] + UnwrapList(ns[1..])
  }

  /** No `defineType(obj)` or `defineField(obj)` anywhere in `n`. */
  predicate NoFactoryCalls(n: Node)
    decreases n
  {
    match n
    case ObjectExpression(ps) => NoFactoryCallsList(ps)
    case Property(k, v) => NoFactoryCalls(k) && NoFactoryCalls(v)
    case ArrayExpression(es) => NoFactoryCallsList(es)
    case CallExpression(f, args) =>
      !IsFactoryCall(n, DefineType) && !IsFactoryCall(n, DefineField)
      && NoFactoryCalls(f) && NoFactoryCallsList(args)
    case Identifier(_) => true
    case Literal(_) => true
    case Other(cs) => NoFactoryCallsList(cs)
  }

  predicate NoFactoryCallsList(ns: seq<Node>)
    decreases ns
  {
    ns == [] || (NoFactoryCalls(ns[0]) && NoFactoryCallsList(ns[1..]))
  }

  /** No object literal is left bare directly under a default export or in a `fields` array. */
  predicate Settled(n: Node, parent: Parent)
    decreases n
  {
    match n
    case ObjectExpression(ps) =>
      parent != ExportDefaultParent && parent != ArrayParent(true) && SettledList(ps, OtherParent)
    case Property(k, v) =>
      var c := PropertyChildParent(k);
      Settled(k, c) && Settled(v, c)
    case ArrayExpression(es) => SettledList(es, ArrayParent(parent == FieldsPropertyParent))
    case CallExpression(f, args) => Settled(f, OtherParent) && SettledList(args, OtherParent)
    case Identifier(_) => true
    case Literal(_) => true
    case Other(cs) => SettledList(cs, OtherParent)
  }

  predicate SettledList(ns: seq<Node>, parent: Parent)
    decreases ns
  {
    ns == [] || (Settled(ns[0], parent) && SettledList(ns[1..], parent))
  }

  /**
    `defineType(obj)` stands only directly under a default export and
    `defineField(obj)` only directly in a `fields` array.
   */
  predicate Placed(n: Node, parent: Parent)
    decreases n
  {
    match n
    case ObjectExpression(ps) => PlacedList(ps, OtherParent)
    case Property(k, v) =>
      var c := PropertyChildParent(k);
      Placed(k, c) && Placed(v, c)
    case ArrayExpression(es) => PlacedList(es, ArrayParent(parent == FieldsPropertyParent))
    case CallExpression(f, args) =>
      && (IsFactoryCall(n, DefineType) ==> parent == ExportDefaultParent)
      && (IsFactoryCall(n, DefineField) ==> parent == ArrayParent(true))
      && Placed(f, OtherParent) && PlacedList(args, OtherParent)
    case Identifier(_) => true
    case Literal(_) => true
    case Other(cs) => PlacedList(cs, OtherParent)
  }

  predicate PlacedList(ns: seq<Node>, parent: Parent)
    decreases ns
  {
    ns == [] || (Placed(ns[0], parent) && PlacedList(ns[1..], parent))
  }

  /**
    Removes a factory call layer only where the rules put one: `defineType(obj)`
    directly under a default export and `defineField(obj)` directly in a
    `fields` array. A factory call anywhere else is kept as it is.
   */
  function Unplace(n: Node, parent: Parent): Node
    decreases n
  {
    match n
    case ObjectExpression(ps) => ObjectExpression(UnplaceList(ps, OtherParent))
    case Property(k, v) =>
      var c := PropertyChildParent(k);
      Property(Unplace(k, c), Unplace(v, c))
    case ArrayExpression(es) => ArrayExpression(UnplaceList(es, ArrayParent(parent == FieldsPropertyParent)))
    case CallExpression(f, args) =>
      if (parent == ExportDefaultParent && IsFactoryCall(n, DefineType))
        || (parent == ArrayParent(true) && IsFactoryCall(n, DefineField))
      then ObjectExpression(UnplaceList(args[0].properties, OtherParent))
      else CallExpression(Unplace(f, OtherParent), UnplaceList(args, OtherParent))
    case Identifier(_) => n
    case Literal(_) => n
    case Other(cs) => Other(UnplaceList(cs, OtherParent))
  }

  function UnplaceList(ns: seq<Node>, parent: Parent): seq<Node>
    decreases ns
  {
    if ns == [] then [] else [Unplace(ns[0], parent)] + UnplaceList(ns[1..], parent)
  }

  /**
    Wrapping only adds one call layer, around object literals in the two
    positions the rules name, and changes nothing else: whatever factory calls
    the input already had, unwrapping the result gives what unwrapping the
    input gives.
   */
  lemma {:induction false} UnwrapWrap(n: Node, parent: Parent)
    ensures Unwrap(WrapNode(n, parent)) == Unwrap(n)
    decreases n
  {
    match n
    case ObjectExpression(ps) => UnwrapWrapList(ps, OtherParent);
    case Property(k, v) =>
      var c := PropertyChildParent(k);
      UnwrapWrap(k, c);
      UnwrapWrap(v, c);
    case ArrayExpression(es) => UnwrapWrapList(es, ArrayParent(parent == FieldsPropertyParent));
    case CallExpression(f, args) =>
      UnwrapWrap(f, OtherParent);
      UnwrapWrapList(args, OtherParent);
      if |args| == 1 {
        UnwrapWrap(args[0], OtherParent);
      }
    case Identifier(_) =>
    case Literal(_) =>
    case Other(cs) => UnwrapWrapList(cs, OtherParent);
  }

  lemma {:induction false} UnwrapWrapList(ns: seq<Node>, parent: Parent)
    ensures UnwrapList(WrapList(ns, parent)) == UnwrapList(ns)
    decreases ns
  {
    if ns != [] {
      UnwrapWrap(ns[0], parent);
      UnwrapWrapList(ns[1..], parent);
      var w := WrapList(ns, parent);
      assert w[1..] == WrapList(ns[1..], parent);
    }
  }

  /** Unwrapping changes nothing where there is no factory call. */
  lemma {:induction false} UnwrapWithoutFactoryCalls(n: Node)
    requires NoFactoryCalls(n)
    ensures Unwrap(n) == n
    decreases n
  {
    match n
    case ObjectExpression(ps) => UnwrapListWithoutFactoryCalls(ps);
    case Property(k, v) =>
      UnwrapWithoutFactoryCalls(k);
      UnwrapWithoutFactoryCalls(v);
    case ArrayExpression(es) => UnwrapListWithoutFactoryCalls(es);
    case CallExpression(f, args) =>
      UnwrapWithoutFactoryCalls(f);
      UnwrapListWithoutFactoryCalls(args);
    case Identifier(_) =>
    case Literal(_) =>
    case Other(cs) => UnwrapListWithoutFactoryCalls(cs);
  }

  lemma {:induction false} UnwrapListWithoutFactoryCalls(ns: seq<Node>)
    requires NoFactoryCallsList(ns)
    ensures UnwrapList(ns) == ns
    decreases ns
  {
    if ns != [] {
      UnwrapWithoutFactoryCalls(ns[0]);
      UnwrapListWithoutFactoryCalls(ns[1..]);
      assert [ns[0]] + ns[1..] == ns;
    }
  }

  /** After wrapping, no object literal is left bare where a factory call belongs. */
  lemma {:induction false} WrapSettles(n: Node, parent: Parent)
    ensures Settled(WrapNode(n, parent), parent)
    decreases n
  {
    match n
    case ObjectExpression(ps) =>
      WrapListSettles(ps, OtherParent);
      var o := ObjectExpression(WrapList(ps, OtherParent));
      assert Settled(o, OtherParent);
      assert SettledList([o], OtherParent) by {
        assert [o][1..] == [];
      }
    case Property(k, v) =>
      var c := PropertyChildParent(k);
      WrapSettles(k, c);
      WrapSettles(v, c);
      assert PropertyChildParent(WrapNode(k, c)) == c;
    case ArrayExpression(es) => WrapListSettles(es, ArrayParent(parent == FieldsPropertyParent));
    case CallExpression(f, args) =>
      WrapSettles(f, OtherParent);
      WrapListSettles(args, OtherParent);
    case Identifier(_) =>
    case Literal(_) =>
    case Other(cs) => WrapListSettles(cs, OtherParent);
  }

  lemma {:induction false} WrapListSettles(ns: seq<Node>, parent: Parent)
    ensures SettledList(WrapList(ns, parent), parent)
    decreases ns
  {
    if ns != [] {
      WrapSettles(ns[0], parent);
      WrapListSettles(ns[1..], parent);
      var w := WrapList(ns, parent);
      assert w[1..] == WrapList(ns[1..], parent);
    }
  }

  /** Wrapping puts factory calls only where the rules ask for them. */
  lemma {:induction false} WrapPlaces(n: Node, parent: Parent)
    requires Placed(n, parent)
    ensures Placed(WrapNode(n, parent), parent)
    decreases n
  {
    match n
    case ObjectExpression(ps) =>
      WrapListPlaces(ps, OtherParent);
      var o := ObjectExpression(WrapList(ps, OtherParent));
      assert Placed(o, OtherParent);
      assert PlacedList([o], OtherParent) by {
        assert [o][1..] == [];
      }
    case Property(k, v) =>
      var c := PropertyChildParent(k);
      WrapPlaces(k, c);
      WrapPlaces(v, c);
      assert PropertyChildParent(WrapNode(k, c)) == c;
    case ArrayExpression(es) => WrapListPlaces(es, ArrayParent(parent == FieldsPropertyParent));
    case CallExpression(f, args) =>
      WrapPlaces(f, OtherParent);
      WrapListPlaces(args, OtherParent);
      if |args| == 1 {
        assert WrapList(args, OtherParent) == [WrapNode(args[0], OtherParent)];
        assert WrapNode(args[0], OtherParent).ObjectExpression? == args[0].ObjectExpression?;
      }
    case Identifier(_) =>
    case Literal(_) =>
    case Other(cs) => WrapListPlaces(cs, OtherParent);
  }

  lemma {:induction false} WrapListPlaces(ns: seq<Node>, parent: Parent)
    requires PlacedList(ns, parent)
    ensures PlacedList(WrapList(ns, parent), parent)
    decreases ns
  {
    if ns != [] {
      WrapPlaces(ns[0], parent);
      WrapListPlaces(ns[1..], parent);
      var w := WrapList(ns, parent);
      assert w[1..] == WrapList(ns[1..], parent);
    }
  }

  /**
    Wrapping adds factory calls in the two positions the rules name and
    nowhere else, whatever factory calls the input already had: removing the
    layers that stand in those positions gives the same tree before and after.
   */
  lemma {:induction false} UnplaceWrap(n: Node, parent: Parent)
    ensures Unplace(WrapNode(n, parent), parent) == Unplace(n, parent)
    decreases n
  {
    match n
    case ObjectExpression(ps) => UnplaceWrapList(ps, OtherParent);
    case Property(k, v) =>
      var c := PropertyChildParent(k);
      UnplaceWrap(k, c);
      UnplaceWrap(v, c);
      assert PropertyChildParent(WrapNode(k, c)) == c;
    case ArrayExpression(es) => UnplaceWrapList(es, ArrayParent(parent == FieldsPropertyParent));
    case CallExpression(f, args) =>
      UnplaceWrap(f, OtherParent);
      UnplaceWrapList(args, OtherParent);
      if |args| == 1 {
        assert WrapList(args, OtherParent) == [WrapNode(args[0], OtherParent)];
        UnplaceWrap(args[0], OtherParent);
      }
    case Identifier(_) =>
    case Literal(_) =>
    case Other(cs) => UnplaceWrapList(cs, OtherParent);
  }

  lemma {:induction false} UnplaceWrapList(ns: seq<Node>, parent: Parent)
    ensures UnplaceList(WrapList(ns, parent), parent) == UnplaceList(ns, parent)
    decreases ns
  {
    if ns != [] {
      UnplaceWrap(ns[0], parent);
      UnplaceWrapList(ns[1..], parent);
      var w := WrapList(ns, parent);
      assert w[1..] == WrapList(ns[1..], parent);
    }
  }

  predicate StatementNoFactoryCalls(s: Statement) {
    match s
    case ImportDeclaration(_, _) => true
    case ExportDefaultDeclaration(d) => NoFactoryCalls(d)
    case ExportNamedDeclaration(v) => NoFactoryCalls(v.init)
    case OtherStatement(cs) => NoFactoryCallsList(cs)
  }

  predicate StatementSettled(s: Statement) {
    match s
    case ImportDeclaration(_, _) => true
    case ExportDefaultDeclaration(d) => Settled(d, ExportDefaultParent)
    case ExportNamedDeclaration(v) => Settled(v.init, OtherParent)
    case OtherStatement(cs) => SettledList(cs, OtherParent)
  }

  predicate StatementPlaced(s: Statement) {
    match s
    case ImportDeclaration(_, _) => true
    case ExportDefaultDeclaration(d) => Placed(d, ExportDefaultParent)
    case ExportNamedDeclaration(v) => Placed(v.init, OtherParent)
    case OtherStatement(cs) => PlacedList(cs, OtherParent)
  }

  function UnwrapStatement(s: Statement): Statement {
    match s
    case ImportDeclaration(_, _) => s
    case ExportDefaultDeclaration(d) => ExportDefaultDeclaration(Unwrap(d))
    case ExportNamedDeclaration(v) =>
      ExportNamedDeclaration(VariableDeclaration(v.kind, v.id, Unwrap(v.init)))
    case OtherStatement(cs) => OtherStatement(UnwrapList(cs))
  }

  function UnplaceStatement(s: Statement): Statement {
    match s
    case ImportDeclaration(_, _) => s
    case ExportDefaultDeclaration(d) => ExportDefaultDeclaration(Unplace(d, ExportDefaultParent))
    case ExportNamedDeclaration(v) =>
      ExportNamedDeclaration(VariableDeclaration(v.kind, v.id, Unplace(v.init, OtherParent)))
    case OtherStatement(cs) => OtherStatement(UnplaceList(cs, OtherParent))
  }

  /**
    The wrapping of one statement: no object literal is left bare where a
    factory call belongs; if the input had factory calls only where the rules
    put them, so does the output; for any input, the calls added are exactly
    layers in those places; and only one call layer is added.
   */
  lemma WrapStatementSpec(s: Statement)
    ensures StatementSettled(WrapStatement(s))
    ensures StatementPlaced(s) ==> StatementPlaced(WrapStatement(s))
    ensures UnplaceStatement(WrapStatement(s)) == UnplaceStatement(s)
    ensures UnwrapStatement(WrapStatement(s)) == UnwrapStatement(s)
    ensures StatementNoFactoryCalls(s) ==> UnwrapStatement(WrapStatement(s)) == s
  {
    match s
    case ImportDeclaration(_, _) =>
    case ExportDefaultDeclaration(d) =>
      WrapSettles(d, ExportDefaultParent);
      if Placed(d, ExportDefaultParent) { WrapPlaces(d, ExportDefaultParent); }
      UnwrapWrap(d, ExportDefaultParent);
      UnplaceWrap(d, ExportDefaultParent);
      if NoFactoryCalls(d) { UnwrapWithoutFactoryCalls(d); }
    case ExportNamedDeclaration(v) =>
      WrapSettles(v.init, OtherParent);
      if Placed(v.init, OtherParent) { WrapPlaces(v.init, OtherParent); }
      UnwrapWrap(v.init, OtherParent);
      UnplaceWrap(v.init, OtherParent);
      if NoFactoryCalls(v.init) { UnwrapWithoutFactoryCalls(v.init); }
    case OtherStatement(cs) =>
      WrapListSettles(cs, OtherParent);
      if PlacedList(cs, OtherParent) { WrapListPlaces(cs, OtherParent); }
      UnwrapWrapList(cs, OtherParent);
      UnplaceWrapList(cs, OtherParent);
      if NoFactoryCallsList(cs) { UnwrapListWithoutFactoryCalls(cs); }
  }

  /**
    A default-exported object literal ends up as the only argument of
    `defineType`, and that argument unwraps as the object does.
   */
  lemma DefaultObjectBecomesDefineType(s: Statement)
    requires s.ExportDefaultDeclaration? && s.declaration.ObjectExpression?
    ensures var w := WrapStatement(s);
      && w.ExportDefaultDeclaration?
      && IsFactoryCall(w.declaration, DefineType)
      && Unwrap(w.declaration.arguments[0]) == Unwrap(s.declaration)
      && (NoFactoryCalls(s.declaration) ==> Unwrap(w.declaration.arguments[0]) == s.declaration)
  {
    UnwrapWrapList(s.declaration.properties, OtherParent);
    if NoFactoryCalls(s.declaration) {
      UnwrapWithoutFactoryCalls(s.declaration);
    }
  }

  // ---------------------------------------------------------------------------
  // Default export to named export
  // ---------------------------------------------------------------------------

  /**
    `export default <call>` becomes `export const <name> = <call>`, carrying the
    same call; any other statement stays, and no property is added or lost.
   */
  function NameDefaultExport(s: Statement, name: string): (r: Statement)
    ensures !s.ExportDefaultDeclaration? ==> r == s
    ensures r.ExportDefaultDeclaration? ==> r == s && !r.declaration.CallExpression?
    ensures s.ExportDefaultDeclaration? && s.declaration.CallExpression? ==>
      && r.ExportNamedDeclaration?
      && r.variable.kind == "const" && r.variable.id == name && r.variable.init == s.declaration
    ensures StatementPropKeys(r) == StatementPropKeys(s)
  {
    if s.ExportDefaultDeclaration? && s.declaration.CallExpression? then
      ExportNamedDeclaration(VariableDeclaration("const", name, s.declaration))
    else s
  }
}
