/**
  The part of a parsed JavaScript module (ESTree node kinds, as jscodeshift
  hands them out) that the schema conversion looks at or builds.

  Module-level statements are kept apart from expressions: an `export default`
  can only stand at the top of a module, so it is a `Statement`; everything the
  rewrite walks through at any depth is a `Node`.
 */
module JsAst {
  import opened LiteralText

  datatype Option<T> = None | Some(value: T)

  datatype Node =
    | ObjectExpression(properties: seq<Node>)
    | Property(key: Node, value: Node)
    | ArrayExpression(elements: seq<Node>)
    | CallExpression(callee: Node, arguments: seq<Node>)
    | Identifier(name: string)
    | Literal(lit: LitValue)
      /** Any other node kind (spread, function, pattern, hole, ...), with its child nodes. */
    | Other(children: seq<Node>)

  /** A declaration with a single declarator: `<kind> <id> = <init>`. */
  datatype VariableDeclaration = VariableDeclaration(kind: string, id: string, init: Node)

  datatype Statement =
    | ImportDeclaration(specifiers: seq<string>, source: string)
    | ExportDefaultDeclaration(declaration: Node)
    | ExportNamedDeclaration(variable: VariableDeclaration)
      /** Any other statement, with the expression nodes it holds. */
    | OtherStatement(children: seq<Node>)

  datatype Program = Program(body: seq<Statement>)

  /** `key.name` is defined only for identifier keys. */
  predicate HasKeyName(n: Node, name: string) {
    n.Property? && n.key == Identifier(name)
  }

  /** `a` and `b` are nodes of the same kind. */
  predicate SameKind(a: Node, b: Node) {
    && a.ObjectExpression? == b.ObjectExpression?
    && a.Property? == b.Property?
    && a.ArrayExpression? == b.ArrayExpression?
    && a.CallExpression? == b.CallExpression?
    && a.Identifier? == b.Identifier?
    && a.Literal? == b.Literal?
    && a.Other? == b.Other?
  }

  /**
    A parser only ever places a `Property` inside a list of children (the
    properties of an object literal or pattern), never in a single-child slot.
   */
  predicate WellFormed(n: Node)
    decreases n
  {
    match n
    case ObjectExpression(ps) => WellFormedList(ps)
    case Property(k, v) => !k.Property? && !v.Property? && WellFormed(k) && WellFormed(v)
    case ArrayExpression(es) => WellFormedList(es)
    case CallExpression(f, args) => !f.Property? && WellFormed(f) && WellFormedList(args)
    case Identifier(_) => true
    case Literal(_) => true
    case Other(cs) => WellFormedList(cs)
  }

  predicate WellFormedList(ns: seq<Node>)
    decreases ns
  {
    ns == [] || (WellFormed(ns[0]) && WellFormedList(ns[1..]))
  }

  predicate WellFormedStatement(s: Statement) {
    match s
    case ImportDeclaration(_, _) => true
    case ExportDefaultDeclaration(d) => !d.Property? && WellFormed(d)
    case ExportNamedDeclaration(v) => !v.init.Property? && WellFormed(v.init)
    case OtherStatement(cs) => WellFormedList(cs)
  }

  predicate WellFormedProgram(p: Program) {
    forall i :: 0 <= i < |p.body| ==> WellFormedStatement(p.body[i])
  }

  /**
    How a property's key is counted: an identifier or literal key as itself, a
    computed key of any other kind as one placeholder (its own properties are
    counted where they stand).
   */
  function KeyLabel(k: Node): Node {
    if k.Identifier? || k.Literal? then k else Other([])
  }

  /** The key of every property in `n`, at any depth, with repetitions. */
  function PropKeys(n: Node): multiset<Node>
    decreases n
  {
    match n
    case ObjectExpression(ps) => PropKeysList(ps)
    case Property(k, v) => multiset{KeyLabel(k)} + PropKeys(k) + PropKeys(v)
    case ArrayExpression(es) => PropKeysList(es)
    case CallExpression(f, args) => PropKeys(f) + PropKeysList(args)
    case Identifier(_) => multiset{}
    case Literal(_) => multiset{}
    case Other(cs) => PropKeysList(cs)
  }

  function PropKeysList(ns: seq<Node>): multiset<Node>
    decreases ns
  {
    if ns == [] then multiset{} else PropKeys(ns[0]) + PropKeysList(ns[1..])
  }

  function StatementPropKeys(s: Statement): multiset<Node> {
    match s
    case ImportDeclaration(_, _) => multiset{}
    case ExportDefaultDeclaration(d) => PropKeys(d)
    case ExportNamedDeclaration(v) => PropKeys(v.init)
    case OtherStatement(cs) => PropKeysList(cs)
  }

  /** The number of nodes in `n`, itself included. */
  function Size(n: Node): nat
    decreases n
  {
    match n
    case ObjectExpression(ps) => 1 + SizeList(ps)
    case Property(k, v) => 1 + Size(k) + Size(v)
    case ArrayExpression(es) => 1 + SizeList(es)
    case CallExpression(f, args) => 1 + Size(f) + SizeList(args)
    case Identifier(_) => 1
    case Literal(_) => 1
    case Other(cs) => 1 + SizeList(cs)
  }

  function SizeList(ns: seq<Node>): nat
    decreases ns
  {
    if ns == [] then 0 else Size(ns[0]) + SizeList(ns[1..])
  }

  function StatementSize(s: Statement): nat {
    match s
    case ImportDeclaration(_, _) => 0
    case ExportDefaultDeclaration(d) => Size(d)
    case ExportNamedDeclaration(v) => Size(v.init)
    case OtherStatement(cs) => SizeList(cs)
  }
}
