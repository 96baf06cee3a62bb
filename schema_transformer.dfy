/**
  The schema conversion of one module: resolve the schema name, then, on the
  module's statement list, prepend the `sanity` import, remove
  `__experimental_actions`, wrap object literals, and turn the default export
  into a named one. Each `find(...)` pass over the tree is a loop over the
  statements that rewrites each one in turn, recursing into its nodes.
 */
module SchemaTransformer {
  import opened JsAst
  import opened SchemaResolver
  import opened SchemaPasses

  /** `undefined` (the file is skipped and left as it was) or the rewritten module. */
  datatype Outcome = Unchanged | Changed(program: Program)

  /** One original statement after all passes: it no longer default-exports an object literal. */
  function ConvertStatement(s: Statement, name: string): (r: Statement)
    ensures !(r.ExportDefaultDeclaration? && r.declaration.ObjectExpression?)
    ensures s.ImportDeclaration? ==> r == s
  {
    NameDefaultExport(WrapStatement(StripStatement(s)), name)
  }

  /**
    The whole rewrite, once the schema name is known: the one new `sanity`
    import, then every original statement, rewritten, in its original order.
   */
  function Converted(p: Program, name: string): (r: Program)
    ensures |r.body| == |p.body| + 1
    ensures r.body[0] == SanityImport()
    ensures forall i :: 0 <= i < |p.body| ==> r.body[i + 1] == ConvertStatement(p.body[i], name)
  {
    var body := [SanityImport()] + p.body;
    Program(seq(|body|, i requires 0 <= i < |body| => ConvertStatement(body[i], name)))
  }

  /** The removal pass: every `__experimental_actions` property, at any depth, is dropped. */
  method RemoveExperimentalActions(body: seq<Statement>) returns (out: seq<Statement>)
    ensures |out| == |body|
    ensures forall i :: 0 <= i < |body| ==> out[i] == StripStatement(body[i])
    ensures (forall i :: 0 <= i < |body| ==> WellFormedStatement(body[i])) ==>
      forall i :: 0 <= i < |out| ==> ActionsKeyNode !in StatementPropKeys(out[i])
    ensures forall i :: 0 <= i < |body| ==>
      && StatementPropKeys(body[i]) == StatementPropKeys(out[i]) + StatementRemovedKeys(body[i])
      && StatementSize(body[i]) == StatementSize(out[i]) + StatementRemovedSize(body[i])
    ensures forall i :: 0 <= i < |body| ==> StatementDropsOnlyActions(body[i], out[i])
  {
    out := [];
    var i := 0;
    while i < |body|
      invariant 0 <= i <= |body|
      invariant |out| == i
      invariant forall k :: 0 <= k < i ==> out[k] == StripStatement(body[k])
    {
      out := out + [StripStatement(body[i])];
      i := i + 1;
    }
    forall k | 0 <= k < |body| && WellFormedStatement(body[k])
      ensures ActionsKeyNode !in StatementPropKeys(out[k])
    {
      StripStatementLeavesNoActions(body[k]);
    }
    forall k | 0 <= k < |body|
      ensures StatementPropKeys(body[k]) == StatementPropKeys(out[k]) + StatementRemovedKeys(body[k])
    {
      StripStatementPropKeysAccount(body[k]);
    }
  }

  /** The wrapping pass over every object literal, with the `defineType`/`defineField` rules. */
  method WrapObjectExpressions(body: seq<Statement>) returns (out: seq<Statement>)
    ensures |out| == |body|
    ensures forall i :: 0 <= i < |body| ==> out[i] == WrapStatement(body[i])
    ensures forall i :: 0 <= i < |out| ==> StatementSettled(out[i])
    ensures forall i :: 0 <= i < |body| && StatementPlaced(body[i]) ==> StatementPlaced(out[i])
    ensures forall i :: 0 <= i < |body| ==> UnplaceStatement(out[i]) == UnplaceStatement(body[i])
    ensures forall i :: 0 <= i < |body| ==> UnwrapStatement(out[i]) == UnwrapStatement(body[i])
    ensures forall i :: 0 <= i < |body| && StatementNoFactoryCalls(body[i]) ==>
      UnwrapStatement(out[i]) == body[i]
  {
    out := [];
    var i := 0;
    while i < |body|
      invariant 0 <= i <= |body|
      invariant |out| == i
      invariant forall k :: 0 <= k < i ==> out[k] == WrapStatement(body[k])
    {
      out := out + [WrapStatement(body[i])];
      i := i + 1;
    }
    forall k | 0 <= k < |body|
      ensures StatementSettled(out[k])
      ensures StatementPlaced(body[k]) ==> StatementPlaced(out[k])
      ensures UnplaceStatement(out[k]) == UnplaceStatement(body[k])
      ensures UnwrapStatement(out[k]) == UnwrapStatement(body[k])
      ensures StatementNoFactoryCalls(body[k]) ==> UnwrapStatement(out[k]) == body[k]
    {
      WrapStatementSpec(body[k]);
    }
  }

  /** The export pass: a default export of a call becomes `export const <name> = <call>`. */
  method ReplaceDefaultExport(body: seq<Statement>, name: string) returns (out: seq<Statement>)
    ensures |out| == |body|
    ensures forall i :: 0 <= i < |body| ==> out[i] == NameDefaultExport(body[i], name)
    ensures forall i :: 0 <= i < |body| && body[i].ExportDefaultDeclaration? && body[i].declaration.CallExpression? ==>
      out[i] == ExportNamedDeclaration(VariableDeclaration("const", name, body[i].declaration))
    ensures forall i :: 0 <= i < |out| && out[i].ExportDefaultDeclaration? ==>
      out[i] == body[i] && !out[i].declaration.CallExpression?
  {
    out := [];
    var i := 0;
    while i < |body|
      invariant 0 <= i <= |body|
      invariant |out| == i
      invariant forall k :: 0 <= k < i ==> out[k] == NameDefaultExport(body[k], name)
    {
      var s := body[i];
      if s.ExportDefaultDeclaration? && s.declaration.CallExpression? {
        s := ExportNamedDeclaration(VariableDeclaration("const", name, s.declaration));
      }
      out := out + [s];
      i := i + 1;
    }
  }

  /**
    The rewrite of the statement list once the schema name is known: the
    import is put in front, then each pass runs over the whole list in turn.
   */
  method ConvertBody(source: Program, name: string) returns (body: seq<Statement>)
    ensures Program(body) == Converted(source, name)
  {
    body := source.body;
    body := [SanityImport()] + body;
    body := RemoveExperimentalActions(body);
    ghost var stripped := body;
    body := WrapObjectExpressions(body);
    ghost var wrapped := body;
    body := ReplaceDefaultExport(body, name);
    PassesGiveConverted(source, name, stripped, wrapped, body);
  }

  /**
    The transform of one module: no schema name means no change; otherwise the
    passes run in order on the statement list and the new module is returned.
   */
  method Transformer(source: Program) returns (result: Outcome)
    ensures result.Unchanged? <==> ResolveSchema(source).None?
    ensures result.Changed? ==> result.program == Converted(source, ResolveSchema(source).value.name)
    ensures result.Changed? ==>
      && |result.program.body| == |source.body| + 1
      && result.program.body[0] == SanityImport()
    ensures result.Changed? && WellFormedProgram(source) ==>
      forall i :: 0 <= i < |result.program.body| ==> ActionsKeyNode !in StatementPropKeys(result.program.body[i])
    ensures result.Changed? ==> ResolveSchema(result.program).None?
  {
    var schema := ResolveSchema(source);
    if schema.None? {
      return Unchanged;
    }
    var body := ConvertBody(source, schema.value.name);
    result := Changed(Program(body));
    ConvertedIsFinal(source, schema.value.name);
    if WellFormedProgram(source) {
      ConvertedLeavesNoActions(source, schema.value.name);
    }
  }

  /** The three passes run one after the other on the statement list compute `Converted`. */
  lemma PassesGiveConverted(p: Program, name: string, stripped: seq<Statement>,
                            wrapped: seq<Statement>, named: seq<Statement>)
    requires |stripped| == |p.body| + 1
    requires forall i :: 0 <= i < |stripped| ==> stripped[i] == StripStatement(([SanityImport()] + p.body)[i])
    requires |wrapped| == |stripped| && forall i :: 0 <= i < |wrapped| ==> wrapped[i] == WrapStatement(stripped[i])
    requires |named| == |wrapped| && forall i :: 0 <= i < |named| ==> named[i] == NameDefaultExport(wrapped[i], name)
    ensures Program(named) == Converted(p, name)
  {
    var expected := Converted(p, name).body;
    forall i | 0 <= i < |named| ensures named[i] == expected[i] {
      if i > 0 {
        assert ([SanityImport()] + p.body)[i] == p.body[i - 1];
      }
    }
  }

  /** A well-formed module keeps no `__experimental_actions` property through the conversion. */
  lemma ConvertedLeavesNoActions(p: Program, name: string)
    requires WellFormedProgram(p)
    ensures var out := Converted(p, name).body;
      forall i :: 0 <= i < |out| ==> ActionsKeyNode !in StatementPropKeys(out[i])
  {
    var out := Converted(p, name).body;
    forall i | 1 <= i < |out| ensures ActionsKeyNode !in StatementPropKeys(out[i]) {
      var s := p.body[i - 1];
      StripStatementLeavesNoActions(s);
      WrapStatementKeepsPropKeys(StripStatement(s));
    }
  }

  /** Running the transform again on its own output changes nothing. */
  lemma ConvertedIsFinal(p: Program, name: string)
    ensures ResolveSchema(Converted(p, name)) == None
  {
    var out := Converted(p, name);
    NoDefaultObjectNoSchema(out);
  }

  /** The schema object becomes `export const <name> = defineType(<the same object>)`. */
  lemma ConvertedRootSchema(p: Program, name: string, i: int)
    requires 0 <= i < |p.body|
    requires p.body[i].ExportDefaultDeclaration? && p.body[i].declaration.ObjectExpression?
    ensures var out := Converted(p, name).body[i + 1];
      && out.ExportNamedDeclaration?
      && out.variable.kind == "const" && out.variable.id == name
      && IsFactoryCall(out.variable.init, DefineType)
      && Unwrap(out.variable.init.arguments[0]) == Unwrap(StripNode(p.body[i].declaration))
      && (NoFactoryCalls(StripNode(p.body[i].declaration)) ==>
            Unwrap(out.variable.init.arguments[0]) == StripNode(p.body[i].declaration))
  {
    var stripped := StripStatement(p.body[i]);
    DefaultObjectBecomesDefineType(stripped);
  }

  /** Wrapping adds no property, so it cannot bring back a removed one. */
  lemma {:induction false} WrapKeepsPropKeys(n: Node, parent: Parent)
    ensures PropKeys(WrapNode(n, parent)) == PropKeys(n)
    decreases n
  {
    match n
    case ObjectExpression(ps) =>
      WrapListKeepsPropKeys(ps, OtherParent);
      var o := ObjectExpression(WrapList(ps, OtherParent));
      assert PropKeysList([o]) == PropKeys(o) by {
        assert [o][1..] == [];
      }
    case Property(k, v) =>
      var c := PropertyChildParent(k);
      WrapKeepsPropKeys(k, c);
      WrapKeepsPropKeys(v, c);
      assert KeyLabel(WrapNode(k, c)) == KeyLabel(k);
    case ArrayExpression(es) => WrapListKeepsPropKeys(es, ArrayParent(parent == FieldsPropertyParent));
    case CallExpression(f, args) =>
      WrapKeepsPropKeys(f, OtherParent);
      WrapListKeepsPropKeys(args, OtherParent);
    case Identifier(_) =>
    case Literal(_) =>
    case Other(cs) => WrapListKeepsPropKeys(cs, OtherParent);
  }

  lemma {:induction false} WrapListKeepsPropKeys(ns: seq<Node>, parent: Parent)
    ensures PropKeysList(WrapList(ns, parent)) == PropKeysList(ns)
    decreases ns
  {
    if ns != [] {
      WrapKeepsPropKeys(ns[0], parent);
      WrapListKeepsPropKeys(ns[1..], parent);
      var w := WrapList(ns, parent);
      assert w[1..] == WrapList(ns[1..], parent);
    }
  }

  lemma WrapStatementKeepsPropKeys(s: Statement)
    ensures StatementPropKeys(WrapStatement(s)) == StatementPropKeys(s)
  {
    match s
    case ImportDeclaration(_, _) =>
    case ExportDefaultDeclaration(d) => WrapKeepsPropKeys(d, ExportDefaultParent);
    case ExportNamedDeclaration(v) => WrapKeepsPropKeys(v.init, OtherParent);
    case OtherStatement(cs) => WrapListKeepsPropKeys(cs, OtherParent);
  }
}
