/**
  `resolveSchema`: the schema name is the value of the first `name` property
  (identifier key) whose object literal is directly the declaration of a
  default export, provided that value is a literal.
 */
module SchemaResolver {
  import opened LiteralText
  import opened JsAst

  datatype Schema = Schema(name: string)

  const NameKey := "name"

  /** The value of the first property of `props` keyed `name`. */
  function FirstNameValue(props: seq<Node>): (r: Option<Node>)
    ensures r.None? <==> forall j :: 0 <= j < |props| ==> !HasKeyName(props[j], NameKey)
    ensures r.Some? ==>
      exists j :: 0 <= j < |props| && HasKeyName(props[j], NameKey) && props[j].value == r.value
        && forall k :: 0 <= k < j ==> !HasKeyName(props[k], NameKey)
    decreases props
  {
    if props == [] then None
    else if HasKeyName(props[0], NameKey) then Some(props[0].value)
    else
      var r := FirstNameValue(props[1..]);
      assert forall j :: 1 <= j < |props| ==> props[j] == props[1..][j - 1];
      r
  }

  /**
    The value of the first `name` property of the object a statement
    default-exports; nothing for any other statement.
   */
  function DefaultObjectNameValue(s: Statement): Option<Node> {
    if s.ExportDefaultDeclaration? && s.declaration.ObjectExpression? then
      FirstNameValue(s.declaration.properties)
    else None
  }

  /** The value of the first name property of a default-exported object, in traversal order. */
  function FirstRootNameValue(body: seq<Statement>): (r: Option<Node>)
    ensures r.None? <==> forall i :: 0 <= i < |body| ==> DefaultObjectNameValue(body[i]).None?
    ensures r.Some? ==>
      exists i :: 0 <= i < |body| && DefaultObjectNameValue(body[i]) == r
        && forall k :: 0 <= k < i ==> DefaultObjectNameValue(body[k]).None?
    decreases body
  {
    if body == [] then None
    else
      var here := DefaultObjectNameValue(body[0]);
      if here.Some? then here
      else
        var rest := body[1..];
        var r := FirstRootNameValue(rest);
        assert forall i :: 0 <= i < |rest| ==> rest[i] == body[i + 1];
        r
  }

  /** Property `j` of statement `i` is a `name` property whose parent object is the default export. */
  ghost predicate IsRootNameSlot(body: seq<Statement>, i: int, j: int) {
    && 0 <= i < |body|
    && body[i].ExportDefaultDeclaration?
    && body[i].declaration.ObjectExpression?
    && 0 <= j < |body[i].declaration.properties|
    && HasKeyName(body[i].declaration.properties[j], NameKey)
  }

  /** No root name slot comes before slot (i, j) in traversal order. */
  ghost predicate IsFirstRootNameSlot(body: seq<Statement>, i: int, j: int) {
    && IsRootNameSlot(body, i, j)
    && forall i', j' :: IsRootNameSlot(body, i', j') ==> i < i' || (i == i' && j <= j')
  }

  ghost function SlotValue(body: seq<Statement>, i: int, j: int): Node
    requires IsRootNameSlot(body, i, j)
  {
    body[i].declaration.properties[j].value
  }

  lemma {:induction false} FirstRootNameValueSpec(body: seq<Statement>)
    ensures FirstRootNameValue(body).None? <==> forall i, j :: !IsRootNameSlot(body, i, j)
    ensures FirstRootNameValue(body).Some? ==>
      exists i, j :: IsFirstRootNameSlot(body, i, j) && SlotValue(body, i, j) == FirstRootNameValue(body).value
    decreases body
  {
    if body != [] {
      var here := DefaultObjectNameValue(body[0]);
      var rest := body[1..];
      forall i, j | 0 <= i ensures IsRootNameSlot(rest, i, j) <==> IsRootNameSlot(body, i + 1, j) {
        if 0 <= i < |rest| {
          assert rest[i] == body[i + 1];
        }
      }
      if here.Some? {
        var props := body[0].declaration.properties;
        var j :| 0 <= j < |props| && HasKeyName(props[j], NameKey) && props[j].value == here.value
          && forall k :: 0 <= k < j ==> !HasKeyName(props[k], NameKey);
        assert IsRootNameSlot(body, 0, j);
        assert IsFirstRootNameSlot(body, 0, j);
      } else {
        FirstRootNameValueSpec(rest);
        forall j ensures !IsRootNameSlot(body, 0, j) {
        }
        if FirstRootNameValue(rest).Some? {
          var i, j :| IsFirstRootNameSlot(rest, i, j) && SlotValue(rest, i, j) == FirstRootNameValue(rest).value;
          assert IsRootNameSlot(body, i + 1, j);
          forall i', j' | IsRootNameSlot(body, i', j') ensures i + 1 < i' || (i + 1 == i' && j <= j') {
            assert i' != 0;
            assert IsRootNameSlot(rest, i' - 1, j');
          }
          assert IsFirstRootNameSlot(body, i + 1, j);
        } else {
          forall i, j ensures !IsRootNameSlot(body, i, j) {
            if i != 0 {
              assert !IsRootNameSlot(rest, i - 1, j);
            }
          }
        }
      }
    }
  }

  /** The first root name slot, when there is one, is unique. */
  lemma FirstRootNameSlotUnique(body: seq<Statement>, i: int, j: int, i': int, j': int)
    requires IsFirstRootNameSlot(body, i, j) && IsFirstRootNameSlot(body, i', j')
    ensures i == i' && j == j'
  {
  }

  /** The search returns the value at the first root name slot, whichever slot that is. */
  lemma FirstRootNameValueAtFirstSlot(body: seq<Statement>)
    ensures FirstRootNameValue(body).None? <==> forall i, j :: !IsRootNameSlot(body, i, j)
    ensures forall i, j :: IsFirstRootNameSlot(body, i, j) ==> FirstRootNameValue(body) == Some(SlotValue(body, i, j))
  {
    FirstRootNameValueSpec(body);
    forall i, j | IsFirstRootNameSlot(body, i, j)
      ensures FirstRootNameValue(body) == Some(SlotValue(body, i, j))
    {
      var i', j' :| IsFirstRootNameSlot(body, i', j') && SlotValue(body, i', j') == FirstRootNameValue(body).value;
      FirstRootNameSlotUnique(body, i, j, i', j');
    }
  }

  /**
    The schema is found exactly when the first `name` property of a
    default-exported object holds a literal, and its name is that literal's
    string form; a later `name` property is never consulted.
   */
  function ResolveSchema(p: Program): (r: Option<Schema>)
    ensures r.Some? <==> exists i, j :: IsFirstRootNameSlot(p.body, i, j) && SlotValue(p.body, i, j).Literal?
    ensures forall i, j :: IsFirstRootNameSlot(p.body, i, j) && SlotValue(p.body, i, j).Literal? ==>
      r == Some(Schema(TemplateString(SlotValue(p.body, i, j).lit)))
  {
    FirstRootNameValueSpec(p.body);
    FirstRootNameValueAtFirstSlot(p.body);
    match FirstRootNameValue(p.body)
    case Some(Literal(v)) => Some(Schema(TemplateString(v)))
    case _ => None
  }

  /** Without any default-exported object literal there is nothing to convert. */
  lemma NoDefaultObjectNoSchema(p: Program)
    requires forall i :: 0 <= i < |p.body| ==>
      !(p.body[i].ExportDefaultDeclaration? && p.body[i].declaration.ObjectExpression?)
    ensures ResolveSchema(p) == None
  {
    FirstRootNameValueAtFirstSlot(p.body);
  }
}
