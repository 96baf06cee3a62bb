# Sanity schema conversion, modelled in Dafny

This project models the schema conversion of `sanity-ts-schema-codemod`
(`src/transformers/schema.ts`). It takes one JavaScript module whose default
export is a Sanity schema written as a plain object literal and rewrites it
into the typed form:

1. find the schema name: the first `name` property, with an identifier key,
   whose object literal is directly the default export's declaration. If
   there is none, or its value is not a literal, the file is left unchanged;
2. prepend `import { defineField, defineType } from "sanity"`;
3. delete every `__experimental_actions` property, at any depth;
4. wrap the default-exported object in `defineType(...)` and every object
   that is directly an element of an array held by a `fields` property in
   `defineField(...)`;
5. replace `export default <call>` by `export const <name> = <call>`.

The parsed module is a value of the datatypes in `js_ast.dfy`. A `Program`
is a list of `Statement`s (import, default export, named `const` export,
other). The expression nodes are object literal, property, array, call,
identifier, literal and "other". An `export default` is modelled as a
top-level statement only. The transform (`schema_transformer.dfy`)
is written as in the source: a method that updates the statement list step by
step. Each whole-tree pass is a loop over the statements. Inside the loop, a
recursive function (`schema_passes.dfy`) rewrites each statement's nodes.

The wrapping rule looks at an object's parent and grandparent. The model
passes this context down the recursion as a `Parent` value: under a default
export, under a `fields` property, in an array (and whether that array's
parent is a `fields` property), or elsewhere. The library collects every
object literal before it replaces any of them. Each object's parent chain is
the one from the tree the pass started on. So an object is classified by its
place in that tree, even when an enclosing object has already been wrapped.
Key matching reads `key.name`, so only identifier keys match. A string key
`"fields"` or `"name"` does not.

The code does only these five steps. It has no pruning of excluded field
types: the command line parses a `--remove-field-types` option and passes it
to `convertSchemas` (`src/index.ts:14-27`), but `convertSchemas` ignores it:
its destructured parameter takes only the input and output directories
(`src/commands/convert-schemas.ts:9-15`).
It has no pruning of orphaned fieldsets and no rewriting of import paths. It
always imports both `defineField` and `defineType`, even when there are no
fields. It uses the schema name as the identifier without normalising it. Its
wrapping rules apply to every `fields` array in the file, not only to arrays
inside the schema.

## Model

| member | source | states |
|---|---|---|
| `SchemaResolver.FirstNameValue` | src/transformers/schema.ts:106-113 | no result exactly when no property of the object has the identifier key `name`; otherwise the result is the value of the first such property |
| `SchemaResolver.FirstRootNameValue` | src/transformers/schema.ts:106-113 | no result exactly when no statement default-exports an object with an identifier-keyed `name` property; otherwise the result is that property's value in the first such statement, every earlier statement having none |
| `SchemaResolver.FirstRootNameValueSpec` | src/transformers/schema.ts:106-113 | the search finds nothing exactly when no `name` property sits in an object that is directly a default export; otherwise it returns the value of the first such property in traversal order (statement, then property position) |
| `SchemaResolver.FirstRootNameValueAtFirstSlot` | src/transformers/schema.ts:106-113 | whichever slot is the first root `name` slot, the search returns exactly its value |
| `SchemaResolver.ResolveSchema` | src/transformers/schema.ts:105-122 | a schema is found exactly when the first root `name` property holds a literal; its name is that literal's string form; a later `name` property is never used |
| `SchemaResolver.NoDefaultObjectNoSchema` | src/transformers/schema.ts:115-117 | a module with no object literal directly under a default export resolves to no schema |
| `LiteralText.NatToDecimal` | src/transformers/schema.ts:120 | the string form of a whole number is a non-empty run of decimal digits without a leading zero |
| `LiteralText.DecimalRoundTrip` | src/transformers/schema.ts:120 | reading back the decimal digits of a whole number gives the number |
| `LiteralText.TemplateString` | src/transformers/schema.ts:120 | a string literal gives itself; a numeric literal gives its decimal digits, with no leading zero, that read back as the number; `true`/`false` for a boolean, each exactly for its value; `null` for null |
| `SchemaPasses.SanityImport` | src/transformers/schema.ts:21-36 | an import from `sanity` of exactly `defineField` and `defineType`, holding no expression node and no property |
| `SchemaTransformer.Transformer` | src/transformers/schema.ts:5-98 | "no change" exactly when no schema is resolved; otherwise the result is the conversion of the module. It starts with the one new import and is one statement longer. A well-formed input leaves no `__experimental_actions` property. Running the transform again on the result gives "no change" |
| `SchemaTransformer.ConvertBody` | src/transformers/schema.ts:20-95 | prepending the import and running the removal, wrapping and export passes over the statement list, in that order, gives the converted module |
| `SchemaTransformer.PassesGiveConverted` | src/transformers/schema.ts:39-95 | the three passes, each applied statement by statement to the output of the one before, compose to the conversion |
| `SchemaTransformer.ConvertedLeavesNoActions` | src/transformers/schema.ts:42-95 | no statement of a converted well-formed module holds an `__experimental_actions` property; the later passes bring none back |
| `SchemaTransformer.Converted` | src/transformers/schema.ts:20-95 | the converted body is the `sanity` import followed by every original statement, rewritten, in the original order |
| `SchemaTransformer.ConvertStatement` | src/transformers/schema.ts:42-95 | no converted statement default-exports an object literal; an import statement passes through unchanged |
| `SchemaTransformer.RemoveExperimentalActions` | src/transformers/schema.ts:42 | the removal rewrites each statement in place and keeps their number and order. Each new statement is the old one with some `__experimental_actions` properties deleted from child lists and every other node in its place. None is left in well-formed statements. The property keys lost are exactly those of the removed properties, and so is the number of nodes lost |
| `SchemaPasses.StripNode` | src/transformers/schema.ts:42 | the result is the node with some `__experimental_actions` properties deleted from child lists and every other node in its place; it keeps its kind, a leaf is untouched, and the number of nodes it loses is the size of the removed properties |
| `SchemaPasses.StripList` | src/transformers/schema.ts:42 | a child list never grows, keeps no `__experimental_actions` property among its elements, and keeps every other element, in order, with only such deletions inside it |
| `SchemaPasses.StripStatement` | src/transformers/schema.ts:42 | a statement keeps its kind and declared name, an import is untouched, and its nodes change only by such deletions |
| `SchemaPasses.StripLeavesNoActions` | src/transformers/schema.ts:42 | after removal no property keyed `__experimental_actions` remains at any depth of a well-formed node |
| `SchemaPasses.StripListLeavesNoActions` | src/transformers/schema.ts:42 | the same for a list of child nodes, where the matching properties are dropped |
| `SchemaPasses.StripStatementLeavesNoActions` | src/transformers/schema.ts:42 | the same for one statement |
| `SchemaPasses.StripKeepsTreeWithoutActions` | src/transformers/schema.ts:42 | a node without `__experimental_actions` properties is returned unchanged |
| `SchemaPasses.StripListKeepsListWithoutActions` | src/transformers/schema.ts:42 | a child list without `__experimental_actions` properties is returned unchanged |
| `SchemaPasses.StripIsOnlyRemoval` | src/transformers/schema.ts:42 | any result that deletes only `__experimental_actions` properties, keeping every other node in place, and leaves no such property is the removal's result: the removal is determined |
| `SchemaPasses.StripListIsOnlyRemoval` | src/transformers/schema.ts:42 | the same for a list of child nodes |
| `SchemaPasses.StripStatementIsOnlyRemoval` | src/transformers/schema.ts:42 | the same for one statement |
| `SchemaPasses.StripPropKeysAccount` | src/transformers/schema.ts:42 | the key of every property of the input, identifier, string or computed, is either still in the output or inside a removed property; no other property is removed |
| `SchemaPasses.StripListPropKeysAccount` | src/transformers/schema.ts:42 | the same accounting for a list of child nodes |
| `SchemaPasses.StripStatementPropKeysAccount` | src/transformers/schema.ts:42 | the same accounting for one statement |
| `SchemaPasses.WrapNode` | src/transformers/schema.ts:45-77 | an object literal directly under a default export becomes `defineType` of an object with as many properties; one directly in a `fields` array becomes `defineField` of one; any other object literal stays an object literal with as many properties; any other node keeps its kind, and a leaf is untouched |
| `SchemaPasses.WrapList` | src/transformers/schema.ts:45-77 | every element of a child list is rewritten in its own place, with the list's parent, and none is added or dropped |
| `SchemaPasses.WrapStatement` | src/transformers/schema.ts:45-58 | a statement keeps its kind and declared name, an import is untouched, and a default-exported object literal becomes a `defineType` call |
| `SchemaTransformer.WrapObjectExpressions` | src/transformers/schema.ts:45-77 | each statement is wrapped in place. Afterwards no object literal is bare directly under a default export or in a `fields` array. For every statement, whatever factory calls it already had, removing the factory layers that stand in those two positions gives the same before and after, so no call is added anywhere else. A statement whose factory calls all stood in those two positions still has none elsewhere. Unwrapping one layer gives the same as unwrapping the input, for every statement, and gives back each statement that had no factory calls |
| `SchemaPasses.WrapStatementSpec` | src/transformers/schema.ts:45-77 | for one statement: nothing left bare where a factory call belongs; for every input, removing the factory layers that stand directly under the default export or directly in a `fields` array gives the same before and after wrapping, so wrapping adds calls in those positions only; if the input had factory calls only where the rules put them, so does the output; unwrapping the output gives what unwrapping the input gives, and gives the input back when it had no factory calls |
| `SchemaPasses.UnwrapWrap` | src/transformers/schema.ts:45-77 | for every node, factory calls already present or not, wrapping adds only one call layer around some object literals and changes nothing else: unwrapping the result gives what unwrapping the input gives |
| `SchemaPasses.UnwrapWrapList` | src/transformers/schema.ts:45-77 | the same for a list of child nodes |
| `SchemaPasses.UnplaceWrap` | src/transformers/schema.ts:45-77 | for every node and position, factory calls already present or not: removing `defineType(obj)` layers directly under a default export and `defineField(obj)` layers directly in a `fields` array, and no other call, gives the same tree before and after wrapping. Wrapping adds calls in those two positions and nowhere else |
| `SchemaPasses.UnplaceWrapList` | src/transformers/schema.ts:61-76 | the same for a list of child nodes, given the list's position |
| `SchemaPasses.UnwrapWithoutFactoryCalls` | src/transformers/schema.ts:45-77 | unwrapping leaves a node without `defineType`/`defineField` calls as it is |
| `SchemaPasses.UnwrapListWithoutFactoryCalls` | src/transformers/schema.ts:45-77 | the same for a list of child nodes |
| `SchemaPasses.WrapSettles` | src/transformers/schema.ts:45-77 | after wrapping, the object directly under a default export and every object directly in an array held by an identifier-keyed `fields` property are wrapped |
| `SchemaPasses.WrapListSettles` | src/transformers/schema.ts:61-76 | the same for the elements of a list, given the list's position |
| `SchemaPasses.WrapPlaces` | src/transformers/schema.ts:45-77 | if the input had `defineType(obj)` only directly under a default export and `defineField(obj)` only directly in a `fields` array, so does the output: wrapping wraps no object elsewhere (for inputs with calls in other places, see `UnplaceWrap`) |
| `SchemaPasses.WrapListPlaces` | src/transformers/schema.ts:61-76 | the same for the elements of a list |
| `SchemaPasses.DefaultObjectBecomesDefineType` | src/transformers/schema.ts:47-58 | a default-exported object literal becomes a `defineType` call whose one argument unwraps as the object does; when the object held no factory calls, the argument unwraps to that same object |
| `SchemaTransformer.WrapKeepsPropKeys` | src/transformers/schema.ts:45-77 | wrapping neither adds nor removes a property: the keys of all properties, counted by label, are the same |
| `SchemaTransformer.WrapListKeepsPropKeys` | src/transformers/schema.ts:45-77 | the same for a list of child nodes |
| `SchemaTransformer.WrapStatementKeepsPropKeys` | src/transformers/schema.ts:45-77 | the same for one statement |
| `SchemaPasses.NameDefaultExport` | src/transformers/schema.ts:80-95 | a default export of a call becomes `export const <name> = <that same call>`; a default export of anything else, and every other statement, stays as it was; no property is added or lost |
| `SchemaTransformer.ReplaceDefaultExport` | src/transformers/schema.ts:80-95 | each statement is rewritten in place by that rule. No default export of a call remains |
| `SchemaTransformer.ConvertedRootSchema` | src/transformers/schema.ts:47-94 | the statement that default-exported the schema object becomes `export const <name> = defineType(obj)`, where `obj` unwraps as the object after removal does, and unwraps to that object itself when it held no factory calls |
| `SchemaTransformer.ConvertedIsFinal` | src/transformers/schema.ts:105-117 | the converted module resolves to no schema, so converting it again gives "no change" |

## Left out

- Parsing the source text and printing the tree back (lines 8 and 97) belong to the jscodeshift/recast library. The model starts from a parsed tree and ends with a tree.
- The check for a missing program node (lines 14-18) is not modelled. A parsed module always has one, and in the model `Program` is the root of the tree.
- In-place mutation of shared node objects is modelled on values: each pass rebuilds the statement list. The tree has no sharing, so nothing observable differs.
- Node kinds the rewrite never inspects are collapsed into `Other`, which keeps only its child nodes: spread elements, functions, object patterns, array holes, and so on. Statements other than imports and exports become `OtherStatement`. A named export is modelled only as a single-declarator variable declaration. Import specifiers are kept as names only, without import attributes.
- Literal values are strings, whole numbers, booleans and `null`. A negative number is a unary minus applied to a literal, so it is an `Other` node and never a schema name. Floating-point numbers, regular expressions and BigInt are not modelled. Whole numbers are written in plain decimal, which is how JavaScript prints integers below 10^21. JavaScript's exponent form and its loss of precision above 2^53 are not modelled.
- StripLeavesNoActions: assumes that properties sit only in lists of child nodes, as every parser produces them (`WellFormed`). The library's removal of a property held in a single-child slot is not modelled.
- The batch command (`src/commands/convert-schemas.ts`) is not part of this model: file discovery, copying, renaming `.js` to `.ts`, and the worker runner. Neither is the command line (`src/index.ts`) nor its option validation (`src/schemas.ts`).
- The identifier built from the schema name is used verbatim. A name that is not a valid JavaScript identifier produces invalid output, as in the source. A numeric `name` always does: `name: 42` yields `export const 42 = ...`.
- An `export default` nested inside a block or function is not modelled. A permissive parser may accept one, and the source's searches would then find it; the model has default exports only as top-level statements.
- Comments are not modelled. Replacing the default export (lines 85-94) builds a new statement node, so comments attached to the old `export default` statement are not carried over to the named export.
- StripPropKeysAccount: counts a computed key that is neither an identifier nor a literal as one placeholder; the properties inside such a key are counted where they stand.
