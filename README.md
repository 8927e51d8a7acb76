# ts-satisfies in Dafny

This project models the rewrite-decision engine of the jscodeshift transform
`src/ts-satisfies.ts`. The transform migrates TypeScript type assertions to
conformance checks:

- `const x = {…} as T` and `export default {…} as T` become `… satisfies T`.
- An annotated declaration `const x: T = {…}` becomes `const x = {…} satisfies T`.
- A call argument `f({…} as T)` becomes `f({…} satisfies T)`.

A site is rewritten only when all of these hold:

- its expression is an object literal or a non-empty array literal;
- its type is an array type, or a reference to a plain identifier other than `const`;
- the optional `types` allow-list admits the type's name.

The syntax tree is a set of closed datatypes (module `Ast`). The parser and the
printer are outside the model. The helpers at lines 26-131 are pure functions
(module `Helpers`). What each pass does at one site, at one statement and at a
whole file is stated as functions (module `Sites`). The three passes are
methods that update a file's statements in place, an `array<Statement>`, and
each is proved against those functions (module `Passes`).

The main theorem is `Properties.WiderRunAbsorbsNarrowerRun`. Take two
allow-lists where the first admits no name the second does not. Running the
transform with the first list and then with the second gives exactly the
result of running it with the second list alone. Two corollaries follow:

- With equal lists, the transform is idempotent: it never wraps a `satisfies` twice.
- With a list followed by no list, every rewrite made under a list is also made without one.

`Fixtures` restates the inline tests of `src/ts-satisfies.spec.ts` as lemmas
about `TransformFile`.

Some behaviour of the code is easy to overlook:

- `validTypeAnnotation` accepts only array types and references to a plain identifier. Union and intersection types are `OtherType` in the model and are never rewritten.
- The transform reads only the `types` option.
- An angle-bracket assertion `<T>expr` is not a `TSAsExpression`, the only assertion node the passes look for (lines 145 and 198). It is never rewritten.
- A declarator with both an annotation and an `as` init is rewritten by the first pass. The `as` type is kept and the annotation is dropped. See `Fixtures.AsTypeReplacesDeclaredType` and the test at `src/ts-satisfies.spec.ts:37-43`.
- `!!typeName` at line 130 is JavaScript truthiness. A list therefore never admits a type whose name is the empty string.
- A `types` option that is not an array, such as a single string, means no restriction (`Array.isArray` at line 140).

## Model

| member | source | states |
|---|---|---|
| `Helpers.EligibleLiterals` | src/ts-satisfies.ts:26-34 | object literals are eligible; an array literal is eligible iff it has an element; `as`, `satisfies`, call, identifier, scalar and every other node are not |
| `Helpers.GetAsExpression` | src/ts-satisfies.ts:42-54 | yields the declarator's init or the default export's declaration exactly when that child is an `as` expression, and nothing for any other parent |
| `Helpers.ConvertAsExpression` | src/ts-satisfies.ts:62-69 | the result is a `satisfies` node whose `as` twin, with the same expression and type, is the child under the parent |
| `Helpers.ValidTypeShapes` | src/ts-satisfies.ts:77-87 | every array type is valid; an identifier reference is valid iff its name is not `const`; qualified names, keyword types such as `any`, and every other type are invalid |
| `Helpers.TypeNames` | src/ts-satisfies.ts:95-115 | a reference to `n` and an array of it are both named `n`; a nested array has no name; a valid reference always has a name; a valid array has one iff its element is an identifier reference |
| `Helpers.RestrictionAdmits` | src/ts-satisfies.ts:124-131 | no list admits every type; an empty list admits none; a list admits `n` or `n[]` iff `n` is non-empty and listed; a nameless type is never admitted by a list |
| `Helpers.OnlyListsRestrict` | src/ts-satisfies.ts:140-142 | the `types` option restricts iff it is an array, and then it is exactly that array; anything else means no restriction |
| `Helpers.NarrowerAdmitsLess` | src/ts-satisfies.ts:124-131 | a type or site admitted under a narrower list is admitted under a wider one, and under no list |
| `Sites.AsDeclaratorOutcome` | src/ts-satisfies.ts:144-167 | a declarator changes iff its init is an eligible `as` expression; then its init becomes `satisfies` over the same expression and type, and its binding keeps its name but loses its annotation |
| `Sites.AsExportOutcome` | src/ts-satisfies.ts:144-161 | a default export changes iff its declaration is an eligible `as` expression, which becomes `satisfies` over the same expression and type |
| `Sites.AnnotatedDeclaratorOutcome` | src/ts-satisfies.ts:169-194 | an identifier declarator with an annotation and an eligible literal init becomes `name = init satisfies annotation` with the annotation removed; every other declarator is left as it was |
| `Sites.ArgumentOutcome` | src/ts-satisfies.ts:197-204 | the callback returns the argument itself or `satisfies` over its expression and type, and the latter iff the argument is an eligible `as` expression |
| `Sites.PassesLeaveOtherStatements` | src/ts-satisfies.ts:144-194 | the first pass changes only declarations and default exports, the second only declarations, and both keep a declaration's kind and number of declarators |
| `Sites.IneligiblePairLeftAlone` | src/ts-satisfies.ts:150-154 | a pair failing any of the three conjuncts is left unchanged at a declarator, a default export, an annotated declarator and a call argument |
| `Sites.NarrowerRewritesLess` | src/ts-satisfies.ts:150-154 | at every kind of site, a narrower list either leaves the site alone or rewrites it exactly as the wider list does |
| `Sites.RewriteCallsKeepsKind` | src/ts-satisfies.ts:196-205 | rewriting call arguments never changes the kind of the node it works on, whether it is an eligible literal, or an array literal's length |
| `Sites.CallArgumentsOutcome` | src/ts-satisfies.ts:196-205 | a call keeps its number and order of arguments; each becomes `satisfies` over its own expression and type iff it is an eligible `as` expression; otherwise only calls nested in it change |
| `Sites.CallFreeUnchanged` | src/ts-satisfies.ts:196-205 | an expression containing no call is not changed by the third pass |
| `Sites.FlatCallOutcome` | src/ts-satisfies.ts:196-205 | for arguments without nested calls, each argument is exactly the callback's result on it, and the length is kept |
| `Sites.ArgumentOrderIrrelevant` | src/ts-satisfies.ts:196-205 | deciding on an argument before or after the calls nested in it are rewritten gives the same node |
| `Properties.RewriteCallsAbsorbs` | src/ts-satisfies.ts:196-205 | a wider third pass after a narrower one equals the wider pass alone, for any expression |
| `Properties.ArgumentAbsorbs` | src/ts-satisfies.ts:197-204 | the same absorption for one call argument |
| `Properties.DeclaratorAbsorbs` | src/ts-satisfies.ts:144-194 | the same absorption for one declarator through all three passes |
| `Properties.ExportAbsorbs` | src/ts-satisfies.ts:144-167 | the same absorption for one default export |
| `Properties.DeclarationIsDeclaratorwise` | src/ts-satisfies.ts:169-194 | a declaration's result is each declarator's own result, in order, so siblings do not affect each other |
| `Properties.StatementAbsorbs` | src/ts-satisfies.ts:144-205 | the same absorption for one statement |
| `Properties.WiderRunAbsorbsNarrowerRun` | src/ts-satisfies.ts:133-207 | for a narrower and a wider allow-list, running with the narrower and then the wider equals running with the wider alone |
| `Properties.TransformIdempotent` | src/ts-satisfies.ts:133-207 | running the transform on its own output changes nothing |
| `Properties.RestrictionMonotone` | src/ts-satisfies.ts:150-154 | running without a list after running with one gives the unrestricted result, so a list only removes rewrites |
| `Properties.LongerListAbsorbsShorter` | src/ts-satisfies.ts:124-131 | adding names to the list only adds rewrites |
| `Properties.NonListTypesIgnored` | src/ts-satisfies.ts:140-142 | with a non-array `types` option the output equals the output with no option |
| `Properties.EmptyArrayUntouched` | src/ts-satisfies.ts:31 | `[]` and `[] as T` are never rewritten at a declarator with any binding, at a default export, or as a call argument `f([] as T)`, under every option |
| `Properties.EscapeHatchesUntouched` | src/ts-satisfies.ts:77-87 | `e as any`, `e as const` and `(x as any) as T`, with any operand, keep their assertion at a declarator, at a default export and as a call argument, under every option; only the calls inside the operand change |
| `Properties.CallsUnchangedIff` | src/ts-satisfies.ts:196-205 | the third pass leaves an expression unchanged iff no call inside it has an eligible `as` argument |
| `Properties.DeclaratorUnchangedIff` | src/ts-satisfies.ts:144-205 | the three passes leave a declarator unchanged iff its `as` init, its annotation with its init, and the call arguments in its init are all ineligible |
| `Properties.StatementUnchangedIff` | src/ts-satisfies.ts:144-205 | the three passes leave a statement unchanged iff it holds no eligible site |
| `Properties.UnchangedIffNoEligibleSite` | src/ts-satisfies.ts:133-207 | the transform returns a file unchanged iff none of its statements holds a site eligible under the parsed `types` option |
| `Passes.RewriteAsDeclarators` | src/ts-satisfies.ts:147-166 | the first pass over a declaration's declarators keeps their number and gives each declarator's own outcome |
| `Passes.RewriteAnnotatedDeclarators` | src/ts-satisfies.ts:170-193 | the second pass's filter-then-rewrite over the declarators keeps their number and gives each declarator's own outcome |
| `Passes.RewriteCallsIn` | src/ts-satisfies.ts:196-205 | rewriting every call under an expression yields the specified third-pass result |
| `Passes.RewriteCallsInDeclarators` | src/ts-satisfies.ts:196-205 | the third pass under a declaration rewrites each declarator's init and keeps its binding |
| `Passes.RewriteAsParents` | src/ts-satisfies.ts:144-167 | after the first pass every statement holds its first-pass outcome, and each position depends only on its own old statement |
| `Passes.RewriteAnnotatedDeclarations` | src/ts-satisfies.ts:169-194 | after the second pass every statement holds its second-pass outcome |
| `Passes.RewriteCallArguments` | src/ts-satisfies.ts:196-205 | after the third pass every statement holds its third-pass outcome |
| `Passes.Transform` | src/ts-satisfies.ts:133-207 | parsing the option and running the three passes in order leaves the file equal to `TransformFile` of the old file |
| `Fixtures.HandlesSimpleTypes` | src/ts-satisfies.spec.ts:5-11 | `const applicationLevelRoutes: Model = {…}` becomes `const applicationLevelRoutes = {…} satisfies Model` |
| `Fixtures.HandlesArrayTypes` | src/ts-satisfies.spec.ts:13-19 | `Model[]` with a one-element array literal is rewritten |
| `Fixtures.HandlesGenericTypes` | src/ts-satisfies.spec.ts:21-27 | `Meta<Foo>` is a valid shape and is rewritten |
| `Fixtures.HandlesMultipleDeclarations` | src/ts-satisfies.spec.ts:29-35 | `const A = {} as Foo, B: Bar = {}` rewrites both declarators |
| `Fixtures.HandlesBothTypeAnnotations` | src/ts-satisfies.spec.ts:37-43 | `const A: Foo = {} as Foo` becomes `const A = {} satisfies Foo` |
| `Fixtures.HandlesFunctionArgs` | src/ts-satisfies.spec.ts:45-51 | `build({…} as Foo)` becomes `build({…} satisfies Foo)` |
| `Fixtures.SiblingsDecidedIndependently` | src/ts-satisfies.ts:169-194 | with `types: ['U']`, `const A = {} as T, B: U = {}` rewrites exactly B |
| `Fixtures.CallArgumentsDecidedIndependently` | src/ts-satisfies.ts:196-205 | `f({…} as T, {…} as U)` rewrites both arguments with no list, and only the first with `types: ['T']` |
| `Fixtures.AsTypeReplacesDeclaredType` | src/ts-satisfies.ts:163-166 | `const A: Bar = {} as Foo` becomes `const A = {} satisfies Foo`, dropping `Bar` |
| `Fixtures.NestedArrayTypeNeedsNoList` | src/ts-satisfies.ts:105-115 | `Foo[][]` is rewritten with no list but never with `types: ['Foo']`, because a nested array type has no name |

## Left out

- Parsing and printing (`j(file.source)` and `root.toSource()`) are not modelled. A file is given as its parsed top-level statements and the result is the updated statements.
- The jscodeshift traversal (`find`, `map` to the parent, `filter`, `forEach`) becomes explicit loops over the statements and recursion over expressions.
- Statements nested in other statements are not represented: blocks, function and class bodies, and `export const …`. Neither are expressions inside function expressions and other opaque nodes. The source's `find` reaches those sites too. The model does not.
- Node identity and aliasing are not represented. Nodes are values, and updating a declarator object in place is modelled as replacing its value at its position.
- Only `CallExpression` nodes count as calls. `new` expressions and optional calls are opaque, and calls inside a destructuring pattern's default values are not visited.
- Elements of an array-valued `types` option are taken to be strings.
- `export const parser = 'ts'` is parser configuration and is not modelled.
- The test runner and the build configuration (`vitest.config.ts`, `jest.config.ts`) have no logic to model.
