/**
  The input/output pairs of src/ts-satisfies.spec.ts, and the sibling and
  call-argument scenarios with a `types` list, as statements about TransformFile.
 */
module Fixtures {
  import opened Ast
  import opened Helpers
  import opened Sites

  function Ref(name: string): Type {
    TypeReference(Ident(name), [])
  }

  function Annotated(name: string, t: Type, init: Expr): Declarator {
    Declarator(Identifier(name, Some(t)), Some(init))
  }

  function Plain(name: string, init: Expr): Declarator {
    Declarator(Identifier(name, None), Some(init))
  }

  function ConstDeclaration(ds: seq<Declarator>): seq<Statement> {
    [VariableDeclaration(Const, ds)]
  }

  lemma OneStatementFile(s: Statement, types: OptionValue)
    ensures TransformFile([s], types) == [TransformStatement(s, TypeRestriction(types))]
  {
  }

  lemma OneDeclarator(kind: DeclarationKind, d: Declarator, r: Restriction)
    ensures TransformStatement(VariableDeclaration(kind, [d]), r) == VariableDeclaration(kind, [TransformDeclarator(d, r)])
  {
  }

  lemma TwoDeclarators(kind: DeclarationKind, d: Declarator, e: Declarator, r: Restriction)
    ensures TransformStatement(VariableDeclaration(kind, [d, e]), r)
         == VariableDeclaration(kind, [TransformDeclarator(d, r), TransformDeclarator(e, r)])
  {
  }

  /** A declarator whose init holds no call: only the first two passes can change it. */
  lemma DeclaratorWithoutCalls(d: Declarator, r: Restriction)
    requires d.init.Some? ==> CallFree(d.init.value)
    ensures TransformDeclarator(d, r) == RewriteAnnotatedDeclarator(RewriteAsDeclarator(d, r), r)
  {
    var d2 := RewriteAnnotatedDeclarator(RewriteAsDeclarator(d, r), r);
    if d2.init.Some? {
      assert CallFree(d2.init.value);
      CallFreeUnchanged(d2.init.value, r);
    }
  }

  /** `{ label: 'Label' }` */
  function LabelObject(): Expr {
    ObjectExpression([Property("label", Literal("'Label'"))])
  }

  /** `const applicationLevelRoutes: Model = { label: 'Label' };` */
  lemma HandlesSimpleTypes()
    ensures TransformFile(ConstDeclaration([Annotated("applicationLevelRoutes", Ref("Model"), LabelObject())]), Missing)
         == ConstDeclaration([Plain("applicationLevelRoutes", SatisfiesExpression(LabelObject(), Ref("Model")))])
  {
    var d := Annotated("applicationLevelRoutes", Ref("Model"), LabelObject());
    OneStatementFile(VariableDeclaration(Const, [d]), Missing);
    OneDeclarator(Const, d, None);
    assert CallFree(LabelObject());
    DeclaratorWithoutCalls(d, None);
  }

  /** `const applicationLevelRoutes: Model[] = [ { label: 'Label' } ];` */
  lemma HandlesArrayTypes()
    ensures TransformFile(ConstDeclaration([Annotated("applicationLevelRoutes", ArrayType(Ref("Model")), ArrayExpression([LabelObject()]))]), Missing)
         == ConstDeclaration([Plain("applicationLevelRoutes", SatisfiesExpression(ArrayExpression([LabelObject()]), ArrayType(Ref("Model"))))])
  {
    var d := Annotated("applicationLevelRoutes", ArrayType(Ref("Model")), ArrayExpression([LabelObject()]));
    OneStatementFile(VariableDeclaration(Const, [d]), Missing);
    OneDeclarator(Const, d, None);
    assert CallFree(LabelObject());
    assert CallFree(ArrayExpression([LabelObject()]));
    DeclaratorWithoutCalls(d, None);
  }

  /** `const meta: Meta<Foo> = { title: 'Title' };` */
  lemma HandlesGenericTypes()
    ensures var meta := TypeReference(Ident("Meta"), [Ref("Foo")]);
      var title := ObjectExpression([Property("title", Literal("'Title'"))]);
      TransformFile(ConstDeclaration([Annotated("meta", meta, title)]), Missing)
        == ConstDeclaration([Plain("meta", SatisfiesExpression(title, meta))])
  {
    var meta := TypeReference(Ident("Meta"), [Ref("Foo")]);
    var title := ObjectExpression([Property("title", Literal("'Title'"))]);
    var d := Annotated("meta", meta, title);
    OneStatementFile(VariableDeclaration(Const, [d]), Missing);
    OneDeclarator(Const, d, None);
    assert CallFree(title);
    DeclaratorWithoutCalls(d, None);
  }

  /** `const A = {} as Foo, B: Bar = {};` */
  lemma HandlesMultipleDeclarations()
    ensures TransformFile(ConstDeclaration([Plain("A", AsExpression(ObjectExpression([]), Ref("Foo"))),
                                            Annotated("B", Ref("Bar"), ObjectExpression([]))]), Missing)
         == ConstDeclaration([Plain("A", SatisfiesExpression(ObjectExpression([]), Ref("Foo"))),
                              Plain("B", SatisfiesExpression(ObjectExpression([]), Ref("Bar")))])
  {
    var a := Plain("A", AsExpression(ObjectExpression([]), Ref("Foo")));
    var b := Annotated("B", Ref("Bar"), ObjectExpression([]));
    OneStatementFile(VariableDeclaration(Const, [a, b]), Missing);
    TwoDeclarators(Const, a, b, None);
    DeclaratorWithoutCalls(a, None);
    DeclaratorWithoutCalls(b, None);
  }

  /** `const A: Foo = {} as Foo;` */
  lemma HandlesBothTypeAnnotations()
    ensures TransformFile(ConstDeclaration([Annotated("A", Ref("Foo"), AsExpression(ObjectExpression([]), Ref("Foo")))]), Missing)
         == ConstDeclaration([Plain("A", SatisfiesExpression(ObjectExpression([]), Ref("Foo")))])
  {
    var d := Annotated("A", Ref("Foo"), AsExpression(ObjectExpression([]), Ref("Foo")));
    OneStatementFile(VariableDeclaration(Const, [d]), Missing);
    OneDeclarator(Const, d, None);
    DeclaratorWithoutCalls(d, None);
  }

  /** `{ field: null, isVisible: true }` */
  function FieldsObject(): Expr {
    ObjectExpression([Property("field", Literal("null")), Property("isVisible", Literal("true"))])
  }

  /** `build({ field: null, isVisible: true } as Foo);` */
  lemma HandlesFunctionArgs()
    ensures TransformFile([ExpressionStatement(CallExpression(Name("build"), [AsExpression(FieldsObject(), Ref("Foo"))]))], Missing)
         == [ExpressionStatement(CallExpression(Name("build"), [SatisfiesExpression(FieldsObject(), Ref("Foo"))]))]
  {
    var args := [AsExpression(FieldsObject(), Ref("Foo"))];
    OneStatementFile(ExpressionStatement(CallExpression(Name("build"), args)), Missing);
    assert CallFree(FieldsObject());
    assert CallFree(args[0]);
    FlatCallOutcome(Name("build"), args, None);
    var c := RewriteCalls(CallExpression(Name("build"), args), None);
    assert c.arguments == [SatisfiesExpression(FieldsObject(), Ref("Foo"))];
  }

  /** `const A = {} as T, B: U = {};` with `types: ['U']`: only B is rewritten. */
  lemma SiblingsDecidedIndependently()
    ensures TransformFile(ConstDeclaration([Plain("A", AsExpression(ObjectExpression([]), Ref("T"))),
                                            Annotated("B", Ref("U"), ObjectExpression([]))]), List(["U"]))
         == ConstDeclaration([Plain("A", AsExpression(ObjectExpression([]), Ref("T"))),
                              Plain("B", SatisfiesExpression(ObjectExpression([]), Ref("U")))])
  {
    var a := Plain("A", AsExpression(ObjectExpression([]), Ref("T")));
    var b := Annotated("B", Ref("U"), ObjectExpression([]));
    OneStatementFile(VariableDeclaration(Const, [a, b]), List(["U"]));
    TwoDeclarators(Const, a, b, Some(["U"]));
    DeclaratorWithoutCalls(a, Some(["U"]));
    DeclaratorWithoutCalls(b, Some(["U"]));
  }

  /** A call whose callee and arguments hold no further call, alone in a file: each argument goes through the callback. */
  lemma FlatCallFile(callee: Expr, a: Expr, b: Expr, types: OptionValue)
    requires CallFree(callee) && CallFree(a) && CallFree(b)
    ensures var r := TypeRestriction(types);
      TransformFile([ExpressionStatement(CallExpression(callee, [a, b]))], types)
        == [ExpressionStatement(CallExpression(callee, [RewriteArgument(a, r), RewriteArgument(b, r)]))]
  {
    var r := TypeRestriction(types);
    OneStatementFile(ExpressionStatement(CallExpression(callee, [a, b])), types);
    FlatCallOutcome(callee, [a, b], r);
    CallFreeUnchanged(callee, r);
    var c := RewriteCalls(CallExpression(callee, [a, b]), r);
    assert c.arguments == [RewriteArgument(a, r), RewriteArgument(b, r)];
  }

  /** `{ foo: null }` and `{ bar: null }` */
  function FooObject(): Expr {
    ObjectExpression([Property("foo", Literal("null"))])
  }

  function BarObject(): Expr {
    ObjectExpression([Property("bar", Literal("null"))])
  }

  /** `f({ foo: null } as T, { bar: null } as U)`: both arguments without a list, only the first with `types: ['T']`. */
  lemma CallArgumentsDecidedIndependently()
    ensures var call := ExpressionStatement(CallExpression(Name("f"), [AsExpression(FooObject(), Ref("T")), AsExpression(BarObject(), Ref("U"))]));
      && TransformFile([call], Missing)
           == [ExpressionStatement(CallExpression(Name("f"), [SatisfiesExpression(FooObject(), Ref("T")), SatisfiesExpression(BarObject(), Ref("U"))]))]
      && TransformFile([call], List(["T"]))
           == [ExpressionStatement(CallExpression(Name("f"), [SatisfiesExpression(FooObject(), Ref("T")), AsExpression(BarObject(), Ref("U"))]))]
  {
    var a, b := AsExpression(FooObject(), Ref("T")), AsExpression(BarObject(), Ref("U"));
    assert CallFree(FooObject()) && CallFree(BarObject());
    assert CallFree(a) && CallFree(b);
    FlatCallFile(Name("f"), a, b, Missing);
    FlatCallFile(Name("f"), a, b, List(["T"]));
  }

  /** An `as` type that differs from the declared one wins: `const A: Bar = {} as Foo` becomes `const A = {} satisfies Foo`. */
  lemma AsTypeReplacesDeclaredType()
    ensures TransformFile(ConstDeclaration([Annotated("A", Ref("Bar"), AsExpression(ObjectExpression([]), Ref("Foo")))]), List(["Foo"]))
         == ConstDeclaration([Plain("A", SatisfiesExpression(ObjectExpression([]), Ref("Foo")))])
  {
    var d := Annotated("A", Ref("Bar"), AsExpression(ObjectExpression([]), Ref("Foo")));
    OneStatementFile(VariableDeclaration(Const, [d]), List(["Foo"]));
    OneDeclarator(Const, d, Some(["Foo"]));
    DeclaratorWithoutCalls(d, Some(["Foo"]));
  }

  /** A nested array type has no name, so a list never admits it: `const a: Foo[][] = [[]]` stays with `types: ['Foo']`. */
  lemma NestedArrayTypeNeedsNoList()
    ensures var t := ArrayType(ArrayType(Ref("Foo")));
      var init := ArrayExpression([ArrayExpression([])]);
      && TransformFile(ConstDeclaration([Annotated("a", t, init)]), List(["Foo"])) == ConstDeclaration([Annotated("a", t, init)])
      && TransformFile(ConstDeclaration([Annotated("a", t, init)]), Missing) == ConstDeclaration([Plain("a", SatisfiesExpression(init, t))])
  {
    var t := ArrayType(ArrayType(Ref("Foo")));
    var init := ArrayExpression([ArrayExpression([])]);
    var d := Annotated("a", t, init);
    OneStatementFile(VariableDeclaration(Const, [d]), List(["Foo"]));
    OneStatementFile(VariableDeclaration(Const, [d]), Missing);
    OneDeclarator(Const, d, Some(["Foo"]));
    OneDeclarator(Const, d, None);
    assert CallFree(init);
    DeclaratorWithoutCalls(d, Some(["Foo"]));
    DeclaratorWithoutCalls(d, None);
  }
}
