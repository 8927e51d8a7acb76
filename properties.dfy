/**
  Properties of the whole transform: a run with a wider allow-list absorbs a
  run with a narrower one. With equal lists this is idempotence; with a list
  followed by no list it is restriction monotonicity.
 */
module Properties {
  import opened Ast
  import opened Helpers
  import opened Sites

  lemma {:induction false} RewriteCallsAbsorbs(e: Expr, r1: Restriction, r2: Restriction)
    requires Narrower(r1, r2)
    ensures RewriteCalls(RewriteCalls(e, r1), r2) == RewriteCalls(e, r2)
    decreases e, 0
  {
    match e
    case CallExpression(callee, args) =>
      RewriteCallsAbsorbs(callee, r1, r2);
      var mid := RewriteCalls(e, r1);
      forall i | 0 <= i < |args|
        ensures RewriteCallsInArgument(mid.arguments[i], r2) == RewriteCallsInArgument(args[i], r2)
      {
        ArgumentAbsorbs(args[i], r1, r2);
      }
    case ArrayExpression(es) =>
      forall i | 0 <= i < |es| ensures RewriteCalls(RewriteCalls(es[i], r1), r2) == RewriteCalls(es[i], r2) {
        RewriteCallsAbsorbs(es[i], r1, r2);
      }
    case ObjectExpression(ps) =>
      forall i | 0 <= i < |ps|
        ensures RewriteCalls(RewriteCalls(ps[i].value, r1), r2) == RewriteCalls(ps[i].value, r2)
      {
        RewriteCallsAbsorbs(ps[i].value, r1, r2);
      }
    case AsExpression(x, _) => RewriteCallsAbsorbs(x, r1, r2);
    case SatisfiesExpression(x, _) => RewriteCallsAbsorbs(x, r1, r2);
    case _ =>
  }

  /** One call argument: the wider run either finds it already rewritten or rewrites it itself. */
  lemma {:induction false} ArgumentAbsorbs(a: Expr, r1: Restriction, r2: Restriction)
    requires Narrower(r1, r2)
    ensures RewriteCallsInArgument(RewriteCallsInArgument(a, r1), r2) == RewriteCallsInArgument(a, r2)
    decreases a, 1
  {
    RewriteCallsKeepsKind(a, r1);
    RewriteCallsAbsorbs(a, r1, r2);
    if a.AsExpression? {
      NarrowerAdmitsLess(a.expression, a.typeAnnotation, r1, r2);
      RewriteCallsKeepsKind(a.expression, r1);
      RewriteCallsKeepsKind(RewriteCalls(a.expression, r1), r2);
      RewriteCallsAbsorbs(a.expression, r1, r2);
    }
  }

  lemma {:induction false} InitAbsorbs(init: Option<Expr>, r1: Restriction, r2: Restriction)
    requires Narrower(r1, r2)
    ensures init.Some? ==> RewriteCalls(RewriteCalls(init.value, r1), r2) == RewriteCalls(init.value, r2)
  {
    if init.Some? {
      RewriteCallsAbsorbs(init.value, r1, r2);
    }
  }

  lemma {:induction false} DeclaratorAbsorbs(d: Declarator, r1: Restriction, r2: Restriction)
    requires Narrower(r1, r2)
    ensures TransformDeclarator(TransformDeclarator(d, r1), r2) == TransformDeclarator(d, r2)
  {
    InitAbsorbs(d.init, r1, r2);
    if d.init.Some? {
      var e := d.init.value;
      RewriteCallsKeepsKind(e, r1);
      if e.AsExpression? {
        NarrowerAdmitsLess(e.expression, e.typeAnnotation, r1, r2);
        RewriteCallsKeepsKind(e.expression, r1);
        RewriteCallsAbsorbs(e.expression, r1, r2);
      }
      if d.id.typeAnnotation.Some? {
        NarrowerAdmitsLess(e, d.id.typeAnnotation.value, r1, r2);
      }
    }
  }

  lemma {:induction false} ExportAbsorbs(e: Expr, r1: Restriction, r2: Restriction)
    requires Narrower(r1, r2)
    ensures RewriteCalls(RewriteAsExport(RewriteCalls(RewriteAsExport(e, r1), r1), r2), r2)
         == RewriteCalls(RewriteAsExport(e, r2), r2)
  {
    RewriteCallsKeepsKind(e, r1);
    RewriteCallsAbsorbs(e, r1, r2);
    if e.AsExpression? {
      NarrowerAdmitsLess(e.expression, e.typeAnnotation, r1, r2);
      RewriteCallsKeepsKind(e.expression, r1);
      RewriteCallsAbsorbs(e.expression, r1, r2);
    }
  }

  /** A declaration statement is the same as transforming each of its declarators on its own. */
  lemma DeclarationIsDeclaratorwise(kind: DeclarationKind, ds: seq<Declarator>, r: Restriction)
    ensures TransformStatement(VariableDeclaration(kind, ds), r)
         == VariableDeclaration(kind, seq(|ds|, i requires 0 <= i < |ds| => TransformDeclarator(ds[i], r)))
  {
  }

  lemma {:induction false} StatementAbsorbs(s: Statement, r1: Restriction, r2: Restriction)
    requires Narrower(r1, r2)
    ensures TransformStatement(TransformStatement(s, r1), r2) == TransformStatement(s, r2)
  {
    match s
    case VariableDeclaration(kind, ds) =>
      var ds1 := seq(|ds|, i requires 0 <= i < |ds| => TransformDeclarator(ds[i], r1));
      DeclarationIsDeclaratorwise(kind, ds, r1);
      DeclarationIsDeclaratorwise(kind, ds1, r2);
      DeclarationIsDeclaratorwise(kind, ds, r2);
      forall i | 0 <= i < |ds|
        ensures TransformDeclarator(ds1[i], r2) == TransformDeclarator(ds[i], r2)
      {
        DeclaratorAbsorbs(ds[i], r1, r2);
      }
    case ExportDefaultDeclaration(e) => ExportAbsorbs(e, r1, r2);
    case ExpressionStatement(e) => RewriteCallsAbsorbs(e, r1, r2);
    case OtherStatement =>
  }

  /** Running with a narrower allow-list and then with a wider one is the same as running with the wider one. */
  lemma {:induction false} WiderRunAbsorbsNarrowerRun(body: seq<Statement>, r1: Restriction, r2: Restriction)
    requires Narrower(r1, r2)
    ensures TransformBody(TransformBody(body, r1), r2) == TransformBody(body, r2)
  {
    forall i | 0 <= i < |body|
      ensures TransformStatement(TransformStatement(body[i], r1), r2) == TransformStatement(body[i], r2)
    {
      StatementAbsorbs(body[i], r1, r2);
    }
  }

  /** Running the transform on its own output changes nothing. */
  lemma {:induction false} TransformIdempotent(body: seq<Statement>, types: OptionValue)
    ensures TransformFile(TransformFile(body, types), types) == TransformFile(body, types)
  {
    NarrowerFacts(TypeRestriction(types), [], []);
    WiderRunAbsorbsNarrowerRun(body, TypeRestriction(types), TypeRestriction(types));
  }

  /**
    Every rewrite made with a `types` list is made without one: running without
    a list after running with one produces exactly the unrestricted output, so
    the list-run cannot have rewritten a site the unrestricted run leaves alone.
   */
  lemma {:induction false} RestrictionMonotone(body: seq<Statement>, names: seq<string>)
    ensures TransformFile(TransformFile(body, List(names)), Missing) == TransformFile(body, Missing)
  {
    NarrowerFacts(Some(names), [], []);
    WiderRunAbsorbsNarrowerRun(body, Some(names), None);
  }

  /** Adding names to the list can only add rewrites. */
  lemma {:induction false} LongerListAbsorbsShorter(body: seq<Statement>, names: seq<string>, more: seq<string>)
    ensures TransformFile(TransformFile(body, List(names)), List(names + more)) == TransformFile(body, List(names + more))
  {
    NarrowerFacts(Some(names), names, more);
    WiderRunAbsorbsNarrowerRun(body, Some(names), Some(names + more));
  }

  /** A `types` option that is not an array restricts nothing. */
  lemma NonListTypesIgnored(body: seq<Statement>, types: OptionValue)
    requires !types.List?
    ensures TransformFile(body, types) == TransformFile(body, Missing)
  {
  }

  /** `[]` and `[] as T` are never rewritten, whatever the annotation, the site and the option. */
  lemma EmptyArrayUntouched(id: Binding, callee: Expr, t: Type, r: Restriction)
    ensures TransformDeclarator(Declarator(id, Some(ArrayExpression([]))), r) == Declarator(id, Some(ArrayExpression([])))
    ensures TransformDeclarator(Declarator(id, Some(AsExpression(ArrayExpression([]), t))), r)
         == Declarator(id, Some(AsExpression(ArrayExpression([]), t)))
    ensures TransformStatement(ExportDefaultDeclaration(AsExpression(ArrayExpression([]), t)), r)
         == ExportDefaultDeclaration(AsExpression(ArrayExpression([]), t))
    ensures RewriteCalls(CallExpression(callee, [AsExpression(ArrayExpression([]), t)]), r)
         == CallExpression(RewriteCalls(callee, r), [AsExpression(ArrayExpression([]), t)])
  {
    assert RewriteCalls(ArrayExpression([]), r) == ArrayExpression([]);
  }

  /**
    An expression asserted `as any` or `as const`, or double-asserted
    `(x as any) as T`, keeps its assertion under every option, at a declarator,
    at a default export and as a call argument; only calls inside it change.
   */
  lemma EscapeHatchesUntouched(id: Binding, callee: Expr, e: Expr, r: Restriction)
    requires e.AsExpression?
    requires || e.typeAnnotation == KeywordType("any")
             || (e.typeAnnotation.TypeReference? && e.typeAnnotation.typeName == Ident("const"))
             || (e.expression.AsExpression? && e.expression.typeAnnotation == KeywordType("any"))
    ensures var kept := AsExpression(RewriteCalls(e.expression, r), e.typeAnnotation);
      && kept.expression.AsExpression? == e.expression.AsExpression?
      && TransformDeclarator(Declarator(id, Some(e)), r) == Declarator(id, Some(kept))
      && TransformStatement(ExportDefaultDeclaration(e), r) == ExportDefaultDeclaration(kept)
      && RewriteCalls(CallExpression(callee, [e]), r) == CallExpression(RewriteCalls(callee, r), [kept])
  {
    RewriteCallsKeepsKind(e.expression, r);
  }

  /** The third pass leaves an expression as it is exactly when no call inside it has an eligible argument. */
  lemma {:induction false} CallsUnchangedIff(e: Expr, r: Restriction)
    ensures RewriteCalls(e, r) == e <==> NoEligibleArgument(e, r)
    decreases e
  {
    match e
    case CallExpression(callee, args) =>
      CallsUnchangedIff(callee, r);
      forall i | 0 <= i < |args|
        ensures RewriteCallsInArgument(args[i], r) == args[i]
            <==> !(args[i].AsExpression? && Eligible(args[i].expression, args[i].typeAnnotation, r))
                 && NoEligibleArgument(args[i], r)
      {
        CallsUnchangedIff(args[i], r);
      }
    case ArrayExpression(es) =>
      forall i | 0 <= i < |es| ensures RewriteCalls(es[i], r) == es[i] <==> NoEligibleArgument(es[i], r) {
        CallsUnchangedIff(es[i], r);
      }
    case ObjectExpression(ps) =>
      forall i | 0 <= i < |ps|
        ensures Property(ps[i].key, RewriteCalls(ps[i].value, r)) == ps[i] <==> NoEligibleArgument(ps[i].value, r)
      {
        CallsUnchangedIff(ps[i].value, r);
      }
    case AsExpression(x, _) => CallsUnchangedIff(x, r);
    case SatisfiesExpression(x, _) => CallsUnchangedIff(x, r);
    case _ =>
  }

  /** A declarator comes out of the three passes unchanged exactly when it holds no eligible site. */
  lemma {:induction false} DeclaratorUnchangedIff(d: Declarator, r: Restriction)
    ensures TransformDeclarator(d, r) == d <==> NoEligibleDeclarator(d, r)
  {
    if d.init.Some? {
      var e := d.init.value;
      CallsUnchangedIff(e, r);
      var d1 := RewriteAsDeclarator(d, r);
      RewriteCallsKeepsKind(d1.init.value, r);
      RewriteCallsKeepsKind(RewriteAnnotatedDeclarator(d1, r).init.value, r);
    }
  }

  /** A statement comes out of the three passes unchanged exactly when it holds no eligible site. */
  lemma {:induction false} StatementUnchangedIff(s: Statement, r: Restriction)
    ensures TransformStatement(s, r) == s <==> NoEligibleSite(s, r)
  {
    match s
    case VariableDeclaration(kind, ds) =>
      DeclarationIsDeclaratorwise(kind, ds, r);
      forall i | 0 <= i < |ds| ensures TransformDeclarator(ds[i], r) == ds[i] <==> NoEligibleDeclarator(ds[i], r) {
        DeclaratorUnchangedIff(ds[i], r);
      }
    case ExportDefaultDeclaration(e) =>
      CallsUnchangedIff(e, r);
      RewriteCallsKeepsKind(RewriteAsExport(e, r), r);
    case ExpressionStatement(e) => CallsUnchangedIff(e, r);
    case OtherStatement =>
  }

  /** The transform leaves a file as it is exactly when no statement of it holds an eligible site. */
  lemma {:induction false} UnchangedIffNoEligibleSite(body: seq<Statement>, types: OptionValue)
    ensures TransformFile(body, types) == body
        <==> forall i :: 0 <= i < |body| ==> NoEligibleSite(body[i], TypeRestriction(types))
  {
    var r := TypeRestriction(types);
    forall i | 0 <= i < |body| ensures TransformStatement(body[i], r) == body[i] <==> NoEligibleSite(body[i], r) {
      StatementUnchangedIff(body[i], r);
    }
  }
}
