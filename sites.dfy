/**
  What each pass of `transform` (src/ts-satisfies.ts:133-207) does at one site,
  and at one statement, as functions: the specifications the passes in module
  Passes are proved against.
 */
module Sites {
  import opened Ast
  import opened Helpers

  // ---------------------------------------------------------------------------
  // First pass: an `as` expression directly under a declarator or a default export.

  function RewriteAsDeclarator(d: Declarator, r: Restriction): Declarator {
    var asExpression := GetAsExpression(DeclaratorParent(d));
    if asExpression.Some? && Eligible(asExpression.value.expression, asExpression.value.typeAnnotation, r)
    then Declarator(d.id.(typeAnnotation := None), Some(ConvertAsExpression(DeclaratorParent(d))))
    else d
  }

  function RewriteAsExport(e: Expr, r: Restriction): Expr {
    var asExpression := GetAsExpression(ExportDefaultParent(e));
    if asExpression.Some? && Eligible(asExpression.value.expression, asExpression.value.typeAnnotation, r)
    then ConvertAsExpression(ExportDefaultParent(e))
    else e
  }

  // ---------------------------------------------------------------------------
  // Second pass: an identifier declarator with an annotation and a literal init.

  function RewriteAnnotatedDeclarator(d: Declarator, r: Restriction): Declarator {
    if d.id.Identifier? && d.id.typeAnnotation.Some? && d.init.Some?
       && Eligible(d.init.value, d.id.typeAnnotation.value, r)
    then Declarator(d.id.(typeAnnotation := None), Some(SatisfiesExpression(d.init.value, d.id.typeAnnotation.value)))
    else d
  }

  // ---------------------------------------------------------------------------
  // Third pass: the arguments of every call.

  /** The callback mapped over one call's arguments. */
  function RewriteArgument(a: Expr, r: Restriction): Expr {
    if a.AsExpression? && Eligible(a.expression, a.typeAnnotation, r)
    then SatisfiesExpression(a.expression, a.typeAnnotation)
    else a
  }

  /**
    Every call inside e, outermost first: a call maps the callback over its
    arguments as they stand, then the calls nested in the callee and in the
    (possibly rewritten) arguments take their turn.
   */
  function RewriteCalls(e: Expr, r: Restriction): Expr
    decreases e, 0
  {
    match e
    case CallExpression(callee, args) =>
      CallExpression(RewriteCalls(callee, r), seq(|args|, i requires 0 <= i < |args| => RewriteCallsInArgument(args[i], r)))
    case ArrayExpression(es) =>
      ArrayExpression(seq(|es|, i requires 0 <= i < |es| => RewriteCalls(es[i], r)))
    case ObjectExpression(ps) =>
      ObjectExpression(seq(|ps|, i requires 0 <= i < |ps| => Property(ps[i].key, RewriteCalls(ps[i].value, r))))
    case AsExpression(x, t) => AsExpression(RewriteCalls(x, r), t)
    case SatisfiesExpression(x, t) => SatisfiesExpression(RewriteCalls(x, r), t)
    case _ => e
  }

  /** One argument: the callback's decision on the argument, then the calls nested inside it. */
  function RewriteCallsInArgument(a: Expr, r: Restriction): Expr
    decreases a, 1
  {
    if a.AsExpression? && Eligible(a.expression, a.typeAnnotation, r)
    then SatisfiesExpression(RewriteCalls(a.expression, r), a.typeAnnotation)
    else RewriteCalls(a, r)
  }

  function RewriteCallsInDeclarator(d: Declarator, r: Restriction): Declarator {
    Declarator(d.id, if d.init.Some? then Some(RewriteCalls(d.init.value, r)) else None)
  }

  // ---------------------------------------------------------------------------
  // Each pass at one statement, and the whole transform.

  function RewriteAsStatement(s: Statement, r: Restriction): Statement {
    match s
    case VariableDeclaration(kind, ds) =>
      VariableDeclaration(kind, seq(|ds|, i requires 0 <= i < |ds| => RewriteAsDeclarator(ds[i], r)))
    case ExportDefaultDeclaration(e) => ExportDefaultDeclaration(RewriteAsExport(e, r))
    case _ => s
  }

  function RewriteAnnotatedStatement(s: Statement, r: Restriction): Statement {
    match s
    case VariableDeclaration(kind, ds) =>
      VariableDeclaration(kind, seq(|ds|, i requires 0 <= i < |ds| => RewriteAnnotatedDeclarator(ds[i], r)))
    case _ => s
  }

  function RewriteCallsInStatement(s: Statement, r: Restriction): Statement {
    match s
    case VariableDeclaration(kind, ds) =>
      VariableDeclaration(kind, seq(|ds|, i requires 0 <= i < |ds| => RewriteCallsInDeclarator(ds[i], r)))
    case ExportDefaultDeclaration(e) => ExportDefaultDeclaration(RewriteCalls(e, r))
    case ExpressionStatement(e) => ExpressionStatement(RewriteCalls(e, r))
    case OtherStatement => s
  }

  /** The three passes in their fixed order, at one declarator. */
  function TransformDeclarator(d: Declarator, r: Restriction): Declarator {
    RewriteCallsInDeclarator(RewriteAnnotatedDeclarator(RewriteAsDeclarator(d, r), r), r)
  }

  /** The three passes in their fixed order, at one statement. */
  function TransformStatement(s: Statement, r: Restriction): Statement {
    RewriteCallsInStatement(RewriteAnnotatedStatement(RewriteAsStatement(s, r), r), r)
  }

  function TransformBody(body: seq<Statement>, r: Restriction): seq<Statement> {
    seq(|body|, i requires 0 <= i < |body| => TransformStatement(body[i], r))
  }

  /** The transform of a file with the given `types` option. */
  function TransformFile(body: seq<Statement>, types: OptionValue): seq<Statement> {
    TransformBody(body, TypeRestriction(types))
  }

  // ---------------------------------------------------------------------------
  // Outcome at one site.

  lemma AsDeclaratorOutcome(d: Declarator, r: Restriction)
    ensures var d' := RewriteAsDeclarator(d, r);
      if d.init.Some? && d.init.value.AsExpression? && Eligible(d.init.value.expression, d.init.value.typeAnnotation, r)
      then d' == Declarator(d.id.(typeAnnotation := None), Some(SatisfiesExpression(d.init.value.expression, d.init.value.typeAnnotation)))
      else d' == d
  {
  }

  lemma AsExportOutcome(e: Expr, r: Restriction)
    ensures RewriteAsExport(e, r) ==
      if e.AsExpression? && Eligible(e.expression, e.typeAnnotation, r)
      then SatisfiesExpression(e.expression, e.typeAnnotation)
      else e
  {
  }

  lemma AnnotatedDeclaratorOutcome(d: Declarator, r: Restriction)
    ensures var d' := RewriteAnnotatedDeclarator(d, r);
      if d.id.Identifier? && d.id.typeAnnotation.Some? && d.init.Some? && Eligible(d.init.value, d.id.typeAnnotation.value, r)
      then d' == Declarator(Identifier(d.id.name, None), Some(SatisfiesExpression(d.init.value, d.id.typeAnnotation.value)))
      else d' == d
  {
  }

  lemma ArgumentOutcome(a: Expr, r: Restriction)
    ensures RewriteArgument(a, r) == a || RewriteArgument(a, r) == SatisfiesExpression(a.expression, a.typeAnnotation)
    ensures RewriteArgument(a, r) != a <==> a.AsExpression? && Eligible(a.expression, a.typeAnnotation, r)
  {
  }

  /** The first pass looks only at declarations and default exports, the second only at declarations. */
  lemma PassesLeaveOtherStatements(s: Statement, r: Restriction)
    ensures !s.VariableDeclaration? && !s.ExportDefaultDeclaration? ==> RewriteAsStatement(s, r) == s
    ensures !s.VariableDeclaration? ==> RewriteAnnotatedStatement(s, r) == s
    ensures s.VariableDeclaration? ==>
      && RewriteAsStatement(s, r).kind == s.kind
      && |RewriteAsStatement(s, r).declarations| == |s.declarations|
      && RewriteAnnotatedStatement(s, r).kind == s.kind
      && |RewriteAnnotatedStatement(s, r).declarations| == |s.declarations|
  {
  }

  /** A site whose expression or type fails eligibility is left exactly as it was by every pass. */
  lemma IneligiblePairLeftAlone(e: Expr, t: Type, r: Restriction, id: Binding, name: string, init: Option<Expr>)
    requires !Eligible(e, t, r)
    ensures RewriteAsDeclarator(Declarator(id, Some(AsExpression(e, t))), r) == Declarator(id, Some(AsExpression(e, t)))
    ensures RewriteAsExport(AsExpression(e, t), r) == AsExpression(e, t)
    ensures RewriteAnnotatedDeclarator(Declarator(Identifier(name, Some(t)), Some(e)), r) == Declarator(Identifier(name, Some(t)), Some(e))
    ensures RewriteArgument(AsExpression(e, t), r) == AsExpression(e, t)
  {
  }

  /** A narrower allow-list rewrites a site only where a wider one rewrites it the same way. */
  lemma NarrowerRewritesLess(d: Declarator, e: Expr, a: Expr, r1: Restriction, r2: Restriction)
    requires Narrower(r1, r2)
    ensures RewriteAsDeclarator(d, r1) == d || RewriteAsDeclarator(d, r1) == RewriteAsDeclarator(d, r2)
    ensures RewriteAsExport(e, r1) == e || RewriteAsExport(e, r1) == RewriteAsExport(e, r2)
    ensures RewriteAnnotatedDeclarator(d, r1) == d || RewriteAnnotatedDeclarator(d, r1) == RewriteAnnotatedDeclarator(d, r2)
    ensures RewriteArgument(a, r1) == a || RewriteArgument(a, r1) == RewriteArgument(a, r2)
  {
  }

  // ---------------------------------------------------------------------------
  // The third pass at one call.

  /** The pass never changes the kind of the node it is applied to, nor an array literal's length. */
  lemma RewriteCallsKeepsKind(e: Expr, r: Restriction)
    ensures IsArrayOrObjectExpression(RewriteCalls(e, r)) == IsArrayOrObjectExpression(e)
    ensures RewriteCalls(e, r).AsExpression? == e.AsExpression?
    ensures RewriteCalls(e, r).SatisfiesExpression? == e.SatisfiesExpression?
    ensures e.AsExpression? ==> RewriteCalls(e, r) == AsExpression(RewriteCalls(e.expression, r), e.typeAnnotation)
    ensures e.SatisfiesExpression? ==> RewriteCalls(e, r) == SatisfiesExpression(RewriteCalls(e.expression, r), e.typeAnnotation)
    ensures e.ArrayExpression? ==> RewriteCalls(e, r).ArrayExpression? && |RewriteCalls(e, r).elements| == |e.elements|
  {
  }

  /**
    A call keeps its arguments' number and order; each argument becomes
    `satisfies` over its own expression and type exactly when it is an eligible
    `as` expression, and apart from that only the calls nested inside it change.
   */
  lemma CallArgumentsOutcome(callee: Expr, args: seq<Expr>, r: Restriction)
    ensures var c := RewriteCalls(CallExpression(callee, args), r);
      && c.CallExpression?
      && c.callee == RewriteCalls(callee, r)
      && |c.arguments| == |args|
      && forall i :: 0 <= i < |args| ==>
           c.arguments[i] == if args[i].AsExpression? && Eligible(args[i].expression, args[i].typeAnnotation, r)
                             then SatisfiesExpression(RewriteCalls(args[i].expression, r), args[i].typeAnnotation)
                             else RewriteCalls(args[i], r)
  {
  }

  /** No call inside: the third pass has nothing to visit. */
  predicate CallFree(e: Expr)
    decreases e
  {
    match e
    case CallExpression(_, _) => false
    case ArrayExpression(es) => forall i :: 0 <= i < |es| ==> CallFree(es[i])
    case ObjectExpression(ps) => forall i :: 0 <= i < |ps| ==> CallFree(ps[i].value)
    case AsExpression(x, _) => CallFree(x)
    case SatisfiesExpression(x, _) => CallFree(x)
    case _ => true
  }

  lemma {:induction false} CallFreeUnchanged(e: Expr, r: Restriction)
    requires CallFree(e)
    ensures RewriteCalls(e, r) == e
    decreases e
  {
    match e
    case ArrayExpression(es) =>
      forall i | 0 <= i < |es| ensures RewriteCalls(es[i], r) == es[i] {
        CallFreeUnchanged(es[i], r);
      }
    case ObjectExpression(ps) =>
      forall i | 0 <= i < |ps| ensures Property(ps[i].key, RewriteCalls(ps[i].value, r)) == ps[i] {
        CallFreeUnchanged(ps[i].value, r);
      }
    case AsExpression(x, _) => CallFreeUnchanged(x, r);
    case SatisfiesExpression(x, _) => CallFreeUnchanged(x, r);
    case _ =>
  }

  /**
    For a call whose arguments hold no further calls, each argument is either
    left as it was or replaced by the callback's satisfies node.
   */
  lemma {:induction false} FlatCallOutcome(callee: Expr, args: seq<Expr>, r: Restriction)
    requires forall i :: 0 <= i < |args| ==> CallFree(args[i])
    ensures var c := RewriteCalls(CallExpression(callee, args), r);
      && c == CallExpression(RewriteCalls(callee, r), c.arguments)
      && |c.arguments| == |args|
      && forall i :: 0 <= i < |args| ==> c.arguments[i] == RewriteArgument(args[i], r)
  {
    forall i | 0 <= i < |args|
      ensures RewriteCallsInArgument(args[i], r) == RewriteArgument(args[i], r)
    {
      CallFreeUnchanged(args[i], r);
      if args[i].AsExpression? {
        CallFreeUnchanged(args[i].expression, r);
      }
    }
  }

  /**
    Deciding on an argument before its nested calls are rewritten, or after,
    gives the same node: the order in which calls are visited does not matter.
   */
  lemma ArgumentOrderIrrelevant(a: Expr, r: Restriction)
    ensures RewriteCallsInArgument(a, r) == RewriteCalls(RewriteArgument(a, r), r)
    ensures RewriteCallsInArgument(a, r) == RewriteArgument(RewriteCalls(a, r), r)
  {
  }

  // ---------------------------------------------------------------------------
  // Sites some pass would rewrite.

  /** No call inside e has an argument that is an eligible `as` expression. */
  predicate NoEligibleArgument(e: Expr, r: Restriction)
    decreases e
  {
    match e
    case CallExpression(callee, args) =>
      && NoEligibleArgument(callee, r)
      && forall i :: 0 <= i < |args| ==>
           && !(args[i].AsExpression? && Eligible(args[i].expression, args[i].typeAnnotation, r))
           && NoEligibleArgument(args[i], r)
    case ArrayExpression(es) => forall i :: 0 <= i < |es| ==> NoEligibleArgument(es[i], r)
    case ObjectExpression(ps) => forall i :: 0 <= i < |ps| ==> NoEligibleArgument(ps[i].value, r)
    case AsExpression(x, _) => NoEligibleArgument(x, r)
    case SatisfiesExpression(x, _) => NoEligibleArgument(x, r)
    case _ => true
  }

  /** Neither the `as` init, nor the annotation with the init, nor a call argument in the init is eligible. */
  predicate NoEligibleDeclarator(d: Declarator, r: Restriction) {
    d.init.Some? ==>
      && !(d.init.value.AsExpression? && Eligible(d.init.value.expression, d.init.value.typeAnnotation, r))
      && !(d.id.Identifier? && d.id.typeAnnotation.Some? && Eligible(d.init.value, d.id.typeAnnotation.value, r))
      && NoEligibleArgument(d.init.value, r)
  }

  /** No site in s that any of the three passes would rewrite. */
  predicate NoEligibleSite(s: Statement, r: Restriction) {
    match s
    case VariableDeclaration(_, ds) => forall i :: 0 <= i < |ds| ==> NoEligibleDeclarator(ds[i], r)
    case ExportDefaultDeclaration(e) =>
      && !(e.AsExpression? && Eligible(e.expression, e.typeAnnotation, r))
      && NoEligibleArgument(e, r)
    case ExpressionStatement(e) => NoEligibleArgument(e, r)
    case OtherStatement => true
  }
}
