/**
  The three passes of `transform` (src/ts-satisfies.ts:133-207), each updating
  the statements of a file in place, proved against the functions of module
  Sites.
 */
module Passes {
  import opened Ast
  import opened Helpers
  import opened Sites

  /** The first pass's visit to each declarator of one declaration that holds an `as` init. */
  method RewriteAsDeclarators(ds: seq<Declarator>, r: Restriction) returns (out: seq<Declarator>)
    ensures |out| == |ds|
    ensures forall i :: 0 <= i < |ds| ==> out[i] == RewriteAsDeclarator(ds[i], r)
  {
    out := [];
    for i := 0 to |ds|
      invariant |out| == i
      invariant forall k :: 0 <= k < i ==> out[k] == RewriteAsDeclarator(ds[k], r)
    {
      var d := ds[i];
      var asExpression := GetAsExpression(DeclaratorParent(d));
      if asExpression.Some? && Eligible(asExpression.value.expression, asExpression.value.typeAnnotation, r) {
        d := Declarator(d.id.(typeAnnotation := None), Some(ConvertAsExpression(DeclaratorParent(d))));
      }
      out := out + [d];
    }
  }

  /** The second pass's filter-then-rewrite over the declarators of one declaration. */
  method RewriteAnnotatedDeclarators(ds: seq<Declarator>, r: Restriction) returns (out: seq<Declarator>)
    ensures |out| == |ds|
    ensures forall i :: 0 <= i < |ds| ==> out[i] == RewriteAnnotatedDeclarator(ds[i], r)
  {
    out := ds;
    for i := 0 to |ds|
      invariant |out| == |ds|
      invariant forall k :: 0 <= k < i ==> out[k] == RewriteAnnotatedDeclarator(ds[k], r)
      invariant forall k :: i <= k < |ds| ==> out[k] == ds[k]
    {
      var d := ds[i];
      if d.id.Identifier? && d.id.typeAnnotation.Some? && d.init.Some? && IsArrayOrObjectExpression(d.init.value) {
        var annotation := d.id.typeAnnotation.value;
        if ValidTypeAnnotation(annotation) && RestrictTypeAnnotation(annotation, r) {
          out := out[i := Declarator(d.id.(typeAnnotation := None), Some(SatisfiesExpression(d.init.value, annotation)))];
        }
      }
    }
  }

  /** The third pass below one expression: every call maps its arguments, outermost call first. */
  method RewriteCallsIn(e: Expr, r: Restriction) returns (out: Expr)
    ensures out == RewriteCalls(e, r)
    decreases e
  {
    match e
    case CallExpression(callee, args) =>
      var newCallee := RewriteCallsIn(callee, r);
      var newArgs: seq<Expr> := [];
      for i := 0 to |args|
        invariant |newArgs| == i
        invariant forall k :: 0 <= k < i ==> newArgs[k] == RewriteCallsInArgument(args[k], r)
      {
        var arg := args[i];
        if arg.AsExpression? && IsArrayOrObjectExpression(arg.expression)
           && ValidTypeAnnotation(arg.typeAnnotation) && RestrictTypeAnnotation(arg.typeAnnotation, r) {
          var inner := RewriteCallsIn(arg.expression, r);
          arg := SatisfiesExpression(inner, arg.typeAnnotation);
        } else {
          arg := RewriteCallsIn(arg, r);
        }
        newArgs := newArgs + [arg];
      }
      out := CallExpression(newCallee, newArgs);
    case ArrayExpression(es) =>
      var elements: seq<Expr> := [];
      for i := 0 to |es|
        invariant |elements| == i
        invariant forall k :: 0 <= k < i ==> elements[k] == RewriteCalls(es[k], r)
      {
        var element := RewriteCallsIn(es[i], r);
        elements := elements + [element];
      }
      out := ArrayExpression(elements);
    case ObjectExpression(ps) =>
      var properties: seq<Property> := [];
      for i := 0 to |ps|
        invariant |properties| == i
        invariant forall k :: 0 <= k < i ==> properties[k] == Property(ps[k].key, RewriteCalls(ps[k].value, r))
      {
        var value := RewriteCallsIn(ps[i].value, r);
        properties := properties + [Property(ps[i].key, value)];
      }
      out := ObjectExpression(properties);
    case AsExpression(x, t) =>
      var inner := RewriteCallsIn(x, r);
      out := AsExpression(inner, t);
    case SatisfiesExpression(x, t) =>
      var inner := RewriteCallsIn(x, r);
      out := SatisfiesExpression(inner, t);
    case _ =>
      out := e;
  }

  /** The third pass below the inits of one declaration's declarators; their bindings are not visited. */
  method RewriteCallsInDeclarators(ds: seq<Declarator>, r: Restriction) returns (out: seq<Declarator>)
    ensures |out| == |ds|
    ensures forall i :: 0 <= i < |ds| ==> out[i] == RewriteCallsInDeclarator(ds[i], r)
  {
    out := [];
    for i := 0 to |ds|
      invariant |out| == i
      invariant forall k :: 0 <= k < i ==> out[k] == RewriteCallsInDeclarator(ds[k], r)
    {
      var d := ds[i];
      if d.init.Some? {
        var init := RewriteCallsIn(d.init.value, r);
        d := Declarator(d.id, Some(init));
      }
      out := out + [d];
    }
  }

  /** First pass (lines 144-167): declarator and default-export parents of an `as` expression. */
  method RewriteAsParents(body: array<Statement>, r: Restriction)
    modifies body
    ensures forall i :: 0 <= i < body.Length ==> body[i] == RewriteAsStatement(old(body[i]), r)
  {
    for i := 0 to body.Length
      invariant forall k :: 0 <= k < i ==> body[k] == RewriteAsStatement(old(body[k]), r)
      invariant forall k :: i <= k < body.Length ==> body[k] == old(body[k])
    {
      match body[i]
      case VariableDeclaration(kind, ds) =>
        var rewritten := RewriteAsDeclarators(ds, r);
        body[i] := VariableDeclaration(kind, rewritten);
      case ExportDefaultDeclaration(e) =>
        var asExpression := GetAsExpression(ExportDefaultParent(e));
        if asExpression.Some? && Eligible(asExpression.value.expression, asExpression.value.typeAnnotation, r) {
          body[i] := ExportDefaultDeclaration(ConvertAsExpression(ExportDefaultParent(e)));
        }
      case _ =>
    }
  }

  /** Second pass (lines 169-194): annotated identifier declarators of every declaration. */
  method RewriteAnnotatedDeclarations(body: array<Statement>, r: Restriction)
    modifies body
    ensures forall i :: 0 <= i < body.Length ==> body[i] == RewriteAnnotatedStatement(old(body[i]), r)
  {
    for i := 0 to body.Length
      invariant forall k :: 0 <= k < i ==> body[k] == RewriteAnnotatedStatement(old(body[k]), r)
      invariant forall k :: i <= k < body.Length ==> body[k] == old(body[k])
    {
      if body[i].VariableDeclaration? {
        var rewritten := RewriteAnnotatedDeclarators(body[i].declarations, r);
        body[i] := VariableDeclaration(body[i].kind, rewritten);
      }
    }
  }

  /** Third pass (lines 196-205): the arguments of every call, wherever it sits. */
  method RewriteCallArguments(body: array<Statement>, r: Restriction)
    modifies body
    ensures forall i :: 0 <= i < body.Length ==> body[i] == RewriteCallsInStatement(old(body[i]), r)
  {
    for i := 0 to body.Length
      invariant forall k :: 0 <= k < i ==> body[k] == RewriteCallsInStatement(old(body[k]), r)
      invariant forall k :: i <= k < body.Length ==> body[k] == old(body[k])
    {
      match body[i]
      case VariableDeclaration(kind, ds) =>
        var rewritten := RewriteCallsInDeclarators(ds, r);
        body[i] := VariableDeclaration(kind, rewritten);
      case ExportDefaultDeclaration(e) =>
        var declaration := RewriteCallsIn(e, r);
        body[i] := ExportDefaultDeclaration(declaration);
      case ExpressionStatement(e) =>
        var expression := RewriteCallsIn(e, r);
        body[i] := ExpressionStatement(expression);
      case OtherStatement =>
    }
  }

  /** `transform` (lines 133-207) on a parsed file: option parsing, then the three passes in order. */
  method Transform(body: array<Statement>, types: OptionValue)
    modifies body
    ensures body[..] == TransformFile(old(body[..]), types)
  {
    var typeRestriction := TypeRestriction(types);
    RewriteAsParents(body, typeRestriction);
    RewriteAnnotatedDeclarations(body, typeRestriction);
    RewriteCallArguments(body, typeRestriction);
  }
}
