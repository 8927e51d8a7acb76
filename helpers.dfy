/**
  The pure predicates and extractors of src/ts-satisfies.ts (lines 26-131) and
  the parsing of the `types` option (lines 140-142).
 */
module Helpers {
  import opened Ast

  /** An object literal, or an array literal with at least one element. */
  predicate IsArrayOrObjectExpression(e: Expr) {
    (e.ArrayExpression? && |e.elements| != 0) || e.ObjectExpression?
  }

  /** The `as` expression that is the direct init of a declarator or the direct declaration of a default export. */
  function GetAsExpression(p: Parent): (r: Option<Expr>)
    ensures r.Some? ==> r.value.AsExpression?
    ensures p.DeclaratorParent? ==>
      r == if p.declarator.init.Some? && p.declarator.init.value.AsExpression? then p.declarator.init else None
    ensures p.ExportDefaultParent? ==>
      r == if p.declaration.AsExpression? then Some(p.declaration) else None
    ensures p.OtherParent? ==> r == None
  {
    var candidate := match p
      case DeclaratorParent(d) => d.init
      case ExportDefaultParent(e) => Some(e)
      case OtherParent => None;
    if candidate.Some? && candidate.value.AsExpression? then candidate else None
  }

  /** The satisfies twin of the `as` expression under the parent: same expression, same type. */
  function ConvertAsExpression(p: Parent): (r: Expr)
    requires GetAsExpression(p).Some?
    ensures r.SatisfiesExpression?
    ensures p.DeclaratorParent? ==> p.declarator.init == Some(AsExpression(r.expression, r.typeAnnotation))
    ensures p.ExportDefaultParent? ==> p.declaration == AsExpression(r.expression, r.typeAnnotation)
  {
    var asExpression := GetAsExpression(p).value;
    SatisfiesExpression(asExpression.expression, asExpression.typeAnnotation)
  }

  /** Any array type, or a reference whose name is a plain identifier other than `const`. */
  predicate ValidTypeAnnotation(t: Type) {
    t.ArrayType? || (t.TypeReference? && t.typeName.Ident? && t.typeName.name != "const")
  }

  function ExtractNameFromTypeReference(t: Type): Option<string> {
    if t.TypeReference? && t.typeName.Ident? then Some(t.typeName.name) else None
  }

  function GetTypeNameFromType(t: Type): Option<string> {
    match t
    case TypeReference(_, _) => ExtractNameFromTypeReference(t)
    case ArrayType(elementType) => ExtractNameFromTypeReference(elementType)
    case _ => None
  }

  /**
    No restriction admits every type; a list admits a type whose name is
    truthy (non-null and not the empty string) and in the list.
   */
  predicate RestrictTypeAnnotation(t: Type, restriction: Restriction) {
    var typeName := GetTypeNameFromType(t);
    restriction.None? || (typeName.Some? && typeName.value != "" && typeName.value in restriction.value)
  }

  /** Only an array-valued `types` option restricts. */
  function TypeRestriction(types: OptionValue): Restriction {
    if types.List? then Some(types.items) else None
  }

  /** The three conjuncts every pass tests of an (expression, type) pair. */
  predicate Eligible(e: Expr, t: Type, restriction: Restriction) {
    IsArrayOrObjectExpression(e) && ValidTypeAnnotation(t) && RestrictTypeAnnotation(t, restriction)
  }

  /** r1 admits no name that r2 does not: r2 is absent, or both are lists and r1's names are among r2's. */
  predicate Narrower(r1: Restriction, r2: Restriction) {
    r2.None? || (r1.Some? && forall x :: x in r1.value ==> x in r2.value)
  }

  lemma EligibleLiterals(ps: seq<Property>, es: seq<Expr>, e: Expr, t: Type, callee: Expr, s: string)
    ensures IsArrayOrObjectExpression(ObjectExpression(ps))
    ensures IsArrayOrObjectExpression(ArrayExpression(es)) <==> es != []
    ensures !IsArrayOrObjectExpression(AsExpression(e, t))
    ensures !IsArrayOrObjectExpression(SatisfiesExpression(e, t))
    ensures !IsArrayOrObjectExpression(CallExpression(callee, es))
    ensures !IsArrayOrObjectExpression(Name(s)) && !IsArrayOrObjectExpression(Literal(s))
    ensures !IsArrayOrObjectExpression(OtherExpression)
  {
  }

  lemma ValidTypeShapes(t: Type, n: string, ps: seq<Type>, left: EntityName, keyword: string)
    ensures ValidTypeAnnotation(ArrayType(t))
    ensures ValidTypeAnnotation(TypeReference(Ident(n), ps)) <==> n != "const"
    ensures !ValidTypeAnnotation(TypeReference(Ident("const"), []))
    ensures !ValidTypeAnnotation(TypeReference(Qualified(left, n), ps))
    ensures !ValidTypeAnnotation(KeywordType(keyword))
    ensures !ValidTypeAnnotation(OtherType)
  {
  }

  lemma TypeNames(t: Type, n: string, ps: seq<Type>)
    ensures GetTypeNameFromType(TypeReference(Ident(n), ps)) == Some(n)
    ensures GetTypeNameFromType(ArrayType(TypeReference(Ident(n), ps))) == Some(n)
    ensures GetTypeNameFromType(ArrayType(ArrayType(t))) == None
    ensures GetTypeNameFromType(t).Some? ==> ValidTypeAnnotation(t) || t == TypeReference(Ident("const"), t.typeParameters)
    ensures ValidTypeAnnotation(t) && t.TypeReference? ==> GetTypeNameFromType(t) == Some(t.typeName.name)
    ensures ValidTypeAnnotation(t) && t.ArrayType? ==>
      (GetTypeNameFromType(t).Some? <==> t.elementType.TypeReference? && t.elementType.typeName.Ident?)
  {
  }

  lemma RestrictionAdmits(t: Type, names: seq<string>, n: string, ps: seq<Type>)
    ensures RestrictTypeAnnotation(t, None)
    ensures !RestrictTypeAnnotation(t, Some([]))
    ensures RestrictTypeAnnotation(TypeReference(Ident(n), ps), Some(names)) <==> n != "" && n in names
    ensures RestrictTypeAnnotation(ArrayType(TypeReference(Ident(n), ps)), Some(names)) <==> n != "" && n in names
    ensures GetTypeNameFromType(t).None? ==> !RestrictTypeAnnotation(t, Some(names))
  {
  }

  lemma OnlyListsRestrict(types: OptionValue)
    ensures TypeRestriction(types).Some? <==> types.List?
    ensures types.List? ==> TypeRestriction(types) == Some(types.items)
    ensures TypeRestriction(types) == TypeRestriction(Missing) || types.List?
  {
  }

  lemma NarrowerAdmitsLess(e: Expr, t: Type, r1: Restriction, r2: Restriction)
    requires Narrower(r1, r2)
    ensures RestrictTypeAnnotation(t, r1) ==> RestrictTypeAnnotation(t, r2)
    ensures Eligible(e, t, r1) ==> Eligible(e, t, r2)
  {
  }

  lemma NarrowerFacts(r: Restriction, names: seq<string>, more: seq<string>)
    ensures Narrower(r, r)
    ensures Narrower(r, None)
    ensures Narrower(Some(names), Some(names + more))
    ensures Narrower(Some([]), r)
    ensures Narrower(None, Some(names)) == false
  {
  }
}
