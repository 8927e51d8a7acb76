/**
  The syntax-tree node kinds the satisfies-rewriter consumes, as closed datatypes.
  The parser that produces them and the printer that turns them back into text
  are outside this model; a source file is represented by its top-level
  statements.
 */
module Ast {

  datatype Option<+T> = None | Some(value: T)

  /** The name of a type reference: a plain identifier `Foo`, or a qualified name `ns.Foo`. */
  datatype EntityName =
    | Ident(name: string)
    | Qualified(left: EntityName, right: string)

  /**
    A type annotation. `as const` parses as a reference to the identifier `const`.
    Keyword types (`any`, `string`, ...) have their own kind; every other type node
    (unions, intersections, literal, tuple, function and object types, ...) is OtherType.
   */
  datatype Type =
    | TypeReference(typeName: EntityName, typeParameters: seq<Type>)
    | ArrayType(elementType: Type)
    | KeywordType(keyword: string)
    | OtherType

  datatype Property = Property(key: string, value: Expr)

  /**
    An expression. Function expressions, member accesses, `new`, templates and the
    like are OtherExpression: the rewriter never looks inside them.
   */
  datatype Expr =
    | ObjectExpression(properties: seq<Property>)
    | ArrayExpression(elements: seq<Expr>)
    | AsExpression(expression: Expr, typeAnnotation: Type)
    | SatisfiesExpression(expression: Expr, typeAnnotation: Type)
    | CallExpression(callee: Expr, arguments: seq<Expr>)
    | Name(name: string)
    | Literal(raw: string)
    | OtherExpression

  /** The left-hand side of a declarator: an identifier or a destructuring pattern, each with an optional annotation. */
  datatype Binding =
    | Identifier(name: string, typeAnnotation: Option<Type>)
    | Pattern(typeAnnotation: Option<Type>)

  datatype Declarator = Declarator(id: Binding, init: Option<Expr>)

  datatype DeclarationKind = Var | Let | Const

  datatype Statement =
    | VariableDeclaration(kind: DeclarationKind, declarations: seq<Declarator>)
    | ExportDefaultDeclaration(declaration: Expr)
    | ExpressionStatement(expression: Expr)
    | OtherStatement

  /** The nodes the first pass reaches as the parent of an `as` expression. */
  datatype Parent =
    | DeclaratorParent(declarator: Declarator)
    | ExportDefaultParent(declaration: Expr)
    | OtherParent

  /** The `types` option as the caller hands it over: absent, a single value, or a list of names. */
  datatype OptionValue = Missing | Scalar(text: string) | List(items: seq<string>)

  /** The parsed allow-list of type names; None means no restriction. */
  type Restriction = Option<seq<string>>
}
