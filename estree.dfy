/**
 * The fragment of the ESTree syntax tree that the bindings generator builds:
 * default imports, one default-exported arrow function, object literals with
 * string-literal keys, calls and identifiers. Field names follow ESTree.
 */
module Estree {
  import opened Wrappers

  datatype Identifier = Identifier(name: string)

  /** A string literal (the only literals the generator writes). */
  datatype Literal = Literal(value: string)

  datatype Expression =
    | Ident(id: Identifier)
    | Lit(literal: Literal)
    | CallExpression(callee: Expression, arguments: seq<Expression>)
    | ObjectExpression(properties: seq<Property>)

  datatype PropertyKind = Init | Get | Set

  datatype Property = Property(
    key: Literal,
    computed: bool,
    value: Expression,
    kind: PropertyKind,
    isMethod: bool,  // ESTree `method`
    shorthand: bool)

  datatype ArrowFunctionExpression = ArrowFunctionExpression(
    id: Option<Identifier>,
    params: seq<Identifier>,
    body: Expression,
    generator: bool,
    expression: bool,
    async: bool)

  /** `import <local> from ...` */
  datatype ImportDefaultSpecifier = ImportDefaultSpecifier(local: Identifier)

  datatype Statement =
    | ImportDeclaration(specifiers: seq<ImportDefaultSpecifier>, source: Literal)
    | ExportDefaultDeclaration(declaration: ArrowFunctionExpression)

  datatype SourceType = Script | Module

  datatype Program = Program(body: seq<Statement>, sourceType: SourceType)
}
