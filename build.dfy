/**
 * The bindings generator: handler files become node records, node records
 * become the intermediate import/row data, and that data becomes the syntax
 * tree of a module which imports every handler factory and default-exports
 * `opts => ({ "<node>": handlerI(opts), ... })`.
 */
module Build {
  import opened Decimal
  import opened Naming
  import opened Estree
  import opened Wrappers

  /** One discovered handler: its node identifier and the path the generated module imports it from. */
  datatype NodeRecord = NodeRecord(node: string, path: string)

  /** A node record with its synthetic local import name. */
  datatype TaggedNode = TaggedNode(node: string, path: string, importName: string)

  datatype ImportData = ImportData(name: string, path: string)

  datatype RowData = RowData(node: string, importName: string)

  datatype ASTData = ASTData(imports: seq<ImportData>, rows: seq<RowData>)

  /** The name of the generated function's only parameter, passed on to every factory. */
  const OptsParam: string := "opts"

  /** The node record of one handler file, given relative to the source directory. */
  function MakeNode(relative: string): NodeRecord {
    NodeRecord(MakeNodeName(relative), ImportPath(relative))
  }

  /** One node record per discovered file, in discovery order. */
  function MakeNodes(files: seq<string>): (nodes: seq<NodeRecord>)
    ensures |nodes| == |files|
    ensures forall i :: 0 <= i < |files| ==>
              nodes[i].node == MakeNodeName(files[i]) && nodes[i].path == ImportPath(files[i])
  {
    seq(|files|, i requires 0 <= i < |files| => MakeNode(files[i]))
  }

  /** `'handler' + index` */
  function HandlerName(index: nat): string {
    "handler" + NatToString(index)
  }

  /** Handler names at different positions differ. */
  lemma HandlerNamesDistinct(i: nat, j: nat)
    ensures HandlerName(i) == HandlerName(j) ==> i == j
  {
    if HandlerName(i) == HandlerName(j) {
      assert NatToString(i) == HandlerName(i)[7..];
      assert NatToString(j) == HandlerName(j)[7..];
      NatToStringInjective(i, j);
    }
  }

  /** No handler name is the parameter name, so the parameter never hides an import. */
  lemma HandlerNameIsNotOpts(i: nat)
    ensures HandlerName(i) != OptsParam
  {
    assert HandlerName(i)[0] == 'h';
  }

  /** The `map` step: every node gets the import name of its position. */
  function TagWithImportNames(nodes: seq<NodeRecord>): seq<TaggedNode> {
    seq(|nodes|, i requires 0 <= i < |nodes| => TaggedNode(nodes[i].node, nodes[i].path, HandlerName(i)))
  }

  /** The `reduce` callback: append one import and one row. */
  function AddNode(built: ASTData, t: TaggedNode): ASTData {
    ASTData(built.imports + [ImportData(t.importName, t.path)],
            built.rows + [RowData(t.node, t.importName)])
  }

  /** `Array.prototype.reduce` with `AddNode`, from the left. */
  function Reduce(built: ASTData, ts: seq<TaggedNode>): ASTData
    decreases |ts|
  {
    if ts == [] then built else Reduce(AddNode(built, ts[0]), ts[1..])
  }

  /** Reducing keeps what was built and appends one import and one row per element, in order. */
  lemma {:induction false} ReduceAppends(built: ASTData, ts: seq<TaggedNode>)
    ensures var r := Reduce(built, ts);
      && |r.imports| == |built.imports| + |ts|
      && |r.rows| == |built.rows| + |ts|
      && r.imports[..|built.imports|] == built.imports
      && r.rows[..|built.rows|] == built.rows
      && (forall i :: 0 <= i < |ts| ==>
            r.imports[|built.imports| + i] == ImportData(ts[i].importName, ts[i].path)
            && r.rows[|built.rows| + i] == RowData(ts[i].node, ts[i].importName))
    decreases |ts|
  {
    if ts != [] {
      var next := AddNode(built, ts[0]);
      ReduceAppends(next, ts[1..]);
      var r := Reduce(built, ts);
      assert r == Reduce(next, ts[1..]);
      assert r.imports[..|built.imports|] == next.imports[..|next.imports|][..|built.imports|];
      assert r.rows[..|built.rows|] == next.rows[..|next.rows|][..|built.rows|];
      forall i | 0 <= i < |ts|
        ensures r.imports[|built.imports| + i] == ImportData(ts[i].importName, ts[i].path)
        ensures r.rows[|built.rows| + i] == RowData(ts[i].node, ts[i].importName)
      {
        if i == 0 {
          assert r.imports[|built.imports|] == r.imports[..|next.imports|][|built.imports|];
          assert r.rows[|built.rows|] == r.rows[..|next.rows|][|built.rows|];
        } else {
          assert ts[1..][i - 1] == ts[i];
        }
      }
    }
  }

  /** Reducing from `{imports: [], rows: []}` gives exactly one import and one row per element. */
  lemma ReduceFromEmpty(ts: seq<TaggedNode>)
    ensures var r := Reduce(ASTData([], []), ts);
      && |r.imports| == |ts| && |r.rows| == |ts|
      && (forall i :: 0 <= i < |ts| ==>
            r.imports[i] == ImportData(ts[i].importName, ts[i].path)
            && r.rows[i] == RowData(ts[i].node, ts[i].importName))
  {
    ReduceAppends(ASTData([], []), ts);
    var r := Reduce(ASTData([], []), ts);
    forall i | 0 <= i < |ts|
      ensures r.imports[i] == ImportData(ts[i].importName, ts[i].path)
      ensures r.rows[i] == RowData(ts[i].node, ts[i].importName)
    {
      assert r.imports[0 + i] == r.imports[i];
    }
  }

  /**
   * `generateASTData`: one import and one row per node, in input order; the
   * i-th import is `handler<i>` from the node's path, and the i-th row names
   * the node and refers to the i-th import. No sorting, no deduplication.
   */
  function GenerateASTData(nodes: seq<NodeRecord>): (data: ASTData)
    ensures |data.imports| == |nodes| && |data.rows| == |nodes|
    ensures forall i :: 0 <= i < |nodes| ==>
              data.imports[i] == ImportData(HandlerName(i), nodes[i].path)
    ensures forall i :: 0 <= i < |nodes| ==>
              data.rows[i] == RowData(nodes[i].node, data.imports[i].name)
  {
    var tagged := TagWithImportNames(nodes);
    ReduceFromEmpty(tagged);
    Reduce(ASTData([], []), tagged)
  }

  /** Import names pairwise distinct. */
  predicate DistinctImportNames(imports: seq<ImportData>) {
    forall i, j :: 0 <= i < j < |imports| ==> imports[i].name != imports[j].name
  }

  /** The import names of the generated data are pairwise distinct. */
  lemma ImportNamesDistinct(nodes: seq<NodeRecord>)
    ensures DistinctImportNames(GenerateASTData(nodes).imports)
  {
    var data := GenerateASTData(nodes);
    forall i, j | 0 <= i < j < |data.imports|
      ensures data.imports[i].name != data.imports[j].name
    {
      HandlerNamesDistinct(i, j);
    }
  }

  /** `generateImportAST`: `import <name> from '<path>';` */
  function GenerateImportAST(imp: ImportData): Statement {
    ImportDeclaration([ImportDefaultSpecifier(Identifier(imp.name))], Literal(imp.path))
  }

  /** `generateNodeRowAST`: `"<node>": <importName>(opts)` */
  function GenerateNodeRowAST(row: RowData): Property {
    Property(
      Literal(row.node),
      false,
      CallExpression(Ident(Identifier(row.importName)), [Ident(Identifier(OptsParam))]),
      Init,
      false,
      false)
  }

  /** `imports.map(generateImportAST)` */
  function ImportsAST(imports: seq<ImportData>): (body: seq<Statement>)
    ensures |body| == |imports|
  {
    seq(|imports|, i requires 0 <= i < |imports| => GenerateImportAST(imports[i]))
  }

  /** `rows.map(generateNodeRowAST)` */
  function PropertiesAST(rows: seq<RowData>): (properties: seq<Property>)
    ensures |properties| == |rows|
  {
    seq(|rows|, i requires 0 <= i < |rows| => GenerateNodeRowAST(rows[i]))
  }

  /** `export default opts => ({ ... })` over the given properties. */
  function ExportAST(properties: seq<Property>): Statement {
    ExportDefaultDeclaration(
      ArrowFunctionExpression(None, [Identifier(OptsParam)], ObjectExpression(properties), false, true, false))
  }

  /**
   * `generateBindingsAST`: a module whose body is one default import per
   * import entry, in order, followed by a single default export of a
   * one-parameter arrow function whose body is an object literal with one
   * property per row: key the row's node, value a call of the row's import
   * with the arrow's own parameter as the only argument.
   */
  function GenerateBindingsAST(data: ASTData): (program: Program)
    ensures program.sourceType == Module
    ensures |program.body| == |data.imports| + 1
    ensures forall i :: 0 <= i < |data.imports| ==>
              program.body[i] == ImportDeclaration(
                [ImportDefaultSpecifier(Identifier(data.imports[i].name))], Literal(data.imports[i].path))
    ensures var last := program.body[|data.imports|];
      && last.ExportDefaultDeclaration?
      && var f := last.declaration;
      && f.id == None
      && |f.params| == 1 && f.params[0].name == OptsParam
      && f.expression && !f.generator && !f.async
      && f.body.ObjectExpression?
      && |f.body.properties| == |data.rows|
      && forall i :: 0 <= i < |data.rows| ==>
           var p := f.body.properties[i];
           && p.key == Literal(data.rows[i].node)
           && p.value == CallExpression(Ident(Identifier(data.rows[i].importName)), [Ident(f.params[0])])
           && p.kind == Init && !p.computed && !p.isMethod && !p.shorthand
  {
    Program(ImportsAST(data.imports) + [ExportAST(PropertiesAST(data.rows))], Module)
  }

  /** The whole pipeline from the discovered relative paths to the module's syntax tree. */
  function Generate(files: seq<string>): Program {
    GenerateBindingsAST(GenerateASTData(MakeNodes(files)))
  }
}
