/**
 * What the generated module does when loaded and its default export called:
 * it evaluates to an object with one property per discovered handler, in
 * discovery order, keyed by the node identifier and holding that handler's
 * factory applied to the configuration value; each factory is called exactly
 * once per call of the export, with that value.
 */
module Correctness {
  import opened Wrappers
  import opened Naming
  import opened Estree
  import opened Interp
  import opened Build

  /** A generated import binds its name to the default export of the module at its path. */
  lemma ImportBindsFactory<V>(imp: ImportData, modules: map<string, string>, scope: Scope<V>)
    ensures LinkStatement(GenerateImportAST(imp), modules, scope) ==
      if imp.path !in modules then Err(ModuleNotFound(imp.path))
      else if imp.name in scope then Err(DuplicateBinding(imp.name))
      else Ok(scope[imp.name := Factory(modules[imp.path])])
  {
    var specifiers := GenerateImportAST(imp).specifiers;
    assert specifiers[1..] == [];
    if imp.path in modules && imp.name !in scope {
      var bound := scope[imp.name := Factory(modules[imp.path])];
      assert BindSpecifiers(specifiers[1..], modules[imp.path], bound) == Ok(bound);
    }
  }

  /** A generated property evaluates to the row's node mapped to one call of its import with `opts`. */
  lemma RowCallsFactoryWithOpts<V>(row: RowData, scope: Scope<V>, f: string, v: V)
    requires row.importName in scope && scope[row.importName] == Factory(f)
    requires OptsParam in scope && scope[OptsParam] == Config(v)
    ensures EvalProperty(GenerateNodeRowAST(row), scope) ==
      Ok((Entry(row.node, Applied(f, [Config(v)])), [Call(f, [Config(v)])]))
  {
    var call := GenerateNodeRowAST(row).value;
    var arguments := call.arguments;
    var none: seq<Call<V>> := [];
    assert arguments[1..] == [];
    assert EvalList(arguments[1..], scope) == Ok(ListOutcome([], none));
    assert [Config(v)] + [] == [Config(v)] && none + none == none;
    assert EvalList(arguments, scope) == Ok(ListOutcome([Config(v)], none));
    assert none + none + [Call(f, [Config(v)])] == [Call(f, [Config(v)])];
    assert Eval(call.callee, scope) == Ok(Outcome(Factory(f), none));
    assert Eval(call, scope) == Ok(Outcome(Applied(f, [Config(v)]), [Call(f, [Config(v)])]));
  }

  /** `opts` bound to `v`, every row's import bound to a factory. */
  ghost predicate RowScope<V>(rows: seq<RowData>, scope: Scope<V>, v: V) {
    && OptsParam in scope && scope[OptsParam] == Config(v)
    && forall i :: 0 <= i < |rows| ==>
         rows[i].importName in scope && scope[rows[i].importName].Factory?
  }

  /** The object literal evaluates to one entry per row, in order, making one call per row, in order. */
  lemma {:induction false} PropertiesEvaluate<V>(rows: seq<RowData>, scope: Scope<V>, v: V)
    requires RowScope(rows, scope, v)
    ensures var r := EvalProperties(PropertiesAST(rows), scope);
      && r.Ok?
      && |r.value.entries| == |rows| && |r.value.calls| == |rows|
      && forall i :: 0 <= i < |rows| ==>
           var f := scope[rows[i].importName].name;
           && r.value.entries[i] == Entry(rows[i].node, Applied(f, [Config(v)]))
           && r.value.calls[i] == Call(f, [Config(v)])
    decreases |rows|
  {
    if rows != [] {
      var ps := PropertiesAST(rows);
      assert ps[0] == GenerateNodeRowAST(rows[0]);
      assert ps[1..] == PropertiesAST(rows[1..]);
      RowCallsFactoryWithOpts(rows[0], scope, scope[rows[0].importName].name, v);
      assert RowScope(rows[1..], scope, v) by {
        forall i | 0 <= i < |rows| - 1 ensures rows[1..][i] == rows[i + 1] { }
      }
      PropertiesEvaluate(rows[1..], scope, v);
      var r := EvalProperties(ps, scope);
      forall i | 1 <= i < |rows|
        ensures r.value.entries[i] == Entry(rows[i].node, Applied(scope[rows[i].importName].name, [Config(v)]))
        ensures r.value.calls[i] == Call(scope[rows[i].importName].name, [Config(v)])
      {
        assert rows[1..][i - 1] == rows[i];
      }
    }
  }

  /**
   * Linking the generated imports, with distinct names and every path
   * available, binds each name to its module's factory and keeps the rest of
   * the scope.
   */
  lemma {:induction false} LinkImports<V>(imports: seq<ImportData>, modules: map<string, string>, scope: Scope<V>)
    requires DistinctImportNames(imports)
    requires forall i :: 0 <= i < |imports| ==> imports[i].name !in scope && imports[i].path in modules
    ensures var r := Link(ImportsAST(imports), modules, scope);
      && r.Ok?
      && (forall k :: k in scope ==> k in r.value && r.value[k] == scope[k])
      && (forall i :: 0 <= i < |imports| ==>
            imports[i].name in r.value && r.value[imports[i].name] == Factory(modules[imports[i].path]))
    decreases |imports|
  {
    if imports != [] {
      var body := ImportsAST(imports);
      assert body[0] == GenerateImportAST(imports[0]);
      assert body[1..] == ImportsAST(imports[1..]);
      var next := scope[imports[0].name := Factory(modules[imports[0].path])];
      ImportBindsFactory(imports[0], modules, scope);
      assert DistinctImportNames(imports[1..]) by {
        forall i, j | 0 <= i < j < |imports| - 1
          ensures imports[1..][i].name != imports[1..][j].name
        {
          assert imports[1..][i] == imports[i + 1] && imports[1..][j] == imports[j + 1];
        }
      }
      forall i | 0 <= i < |imports| - 1
        ensures imports[1..][i].name !in next && imports[1..][i].path in modules
      {
        assert imports[1..][i] == imports[i + 1];
      }
      LinkImports(imports[1..], modules, next);
      var r := Link(body, modules, scope);
      forall i | 1 <= i < |imports|
        ensures imports[i].name in r.value && r.value[imports[i].name] == Factory(modules[imports[i].path])
      {
        assert imports[1..][i - 1] == imports[i];
      }
    }
  }

  /** Linking the generated imports fails when some import path has no module. */
  lemma {:induction false} LinkImportsMissing<V>(imports: seq<ImportData>, modules: map<string, string>, scope: Scope<V>)
    requires exists i :: 0 <= i < |imports| && imports[i].path !in modules
    ensures Link(ImportsAST(imports), modules, scope).Err?
    decreases |imports|
  {
    var body := ImportsAST(imports);
    assert body[0] == GenerateImportAST(imports[0]);
    if imports[0].path in modules {
      var k :| 0 <= k < |imports| && imports[k].path !in modules;
      assert imports[1..][k - 1] == imports[k];
      assert body[1..] == ImportsAST(imports[1..]);
      var step := LinkStatement(body[0], modules, scope);
      if step.Ok? {
        LinkImportsMissing(imports[1..], modules, step.value);
      }
    }
  }

  /** Linking a concatenation links the first part, then the second in the resulting scope. */
  lemma {:induction false} LinkAppend<V>(a: seq<Statement>, b: seq<Statement>, modules: map<string, string>, scope: Scope<V>)
    ensures Link(a + b, modules, scope) ==
      if Link(a, modules, scope).Ok? then Link(b, modules, Link(a, modules, scope).value)
      else Link(a, modules, scope)
    decreases |a|
  {
    if a != [] {
      assert (a + b)[0] == a[0];
      assert (a + b)[1..] == a[1..] + b;
      var step := LinkStatement(a[0], modules, scope);
      if step.Ok? {
        LinkAppend(a[1..], b, modules, step.value);
      }
    } else {
      assert a + b == b;
    }
  }

  /** Import declarations contribute no default export. */
  lemma {:induction false} NoDefaultExportInImports(imports: seq<ImportData>, rest: seq<Statement>)
    ensures DefaultExports(ImportsAST(imports) + rest) == DefaultExports(rest)
    decreases |imports|
  {
    if imports != [] {
      var body := ImportsAST(imports) + rest;
      assert body[0] == GenerateImportAST(imports[0]);
      assert body[1..] == ImportsAST(imports[1..]) + rest;
      NoDefaultExportInImports(imports[1..], rest);
    } else {
      assert ImportsAST(imports) + rest == rest;
    }
  }

  /** Linking the generated module binds `handler<i>` to the factory of the i-th file. */
  lemma LinkGenerated<V>(files: seq<string>, modules: map<string, string>)
    requires forall i :: 0 <= i < |files| ==> ImportPath(files[i]) in modules
    ensures var r: Result<Scope<V>, Error> := Link(Generate(files).body, modules, map[]);
      && r.Ok?
      && forall i :: 0 <= i < |files| ==>
           HandlerName(i) in r.value && r.value[HandlerName(i)] == Factory(modules[ImportPath(files[i])])
  {
    var data := GenerateASTData(MakeNodes(files));
    var exportDecl := ExportAST(PropertiesAST(data.rows));
    var empty: Scope<V> := map[];
    assert Generate(files).body == ImportsAST(data.imports) + [exportDecl];
    LinkAppend(ImportsAST(data.imports), [exportDecl], modules, empty);
    ImportNamesDistinct(MakeNodes(files));
    LinkImports(data.imports, modules, empty);
  }

  /** Linking the generated module fails when some file's import path has no module. */
  lemma LinkGeneratedMissing<V>(files: seq<string>, modules: map<string, string>)
    requires exists i :: 0 <= i < |files| && ImportPath(files[i]) !in modules
    ensures var r: Result<Scope<V>, Error> := Link(Generate(files).body, modules, map[]);
      r.Err?
  {
    var data := GenerateASTData(MakeNodes(files));
    var exportDecl := ExportAST(PropertiesAST(data.rows));
    var empty: Scope<V> := map[];
    assert Generate(files).body == ImportsAST(data.imports) + [exportDecl];
    LinkAppend(ImportsAST(data.imports), [exportDecl], modules, empty);
    var k :| 0 <= k < |files| && ImportPath(files[k]) !in modules;
    assert data.imports[k].path !in modules;
    LinkImportsMissing(data.imports, modules, empty);
  }

  /** The generated module has exactly one default export: the arrow function over the rows. */
  lemma DefaultExportGenerated(files: seq<string>)
    ensures var data := GenerateASTData(MakeNodes(files));
      DefaultExport(Generate(files).body) == Ok(ExportAST(PropertiesAST(data.rows)).declaration)
  {
    var data := GenerateASTData(MakeNodes(files));
    var exportDecl := ExportAST(PropertiesAST(data.rows));
    assert Generate(files).body == ImportsAST(data.imports) + [exportDecl];
    NoDefaultExportInImports(data.imports, [exportDecl]);
  }

  /**
   * Loading the module generated from `files` against `modules` and calling
   * its default export with `v` succeeds exactly when every import path has a
   * module. It then returns an object with one entry per file, in order:
   * key the file's node identifier, value the file's factory applied to `v`
   * alone; and the calls made are exactly one per file, in order, each with `v`.
   */
  lemma GeneratedModuleBehaviour<V>(files: seq<string>, modules: map<string, string>, v: V)
    ensures var r := RunDefaultExport(Generate(files), modules, v);
      && (r.Ok? <==> forall i :: 0 <= i < |files| ==> ImportPath(files[i]) in modules)
      && (r.Ok? ==>
            && r.value.value.Obj?
            && |r.value.value.entries| == |files|
            && |r.value.calls| == |files|
            && forall i :: 0 <= i < |files| ==>
                 var f := modules[ImportPath(files[i])];
                 && r.value.value.entries[i] == Entry(MakeNodeName(files[i]), Applied(f, [Config(v)]))
                 && r.value.calls[i] == Call(f, [Config(v)]))
  {
    if forall i :: 0 <= i < |files| ==> ImportPath(files[i]) in modules {
      GeneratedModuleRuns(files, modules, v);
    } else {
      LinkGeneratedMissing<V>(files, modules);
    }
  }

  /** The scope the export's body runs in: `opts` holds `v`, `handler<i>` the i-th file's factory. */
  function BodyScope<V>(files: seq<string>, modules: map<string, string>, v: V): Scope<V>
    requires forall i :: 0 <= i < |files| ==> ImportPath(files[i]) in modules
  {
    LinkGenerated<V>(files, modules);
    Link(Generate(files).body, modules, map[]).value[OptsParam := Config(v)]
  }

  /** Running the generated module is evaluating its object literal in the body scope. */
  lemma RunEvaluatesObject<V>(files: seq<string>, modules: map<string, string>, v: V)
    requires forall i :: 0 <= i < |files| ==> ImportPath(files[i]) in modules
    ensures RunDefaultExport(Generate(files), modules, v) ==
      Eval(ObjectExpression(PropertiesAST(GenerateASTData(MakeNodes(files)).rows)), BodyScope(files, modules, v))
  {
    var empty: Scope<V> := map[];
    LinkGenerated<V>(files, modules);
    var scope := Link(Generate(files).body, modules, empty).value;
    DefaultExportGenerated(files);
    assert BindParams([Identifier(OptsParam)], [Config(v)], scope) == BodyScope(files, modules, v);
  }

  lemma BodyScopeBindsRows<V>(files: seq<string>, modules: map<string, string>, v: V)
    requires forall i :: 0 <= i < |files| ==> ImportPath(files[i]) in modules
    ensures var rows := GenerateASTData(MakeNodes(files)).rows;
      var scope := BodyScope(files, modules, v);
      && RowScope(rows, scope, v)
      && forall i :: 0 <= i < |rows| ==> scope[rows[i].importName] == Factory(modules[ImportPath(files[i])])
  {
    var rows := GenerateASTData(MakeNodes(files)).rows;
    LinkGenerated<V>(files, modules);
    forall i | 0 <= i < |rows|
      ensures rows[i].importName in BodyScope(files, modules, v)
      ensures BodyScope(files, modules, v)[rows[i].importName] == Factory(modules[ImportPath(files[i])])
    {
      HandlerNameIsNotOpts(i);
    }
  }

  lemma GeneratedModuleRuns<V>(files: seq<string>, modules: map<string, string>, v: V)
    requires forall i :: 0 <= i < |files| ==> ImportPath(files[i]) in modules
    ensures var r := RunDefaultExport(Generate(files), modules, v);
      && r.Ok?
      && r.value.value.Obj?
      && |r.value.value.entries| == |files|
      && |r.value.calls| == |files|
      && forall i :: 0 <= i < |files| ==>
           var f := modules[ImportPath(files[i])];
           && r.value.value.entries[i] == Entry(MakeNodeName(files[i]), Applied(f, [Config(v)]))
           && r.value.calls[i] == Call(f, [Config(v)])
  {
    var rows := GenerateASTData(MakeNodes(files)).rows;
    var scope := BodyScope(files, modules, v);
    RunEvaluatesObject(files, modules, v);
    BodyScopeBindsRows(files, modules, v);
    PropertiesEvaluate(rows, scope, v);
  }

  /** With no handler files the export returns an empty object and calls nothing. */
  lemma EmptyInputExportsEmptyObject<V>(modules: map<string, string>, v: V)
    ensures RunDefaultExport(Generate([]), modules, v) == Ok(Outcome(Obj([]), []))
  {
    GeneratedModuleBehaviour([], modules, v);
  }

  /**
   * Handler files following the `<dir>/index.js` convention, pairwise
   * different and without `:` in their paths, give an object with exactly one
   * key per file, each holding that file's factory applied to `v`.
   */
  lemma OneKeyPerHandler<V>(files: seq<string>, modules: map<string, string>, v: V)
    requires forall i, j :: 0 <= i < j < |files| ==> files[i] != files[j]
    requires forall i :: 0 <= i < |files| ==>
               '/' in files[i] && ':' !in files[i] && Basename(files[i]) == "index.js"
    requires forall i :: 0 <= i < |files| ==> ImportPath(files[i]) in modules
    ensures var r := RunDefaultExport(Generate(files), modules, v);
      && r.Ok? && r.value.value.Obj?
      && var bindings := ToMap(r.value.value.entries);
      && |bindings.Keys| == |files|
      && forall i :: 0 <= i < |files| ==>
           MakeNodeName(files[i]) in bindings
           && bindings[MakeNodeName(files[i])] == Applied(modules[ImportPath(files[i])], [Config(v)])
  {
    GeneratedModuleBehaviour(files, modules, v);
    var entries := RunDefaultExport(Generate(files), modules, v).value.value.entries;
    forall i, j | 0 <= i < j < |entries| ensures entries[i].key != entries[j].key {
      NodeNameDeterminesFile(files[i], files[j]);
    }
    DistinctKeysMap(entries);
  }

  /**
   * Handlers whose node identifiers collide leave one key: the later file's
   * factory result overwrites the earlier one.
   */
  lemma LaterHandlerWins<V>(files: seq<string>, modules: map<string, string>, v: V, j: nat)
    requires forall i :: 0 <= i < |files| ==> ImportPath(files[i]) in modules
    requires j < |files|
    requires forall l :: j < l < |files| ==> MakeNodeName(files[l]) != MakeNodeName(files[j])
    ensures var r := RunDefaultExport(Generate(files), modules, v);
      && r.Ok? && r.value.value.Obj?
      && var bindings := ToMap(r.value.value.entries);
      && MakeNodeName(files[j]) in bindings
      && bindings[MakeNodeName(files[j])] == Applied(modules[ImportPath(files[j])], [Config(v)])
  {
    GeneratedModuleBehaviour(files, modules, v);
    var entries := RunDefaultExport(Generate(files), modules, v).value.value.entries;
    assert IsLastWithKey(entries, j);
    ToMapLastWins(entries);
  }
}
