# rosmaro-tools `bindings:build` — a Dafny model of the code generator

`rosmaro-cli bindings:build <srcDir>` finds every `index.js` beneath `<srcDir>/main`.
Each such file is the handler factory of one node of a Rosmaro component tree.
The command writes `<srcDir>/index.js`, a module that imports every factory and
default-exports `opts => ({ "main": handler0(opts), "main:A": handler1(opts), ... })`.

This project models the pure core of that command in `src/commands/bindings/build.ts`:

- **Node naming** (`naming.dfy`, module `Naming`). The relative path
  `main/B/A/index.js` becomes the node `main:B:A`: the directory part of the
  path, with every `/` replaced by `:`. The import path is `"./"` followed by
  the relative path.
- **Intermediate data** (`build.dfy`, module `Build`). `generateASTData` is a
  `map` that tags the i-th node with the import name `handler<i>`, followed by a
  `reduce` that appends one import and one row per node. It is modelled as
  exactly that: `TagWithImportNames`, the callback `AddNode` and a left fold `Reduce`.
  `Decimal.NatToString` spells the index the way JavaScript's `'handler' + index` does.
- **Syntax tree construction** (`build.dfy`; the tree itself is in `estree.dfy`, module
  `Estree`). `GenerateImportAST`, `GenerateNodeRowAST` and `GenerateBindingsAST`
  build the same ESTree nodes as the source, field for field.
- **Meaning of the generated module** (`interp.dfy`, module `Interp`).
  `escodegen` turns the tree into text, and that text is not modelled. Instead, the tree
  is given a small interpreter. It links the import declarations against a table
  `modules` (import path ↦ the factory the module exports by default). It finds the single
  default export and calls it with a configuration value `v`. It then evaluates the
  object literal. Factories are opaque: calling factory `f` with arguments `args`
  yields the symbolic value `Applied(f, args)`, and each call is recorded, in
  evaluation order, in a call list. `ToMap` reads an object literal's entries
  the way JavaScript builds the object: a repeated key keeps its last value.
- **End-to-end properties** (`correctness.dfy`, module `Correctness`). For the
  module generated from a list of handler files:
  - running it succeeds exactly when every import path has a module;
  - it returns one entry per file, in order, keyed by the file's node identifier
    and holding that file's factory applied to `v`;
  - it calls each factory exactly once per call of the export, with `v` as the only argument.

  With no files it returns an empty object. Files that follow the
  `<dir>/index.js` convention, are pairwise different and have no `:` in their
  paths give an object with exactly one key per file.

`wrappers.dfy` holds the `Option` and `Result` types.

Some behaviours of the code worth knowing:

- `run` does not check for an empty file list. The module it then writes
  exports a function returning `{}` (`Correctness.EmptyInputExportsEmptyObject`).
- Colliding node identifiers are not rejected. Two handler directories such as
  `main/a:b` and `main/a/b` map to the same node (`Naming.ColonInDirectoryCollides`).
  The generated object literal then keeps the later handler's value (`Correctness.LaterHandlerWins`).
- `run` does not sort the files. The model keeps the order it is given.
- `makeNodeName` replaces only `/`, so the model works on `/`-separated strings.

## Model

| member | source | states |
|---|---|---|
| `Decimal.NatToString` | src/commands/bindings/build.ts:8 | the index is spelled as a non-empty digit string, with more than one digit exactly from 10 on and no leading zero |
| `Decimal.ParseNatToString` | src/commands/bindings/build.ts:8 | reading the decimal spelling of an index back gives the index |
| `Decimal.NatToStringInjective` | src/commands/bindings/build.ts:8 | different indices have different decimal spellings |
| `Naming.LastSlash` | src/commands/bindings/build.ts:128 | finds the last `/` of a path: that position holds `/`, no later one does, and there is none exactly when the path has no `/` |
| `Naming.Dirname` | src/commands/bindings/build.ts:128 | the directory part is the prefix before the last `/`, with no `/` after it; "." when the path has no `/` |
| `Naming.Basename` | src/commands/bindings/build.ts:122 | the file name has no `/`, and directory + "/" + file name is the path again |
| `Naming.ReplaceSlash` | src/commands/bindings/build.ts:129 | same length; every `/` becomes `:` and every other character is kept; no `/` remains |
| `Naming.MakeNodeName` | src/commands/bindings/build.ts:127-129 | a node identifier never contains `/` and is shorter than the handler's path |
| `Naming.ImportPath` | src/commands/bindings/build.ts:133 | the import path is `./` followed by the relative path |
| `Naming.DirnameDropsLastSegment` | src/commands/bindings/build.ts:128 | on a path of two or more `/`-free segments the directory part drops exactly the last segment, which is the file name |
| `Naming.LastSlashAt` | src/commands/bindings/build.ts:128 | a `/` with no `/` after it is the one the directory part ends at |
| `Naming.LastSlashBeforeSegment` | src/commands/bindings/build.ts:128 | in `dir + "/" + file` with a `/`-free file name, the directory part ends just before that file name |
| `Naming.NodeNameOfFileIn` | src/commands/bindings/build.ts:127-129 | the node of `dir/file` is `dir` with its slashes replaced by colons |
| `Naming.ReplaceSlashJoin` | src/commands/bindings/build.ts:129 | replacing slashes in segments joined by `/` gives the same segments joined by `:` |
| `Naming.NodeNameOfSegments` | src/commands/bindings/build.ts:127-129 | the node of `d1/.../dn/file` is `d1:...:dn` |
| `Naming.RootNodeName` | test/commands/bindings/build.test.ts:15 | `main/index.js` is the node `main` |
| `Naming.NestedNodeName` | test/commands/bindings/build.test.ts:18 | `main/B/A/index.js` is the node `main:B:A` |
| `Naming.ReplaceSlashInjective` | src/commands/bindings/build.ts:129 | on strings without `:`, different inputs give different results |
| `Naming.NodeNameDeterminesFile` | src/commands/bindings/build.ts:121-129 | two handler files with the same file name and no `:` in their paths have the same node only if they are the same file |
| `Naming.ColonDirectoryName` | src/commands/bindings/build.ts:127-129 | `main/a:b/index.js` is the node `main:a:b` |
| `Naming.NestedDirectoryName` | src/commands/bindings/build.ts:127-129 | `main/a/b/index.js` is the node `main:a:b` |
| `Naming.ColonInDirectoryCollides` | src/commands/bindings/build.ts:127-129 | a `:` in a directory name makes two different handler directories share one node identifier |
| `Build.MakeNode` | src/commands/bindings/build.ts:131-134 | the record of one file: its node identifier and its import path; meaning: `Naming.NodeNameOfSegments`, `Naming.ImportPath` |
| `Build.MakeNodes` | src/commands/bindings/build.ts:131-134 | one node record per file, in file order, holding the file's node identifier and import path |
| `Build.HandlerName` | src/commands/bindings/build.ts:8 | `'handler' + index`; meaning: `Build.HandlerNamesDistinct`, `Build.HandlerNameIsNotOpts` |
| `Build.HandlerNamesDistinct` | src/commands/bindings/build.ts:8 | `handler<i>` and `handler<j>` are equal only when i = j |
| `Build.HandlerNameIsNotOpts` | src/commands/bindings/build.ts:8 | no import name is `opts`, so the arrow's parameter never hides an import |
| `Build.TagWithImportNames` | src/commands/bindings/build.ts:8 | the `map` step tagging node i with `handler<i>`; meaning: `Build.GenerateASTData` |
| `Build.AddNode` | src/commands/bindings/build.ts:10-25 | the `reduce` callback appending one import and one row; meaning: `Build.ReduceAppends` |
| `Build.Reduce` | src/commands/bindings/build.ts:9-27 | the left fold of `reduce`; meaning: `Build.ReduceAppends`, `Build.ReduceFromEmpty` |
| `Build.ReduceAppends` | src/commands/bindings/build.ts:9-26 | the reduce keeps what was built and appends, in order, one import (name, path) and one row (node, name) per element |
| `Build.ReduceFromEmpty` | src/commands/bindings/build.ts:9-26 | reducing from `{imports: [], rows: []}` yields exactly one import and one row per element, in order |
| `Build.GenerateASTData` | src/commands/bindings/build.ts:7-27 | as many imports and rows as nodes (none for no nodes); import i is `handler<i>` from node i's path; row i is node i's identifier and refers to import i |
| `Build.ImportNamesDistinct` | src/commands/bindings/build.ts:8 | the import names of the generated data are pairwise distinct |
| `Build.GenerateImportAST` | src/commands/bindings/build.ts:30-39 | one default import declaration; meaning: `Correctness.ImportBindsFactory` |
| `Build.GenerateNodeRowAST` | src/commands/bindings/build.ts:42-65 | one `node: importName(opts)` property; meaning: `Correctness.RowCallsFactoryWithOpts` |
| `Build.ExportAST` | src/commands/bindings/build.ts:71-90 | the default export of the one-parameter arrow function; meaning: `Build.GenerateBindingsAST`, `Correctness.DefaultExportGenerated` |
| `Build.ImportsAST` | src/commands/bindings/build.ts:70 | one import declaration per import entry |
| `Build.PropertiesAST` | src/commands/bindings/build.ts:84 | one property per row |
| `Build.GenerateBindingsAST` | src/commands/bindings/build.ts:67-93 | a module with `imports.length + 1` statements; the first are the default imports in input order; the last default-exports an arrow function with the single parameter `opts` whose object literal has exactly one property per row: key the row's node, value a call of the row's import with the arrow's parameter as its only argument |
| `Build.Generate` | src/commands/bindings/build.ts:131-136 | the whole pipeline from relative paths to the syntax tree; meaning: `Correctness.GeneratedModuleBehaviour` |
| `Interp.ToMapKeys` | src/commands/bindings/build.ts:82-85 | the object an object literal builds has exactly the literal's property keys |
| `Interp.ToMapLastWins` | src/commands/bindings/build.ts:82-85 | each key of the object holds the value of the last property with that key |
| `Interp.DistinctKeysMap` | src/commands/bindings/build.ts:82-85 | with pairwise distinct keys the object has one key per property, each holding its property's value |
| `Interp.DistinctKeysCount` | src/commands/bindings/build.ts:82-85 | pairwise distinct keys form a set as large as the property list |
| `Correctness.ImportBindsFactory` | src/commands/bindings/build.ts:30-39 | a generated import binds its name to the default export of the module at its path; a missing module or an already bound name is an error |
| `Correctness.RowCallsFactoryWithOpts` | src/commands/bindings/build.ts:42-65 | a generated property evaluates to the row's node mapped to the import's factory applied to `opts`, and makes exactly that one call |
| `Correctness.PropertiesEvaluate` | src/commands/bindings/build.ts:84 | the object literal evaluates to one entry per row, in order, and makes one call per row, in order |
| `Correctness.LinkImports` | src/commands/bindings/build.ts:70 | linking the generated imports binds every import name to its module's factory and keeps the rest of the scope |
| `Correctness.LinkImportsMissing` | src/commands/bindings/build.ts:70 | linking the generated imports fails when an import path has no module |
| `Correctness.LinkAppend` | src/commands/bindings/build.ts:69-91 | linking a body made of two parts links the first part, then the second in the scope the first produced |
| `Correctness.NoDefaultExportInImports` | src/commands/bindings/build.ts:70 | import declarations add no default export |
| `Correctness.LinkGenerated` | src/commands/bindings/build.ts:69-91 | linking the generated module binds `handler<i>` to the factory of the i-th file |
| `Correctness.LinkGeneratedMissing` | src/commands/bindings/build.ts:69-91 | linking the generated module fails when some file's import path has no module |
| `Correctness.DefaultExportGenerated` | src/commands/bindings/build.ts:71-90 | the generated module has exactly one default export, the arrow function over the rows |
| `Correctness.RunEvaluatesObject` | src/commands/bindings/build.ts:71-90 | calling the export with `v` evaluates its object literal with `opts` bound to `v` |
| `Correctness.BodyScopeBindsRows` | src/commands/bindings/build.ts:76-84 | inside the export, `opts` holds `v` and every row's import name holds the factory of that row's file |
| `Correctness.GeneratedModuleRuns` | src/commands/bindings/build.ts:131-136 | with every import path available, the export returns one entry per file, in order: the file's node mapped to its factory applied to `v`, with one call per file, in order |
| `Correctness.GeneratedModuleBehaviour` | src/commands/bindings/build.ts:131-136 | running succeeds exactly when every import path has a module, and then gives the entries and calls above |
| `Correctness.EmptyInputExportsEmptyObject` | src/commands/bindings/build.ts:7-27 | with no handler files the export returns an empty object and calls nothing |
| `Correctness.OneKeyPerHandler` | test/commands/bindings/build.test.ts:13-24 | pairwise different `<dir>/index.js` files without `:` give an object with exactly one key per file, the file's node, holding the file's factory applied to `v` |
| `Correctness.LaterHandlerWins` | src/commands/bindings/build.ts:82-85 | when node identifiers collide, the object holds the value of the last handler with that identifier |

## Left out

- The oclif `Command` class, `this.parse`, the static metadata and `this.log` (build.ts:97-119, 147): command-line plumbing.
- `glob.sync` discovery (build.ts:121-123): the relative paths of the discovered files are an input sequence. Their order is kept as given. The `index.js` naming convention appears only as a precondition of `Correctness.OneKeyPerHandler`.
- `fs.writeFileSync` of the generated text (build.ts:140-145): file output.
- `escodegen.generate` (build.ts:95): nothing is claimed about the emitted text or its byte-level determinism. The interpreter in `Interp` gives the tree its meaning instead.
- `path.relative`, `path.resolve` and `process.cwd`: paths enter the model already relative to the source directory and `/`-separated.
- `Naming.Dirname`: models `path.dirname` only as "drop the last segment", "." when there is none. Node's treatment of trailing slashes and of a leading root `/` is not modelled, because `path.relative` does not produce such paths.
- `Decimal.NatToString`: JavaScript writes numbers of 10^21 and more in exponent notation. Array indices stay far below that, so plain decimal is enough.
- Handler factories are opaque. What a factory returns, its own imports and side effects, and a factory that throws are not modelled: a call yields the symbolic `Applied(f, args)`.
- The interpreter covers only the fragment of JavaScript the generator emits. Getters, setters, methods, shorthand properties and generator or async arrows evaluate to `Unsupported`. Module evaluation order, cyclic imports and live bindings are not modelled.
- The table `modules` maps every import path straight to a factory, so a handler module without a default export, or whose default export is not a function, is not modelled. In JavaScript either makes the generated module fail when it is loaded or called; the model's "succeeds exactly when every import path has a module" holds under this assumption.
- `ToMap` gives the object's keys and values but not JavaScript's property enumeration order.
- Duplicate node identifiers are not rejected, because the source does not reject them. The model only shows that the later handler wins.
