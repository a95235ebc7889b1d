/**
 * A denotational reading of the generated module, standing in for the text a
 * JavaScript host would load: imports are linked against a table of modules,
 * the default export is found and invoked with a configuration value, and its
 * body is evaluated.
 *
 * Handler factories are opaque: calling the factory `f` with arguments `args`
 * yields the symbolic value `Applied(f, args)`, and every call made is
 * recorded, in evaluation order, in the outcome's `calls`.
 */
module Interp {
  import opened Wrappers
  import opened Estree

  datatype Value<V> =
    | Config(v: V)         // the value the exported function was invoked with
    | Undefined
    | Str(s: string)
    | Factory(name: string) // the default export of a linked module
    | Applied(factory: string, args: seq<Value<V>>)
    | Obj(entries: seq<Entry<V>>)

  /** One property of an object value, in creation order. */
  datatype Entry<V> = Entry(key: string, value: Value<V>)

  /** One call of a factory. */
  datatype Call<V> = Call(factory: string, args: seq<Value<V>>)

  datatype Error =
    | ReferenceError(name: string)
    | NotAFunction
    | ModuleNotFound(path: string)
    | DuplicateBinding(name: string)
    | DuplicateParameter
    | NoDefaultExport
    | DuplicateDefaultExport
    | ImportOutsideModule
    | Unsupported

  type Scope<V> = map<string, Value<V>>

  datatype Outcome<V> = Outcome(value: Value<V>, calls: seq<Call<V>>)

  datatype ListOutcome<V> = ListOutcome(values: seq<Value<V>>, calls: seq<Call<V>>)

  datatype EntriesOutcome<V> = EntriesOutcome(entries: seq<Entry<V>>, calls: seq<Call<V>>)

  /** Evaluates an expression; calls are made left to right, callee first, then the arguments. */
  function Eval<V>(e: Expression, scope: Scope<V>): Result<Outcome<V>, Error>
    decreases e
  {
    match e
    case Ident(id) =>
      if id.name in scope then Ok(Outcome(scope[id.name], [])) else Err(ReferenceError(id.name))
    case Lit(literal) => Ok(Outcome(Str(literal.value), []))
    case CallExpression(callee, arguments) =>
      var c :- Eval(callee, scope);
      var a :- EvalList(arguments, scope);
      if c.value.Factory? then
        Ok(Outcome(Applied(c.value.name, a.values),
                   c.calls + a.calls + [Call(c.value.name, a.values)]))
      else Err(NotAFunction)
    case ObjectExpression(properties) =>
      var p :- EvalProperties(properties, scope);
      Ok(Outcome(Obj(p.entries), p.calls))
  }

  function EvalList<V>(es: seq<Expression>, scope: Scope<V>): Result<ListOutcome<V>, Error>
    decreases es
  {
    if es == [] then Ok(ListOutcome([], []))
    else
      var head :- Eval(es[0], scope);
      var tail :- EvalList(es[1..], scope);
      Ok(ListOutcome([head.value] + tail.values, head.calls + tail.calls))
  }

  /**
   * A plain `key: value` property. Its key is a string literal, which reads the
   * same whether or not it is marked computed; getters, setters, methods and
   * shorthands are outside the fragment.
   */
  function EvalProperty<V>(p: Property, scope: Scope<V>): Result<(Entry<V>, seq<Call<V>>), Error>
    decreases p
  {
    if p.kind != Init || p.isMethod || p.shorthand then Err(Unsupported)
    else
      var o :- Eval(p.value, scope);
      Ok((Entry(p.key.value, o.value), o.calls))
  }

  function EvalProperties<V>(ps: seq<Property>, scope: Scope<V>): Result<EntriesOutcome<V>, Error>
    decreases ps
  {
    if ps == [] then Ok(EntriesOutcome([], []))
    else
      var head :- EvalProperty(ps[0], scope);
      var tail :- EvalProperties(ps[1..], scope);
      Ok(EntriesOutcome([head.0] + tail.entries, head.1 + tail.calls))
  }

  /** Binds each default-import name to `factory`; a name bound twice is an error. */
  function BindSpecifiers<V>(specifiers: seq<ImportDefaultSpecifier>, factory: string, scope: Scope<V>)
    : Result<Scope<V>, Error>
    decreases |specifiers|
  {
    if specifiers == [] then Ok(scope)
    else
      var name := specifiers[0].local.name;
      if name in scope then Err(DuplicateBinding(name))
      else BindSpecifiers(specifiers[1..], factory, scope[name := Factory(factory)])
  }

  /** `modules` maps an import path to the factory its module exports by default. */
  function LinkStatement<V>(s: Statement, modules: map<string, string>, scope: Scope<V>)
    : Result<Scope<V>, Error>
  {
    match s
    case ImportDeclaration(specifiers, source) =>
      if source.value !in modules then Err(ModuleNotFound(source.value))
      else BindSpecifiers(specifiers, modules[source.value], scope)
    case ExportDefaultDeclaration(_) => Ok(scope)
  }

  /** The module scope: the bindings of all import declarations, in order. */
  function Link<V>(body: seq<Statement>, modules: map<string, string>, scope: Scope<V>)
    : Result<Scope<V>, Error>
    decreases |body|
  {
    if body == [] then Ok(scope)
    else
      var next :- LinkStatement(body[0], modules, scope);
      Link(body[1..], modules, next)
  }

  /** All default-export declarations of a module body, in order. */
  function DefaultExports(body: seq<Statement>): seq<ArrowFunctionExpression>
    decreases |body|
  {
    if body == [] then []
    else (if body[0].ExportDefaultDeclaration? then [body[0].declaration] else [])
         + DefaultExports(body[1..])
  }

  /** The one default export of a module; none or several is an error. */
  function DefaultExport(body: seq<Statement>): Result<ArrowFunctionExpression, Error> {
    var exports := DefaultExports(body);
    if |exports| == 0 then Err(NoDefaultExport)
    else if |exports| > 1 then Err(DuplicateDefaultExport)
    else Ok(exports[0])
  }

  /** The scope of an arrow function's body: parameter k holds argument k, or undefined. */
  function BindParams<V>(params: seq<Identifier>, args: seq<Value<V>>, scope: Scope<V>): Scope<V>
    decreases |params|
  {
    if params == [] then scope
    else
      var arg := if args == [] then Undefined else args[0];
      BindParams(params[1..], if args == [] then [] else args[1..], scope[params[0].name := arg])
  }

  predicate DistinctNames(params: seq<Identifier>) {
    forall i, j | 0 <= i < j < |params| :: params[i].name != params[j].name
  }

  /** Calls an expression-bodied arrow function closed over `scope`. */
  function Invoke<V>(f: ArrowFunctionExpression, scope: Scope<V>, args: seq<Value<V>>)
    : Result<Outcome<V>, Error>
  {
    if f.generator || f.async || !f.expression then Err(Unsupported)
    else if !DistinctNames(f.params) then Err(DuplicateParameter)
    else Eval(f.body, BindParams(f.params, args, scope))
  }

  /** Loads `program` against `modules` and calls its default export with the single argument `v`. */
  function RunDefaultExport<V>(program: Program, modules: map<string, string>, v: V)
    : Result<Outcome<V>, Error>
  {
    if program.sourceType != Module then Err(ImportOutsideModule)
    else
      var scope :- Link(program.body, modules, map[]);
      var f :- DefaultExport(program.body);
      Invoke(f, scope, [Config(v)])
  }

  /**
   * The JavaScript object an object literal builds: a later property with an
   * already used key overwrites the earlier value.
   */
  function ToMap<V>(entries: seq<Entry<V>>): map<string, Value<V>>
    decreases |entries|
  {
    if entries == [] then map[]
    else ToMap(entries[..|entries| - 1])[entries[|entries| - 1].key := entries[|entries| - 1].value]
  }

  /** No later property has the key of property `j`. */
  predicate IsLastWithKey<V>(entries: seq<Entry<V>>, j: nat)
    requires j < |entries|
  {
    forall l :: j < l < |entries| ==> entries[l].key != entries[j].key
  }

  /** The object's keys are exactly the property keys. */
  lemma {:induction false} ToMapKeys<V>(entries: seq<Entry<V>>)
    ensures ToMap(entries).Keys == set i | 0 <= i < |entries| :: entries[i].key
    decreases |entries|
  {
    if entries != [] {
      var n := |entries|;
      var init := entries[..n - 1];
      ToMapKeys(init);
      var before := set i | 0 <= i < n - 1 :: init[i].key;
      var all := set i | 0 <= i < n :: entries[i].key;
      forall k | k in all ensures k in before + {entries[n - 1].key} {
        var i :| 0 <= i < n && entries[i].key == k;
        if i < n - 1 { assert init[i].key == k; }
      }
      forall k | k in before ensures k in all {
        var i :| 0 <= i < n - 1 && init[i].key == k;
        assert entries[i].key == k;
      }
    }
  }

  /** Each key holds the value of the last property with that key. */
  lemma {:induction false} ToMapLastWins<V>(entries: seq<Entry<V>>)
    ensures forall j :: 0 <= j < |entries| && IsLastWithKey(entries, j) ==>
              entries[j].key in ToMap(entries) && ToMap(entries)[entries[j].key] == entries[j].value
    decreases |entries|
  {
    if entries != [] {
      var n := |entries|;
      var init := entries[..n - 1];
      ToMapLastWins(init);
      forall j | 0 <= j < n - 1 && IsLastWithKey(entries, j)
        ensures ToMap(entries)[entries[j].key] == entries[j].value
      {
        assert init[j] == entries[j];
        assert IsLastWithKey(init, j);
      }
    }
  }

  /** With pairwise distinct keys the object has one key per property, each holding its property's value. */
  lemma DistinctKeysMap<V>(entries: seq<Entry<V>>)
    requires forall i, j :: 0 <= i < j < |entries| ==> entries[i].key != entries[j].key
    ensures |ToMap(entries).Keys| == |entries|
    ensures forall j :: 0 <= j < |entries| ==>
              entries[j].key in ToMap(entries) && ToMap(entries)[entries[j].key] == entries[j].value
  {
    assert forall j :: 0 <= j < |entries| ==> IsLastWithKey(entries, j);
    ToMapKeys(entries);
    ToMapLastWins(entries);
    DistinctKeysCount(entries);
  }

  lemma {:induction false} DistinctKeysCount<V>(entries: seq<Entry<V>>)
    requires forall i, j :: 0 <= i < j < |entries| ==> entries[i].key != entries[j].key
    ensures |set i | 0 <= i < |entries| :: entries[i].key| == |entries|
    decreases |entries|
  {
    if entries != [] {
      var n := |entries|;
      var init := entries[..n - 1];
      DistinctKeysCount(init);
      var s := set i | 0 <= i < n - 1 :: init[i].key;
      assert (set i | 0 <= i < n :: entries[i].key) == s + {entries[n - 1].key};
      assert entries[n - 1].key !in s;
    }
  }
}
