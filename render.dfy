/**
 * Rendering a parsed template, lines 220-277 of src/templateFormatter.ts:
 * `evaluateTemplateVariable` looks up a variable's identifier path in the
 * render context and, when the value found is a function, evaluates the
 * arguments left to right and calls it; any other value is used as it is.
 * `renderParsedTemplate` concatenates the string forms of the nodes, and
 * `baseValues` holds the five built-in functions.
 *
 * Rendering is modelled as synchronous. What belongs to the JavaScript host
 * (how a number is converted, printed and judged truthy, how a function
 * prints, and what a function from the context does when called) is a
 * parameter `Host`.
 */
module Renderer {
  import opened Wrappers
  import opened TemplateTree
  import Numeric

  /** The members of `baseValues`. */
  datatype Builtin = If | And | Or | Not | Concat

  /** A function value: one of `baseValues`, or a function the caller put into the context. */
  datatype Callable = BuiltinFn(op: Builtin) | HostFn(id: nat)

  /**
   * The values a render context holds. `Num` is a JavaScript number, named
   * by the text it was written as; `Null` stands for both `null` and
   * `undefined`, which the source treats alike (`== null`).
   */
  datatype Value =
    | Str(s: string)
    | Num(literal: string)
    | Bool(b: bool)
    | Null
    | Obj(fields: map<string, Value>)
    | List(items: seq<Value>)
    | Fn(c: Callable)

  /** What the JavaScript host decides and the template engine does not. */
  datatype Host = Host(
    numberTruthy: string -> bool,                       // a number is truthy (not 0, not NaN)
    numberText: string -> string,                       // `String(n)`
    functionText: Callable -> string,                   // `String(f)`
    call: (nat, seq<Value>) -> Result<Value, string>)   // calling a context function; `Err` is a thrown error

  type Context = map<string, Value>

  /** JavaScript truthiness. */
  predicate Truthy(h: Host, v: Value) {
    match v
    case Str(s) => s != ""
    case Num(t) => h.numberTruthy(t)
    case Bool(b) => b
    case Null => false
    case Obj(_) => true
    case List(_) => true
    case Fn(_) => true
  }

  /**
   * The string a value contributes to the output. `Null` contributes
   * nothing: `Array.prototype.join` writes `null` and `undefined` as "", and
   * the evaluator never hands `null` to the concatenation.
   */
  function Show(h: Host, v: Value): string
    decreases v
  {
    match v
    case Str(s) => s
    case Num(t) => h.numberText(t)
    case Bool(b) => if b then "true" else "false"
    case Null => ""
    case Obj(_) => "[object Object]"
    case List(items) => Join(h, items, ",")
    case Fn(c) => h.functionText(c)
  }

  /** `values.join(sep)`. */
  function Join(h: Host, values: seq<Value>, sep: string): string
    decreases values
  {
    if values == [] then ""
    else if |values| == 1 then Show(h, values[0])
    else Show(h, values[0]) + sep + Join(h, values[1..], sep)
  }

  // ---------------------------------------------------------------------
  // Identifier paths (`at(values, identifier)[0]`)

  /** The segments of a dotted path: `"a.b"` is `["a", "b"]`, `""` is `[""]`. */
  function SplitPath(path: string): (segs: seq<string>)
    ensures segs != []
  {
    if path == [] then [""]
    else
      var rest := SplitPath(path[1..]);
      if path[0] == '.' then [""] + rest
      else [[path[0]] + rest[0]] + rest[1..]
  }

  /** The segments joined by dots: the inverse of `SplitPath`. */
  function JoinPath(segs: seq<string>): string
    requires segs != []
  {
    if |segs| == 1 then segs[0] else segs[0] + "." + JoinPath(segs[1..])
  }

  predicate DotFree(s: string) {
    forall k :: 0 <= k < |s| ==> s[k] != '.'
  }

  /** Splitting loses nothing: joining the segments gives the path back. */
  lemma {:induction false} SplitJoin(path: string)
    ensures JoinPath(SplitPath(path)) == path
  {
    if path != [] {
      SplitJoin(path[1..]);
      var rest := SplitPath(path[1..]);
      if path[0] == '.' {
        assert JoinPath(SplitPath(path)) == "" + "." + JoinPath(rest);
        assert path == [path[0]] + path[1..];
      } else {
        var segs := SplitPath(path);
        assert segs[0] == [path[0]] + rest[0];
        if |rest| == 1 {
          assert path == [path[0]] + rest[0];
        } else {
          assert segs[1..] == rest[1..];
          assert JoinPath(segs) == [path[0]] + (rest[0] + "." + JoinPath(rest[1..]));
          assert path == [path[0]] + path[1..];
        }
      }
    }
  }

  /** No segment of a split path holds a dot. */
  lemma {:induction false} SplitDotFree(path: string)
    ensures forall k :: 0 <= k < |SplitPath(path)| ==> DotFree(SplitPath(path)[k])
  {
    if path != [] {
      SplitDotFree(path[1..]);
      var rest := SplitPath(path[1..]);
      if path[0] != '.' {
        var segs := SplitPath(path);
        assert segs[0] == [path[0]] + rest[0];
        assert forall k :: 1 <= k < |segs| ==> segs[k] == rest[k];
      }
    }
  }

  /** The value of a canonical decimal index. */
  function DecimalValue(s: string): nat
    requires Numeric.AllDigits(s)
  {
    if s == [] then 0 else DecimalValue(s[..|s| - 1]) * 10 + (s[|s| - 1] as int - '0' as int)
  }

  /** The array index a property name denotes: `"0"`, `"17"`, but not `"07"` or `"x"`. */
  function ArrayIndex(seg: string): Option<nat> {
    if seg != [] && Numeric.AllDigits(seg) && (seg[0] != '0' || |seg| == 1) then Some(DecimalValue(seg)) else None
  }

  /** The decimal text of a natural number, without leading zeros: `String(n)`. */
  function NatText(n: nat): string
    decreases n
  {
    (if n < 10 then "" else NatText(n / 10)) + [('0' as int + n % 10) as char]
  }

  /** `NatText` writes digits, with no leading zero unless the number is 0. */
  lemma {:induction false} NatTextDigits(n: nat)
    ensures Numeric.AllDigits(NatText(n)) && NatText(n) != []
    ensures NatText(n)[0] != '0' || n == 0
    decreases n
  {
    if n >= 10 {
      NatTextDigits(n / 10);
      assert NatText(n)[0] == NatText(n / 10)[0];
    }
  }

  /** The digits `NatText` writes denote the number itself. */
  lemma {:induction false} NatTextValue(n: nat)
    ensures Numeric.AllDigits(NatText(n)) && DecimalValue(NatText(n)) == n
    decreases n
  {
    NatTextDigits(n);
    var t := NatText(n);
    if n < 10 {
      assert t[..0] == [];
    } else {
      NatTextValue(n / 10);
      assert t[..|t| - 1] == NatText(n / 10);
    }
  }

  /** `NatText` writes a canonical index, and the index it writes is the number itself. */
  lemma NatTextIndex(n: nat)
    ensures Numeric.AllDigits(NatText(n)) && NatText(n) != []
    ensures ArrayIndex(NatText(n)) == Some(n)
  {
    NatTextDigits(n);
    NatTextValue(n);
  }

  /**
   * Follows the segments from `v`: the fields of an object, and the
   * elements and `length` of an array or a string; a missing property or a
   * step into any other value is absence.
   */
  function Lookup(v: Value, segs: seq<string>): Option<Value>
    decreases |segs|
  {
    if segs == [] then Some(v)
    else
      match v
      case Obj(m) => if segs[0] in m then Lookup(m[segs[0]], segs[1..]) else None
      case List(items) =>
        if segs[0] == "length" then Lookup(Num(NatText(|items|)), segs[1..])
        else
          var i := ArrayIndex(segs[0]);
          if i.Some? && i.value < |items| then Lookup(items[i.value], segs[1..]) else None
      case Str(text) =>
        if segs[0] == "length" then Lookup(Num(NatText(|text|)), segs[1..])
        else
          var i := ArrayIndex(segs[0]);
          if i.Some? && i.value < |text| then Lookup(Str([text[i.value]]), segs[1..]) else None
      case _ => None
  }

  /**
   * `at(values, path)[0]`: a path that is itself a key of the context names
   * that entry; otherwise it is split at its dots and followed.
   */
  function Resolve(ctx: Context, path: string): Option<Value> {
    if path in ctx then Some(ctx[path]) else Lookup(Obj(ctx), SplitPath(path))
  }

  /** A dotted path reaches a nested entry: `user.name` finds `ctx["user"]["name"]`. */
  lemma ResolveNested(ctx: Context, a: string, b: string, x: Value)
    requires DotFree(a) && DotFree(b) && a + "." + b !in ctx
    requires a in ctx && ctx[a].Obj? && b in ctx[a].fields && ctx[a].fields[b] == x
    ensures Resolve(ctx, a + "." + b) == Some(x)
  {
    DotFreeSplit(a, b);
    assert [a, b][1..] == [b] && [b][1..] == [];
    assert Lookup(ctx[a], [b]) == Some(x);
  }

  /** `a.length` of an array or a string in the context is its length, as a number. */
  lemma ResolveLength(ctx: Context, a: string)
    requires DotFree(a) && a + ".length" !in ctx && a in ctx && (ctx[a].List? || ctx[a].Str?)
    ensures Resolve(ctx, a + ".length") == Some(Num(NatText(if ctx[a].List? then |ctx[a].items| else |ctx[a].s|)))
  {
    assert a + ".length" == a + "." + "length";
    DotFreeSplit(a, "length");
    LookupSecond(ctx, a, "length");
    assert ["length"][1..] == [];
  }

  /** `a.k` with a canonical index `k` is the element at `k` of an array, or the character at `k` of a string. */
  lemma ResolveIndex(ctx: Context, a: string, k: nat)
    requires DotFree(a) && a + "." + NatText(k) !in ctx && a in ctx
    requires ctx[a].List? ==> k < |ctx[a].items|
    requires ctx[a].Str? ==> k < |ctx[a].s|
    ensures ctx[a].List? ==> Resolve(ctx, a + "." + NatText(k)) == Some(ctx[a].items[k])
    ensures ctx[a].Str? ==> Resolve(ctx, a + "." + NatText(k)) == Some(Str([ctx[a].s[k]]))
  {
    NatTextIndex(k);
    NatTextDigits(k);
    DotFreeSplit(a, NatText(k));
    LookupSecond(ctx, a, NatText(k));
    assert NatText(k) != "length";
  }

  /** Following `[a, b]` from the context is following `[b]` from the entry at `a`. */
  lemma LookupSecond(ctx: Context, a: string, b: string)
    requires a in ctx
    ensures Lookup(Obj(ctx), [a, b]) == Lookup(ctx[a], [b])
  {
    assert [a, b][1..] == [b];
  }

  /** Splitting `a.b` with dot-free `a` and `b` gives `[a, b]`. */
  lemma {:induction false} DotFreeSplit(a: string, b: string)
    requires DotFree(a) && DotFree(b)
    ensures SplitPath(a + "." + b) == [a, b]
  {
    if a == [] {
      assert a + "." + b == ['.'] + b;
      assert ([ '.'] + b)[1..] == b;
      SplitOfDotFree(b);
    } else {
      assert (a + "." + b)[1..] == a[1..] + "." + b;
      DotFreeSplit(a[1..], b);
      assert [a[0]] + a[1..] == a;
    }
  }

  lemma {:induction false} SplitOfDotFree(s: string)
    requires DotFree(s)
    ensures SplitPath(s) == [s]
  {
    if s != [] {
      SplitOfDotFree(s[1..]);
      assert [s[0]] + s[1..] == s;
    }
  }

  // ---------------------------------------------------------------------
  // The built-in functions (`baseValues`)

  /** Argument `i`, or `undefined` when fewer were passed. */
  function Nth(args: seq<Value>, i: nat): Value {
    if i < |args| then args[i] else Null
  }

  /** `and(...args)`: the loop that returns `false` at the first falsy argument. */
  function AllTruthy(h: Host, args: seq<Value>): (r: bool)
    ensures r <==> forall k :: 0 <= k < |args| ==> Truthy(h, args[k])
  {
    if args == [] then true
    else if !Truthy(h, args[0]) then false
    else
      var r := AllTruthy(h, args[1..]);
      assert forall k :: 1 <= k < |args| ==> args[k] == args[1..][k - 1];
      r
  }

  /** `or(...args)`: the loop that returns `true` at the first truthy argument. */
  function AnyTruthy(h: Host, args: seq<Value>): (r: bool)
    ensures r <==> exists k :: 0 <= k < |args| && Truthy(h, args[k])
  {
    if args == [] then false
    else if Truthy(h, args[0]) then true
    else
      var r := AnyTruthy(h, args[1..]);
      assert forall k :: 1 <= k < |args| ==> args[k] == args[1..][k - 1];
      r
  }

  /** Calling a member of `baseValues`. */
  function ApplyBuiltin(h: Host, op: Builtin, args: seq<Value>): Value {
    match op
    case If => if Truthy(h, Nth(args, 0)) then Nth(args, 1) else Nth(args, 2)
    case And => Bool(AllTruthy(h, args))
    case Or => Bool(AnyTruthy(h, args))
    case Not => Bool(!Truthy(h, Nth(args, 0)))
    case Concat => Str(Join(h, args, ""))
  }

  /** `baseValues`. */
  const BaseValues: Context :=
    map["if" := Fn(BuiltinFn(If)), "and" := Fn(BuiltinFn(And)), "or" := Fn(BuiltinFn(Or)),
        "not" := Fn(BuiltinFn(Not)), "concat" := Fn(BuiltinFn(Concat))]

  /** `Object.assign({}, baseValues, values)` when the base values are included. */
  function MergeBase(values: Context, includeBaseValues: bool): Context {
    if includeBaseValues then BaseValues + values else values
  }

  /** An entry of the caller's context wins over the built-in of the same name; the other built-ins stay. */
  lemma MergeBaseOverrides(values: Context, key: string)
    ensures key in values ==> MergeBase(values, true)[key] == values[key]
    ensures key !in values && key in BaseValues ==> MergeBase(values, true)[key] == BaseValues[key]
    ensures key in MergeBase(values, true) <==> key in values || key in BaseValues
    ensures MergeBase(values, false) == values
  {
  }

  /** `if` picks its second argument when the first is truthy and its third otherwise. */
  lemma IfChooses(h: Host, c: Value, t: Value, e: Value)
    ensures ApplyBuiltin(h, If, [c, t, e]) == if Truthy(h, c) then t else e
  {
  }

  /** `and`, `or` and `not` of no arguments: true, false, and true (`!undefined`). */
  lemma EmptyConnectives(h: Host)
    ensures ApplyBuiltin(h, And, []) == Bool(true)
    ensures ApplyBuiltin(h, Or, []) == Bool(false)
    ensures ApplyBuiltin(h, Not, []) == Bool(true)
  {
  }

  /** De Morgan over the built-ins: `not(or(args))` is `and` of the negated arguments. */
  lemma NotOrIsAndNot(h: Host, args: seq<Value>)
    ensures ApplyBuiltin(h, Not, [ApplyBuiltin(h, Or, args)]).b ==
      AllTruthy(h, seq(|args|, k requires 0 <= k < |args| => ApplyBuiltin(h, Not, [args[k]])))
  {
    var negs := seq(|args|, k requires 0 <= k < |args| => ApplyBuiltin(h, Not, [args[k]]));
    assert forall k :: 0 <= k < |args| ==> (Truthy(h, negs[k]) <==> !Truthy(h, args[k]));
  }

  /** Joining is compatible with concatenation of argument lists. */
  lemma {:induction false} JoinAppend(h: Host, xs: seq<Value>, ys: seq<Value>)
    ensures Join(h, xs + ys, "") == Join(h, xs, "") + Join(h, ys, "")
    decreases |xs|
  {
    if xs == [] {
      assert xs + ys == ys;
    } else if |xs| == 1 {
      if ys != [] {
        assert (xs + ys)[1..] == ys;
      } else {
        assert xs + ys == xs;
      }
    } else {
      JoinAppend(h, xs[1..], ys);
      assert (xs + ys)[1..] == xs[1..] + ys;
    }
  }

  /** `concat` of strings is their concatenation. */
  function Concatenation(strs: seq<string>): string {
    if strs == [] then "" else strs[0] + Concatenation(strs[1..])
  }

  lemma {:induction false} ConcatOfStrings(h: Host, strs: seq<string>)
    ensures ApplyBuiltin(h, Concat, seq(|strs|, k requires 0 <= k < |strs| => Str(strs[k]))) == Str(Concatenation(strs))
  {
    var args := seq(|strs|, k requires 0 <= k < |strs| => Str(strs[k]));
    if strs != [] {
      ConcatOfStrings(h, strs[1..]);
      var rest := seq(|strs| - 1, k requires 0 <= k < |strs| - 1 => Str(strs[1..][k]));
      assert args == [Str(strs[0])] + rest;
      JoinAppend(h, [Str(strs[0])], rest);
    }
  }

  // ---------------------------------------------------------------------
  // Evaluation

  /** Calling a function value with evaluated arguments. */
  function Apply(h: Host, c: Callable, args: seq<Value>): Result<Value, string> {
    match c
    case BuiltinFn(op) => Ok(ApplyBuiltin(h, op, args))
    case HostFn(id) => h.call(id, args)
  }

  /**
   * `evaluateTemplateVariable(v, values)`: a function found at the
   * identifier is called with the evaluated arguments and a `null` result
   * becomes ""; any other value is the result itself, with "" for absence
   * and `null`, and the written arguments are not looked at.
   */
  function Evaluate(h: Host, ctx: Context, v: Var): (r: Result<Value, string>)
    ensures r.Ok? ==> !r.value.Null?
    decreases v, 1
  {
    match Resolve(ctx, v.identifier)
    case Some(Fn(c)) =>
      var args :- EvaluateArgs(h, ctx, v.args);
      var result :- Apply(h, c, args);
      Ok(if result.Null? then Str("") else result)
    case Some(value) => Ok(if value.Null? then Str("") else value)
    case None => Ok(Str(""))
  }

  /** One argument: a string or a number is passed as it is, a nested variable is evaluated. */
  function EvaluateArg(h: Host, ctx: Context, a: Arg): Result<Value, string>
    decreases a, 2
  {
    match a
    case StrArg(s) => Ok(Str(s))
    case NumArg(t) => Ok(Num(t))
    case VarArg(w) => Evaluate(h, ctx, w)
  }

  /** The argument loop of `evaluateTemplateVariable`, left to right; the first error ends it. */
  function EvaluateArgs(h: Host, ctx: Context, args: seq<Arg>): Result<seq<Value>, string>
    decreases args, 3
  {
    if args == [] then Ok([])
    else
      var first :- EvaluateArg(h, ctx, args[0]);
      var rest :- EvaluateArgs(h, ctx, args[1..]);
      Ok([first] + rest)
  }

  /**
   * The arguments are evaluated one by one: the result lists each
   * argument's value, and an error is that of the first argument that fails.
   */
  lemma {:induction false} EvaluateArgsPointwise(h: Host, ctx: Context, args: seq<Arg>)
    ensures EvaluateArgs(h, ctx, args).Ok? <==> forall k :: 0 <= k < |args| ==> EvaluateArg(h, ctx, args[k]).Ok?
    ensures EvaluateArgs(h, ctx, args).Ok? ==>
      |EvaluateArgs(h, ctx, args).value| == |args| &&
      forall k :: 0 <= k < |args| ==> EvaluateArgs(h, ctx, args).value[k] == EvaluateArg(h, ctx, args[k]).value
    ensures EvaluateArgs(h, ctx, args).Err? ==>
      exists k :: 0 <= k < |args| && EvaluateArg(h, ctx, args[k]) == Err(EvaluateArgs(h, ctx, args).error) &&
        forall j :: 0 <= j < k ==> EvaluateArg(h, ctx, args[j]).Ok?
  {
    if args != [] {
      EvaluateArgsPointwise(h, ctx, args[1..]);
      assert forall k :: 1 <= k < |args| ==> args[k] == args[1..][k - 1];
      var r := EvaluateArgs(h, ctx, args);
      if EvaluateArg(h, ctx, args[0]).Ok? && EvaluateArgs(h, ctx, args[1..]).Err? {
        var k :| 0 <= k < |args| - 1 && EvaluateArg(h, ctx, args[1..][k]) == Err(EvaluateArgs(h, ctx, args[1..]).error) &&
          forall j :: 0 <= j < k ==> EvaluateArg(h, ctx, args[1..][j]).Ok?;
        assert EvaluateArg(h, ctx, args[k + 1]) == Err(r.error);
      }
    }
  }

  /** Written arguments do not matter when the identifier does not name a function. */
  lemma ArgumentsIgnoredUnlessCallable(h: Host, ctx: Context, v: Var, w: Var)
    requires v.identifier == w.identifier
    requires Resolve(ctx, v.identifier).None? || !Resolve(ctx, v.identifier).value.Fn?
    ensures Evaluate(h, ctx, v) == Evaluate(h, ctx, w)
    ensures Evaluate(h, ctx, v) == Ok(
      if Resolve(ctx, v.identifier).None? || Resolve(ctx, v.identifier).value.Null? then Str("")
      else Resolve(ctx, v.identifier).value)
  {
  }

  /**
   * Arguments are evaluated before the call, and none is skipped: if one
   * fails, the call fails, whatever the function would have done with it
   * (`if` does not short-circuit).
   */
  lemma EagerArguments(h: Host, ctx: Context, v: Var, k: nat)
    requires Resolve(ctx, v.identifier).Some? && Resolve(ctx, v.identifier).value.Fn?
    requires k < |v.args| && EvaluateArg(h, ctx, v.args[k]).Err?
    ensures Evaluate(h, ctx, v).Err?
  {
    EvaluateArgsPointwise(h, ctx, v.args);
  }

  /** A call evaluates its arguments against the same context and passes their values in order. */
  lemma CallReceivesArguments(h: Host, ctx: Context, v: Var, c: Callable)
    requires Resolve(ctx, v.identifier) == Some(Fn(c))
    requires forall k :: 0 <= k < |v.args| ==> EvaluateArg(h, ctx, v.args[k]).Ok?
    ensures var vals := seq(|v.args|, k requires 0 <= k < |v.args| => EvaluateArg(h, ctx, v.args[k]).value);
      Evaluate(h, ctx, v) == (var result :- Apply(h, c, vals); Ok(if result.Null? then Str("") else result))
  {
    EvaluateArgsPointwise(h, ctx, v.args);
    var vals := seq(|v.args|, k requires 0 <= k < |v.args| => EvaluateArg(h, ctx, v.args[k]).value);
    var r := EvaluateArgs(h, ctx, v.args).value;
    assert |r| == |vals| && forall k :: 0 <= k < |r| ==> r[k] == vals[k];
    assert r == vals;
  }

  // ---------------------------------------------------------------------
  // Rendering

  /** The text one node contributes. */
  function RenderNode(h: Host, ctx: Context, n: Node): Result<string, string> {
    match n
    case Lit(t) => Ok(t)
    case Inject(v) =>
      var value :- Evaluate(h, ctx, v);
      Ok(Show(h, value))
  }

  /** `renderParsedTemplate`: the nodes' texts in order; the first error ends the render. */
  function Render(h: Host, ctx: Context, ns: seq<Node>): Result<string, string> {
    if ns == [] then Ok("")
    else
      var init :- Render(h, ctx, ns[..|ns| - 1]);
      var last :- RenderNode(h, ctx, ns[|ns| - 1]);
      Ok(init + last)
  }

  /** Rendering a concatenation of trees renders each and concatenates the texts. */
  lemma {:induction false} RenderAppend(h: Host, ctx: Context, xs: seq<Node>, ys: seq<Node>)
    ensures Render(h, ctx, xs + ys) == (var a :- Render(h, ctx, xs); var b :- Render(h, ctx, ys); Ok(a + b))
    decreases |ys|
  {
    if ys == [] {
      assert xs + ys == xs;
      if Render(h, ctx, xs).Ok? {
        assert Render(h, ctx, xs).value + "" == Render(h, ctx, xs).value;
      }
    } else {
      var ys' := ys[..|ys| - 1];
      RenderAppend(h, ctx, xs, ys');
      assert (xs + ys)[..|xs + ys| - 1] == xs + ys';
      assert (xs + ys)[|xs + ys| - 1] == ys[|ys| - 1];
      if Render(h, ctx, xs).Ok? && Render(h, ctx, ys').Ok? && RenderNode(h, ctx, ys[|ys| - 1]).Ok? {
        var a, b, c := Render(h, ctx, xs).value, Render(h, ctx, ys').value, RenderNode(h, ctx, ys[|ys| - 1]).value;
        assert a + b + c == a + (b + c);
      }
    }
  }

  /** A tree of literals renders to the concatenation of its texts, whatever the context. */
  lemma {:induction false} RenderLiterals(h: Host, ctx: Context, ns: seq<Node>)
    requires forall k :: 0 <= k < |ns| ==> ns[k].Lit?
    ensures Render(h, ctx, ns) == Ok(Concatenation(seq(|ns|, k requires 0 <= k < |ns| => ns[k].text)))
    decreases |ns|
  {
    var texts := seq(|ns|, k requires 0 <= k < |ns| => ns[k].text);
    if ns != [] {
      RenderAppend(h, ctx, [ns[0]], ns[1..]);
      assert [ns[0]] + ns[1..] == ns;
      RenderLiterals(h, ctx, ns[1..]);
      assert [ns[0]][..0] == [];
      assert "" + ns[0].text == ns[0].text;
      assert Render(h, ctx, [ns[0]]) == Ok(ns[0].text);
      assert texts[1..] == seq(|ns| - 1, k requires 0 <= k < |ns| - 1 => ns[1..][k].text);
      assert Concatenation(texts) == ns[0].text + Concatenation(texts[1..]);
    }
  }

  /** A single node renders to its own text. */
  lemma RenderSingle(h: Host, ctx: Context, n: Node)
    ensures Render(h, ctx, [n]) == RenderNode(h, ctx, n)
  {
    assert [n][..0] == [];
    if RenderNode(h, ctx, n).Ok? {
      assert "" + RenderNode(h, ctx, n).value == RenderNode(h, ctx, n).value;
    }
  }

  /** An error while rendering a prefix is the error of the whole render. */
  lemma {:induction false} RenderErrorIsFinal(h: Host, ctx: Context, ns: seq<Node>, n: nat)
    requires n <= |ns| && Render(h, ctx, ns[..n]).Err?
    ensures Render(h, ctx, ns) == Render(h, ctx, ns[..n])
    decreases |ns| - n
  {
    if n < |ns| {
      assert ns[..|ns| - 1][..n] == ns[..n];
      RenderErrorIsFinal(h, ctx, ns[..|ns| - 1], n);
    } else {
      assert ns[..n] == ns;
    }
  }

  /** `renderParsedTemplate`: the source's loop that appends each node's text to `result`. */
  method RenderParsedTemplate(h: Host, ctx: Context, ns: seq<Node>) returns (r: Result<string, string>)
    ensures r == Render(h, ctx, ns)
  {
    var result := "";
    var i := 0;
    assert ns[..0] == [];
    while i < |ns|
      invariant 0 <= i <= |ns|
      invariant Render(h, ctx, ns[..i]) == Ok(result)
    {
      var part := RenderNode(h, ctx, ns[i]);
      assert ns[..i + 1][..i] == ns[..i] && ns[..i + 1][i] == ns[i];
      if part.Err? {
        RenderErrorIsFinal(h, ctx, ns, i + 1);
        return Err(part.error);
      }
      result := result + part.value;
      i := i + 1;
    }
    assert ns[..i] == ns;
    return Ok(result);
  }
}
