/**
 * `renderTemplate` of src/templateFormatter.ts (lines 279-300) and the
 * parse-result cache it keeps (lines 3-4). The cache maps a template's
 * text to its parse result, remembers the order in which keys were
 * inserted, and holds at most `TemplateCacheSize` entries: a miss on a full
 * cache first deletes the earliest-inserted key. A hit changes nothing, so
 * the eviction order is the insertion order, not the order of use.
 *
 * The source keeps the cache in a module-global `Map`; here it is an object
 * the caller passes in.
 */
module Engine {
  import opened Wrappers
  import opened TemplateTree
  import Numeric
  import opened Parser
  import opened Printer
  import ParserFacts
  import opened Renderer

  /** `TEMPLATE_CACHE_SIZE`. */
  const TemplateCacheSize: nat := 100

  /** The cache's keys after a miss on `template`: the earliest key leaves a full cache, the new key goes last. */
  function Admit(keys: seq<string>, template: string): seq<string> {
    (if |keys| >= TemplateCacheSize then keys[1..] else keys) + [template]
  }

  /** The keys after a run of misses, one template after another. */
  function AdmitAll(keys: seq<string>, templates: seq<string>): seq<string>
    decreases |templates|
  {
    if templates == [] then keys else AdmitAll(Admit(keys, templates[0]), templates[1..])
  }

  /** The last `TemplateCacheSize` elements of `s`, or all of them if there are fewer. */
  function Newest(s: seq<string>): seq<string> {
    if |s| <= TemplateCacheSize then s else s[|s| - TemplateCacheSize..]
  }

  /**
   * Strict FIFO: after any run of misses, the cache holds exactly the most
   * recently inserted `TemplateCacheSize` keys, in insertion order.
   */
  lemma {:induction false} AdmitAllKeepsNewest(keys: seq<string>, templates: seq<string>)
    requires |keys| <= TemplateCacheSize
    ensures AdmitAll(keys, templates) == Newest(keys + templates)
    decreases |templates|
  {
    if templates == [] {
      assert keys + templates == keys;
    } else {
      var t, rest := templates[0], templates[1..];
      var k1 := Admit(keys, t);
      AdmitAllKeepsNewest(k1, rest);
      assert keys + templates == (keys + [t]) + rest;
      assert k1 == Newest(keys + [t]);
      NewestOfSuffix(keys + [t], rest);
    }
  }

  /** Only the newest elements of the prefix matter for the newest elements of the whole. */
  lemma NewestOfSuffix(a: seq<string>, b: seq<string>)
    ensures Newest(Newest(a) + b) == Newest(a + b)
  {
    if |a| > TemplateCacheSize {
      var d := |a| - TemplateCacheSize;
      assert Newest(a) + b == (a + b)[d..];
      if |Newest(a) + b| > TemplateCacheSize {
        assert (a + b)[d..][|a + b| - d - TemplateCacheSize..] == (a + b)[|a + b| - TemplateCacheSize..];
      }
    }
  }

  /** Pairwise distinct templates. */
  predicate Distinct(templates: seq<string>) {
    forall i, j :: 0 <= i < j < |templates| ==> templates[i] != templates[j]
  }

  /** The position from which `Newest(s)` keeps the elements of `s`. */
  function NewestStart(s: seq<string>): nat {
    if |s| <= TemplateCacheSize then 0 else |s| - TemplateCacheSize
  }

  /** Of distinct templates, exactly those from `NewestStart` on are among the newest. */
  lemma NewestMembers(templates: seq<string>, k: nat)
    requires Distinct(templates) && k < |templates|
    ensures templates[k] in Newest(templates) <==> k >= NewestStart(templates)
  {
    var m := NewestStart(templates);
    assert Newest(templates) == templates[m..];
    if k >= m {
      assert templates[m..][k - m] == templates[k];
    }
    if templates[k] in templates[m..] {
      var j :| 0 <= j < |templates[m..]| && templates[m..][j] == templates[k];
      assert templates[m + j] == templates[k];
    }
  }

  /**
   * Distinct templates rendered one after another into an empty cache:
   * after 101 of them the cache holds 100, and the first has been evicted
   * while the others are all kept.
   */
  lemma HundredAndOneTemplates(templates: seq<string>)
    requires |templates| == TemplateCacheSize + 1 && Distinct(templates)
    ensures AdmitAll([], templates) == templates[1..]
    ensures |AdmitAll([], templates)| == TemplateCacheSize
    ensures templates[0] !in AdmitAll([], templates)
    ensures forall k :: 1 <= k < |templates| ==> templates[k] in AdmitAll([], templates)
  {
    AdmitAllKeepsNewest([], templates);
    assert [] + templates == templates;
    NewestMembers(templates, 0);
    forall k | 1 <= k < |templates|
      ensures templates[k] in AdmitAll([], templates)
    {
      NewestMembers(templates, k);
    }
  }

  /** A miss after the newest keys of `s` leaves the newest keys of `s + [t]`. */
  lemma AdmitNewest(s: seq<string>, t: string)
    ensures Admit(Newest(s), t) == Newest(s + [t])
  {
    NewestOfSuffix(s, [t]);
  }

  /** The parse-result cache: `templateCache` with its keys in insertion order. */
  class TemplateCache {
    var keys: seq<string>
    var trees: map<string, seq<Node>>

    /** At most `TemplateCacheSize` distinct keys, the same in both fields, each mapped to its parse result. */
    ghost predicate Valid()
      reads this
    {
      && |keys| <= TemplateCacheSize
      && (forall i, j :: 0 <= i < j < |keys| ==> keys[i] != keys[j])
      && (forall k :: k in trees <==> k in keys)
      && (forall k :: k in trees ==> Parse(k) == Ok(trees[k]))
    }

    constructor ()
      ensures Valid() && keys == [] && trees == map[]
    {
      keys := [];
      trees := map[];
    }

    /**
     * Lines 284-297: a hit returns the stored tree and changes nothing; a
     * miss parses, and only a successful parse evicts (when full) and inserts.
     */
    method GetOrParse(template: string) returns (r: Result<seq<Node>, ParseError>)
      requires Valid()
      modifies this
      ensures Valid()
      ensures r == Parse(template)
      ensures old(template in trees) || r.Err? ==> keys == old(keys) && trees == old(trees)
      ensures !old(template in trees) && r.Ok? ==>
        && keys == Admit(old(keys), template)
        && trees == (if |old(keys)| >= TemplateCacheSize then old(trees) - {old(keys)[0]} else old(trees))[template := r.value]
    {
      if template in trees {
        return Ok(trees[template]);
      }
      r := ParseTemplate(template);
      if r.Err? {
        return;
      }
      if |keys| >= TemplateCacheSize {
        var first := keys[0];
        trees := trees - {first};
        keys := keys[1..];
      }
      trees := trees[template := r.value];
      keys := keys + [template];
    }
  }

  /** The ways `renderTemplate` fails: a `TemplateParseError`, or an error thrown by a context function. */
  datatype RenderError = ParseFailed(error: ParseError) | CallFailed(message: string)

  /** What `renderTemplate` yields: the template parsed and rendered against the merged context. */
  function RenderText(h: Host, template: string, values: Context, includeBaseValues: bool): Result<string, RenderError> {
    match Parse(template)
    case Err(e) => Err(ParseFailed(e))
    case Ok(ns) =>
      match Render(h, MergeBase(values, includeBaseValues), ns)
      case Err(m) => Err(CallFailed(m))
      case Ok(text) => Ok(text)
  }

  /**
   * `renderTemplate(template, values, includeBaseValues)`: the cache makes
   * no difference to the text, and a render that fails still leaves the
   * parse result cached.
   */
  method RenderTemplate(cache: TemplateCache, h: Host, template: string, values: Context, includeBaseValues: bool)
    returns (r: Result<string, RenderError>)
    requires cache.Valid()
    modifies cache
    ensures cache.Valid()
    ensures r == RenderText(h, template, values, includeBaseValues)
    ensures cache.keys ==
      if old(template in cache.trees) || Parse(template).Err? then old(cache.keys) else Admit(old(cache.keys), template)
  {
    var context := MergeBase(values, includeBaseValues);
    var parsed := cache.GetOrParse(template);
    if parsed.Err? {
      return Err(ParseFailed(parsed.error));
    }
    var text := RenderParsedTemplate(h, context, parsed.value);
    if text.Err? {
      return Err(CallFailed(text.error));
    }
    return Ok(text.value);
  }

  /**
   * `renderTemplate` called on distinct templates that all parse, one after
   * another, from an empty cache: each call is a miss, and afterwards the
   * cache holds exactly the last `TemplateCacheSize` of them, in order.
   */
  method ParseInTurn(cache: TemplateCache, templates: seq<string>)
    requires cache.Valid() && cache.keys == [] && Distinct(templates)
    requires forall k :: 0 <= k < |templates| ==> Parse(templates[k]).Ok?
    modifies cache
    ensures cache.Valid() && cache.keys == Newest(templates)
    ensures forall k :: 0 <= k < |templates| ==> (templates[k] in cache.trees <==> k >= NewestStart(templates))
  {
    var i := 0;
    while i < |templates|
      invariant 0 <= i <= |templates|
      invariant cache.Valid() && cache.keys == Newest(templates[..i])
    {
      NextIsMiss(templates, i);
      var r := cache.GetOrParse(templates[i]);
      i := i + 1;
    }
    assert templates[..i] == templates;
    forall k | 0 <= k < |templates|
      ensures templates[k] in cache.trees <==> k >= NewestStart(templates)
    {
      NewestMembers(templates, k);
    }
  }

  /** The next of distinct templates is not among the newest before it, and its miss leaves the newest up to it. */
  lemma NextIsMiss(templates: seq<string>, i: nat)
    requires Distinct(templates) && i < |templates|
    ensures templates[i] !in Newest(templates[..i])
    ensures Admit(Newest(templates[..i]), templates[i]) == Newest(templates[..i + 1])
  {
    var prefix := templates[..i + 1];
    assert Distinct(prefix);
    NewestMembers(prefix, i);
    assert prefix == templates[..i] + [templates[i]];
    AdmitNewest(templates[..i], templates[i]);
  }

  /** 101 distinct templates through the cache: the first is evicted, the other 100 stay. */
  method HundredAndOneParses(cache: TemplateCache, templates: seq<string>)
    requires cache.Valid() && cache.keys == [] && Distinct(templates)
    requires |templates| == TemplateCacheSize + 1
    requires forall k :: 0 <= k < |templates| ==> Parse(templates[k]).Ok?
    modifies cache
    ensures cache.Valid() && |cache.keys| == TemplateCacheSize
    ensures templates[0] !in cache.trees
    ensures forall k :: 1 <= k < |templates| ==> templates[k] in cache.trees
  {
    ParseInTurn(cache, templates);
  }

  // ---------------------------------------------------------------------
  // Whole templates

  /** Literal text, escaped for the parser, renders to itself in any context. */
  lemma EscapedTextRendersAsIs(h: Host, t: string, values: Context, includeBaseValues: bool)
    ensures RenderText(h, Escape(t), values, includeBaseValues) == Ok(t)
  {
    var ctx := MergeBase(values, includeBaseValues);
    ParserFacts.EscapeRoundTrip(t);
    if t != "" {
      RenderSingle(h, ctx, Lit(t));
    }
  }

  /** A template without `{` and `\` renders to itself: no variable is looked up. */
  lemma PlainTemplateRendersAsIs(h: Host, t: string, values: Context, includeBaseValues: bool)
    requires forall k :: 0 <= k < |t| ==> t[k] != '{' && t[k] != '\\'
    ensures RenderText(h, t, values, includeBaseValues) == Ok(t)
  {
    ParserFacts.EscapePlain(t);
    EscapedTextRendersAsIs(h, t, values, includeBaseValues);
  }

  /** `\{` and `\}` around plain text render as the braces themselves. */
  lemma EscapedBraces(h: Host, w: string, values: Context, includeBaseValues: bool)
    requires forall k :: 0 <= k < |w| ==> w[k] != '{' && w[k] != '\\'
    ensures RenderText(h, "\\{" + w + "\\}", values, includeBaseValues) == Ok("{" + w + "}")
  {
    var u := "{" + w;
    assert u[0] == '{' && u[1..] == w;
    ParserFacts.EscapePlain(w);
    assert Escape(u) == ['\\', '{'] + Escape(w);
    assert "\\{" + w + "\\}" == Escape(u) + "\\}";
    ParserFacts.EscapedClosingBrace(u);
    RenderSingle(h, MergeBase(values, includeBaseValues), Lit(u + "}"));
    assert u + "}" == "{" + w + "}";
  }

  /** A context value that is not a function renders as it is, with or without call syntax. */
  lemma UserName(h: Host, s1: string, s2: string, values: Context)
    requires s1 == "{user.name}" && s2 == "{user.name()}"
    requires values == map["user" := Obj(map["name" := Str("Amy")])]
    ensures RenderText(h, s1, values, true) == Ok("Amy")
    ensures RenderText(h, s2, values, true) == Ok("Amy")
  {
    var id := UserNameParses(s1, s2);
    var ctx := MergeBase(values, true);
    UserNameResolves(ctx, values, id);
    RenderSingle(h, ctx, Inject(Var(id, [])));
  }

  lemma UserNameParses(s1: string, s2: string) returns (id: string)
    requires s1 == "{user.name}" && s2 == "{user.name()}"
    ensures Parse(s1) == Ok([Inject(Var(id, []))]) && Parse(s2) == Ok([Inject(Var(id, []))])
    ensures id == "user.name"
  {
    id := "user.name";
    assert IsIdentifier(id);
    ParserFacts.BareRootVariable(id, "");
    assert "{" + id + "" + "}" == s1;
    ParserFacts.CallWithoutArguments(id);
    assert "{" + id + "()}" == s2;
  }

  lemma UserNameResolves(ctx: Context, values: Context, id: string)
    requires values == map["user" := Obj(map["name" := Str("Amy")])] && ctx == MergeBase(values, true)
    requires id == "user.name"
    ensures Resolve(ctx, id) == Some(Str("Amy"))
  {
    var a, b := "user", "name";
    assert a in ctx && ctx[a] == values[a];
    assert id == a + "." + b && id !in ctx;
    ResolveNested(ctx, a, b, Str("Amy"));
  }

  /** `{if(a,b,c)}` renders `b` when `a` is truthy. */
  lemma IfExample(h: Host, s: string, values: Context)
    requires s == "{if(a,b,c)}"
    requires values == map["a" := Bool(true), "b" := Str("Y"), "c" := Str("N")]
    ensures RenderText(h, s, values, true) == Ok("Y")
  {
    var ctx := MergeBase(values, true);
    var v := Var("if", [VarArg(Var("a", [])), VarArg(Var("b", [])), VarArg(Var("c", []))]);
    ParserFacts.IfWithBareArguments(s);
    IfContext(ctx, values);
    IfEvaluates(h, ctx, v);
    RenderSingle(h, ctx, Inject(v));
  }

  lemma IfContext(ctx: Context, values: Context)
    requires values == map["a" := Bool(true), "b" := Str("Y"), "c" := Str("N")] && ctx == MergeBase(values, true)
    ensures Resolve(ctx, "if") == Some(Fn(BuiltinFn(If)))
    ensures Resolve(ctx, "a") == Some(Bool(true)) && Resolve(ctx, "b") == Some(Str("Y")) && Resolve(ctx, "c") == Some(Str("N"))
  {
  }

  lemma IfEvaluates(h: Host, ctx: Context, v: Var)
    requires Resolve(ctx, "if") == Some(Fn(BuiltinFn(If)))
    requires Resolve(ctx, "a") == Some(Bool(true)) && Resolve(ctx, "b") == Some(Str("Y")) && Resolve(ctx, "c") == Some(Str("N"))
    requires v == Var("if", [VarArg(Var("a", [])), VarArg(Var("b", [])), VarArg(Var("c", []))])
    ensures Evaluate(h, ctx, v) == Ok(Str("Y"))
  {
    assert EvaluateArg(h, ctx, v.args[0]) == Ok(Bool(true));
    assert EvaluateArg(h, ctx, v.args[1]) == Ok(Str("Y"));
    assert EvaluateArg(h, ctx, v.args[2]) == Ok(Str("N"));
    CallReceivesArguments(h, ctx, v, BuiltinFn(If));
    var vals := seq(|v.args|, k requires 0 <= k < |v.args| => EvaluateArg(h, ctx, v.args[k]).value);
    assert vals == [Bool(true), Str("Y"), Str("N")];
  }

  /** `{concat("a",1,"b")}` joins a string, a number and a string. */
  lemma ConcatExample(h: Host, s: string, values: Context)
    requires s == "{concat(\"a\",1,\"b\")}" && values == map[] && h.numberText("1") == "1"
    ensures RenderText(h, s, values, true) == Ok("a1b")
  {
    var ctx := MergeBase(values, true);
    var v := Var("concat", [StrArg("a"), NumArg("1"), StrArg("b")]);
    ConcatParses(s, v);
    ConcatContext(ctx, values);
    ConcatEvaluates(h, ctx, v);
    RenderSingle(h, ctx, Inject(v));
  }

  lemma ConcatContext(ctx: Context, values: Context)
    requires values == map[] && ctx == MergeBase(values, true)
    ensures Resolve(ctx, "concat") == Some(Fn(BuiltinFn(Concat)))
  {
  }

  lemma ConcatEvaluates(h: Host, ctx: Context, v: Var)
    requires Resolve(ctx, "concat") == Some(Fn(BuiltinFn(Concat))) && h.numberText("1") == "1"
    requires v == Var("concat", [StrArg("a"), NumArg("1"), StrArg("b")])
    ensures Evaluate(h, ctx, v) == Ok(Str("a1b"))
  {
    assert EvaluateArg(h, ctx, v.args[0]) == Ok(Str("a"));
    assert EvaluateArg(h, ctx, v.args[1]) == Ok(Num("1"));
    assert EvaluateArg(h, ctx, v.args[2]) == Ok(Str("b"));
    CallReceivesArguments(h, ctx, v, BuiltinFn(Concat));
    var vals := seq(|v.args|, k requires 0 <= k < |v.args| => EvaluateArg(h, ctx, v.args[k]).value);
    assert vals == [Str("a"), Num("1"), Str("b")];
    ConcatJoin(h, vals);
  }

  lemma ConcatJoin(h: Host, vals: seq<Value>)
    requires h.numberText("1") == "1" && vals == [Str("a"), Num("1"), Str("b")]
    ensures Join(h, vals, "") == "a1b"
  {
    var tail := [Num("1"), Str("b")];
    assert vals[1..] == tail && tail[1..] == [Str("b")];
    assert Join(h, [Str("b")], "") == "b";
    assert Join(h, tail, "") == h.numberText("1") + "" + "b" == "1b";
    assert Join(h, vals, "") == "a" + "" + "1b" == "a1b";
  }

  lemma ConcatParses(s: string, v: Var)
    requires s == "{concat(\"a\",1,\"b\")}" && v == Var("concat", [StrArg("a"), NumArg("1"), StrArg("b")])
    ensures Parse(s) == Ok([Inject(v)])
  {
    assert IsIdentifier(v.identifier);
    ConcatPrintable(v.identifier, "a", '1', "b");
    ParsePrint([Inject(v)]);
    ConcatText(s, v);
  }

  lemma ConcatPrintable(f: string, a: string, d: char, b: string)
    requires IsIdentifier(f) && Numeric.IsDigit(d)
    ensures Printable([Inject(Var(f, [StrArg(a), NumArg([d]), StrArg(b)]))])
  {
    var args := [StrArg(a), NumArg([d]), StrArg(b)];
    DigitIsNumberText(d);
    forall k | 0 <= k < |args|
      ensures PrintableArg(args[k])
    {
      if k == 1 {
        assert args[k] == NumArg([d]);
      } else {
        assert args[k].StrArg?;
      }
    }
    var ns := [Inject(Var(f, args))];
    assert PrintableVar(ns[0].v);
    assert NodesWellFormed(ns);
  }

  lemma ConcatText(s: string, v: Var)
    requires s == "{concat(\"a\",1,\"b\")}" && v == Var("concat", [StrArg("a"), NumArg("1"), StrArg("b")])
    ensures Print([Inject(v)]) == s
  {
    ConcatArgsText(v.args);
    PrintOneCall(v);
    ConcatPieces(s);
  }

  lemma ConcatPieces(s: string)
    requires s == "{concat(\"a\",1,\"b\")}"
    ensures s == "{" + "concat" + "(" + "\"a\",1,\"b\"" + ")}"
  {
  }

  lemma PrintOneCall(v: Var)
    ensures Print([Inject(v)]) == "{" + v.identifier + "(" + PrintArgs(v.args) + ")}"
  {
    assert Print([Inject(v)]) == PrintNode(Inject(v)) + Print([]);
  }

  lemma ConcatArgsText(args: seq<Arg>)
    requires args == [StrArg("a"), NumArg("1"), StrArg("b")]
    ensures PrintArgs(args) == "\"a\",1,\"b\""
  {
    assert Quote("a") == "a" && Quote("b") == "b";
    assert args[1..] == [NumArg("1"), StrArg("b")] && args[1..][1..] == [StrArg("b")];
    assert PrintArgs(args[1..][1..]) == "\"b\"";
    assert PrintArgs(args[1..]) == "1" + "," + "\"b\"";
    assert PrintArgs(args) == "\"a\"" + "," + "1,\"b\"";
  }
}
