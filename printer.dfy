/**
 * A canonical printer for parsed templates and the proof that the parser
 * reads back what it prints: `Parse(Print(ns)) == Ok(ns)` for every
 * printable tree. The printer is not part of src/templateFormatter.ts; it is
 * the partner that pins down what `parseTemplate` accepts: which characters
 * need a backslash in literal text and in quoted strings, how arguments are
 * separated and how nested calls close.
 */
module Printer {
  import opened Wrappers
  import opened TemplateTree
  import Numeric
  import opened Parser

  /** Characters that end or split an identifier. */
  predicate IdentChar(c: char) {
    c != '(' && c != ',' && c != ')' && c != '}'
  }

  /** Characters that, in argument position, start a nested variable. */
  predicate StartsNested(c: char) {
    IdentChar(c) && c != ' ' && c != '"' && !Numeric.IsDigit(c)
  }

  predicate IsIdentifier(id: string) {
    forall k :: 0 <= k < |id| ==> IdentChar(id[k])
  }

  predicate IsNestedIdentifier(id: string) {
    id != [] && StartsNested(id[0]) && IsIdentifier(id)
  }

  /** What the parser reads as a number argument: a leading digit, then anything up to a separator. */
  predicate IsNumberLexeme(t: string) {
    && t != [] && Numeric.IsDigit(t[0])
    && (forall k :: 0 <= k < |t| ==> t[k] != ')' && t[k] != ',')
  }

  /** Number arguments the parser accepts: a number lexeme valid for `Number()`. */
  predicate IsNumberText(t: string) {
    IsNumberLexeme(t) && Numeric.IsNumeric(t)
  }

  /** A single digit is a number argument the parser accepts. */
  lemma DigitIsNumberText(d: char)
    requires Numeric.IsDigit(d)
    ensures IsNumberText([d])
  {
    Numeric.DigitsAreNumeric([d]);
  }

  predicate PrintableArg(a: Arg) {
    match a
    case StrArg(_) => true
    case NumArg(t) => IsNumberText(t)
    case VarArg(v) => IsNestedIdentifier(v.identifier) && forall k :: 0 <= k < |v.args| ==> PrintableArg(v.args[k])
  }

  predicate PrintableArgs(args: seq<Arg>) {
    forall k :: 0 <= k < |args| ==> PrintableArg(args[k])
  }

  predicate PrintableVar(v: Var) {
    IsIdentifier(v.identifier) && PrintableArgs(v.args)
  }

  /** Trees the printer can write: those `Parse` can produce, with printable variables. */
  predicate Printable(ns: seq<Node>) {
    NodesWellFormed(ns) && forall k :: 0 <= k < |ns| ==> ns[k].Inject? ==> PrintableVar(ns[k].v)
  }

  /** Literal text: a backslash before `{` and before `\`. */
  function Escape(t: string): string {
    if t == [] then []
    else (if t[0] == '{' || t[0] == '\\' then ['\\', t[0]] else [t[0]]) + Escape(t[1..])
  }

  /** The inside of a quoted argument: a backslash before `"` and before `\`. */
  function Quote(t: string): string {
    if t == [] then []
    else (if t[0] == '"' || t[0] == '\\' then ['\\', t[0]] else [t[0]]) + Quote(t[1..])
  }

  function PrintArg(a: Arg): string {
    match a
    case StrArg(t) => "\"" + Quote(t) + "\""
    case NumArg(t) => t
    case VarArg(v) => PrintVar(v)
  }

  function PrintArgs(args: seq<Arg>): string {
    if args == [] then ""
    else if |args| == 1 then PrintArg(args[0])
    else PrintArg(args[0]) + "," + PrintArgs(args[1..])
  }

  /** A variable is always printed as a call, so that it closes itself. */
  function PrintVar(v: Var): string {
    v.identifier + "(" + PrintArgs(v.args) + ")"
  }

  function PrintNode(n: Node): string {
    match n
    case Lit(t) => Escape(t)
    case Inject(v) => "{" + PrintVar(v) + "}"
  }

  function Print(ns: seq<Node>): string {
    if ns == [] then "" else PrintNode(ns[0]) + Print(ns[1..])
  }

  // ---------------------------------------------------------------------
  // Facts about frames and runs

  lemma SetTopTop(st: State)
    requires st.stack != []
    ensures SetTop(st, Top(st)) == st
  {
    assert st.stack[..|st.stack| - 1] + [Top(st)] == st.stack;
  }

  lemma SetTopSetTop(st: State, f: Frame, g: Frame)
    requires st.stack != []
    ensures SetTop(SetTop(st, f), g) == SetTop(st, g)
  {
    var s1 := SetTop(st, f);
    assert s1.stack[..|s1.stack| - 1] == st.stack[..|st.stack| - 1];
  }

  lemma RunCons(st: State, c: char, s: string, i: nat)
    ensures Run(st, [c] + s, i) == (var m :- Step(st, c, i); Run(m, s, i + 1))
  {
    assert ([c] + s)[0] == c;
    assert ([c] + s)[1..] == s;
  }

  /** A parse that reaches `m` on the template prefix `a` goes on from `m` on the rest `b`. */
  lemma RunFromStart(a: string, b: string, m: State)
    requires Run(Start, a, 0) == Ok(m)
    ensures Run(Start, a + b, 0) == Run(m, b, |a|)
  {
    RunConcat(Start, a, b, 0);
  }

  /** A run that reaches `m` on `a` goes on from `m` on `b`. */
  lemma RunThen(st: State, a: string, b: string, i: nat, m: State)
    requires Run(st, a, i) == Ok(m)
    ensures Run(st, a + b, i) == Run(m, b, i + |a|)
  {
    RunConcat(st, a, b, i);
  }

  lemma StepThen(st: State, c: char, b: string, i: nat, m: State)
    requires Step(st, c, i) == Ok(m)
    ensures Run(st, [c] + b, i) == Run(m, b, i + 1)
  {
    RunCons(st, c, b, i);
  }

  /** Literal text written by `Escape` is read back into the pending literal. */
  lemma {:induction false} LiteralRun(st: State, t: string, i: nat)
    requires !st.inVar && !st.escapeNext
    ensures Run(st, Escape(t), i) == Ok(st.(text := st.text + t))
    decreases |t|
  {
    if t == [] {
      assert st.text + t == st.text;
    } else {
      var c := t[0];
      var next := st.(text := st.text + [c]);
      assert next.text + t[1..] == st.text + t;
      if c == '{' || c == '\\' {
        assert Escape(t) == ['\\'] + ([c] + Escape(t[1..]));
        RunCons(st, '\\', [c] + Escape(t[1..]), i);
        RunCons(st.(escapeNext := true), c, Escape(t[1..]), i + 1);
        LiteralRun(next, t[1..], i + 2);
      } else {
        assert Escape(t) == [c] + Escape(t[1..]);
        RunCons(st, c, Escape(t[1..]), i);
        LiteralRun(next, t[1..], i + 1);
      }
    }
  }

  /** Identifier characters are appended to the identifier of the innermost variable. */
  lemma {:induction false} IdentRun(st: State, id: string, i: nat)
    requires st.inVar && st.stack != [] && !Top(st).inArg && IsIdentifier(id)
    ensures Run(st, id, i) == Ok(SetTop(st, Top(st).(identifier := Top(st).identifier + id)))
    decreases |id|
  {
    var f := Top(st);
    if id == [] {
      assert f.identifier + id == f.identifier;
      SetTopTop(st);
    } else {
      var f' := f.(identifier := f.identifier + [id[0]]);
      assert id == [id[0]] + id[1..];
      RunCons(st, id[0], id[1..], i);
      IdentRun(SetTop(st, f'), id[1..], i + 1);
      SetTopSetTop(st, f', f'.(identifier := f'.identifier + id[1..]));
      assert f'.identifier + id[1..] == f.identifier + id;
    }
  }

  /** Quoted text written by `Quote` is read back into the pending string argument. */
  lemma {:induction false} QuoteRun(st: State, t: string, i: nat)
    requires st.inVar && !st.escapeNext && st.stack != [] && Top(st).inArg && Top(st).inQuote
    ensures Run(st, Quote(t), i) == Ok(SetTop(st, Top(st).(pending := Top(st).pending + t)))
    decreases |t|
  {
    var f := Top(st);
    if t == [] {
      assert f.pending + t == f.pending;
      SetTopTop(st);
    } else {
      var c := t[0];
      var f' := f.(pending := f.pending + [c]);
      assert f'.pending + t[1..] == f.pending + t;
      if c == '"' || c == '\\' {
        assert Quote(t) == ['\\'] + ([c] + Quote(t[1..]));
        RunCons(st, '\\', [c] + Quote(t[1..]), i);
        RunCons(st.(escapeNext := true), c, Quote(t[1..]), i + 1);
        assert SetTop(st.(escapeNext := true), f').(escapeNext := false) == SetTop(st, f');
        QuoteRun(SetTop(st, f'), t[1..], i + 2);
      } else {
        assert Quote(t) == [c] + Quote(t[1..]);
        RunCons(st, c, Quote(t[1..]), i);
        QuoteRun(SetTop(st, f'), t[1..], i + 1);
      }
      SetTopSetTop(st, f', f'.(pending := f'.pending + t[1..]));
    }
  }

  /** Once a number has started, every character up to a separator is part of it. */
  lemma {:induction false} NumberRun(st: State, t: string, i: nat)
    requires st.inVar && st.stack != [] && Top(st).inArg && !Top(st).inQuote && Top(st).kind == NumberKind
    requires forall k :: 0 <= k < |t| ==> t[k] != ')' && t[k] != ','
    ensures Run(st, t, i) == Ok(SetTop(st, Top(st).(pending := Top(st).pending + t)))
    decreases |t|
  {
    var f := Top(st);
    if t == [] {
      assert f.pending + t == f.pending;
      SetTopTop(st);
    } else {
      var f' := f.(pending := f.pending + [t[0]]);
      assert t == [t[0]] + t[1..];
      RunCons(st, t[0], t[1..], i);
      NumberRun(SetTop(st, f'), t[1..], i + 1);
      SetTopSetTop(st, f', f'.(pending := f'.pending + t[1..]));
      assert f'.pending + t[1..] == f.pending + t;
    }
  }

  // ---------------------------------------------------------------------
  // Arguments

  /** The innermost variable reads its arguments and is between two of them. */
  predicate ArgReady(st: State) {
    && st.inVar && !st.escapeNext && st.stack != []
    && Top(st).inArg && !Top(st).inQuote && Top(st).kind == NoKind && Top(st).pending == ""
  }

  /** The innermost frame after reading argument `a` up to its separator. */
  function Pending(f: Frame, a: Arg): Frame {
    match a
    case StrArg(t) => f.(kind := StringKind, pending := t)
    case NumArg(t) => f.(kind := NumberKind, pending := t)
    case VarArg(_) => f.(args := f.args + [a])
  }

  /** The separator after an argument appends it. */
  lemma DumpPending(f: Frame, a: Arg)
    requires f.kind == NoKind && f.pending == "" && PrintableArg(a)
    ensures DumpArg(Pending(f, a)) == Ok(f.(args := f.args + [a]))
  {
  }

  lemma ArgRun(st: State, a: Arg, i: nat)
    requires ArgReady(st) && PrintableArg(a)
    ensures Run(st, PrintArg(a), i) == Ok(SetTop(st, Pending(Top(st), a)))
    decreases a, 1
  {
    match a
    case StrArg(t) => StrArgRun(st, t, i);
    case NumArg(t) => NumArgRun(st, t, i);
    case VarArg(v) => VarRun(st, v, i);
  }

  lemma StrArgRun(st: State, t: string, i: nat)
    requires ArgReady(st)
    ensures Run(st, PrintArg(StrArg(t)), i) == Ok(SetTop(st, Pending(Top(st), StrArg(t))))
  {
    var f := Top(st);
    var open := SetTop(st, f.(kind := StringKind, inQuote := true));
    var read := f.(kind := StringKind, inQuote := true, pending := t);
    assert Step(st, '"', i) == Ok(open);
    assert PrintArg(StrArg(t)) == ['"'] + (Quote(t) + ['"']);
    StepThen(st, '"', Quote(t) + ['"'], i, open);
    QuoteRun(open, t, i + 1);
    assert f.pending + t == t;
    SetTopSetTop(st, f.(kind := StringKind, inQuote := true), read);
    RunThen(open, Quote(t), ['"'], i + 1, SetTop(st, read));
    RunSingle(SetTop(st, read), '"', i + 1 + |Quote(t)|);
    SetTopSetTop(st, read, read.(inQuote := false));
  }

  lemma NumArgRun(st: State, t: string, i: nat)
    requires ArgReady(st) && IsNumberLexeme(t)
    ensures Run(st, PrintArg(NumArg(t)), i) == Ok(SetTop(st, Pending(Top(st), NumArg(t))))
  {
    var f := Top(st);
    var first := f.(kind := NumberKind, pending := [t[0]]);
    assert f.pending + [t[0]] == [t[0]];
    assert Step(st, t[0], i) == Ok(SetTop(st, first));
    assert t == [t[0]] + t[1..];
    StepThen(st, t[0], t[1..], i, SetTop(st, first));
    NumberRun(SetTop(st, first), t[1..], i + 1);
    SetTopSetTop(st, first, first.(pending := first.pending + t[1..]));
  }

  /** `,` or `)` outside quotes finishes the pending argument of the innermost variable. */
  lemma SeparatorStep(st: State, c: char, i: nat, g: Frame)
    requires st.inVar && !st.escapeNext && st.stack != [] && Top(st).inArg && !Top(st).inQuote
    requires (c == ',' || c == ')') && DumpArg(Top(st)) == Ok(g)
    ensures Step(st, c, i) == Ok(if c == ',' then SetTop(st, g) else ReturnToParent(SetTop(st, g)))
  {
    assert Step(st, c, i) == StepArgs(st, c, i);
  }

  /** The separator after a whole argument appends it to the innermost variable. */
  lemma ArgEndStep(st: State, a: Arg, c: char, i: nat)
    requires ArgReady(st) && PrintableArg(a) && (c == ',' || c == ')')
    ensures var g := Top(st).(args := Top(st).args + [a]);
      Step(SetTop(st, Pending(Top(st), a)), c, i) == Ok(if c == ',' then SetTop(st, g) else ReturnToParent(SetTop(st, g)))
  {
    var f := Top(st);
    var g := f.(args := f.args + [a]);
    DumpPending(f, a);
    SeparatorStep(SetTop(st, Pending(f, a)), c, i, g);
    SetTopSetTop(st, Pending(f, a), g);
  }

  /** An argument and the `,` after it append the argument. */
  lemma SeparatorRun(st: State, a: Arg, rest: string, i: nat)
    requires ArgReady(st) && PrintableArg(a)
    ensures Run(st, PrintArg(a) + ([','] + rest), i) == Run(SetTop(st, Top(st).(args := Top(st).args + [a])), rest, i + |PrintArg(a)| + 1)
    decreases a, 2
  {
    var f := Top(st);
    var s1 := SetTop(st, Pending(f, a));
    var tail := [','] + rest;
    ArgRun(st, a, i);
    RunThen(st, PrintArg(a), tail, i, s1);
    ArgEndRun(st, a, rest, i + |PrintArg(a)|);
  }

  /** The `,` after a whole argument, then the rest. */
  lemma ArgEndRun(st: State, a: Arg, rest: string, j: nat)
    requires ArgReady(st) && PrintableArg(a)
    ensures Run(SetTop(st, Pending(Top(st), a)), [','] + rest, j) == Run(SetTop(st, Top(st).(args := Top(st).args + [a])), rest, j + 1)
  {
    ArgEndStep(st, a, ',', j);
    StepThen(SetTop(st, Pending(Top(st), a)), ',', rest, j, SetTop(st, Top(st).(args := Top(st).args + [a])));
  }

  /** The arguments and the `)` after them: all are appended and the variable is finished. */
  lemma ArgsCloseRun(st: State, args: seq<Arg>, i: nat)
    requires ArgReady(st) && PrintableArgs(args)
    ensures Run(st, PrintArgs(args) + ")", i) == Ok(ReturnToParent(SetTop(st, Top(st).(args := Top(st).args + args))))
    decreases args, 3
  {
    if args == [] {
      NoArgsRun(st, i);
    } else if |args| == 1 {
      LastArgRun(st, args[0], i);
      assert [args[0]] == args;
    } else {
      MoreArgsRun(st, args, i);
    }
  }

  lemma PrintableArgsSplit(args: seq<Arg>)
    requires PrintableArgs(args) && args != []
    ensures PrintableArg(args[0]) && PrintableArgs(args[1..])
  {
    forall k | 0 <= k < |args[1..]| ensures PrintableArg(args[1..][k]) {
      assert args[1..][k] == args[k + 1];
    }
  }

  lemma PrintArgsCons(args: seq<Arg>)
    requires |args| > 1
    ensures PrintArgs(args) + ")" == PrintArg(args[0]) + ([','] + (PrintArgs(args[1..]) + ")"))
  {
  }

  /** `)` right after `(`. */
  lemma NoArgsRun(st: State, i: nat)
    requires ArgReady(st)
    ensures Run(st, PrintArgs([]) + ")", i) == Ok(ReturnToParent(SetTop(st, Top(st).(args := Top(st).args + []))))
  {
    var f := Top(st);
    assert PrintArgs([]) + ")" == [')'];
    RunSingle(st, ')', i);
    assert f.args + [] == f.args;
    SetTopTop(st);
  }

  /** The first of several arguments and its `,`, then the others. */
  lemma MoreArgsRun(st: State, args: seq<Arg>, i: nat)
    requires ArgReady(st) && PrintableArgs(args) && |args| > 1
    ensures Run(st, PrintArgs(args) + ")", i) == Ok(ReturnToParent(SetTop(st, Top(st).(args := Top(st).args + args))))
    decreases args, 2
  {
    PrintArgsCons(args);
    PrintableArgsSplit(args);
    FirstThenRestRun(st, args, i);
    assert Top(st).args + [args[0]] + args[1..] == Top(st).args + args;
  }

  /** The first argument, its separator, then the rest of the list and `)`. */
  lemma FirstThenRestRun(st: State, args: seq<Arg>, i: nat)
    requires ArgReady(st) && args != [] && PrintableArg(args[0]) && PrintableArgs(args[1..])
    ensures Run(st, PrintArg(args[0]) + ([','] + (PrintArgs(args[1..]) + ")")), i)
         == Ok(ReturnToParent(SetTop(st, Top(st).(args := Top(st).args + [args[0]] + args[1..]))))
    decreases args, 1
  {
    var f := Top(st);
    var a, rest := args[0], args[1..];
    var f1 := f.(args := f.args + [a]);
    var s1 := SetTop(st, f1);
    SeparatorRun(st, a, PrintArgs(rest) + ")", i);
    assert Top(s1) == f1;
    ArgsCloseRun(s1, rest, i + |PrintArg(a)| + 1);
    SetTopSetTop(st, f1, f1.(args := f1.args + rest));
  }

  /** The last argument and the `)` after it. */
  lemma LastArgRun(st: State, a: Arg, i: nat)
    requires ArgReady(st) && PrintableArg(a)
    ensures Run(st, PrintArgs([a]) + ")", i) == Ok(ReturnToParent(SetTop(st, Top(st).(args := Top(st).args + [a]))))
    decreases a, 4
  {
    var f := Top(st);
    var s1 := SetTop(st, Pending(f, a));
    ArgRun(st, a, i);
    RunThen(st, PrintArg(a), ")", i, s1);
    ArgEndStep(st, a, ')', i + |PrintArg(a)|);
    RunSingle(s1, ')', i + |PrintArg(a)|);
  }

  /** A nested variable written as a call is appended to the arguments of its parent. */
  lemma VarRun(st: State, v: Var, i: nat)
    requires ArgReady(st) && IsNestedIdentifier(v.identifier) && PrintableArgs(v.args)
    ensures Run(st, PrintVar(v), i) == Ok(SetTop(st, Top(st).(args := Top(st).args + [VarArg(v)])))
    decreases v, 5
  {
    var id := v.identifier;
    OpenNestedRun(st, id, i);
    assert PrintVar(v) == (id + "(") + (PrintArgs(v.args) + ")");
    RunThen(st, id + "(", PrintArgs(v.args) + ")", i, SetTop(Pushed(st, id), NewFrame(id).(inArg := true)));
    NestedArgsRun(st, v, i + |id| + 1);
  }

  /** The arguments of a nested variable and its `)`. */
  lemma NestedArgsRun(st: State, v: Var, i: nat)
    requires ArgReady(st) && PrintableArgs(v.args)
    ensures Run(SetTop(Pushed(st, v.identifier), NewFrame(v.identifier).(inArg := true)), PrintArgs(v.args) + ")", i)
      == Ok(SetTop(st, Top(st).(args := Top(st).args + [VarArg(v)])))
    decreases v, 4
  {
    var id := v.identifier;
    var s1 := Pushed(st, id);
    var s3 := SetTop(s1, NewFrame(id).(inArg := true));
    ArgsCloseRun(s3, v.args, i);
    assert Top(s3).args + v.args == v.args;
    SetTopSetTop(s1, NewFrame(id).(inArg := true), NewFrame(id).(inArg := true, args := v.args));
    NestedClosed(st, id, NewFrame(id).(inArg := true, args := v.args));
  }

  /** The stack after a nested variable `id` has started in argument position. */
  function Pushed(st: State, id: string): State
    requires st.stack != []
  {
    st.(stack := st.stack[..|st.stack| - 1] + [Top(st).(kind := VarKind, pending := ""), NewFrame(id)])
  }

  /** Finishing a nested variable hands it to its parent, which is ready for the next argument. */
  lemma NestedClosed(st: State, id: string, g: Frame)
    requires ArgReady(st)
    ensures ReturnToParent(SetTop(Pushed(st, id), g)) == SetTop(st, Top(st).(args := Top(st).args + [VarArg(ToVar(g))]))
  {
    var f := Top(st);
    var outer := st.stack[..|st.stack| - 1];
    var s1 := Pushed(st, id);
    var s4 := SetTop(s1, g);
    assert s1.stack[..|s1.stack| - 1] == outer + [f.(kind := VarKind, pending := "")];
    assert s4.stack == outer + [f.(kind := VarKind, pending := ""), g];
    assert s4.stack[..|s4.stack| - 2] == outer;
  }

  /** The identifier of a nested variable in argument position. */
  lemma NestedIdentRun(st: State, id: string, i: nat)
    requires ArgReady(st) && IsNestedIdentifier(id)
    ensures Run(st, id, i) == Ok(Pushed(st, id))
  {
    var s1 := Pushed(st, [id[0]]);
    assert id == [id[0]] + id[1..];
    assert Step(st, id[0], i) == Ok(s1);
    StepThen(st, id[0], id[1..], i, s1);
    IdentRun(s1, id[1..], i + 1);
    SetTopSetTop(st, Top(st).(kind := VarKind, pending := ""), Top(st).(kind := VarKind, pending := ""));
    assert SetTop(s1, NewFrame(id)) == Pushed(st, id) by {
      assert SetTop(s1, NewFrame(id)).stack == Pushed(st, id).stack;
    }
  }

  /** The identifier of a nested variable and its `(`. */
  lemma OpenNestedRun(st: State, id: string, i: nat)
    requires ArgReady(st) && IsNestedIdentifier(id)
    ensures Run(st, id + "(", i) == Ok(SetTop(Pushed(st, id), NewFrame(id).(inArg := true)))
  {
    NestedIdentRun(st, id, i);
    RunThen(st, id, "(", i, Pushed(st, id));
    RunSingle(Pushed(st, id), '(', i + |id|);
  }

  // ---------------------------------------------------------------------
  // Injected variables and whole templates

  /** The state after `{` and the identifier of an injected variable. */
  function Opened(st: State, id: string): State {
    st.(result := Flush(st), text := "", inVar := true, stack := [NewFrame(id)], closedRoot := None)
  }

  /** `{` and the identifier of an injected variable. */
  lemma RootIdentRun(st: State, id: string, i: nat)
    requires !st.inVar && !st.escapeNext && IsIdentifier(id)
    ensures Run(st, "{" + id, i) == Ok(Opened(st, id))
  {
    var s1 := Opened(st, "");
    assert "{" + id == ['{'] + id;
    StepThen(st, '{', id, i, s1);
    IdentRun(s1, id, i + 1);
    assert "" + id == id;
    assert SetTop(s1, NewFrame(id)) == Opened(st, id);
  }

  /** `{`, the identifier and `(` of an injected variable. */
  lemma RootOpenRun(st: State, id: string, i: nat)
    requires !st.inVar && !st.escapeNext && IsIdentifier(id)
    ensures Run(st, "{" + id + "(", i) == Ok(SetTop(Opened(st, id), NewFrame(id).(inArg := true)))
  {
    RootIdentRun(st, id, i);
    RunThen(st, "{" + id, "(", i, Opened(st, id));
    RunSingle(Opened(st, id), '(', i + 1 + |id|);
  }

  /** `{` and a variable written as a call: the root is finished and only `}` may follow. */
  lemma RootCallRun(st: State, v: Var, i: nat)
    requires !st.inVar && !st.escapeNext && PrintableVar(v)
    ensures Run(st, "{" + PrintVar(v), i) == Ok(Opened(st, v.identifier).(stack := [], closedRoot := Some(v)))
  {
    var id := v.identifier;
    assert "{" + PrintVar(v) == ("{" + id + "(") + (PrintArgs(v.args) + ")");
    RootOpenRun(st, id, i);
    RunThen(st, "{" + id + "(", PrintArgs(v.args) + ")", i, SetTop(Opened(st, id), NewFrame(id).(inArg := true)));
    RootArgsRun(st, v, i + 2 + |id|);
  }

  /** The arguments of an injected variable and its `)`. */
  lemma RootArgsRun(st: State, v: Var, i: nat)
    requires !st.escapeNext && PrintableArgs(v.args)
    ensures Run(SetTop(Opened(st, v.identifier), NewFrame(v.identifier).(inArg := true)), PrintArgs(v.args) + ")", i)
      == Ok(Opened(st, v.identifier).(stack := [], closedRoot := Some(v)))
  {
    var id := v.identifier;
    var s1 := Opened(st, id);
    var s3 := SetTop(s1, NewFrame(id).(inArg := true));
    ArgsCloseRun(s3, v.args, i);
    assert Top(s3).args + v.args == v.args;
    SetTopSetTop(s1, NewFrame(id).(inArg := true), NewFrame(id).(inArg := true, args := v.args));
  }

  /** `{`, a variable written as a call, and `}` append that variable to the result. */
  lemma RootRun(st: State, v: Var, i: nat)
    requires !st.inVar && !st.escapeNext && PrintableVar(v)
    ensures Run(st, PrintNode(Inject(v)), i) == Ok(st.(result := Flush(st) + [Inject(v)], text := "", stack := [], closedRoot := None))
  {
    var s4 := Opened(st, v.identifier).(stack := [], closedRoot := Some(v));
    RootCallRun(st, v, i);
    RunThen(st, "{" + PrintVar(v), "}", i, s4);
    RunSingle(s4, '}', i + 1 + |PrintVar(v)|);
  }

  /** Printing a printable tree after a state between variables leaves it with that tree appended. */
  lemma {:induction false} NodesRun(st: State, ns: seq<Node>, i: nat)
    requires !st.inVar && !st.escapeNext && st.stack == [] && st.closedRoot.None? && Printable(ns)
    requires st.text != "" ==> ns == [] || ns[0].Inject?
    ensures Run(st, Print(ns), i).Ok?
    ensures var r := Run(st, Print(ns), i).value;
      !r.inVar && !r.escapeNext && r.stack == [] && r.closedRoot.None? && Flush(r) == Flush(st) + ns
    decreases |ns|, 1
  {
    if ns == [] {
      assert Flush(st) + ns == Flush(st);
    } else {
      var rest := ns[1..];
      var s1 := NodeAfter(st, ns[0]);
      NodeAfterFlush(st, ns);
      PrintableTail(ns);
      NodeRun(st, ns[0], i);
      assert Print(ns) == PrintNode(ns[0]) + Print(rest);
      RunThen(st, PrintNode(ns[0]), Print(rest), i, s1);
      NodesRun(s1, rest, i + |PrintNode(ns[0])|);
    }
  }

  /** The state after printing one node. */
  function NodeAfter(st: State, n: Node): State {
    match n
    case Lit(t) => st.(text := st.text + t)
    case Inject(v) => st.(result := Flush(st) + [Inject(v)], text := "", stack := [], closedRoot := None)
  }

  lemma PrintableTail(ns: seq<Node>)
    requires ns != [] && Printable(ns)
    ensures Printable(ns[1..])
  {
    assert forall k :: 0 <= k < |ns| - 1 ==> ns[1..][k] == ns[k + 1];
  }

  /** After the first node, the pending text is that node's if it is a literal, and the result is extended by it. */
  lemma NodeAfterFlush(st: State, ns: seq<Node>)
    requires ns != [] && NodesWellFormed(ns) && (st.text != "" ==> ns[0].Inject?)
    ensures Flush(NodeAfter(st, ns[0])) + ns[1..] == Flush(st) + ns
    ensures NodeAfter(st, ns[0]).text != "" ==> |ns| == 1 || ns[1].Inject?
  {
    assert ns == [ns[0]] + ns[1..];
    if ns[0].Lit? {
      assert ns[0].text != "";
      assert st.text + ns[0].text == ns[0].text;
      if |ns| > 1 {
        assert !(ns[0].Lit? && ns[1].Lit?);
      }
    }
  }

  lemma NodeRun(st: State, n: Node, i: nat)
    requires !st.inVar && !st.escapeNext && (n.Inject? ==> PrintableVar(n.v))
    ensures Run(st, PrintNode(n), i) == Ok(NodeAfter(st, n))
  {
    match n
    case Lit(t) => LiteralRun(st, t, i);
    case Inject(v) => RootRun(st, v, i);
  }

  /** The parser reads back every printable tree. */
  lemma ParsePrint(ns: seq<Node>)
    requires Printable(ns)
    ensures Parse(Print(ns)) == Ok(ns)
  {
    NodesRun(Start, ns, 0);
    assert Flush(Start) + ns == ns;
  }
}
