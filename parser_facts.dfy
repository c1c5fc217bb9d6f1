/**
 * What `parseTemplate` (src/templateFormatter.ts) does with inputs the
 * printer never writes: escapes in literal text, variables without a call,
 * the `)` that closes two variables, white space around arguments, and the
 * inputs that make it throw. The facts stated with a printable prefix
 * `Print(ns)` describe the parser anywhere in a template; the others are
 * stated for a whole template.
 */
module ParserFacts {
  import opened Wrappers
  import opened TemplateTree
  import Numeric
  import opened Parser
  import opened Printer

  // ---------------------------------------------------------------------
  // Literal text

  /** An escaped text is one literal node, and the empty text none. */
  lemma EscapeRoundTrip(t: string)
    ensures Parse(Escape(t)) == Ok(if t == "" then [] else [Lit(t)])
  {
    var m := Start.(text := Start.text + t);
    LiteralRun(Start, t, 0);
    assert m.text == t;
    ParseOfRun(Escape(t), m);
    assert Flush(m) == if t == "" then [] else [Lit(t)];
  }

  lemma {:induction false} EscapePlain(t: string)
    requires forall k :: 0 <= k < |t| ==> t[k] != '{' && t[k] != '\\'
    ensures Escape(t) == t
  {
    if t != [] {
      EscapePlain(t[1..]);
      assert t == [t[0]] + t[1..];
    }
  }

  /** Text without `{` and `\` is kept verbatim as a single literal. */
  lemma PlainText(t: string)
    requires forall k :: 0 <= k < |t| ==> t[k] != '{' && t[k] != '\\'
    ensures Parse(t) == Ok(if t == "" then [] else [Lit(t)])
  {
    EscapePlain(t);
    EscapeRoundTrip(t);
  }

  /** A backslash at the very end, after any template that ends in literal text or a variable, is dropped. */
  lemma TrailingBackslash(ns: seq<Node>)
    requires Printable(ns)
    ensures Parse(Print(ns) + "\\") == Parse(Print(ns))
  {
    var r := PrintedPrefix(ns);
    RunFromStart(Print(ns), "\\", r);
    RunSingle(r, '\\', |Print(ns)|);
    ParseOfRun(Print(ns), r);
  }

  // ---------------------------------------------------------------------
  // Variables without a call

  /**
   * `{id}` injects `id` with no arguments; so do `{id)}` and `{id,}`, whose
   * `)` or `,` finishes the root variable early.
   */
  lemma BareRootVariable(id: string, closer: string)
    requires IsIdentifier(id) && (closer == "" || closer == ")" || closer == ",")
    ensures Parse("{" + id + closer + "}") == Ok([Inject(Var(id, []))])
  {
    var s2 := Opened(Start, id);
    var j := 1 + |id|;
    RootIdentRun(Start, id, 0);
    RunFromStart("{" + id, closer + "}", s2);
    var done := s2.(result := [Inject(Var(id, []))], inVar := false, stack := [], closedRoot := None);
    assert s2.result == [] && Top(s2) == NewFrame(id) && !Top(s2).inArg;
    assert ExitVar(s2) == Ok(done) by {
      assert s2.result + [Inject(ToVar(s2.stack[0]))] == [Inject(Var(id, []))];
    }
    assert "{" + id + closer + "}" == ("{" + id) + (closer + "}");
    if closer == "" {
      assert closer + "}" == "}";
      RunSingle(s2, '}', j);
      assert Step(s2, '}', j) == Ok(done);
    } else {
      var closed := s2.(stack := [], closedRoot := Some(Var(id, [])));
      assert ReturnToParent(s2) == closed;
      assert ReturnToParent(closed) == closed;
      assert Step(s2, closer[0], j) == Ok(closed);
      assert ExitVar(closed) == Ok(done) by {
        assert closed.result + [Inject(Var(id, []))] == [Inject(Var(id, []))];
      }
      assert closer + "}" == [closer[0]] + "}";
      StepThen(s2, closer[0], "}", j, closed);
      RunSingle(closed, '}', j + 1);
      assert Step(closed, '}', j + 1) == Ok(done);
    }
    assert |"{" + id| == j;
    ParseOfRun("{" + id + closer + "}", done);
  }

  /** `{}` injects the empty identifier, which `evaluateTemplateVariable` resolves like any other. */
  lemma EmptyBraces()
    ensures Parse("{}") == Ok([Inject(Var("", []))])
  {
    BareRootVariable("", "");
    assert "{" + "" + "" + "}" == "{}";
  }

  /** `{id()}` injects `id` with no arguments: on `)` with no argument started, `dumpArg` appends nothing. */
  lemma CallWithoutArguments(id: string)
    requires IsIdentifier(id)
    ensures Parse("{" + id + "()}") == Ok([Inject(Var(id, []))])
  {
    var ns := [Inject(Var(id, []))];
    assert Printable(ns);
    ParsePrint(ns);
    assert Print(ns) == PrintNode(ns[0]) + Print([]);
    assert PrintArgs([]) == "";
    assert Print(ns) == "{" + id + "()}";
  }

  /** A backslash before `}` in literal text makes it literal too. */
  lemma EscapedClosingBrace(t: string)
    ensures Parse(Escape(t) + "\\}") == Ok([Lit(t + "}")])
  {
    var m := Start.(text := Start.text + t);
    var done := m.(text := m.text + "}");
    LiteralRun(Start, t, 0);
    RunFromStart(Escape(t), "\\}", m);
    assert "\\}" == ['\\'] + "}";
    RunCons(m, '\\', "}", |Escape(t)|);
    RunSingle(m.(escapeNext := true), '}', |Escape(t)| + 1);
    assert Step(m.(escapeNext := true), '}', |Escape(t)| + 1) == Ok(done);
    ParseOfRun(Escape(t) + "\\}", done);
    assert done.text == t + "}";
    assert Flush(done) == [Lit(t + "}")];
  }

  /** Identifiers separated by `,`; the last one is followed by `)`. */
  function BareList(ids: seq<string>): string
    requires ids != []
  {
    if |ids| == 1 then ids[0] + ")" else ids[0] + "," + BareList(ids[1..])
  }

  /** The arguments `BareList(ids)` stands for: variables without arguments. */
  function BareArgs(ids: seq<string>): seq<Arg> {
    if ids == [] then [] else [VarArg(Var(ids[0], []))] + BareArgs(ids[1..])
  }

  /**
   * A nested identifier ends at `,` or `)`. The `,` appends it to its parent;
   * the `)` also finishes the parent, so `f(a)` needs one `)` for both.
   */
  lemma BareArgRun(st: State, id: string, sep: char, i: nat)
    requires ArgReady(st) && IsNestedIdentifier(id) && (sep == ',' || sep == ')')
    ensures
      var appended := SetTop(st, Top(st).(args := Top(st).args + [VarArg(Var(id, []))]));
      Run(st, id + [sep], i) == Ok(if sep == ',' then appended else ReturnToParent(appended))
  {
    var p := Pushed(st, id);
    NestedIdentRun(st, id, i);
    RunThen(st, id, [sep], i, p);
    RunSingle(p, sep, i + |id|);
    NestedClosed(st, id, NewFrame(id));
    assert SetTop(p, NewFrame(id)) == p by {
      SetTopTop(p);
    }
  }

  /** Appending to the innermost frame twice is appending once. */
  lemma MoreArgs(st: State, f1: Frame, extra: seq<Arg>, g: Frame)
    requires st.stack != [] && g == f1.(args := f1.args + extra)
    ensures var s1 := SetTop(st, f1); SetTop(s1, Top(s1).(args := Top(s1).args + extra)) == SetTop(st, g)
  {
    SetTopSetTop(st, f1, g);
  }

  /** The first identifier of a longer list and its `,`. */
  lemma BareListStep(st: State, ids: seq<string>, i: nat, f1: Frame)
    requires ArgReady(st) && |ids| > 1 && IsNestedIdentifier(ids[0])
    requires f1 == Top(st).(args := Top(st).args + [VarArg(Var(ids[0], []))])
    ensures ArgReady(SetTop(st, f1))
    ensures Run(st, BareList(ids), i) == Run(SetTop(st, f1), BareList(ids[1..]), i + |ids[0]| + 1)
  {
    BareArgRun(st, ids[0], ',', i);
    assert BareList(ids) == (ids[0] + [',']) + BareList(ids[1..]);
    RunThen(st, ids[0] + [','], BareList(ids[1..]), i, SetTop(st, f1));
  }

  /** The last identifier and the `)` that closes it and its parent. */
  lemma BareListLast(st: State, ids: seq<string>, i: nat)
    requires ArgReady(st) && |ids| == 1 && IsNestedIdentifier(ids[0])
    ensures Run(st, BareList(ids), i) == Ok(ReturnToParent(SetTop(st, Top(st).(args := Top(st).args + BareArgs(ids)))))
  {
    assert BareArgs(ids[1..]) == [];
    assert BareArgs(ids) == [VarArg(Var(ids[0], []))];
    assert BareList(ids) == ids[0] + [')'];
    BareArgRun(st, ids[0], ')', i);
  }

  /** The list after its first identifier, combined with the step over that identifier. */
  lemma BareListMore(st: State, ids: seq<string>, i: nat, f1: Frame)
    requires ArgReady(st) && |ids| > 1 && IsNestedIdentifier(ids[0])
    requires f1 == Top(st).(args := Top(st).args + [VarArg(Var(ids[0], []))])
    requires var s1 := SetTop(st, f1);
      Run(s1, BareList(ids[1..]), i + |ids[0]| + 1) == Ok(ReturnToParent(SetTop(s1, Top(s1).(args := Top(s1).args + BareArgs(ids[1..])))))
    ensures Run(st, BareList(ids), i) == Ok(ReturnToParent(SetTop(st, Top(st).(args := Top(st).args + BareArgs(ids)))))
  {
    var f := Top(st);
    var g := f.(args := f.args + BareArgs(ids));
    BareListStep(st, ids, i, f1);
    assert BareArgs(ids) == [VarArg(Var(ids[0], []))] + BareArgs(ids[1..]);
    assert f1.args + BareArgs(ids[1..]) == f.args + BareArgs(ids);
    MoreArgs(st, f1, BareArgs(ids[1..]), g);
  }

  lemma {:induction false} BareListRun(st: State, ids: seq<string>, i: nat)
    requires ArgReady(st) && ids != [] && forall k :: 0 <= k < |ids| ==> IsNestedIdentifier(ids[k])
    ensures Run(st, BareList(ids), i) == Ok(ReturnToParent(SetTop(st, Top(st).(args := Top(st).args + BareArgs(ids)))))
    decreases |ids|
  {
    if |ids| == 1 {
      BareListLast(st, ids, i);
    } else {
      var f1 := Top(st).(args := Top(st).args + [VarArg(Var(ids[0], []))]);
      BareListStep(st, ids, i, f1);
      BareListRun(SetTop(st, f1), ids[1..], i + |ids[0]| + 1);
      BareListMore(st, ids, i, f1);
    }
  }

  /** `{f(a,b,c)}`: bare identifiers as arguments, the last `)` closing both the last one and `f`. */
  lemma BareArguments(ns: seq<Node>, f: string, ids: seq<string>)
    requires Printable(ns) && IsIdentifier(f)
    requires ids != [] && forall k :: 0 <= k < |ids| ==> IsNestedIdentifier(ids[k])
    ensures Parse(Print(ns) + ("{" + f + "(") + BareList(ids) + "}") == Ok(ns + [Inject(Var(f, BareArgs(ids)))])
  {
    var r, s3 := CallPrefix(ns, f);
    var p := Print(ns) + ("{" + f + "(");
    var g := NewFrame(f).(inArg := true, args := BareArgs(ids));
    var closed := Opened(r, f).(stack := [], closedRoot := Some(Var(f, BareArgs(ids))));
    BareListRun(s3, ids, |p|);
    assert Top(s3).(args := Top(s3).args + BareArgs(ids)) == g;
    RootClosed(r, f, g);
    RunFromStart(p, BareList(ids), s3);
    CloseBrace(p + BareList(ids), closed);
  }

  lemma IfWithBareArguments(s: string)
    requires s == "{if(a,b,c)}"
    ensures Parse(s) == Ok([Inject(Var("if", [VarArg(Var("a", [])), VarArg(Var("b", [])), VarArg(Var("c", []))]))])
  {
    var ids := ["a", "b", "c"];
    IfIdentifiers(ids);
    IfArgsText(s, ids);
    IfArgs(ids);
    BareArguments([], "if", ids);
  }

  lemma IfIdentifiers(ids: seq<string>)
    requires ids == ["a", "b", "c"]
    ensures Printable([]) && IsIdentifier("if")
    ensures forall k :: 0 <= k < |ids| ==> IsNestedIdentifier(ids[k])
  {
    assert IsNestedIdentifier("a") && IsNestedIdentifier("b") && IsNestedIdentifier("c");
  }

  lemma IfArgs(ids: seq<string>)
    requires ids == ["a", "b", "c"]
    ensures [] + [Inject(Var("if", BareArgs(ids)))] == [Inject(Var("if", [VarArg(Var("a", [])), VarArg(Var("b", [])), VarArg(Var("c", []))]))]
  {
    assert ids[1..] == ["b", "c"] && ids[1..][1..] == ["c"] && ids[1..][1..][1..] == [];
    assert BareArgs(["c"]) == [VarArg(Var("c", []))] + BareArgs([]);
    assert BareArgs(["b", "c"]) == [VarArg(Var("b", []))] + BareArgs(["c"]);
    assert BareArgs(ids) == [VarArg(Var("a", []))] + BareArgs(["b", "c"]);
    assert BareArgs(ids) == [VarArg(Var("a", [])), VarArg(Var("b", [])), VarArg(Var("c", []))];
  }

  lemma IfArgsText(s: string, ids: seq<string>)
    requires s == "{if(a,b,c)}" && ids == ["a", "b", "c"]
    ensures Print([]) + ("{" + "if" + "(") + BareList(ids) + "}" == s
  {
    IfList(ids);
    assert Print([]) == "";
  }

  lemma IfList(ids: seq<string>)
    requires ids == ["a", "b", "c"]
    ensures BareList(ids) == "a,b,c)"
  {
    assert ids[1..] == ["b", "c"] && ids[1..][1..] == ["c"];
    assert BareList(["c"]) == "c)";
    assert BareList(["b", "c"]) == "b,c)";
  }

  // ---------------------------------------------------------------------
  // White space between arguments

  function Spaces(n: nat): string {
    if n == 0 then "" else " " + Spaces(n - 1)
  }

  /** Spaces are skipped outside quotes unless a number is being read. */
  lemma {:induction false} SpacesRun(st: State, n: nat, i: nat)
    requires st.inVar && st.stack != [] && Top(st).inArg && !Top(st).inQuote && Top(st).kind != NumberKind
    ensures Run(st, Spaces(n), i) == Ok(st)
  {
    if n > 0 {
      assert Step(st, ' ', i) == Ok(st);
      StepThen(st, ' ', Spaces(n - 1), i, st);
      SpacesRun(st, n - 1, i + 1);
    }
  }

  /** Spaces around a string or variable argument are ignored. */
  lemma PaddedArgRun(st: State, a: Arg, n1: nat, n2: nat, i: nat)
    requires ArgReady(st) && PrintableArg(a) && !a.NumArg?
    ensures Run(st, Spaces(n1) + PrintArg(a) + Spaces(n2), i) == Ok(SetTop(st, Pending(Top(st), a)))
  {
    var m := SetTop(st, Pending(Top(st), a));
    SpacesRun(st, n1, i);
    ArgRun(st, a, i + |Spaces(n1)|);
    ThreePieces(st, Spaces(n1), PrintArg(a), Spaces(n2), i, st, m);
    SpacesRun(m, n2, i + |Spaces(n1)| + |PrintArg(a)|);
  }

  /** Spaces around a string or variable argument are ignored. */
  lemma SpacesAroundArgument(ns: seq<Node>, f: string, a: Arg, n1: nat, n2: nat)
    requires Printable(ns) && IsIdentifier(f) && PrintableArg(a) && !a.NumArg?
    ensures Parse(Print(ns) + ("{" + f + "(") + (Spaces(n1) + PrintArg(a) + Spaces(n2)) + ")}") == Ok(ns + [Inject(Var(f, [a]))])
  {
    var r, s3 := CallPrefix(ns, f);
    var p := Print(ns) + ("{" + f + "(");
    var padded := Spaces(n1) + PrintArg(a) + Spaces(n2);
    var m := SetTop(s3, Pending(Top(s3), a));
    PaddedArgRun(s3, a, n1, n2, |p|);
    RunFromStart(p, padded, s3);
    CloseRootAfterArg(r, f, a, p + padded);
  }

  /**
   * A number is read up to the next `,` or `)`, spaces included: the
   * argument keeps its trailing spaces as part of its text.
   */
  lemma NumberKeepsTrailingSpaces(ns: seq<Node>, f: string, t: string, n1: nat, n2: nat)
    requires Printable(ns) && IsIdentifier(f) && IsNumberText(t + Spaces(n2))
    ensures Parse(Print(ns) + ("{" + f + "(") + (Spaces(n1) + t + Spaces(n2)) + ")}") == Ok(ns + [Inject(Var(f, [NumArg(t + Spaces(n2))]))])
  {
    var r := PaddedNumberPrefix(ns, f, t + Spaces(n2), n1);
    assert Spaces(n1) + t + Spaces(n2) == Spaces(n1) + (t + Spaces(n2));
    CloseRootAfterArg(r, f, NumArg(t + Spaces(n2)), Print(ns) + ("{" + f + "(") + (Spaces(n1) + t + Spaces(n2)));
  }

  /** Spaces before a number are skipped; the state after them and the number. */
  lemma PaddedNumberPrefix(ns: seq<Node>, f: string, t: string, n1: nat) returns (r: State)
    requires Printable(ns) && IsIdentifier(f) && IsNumberLexeme(t)
    ensures !r.inVar && !r.escapeNext && Flush(r) == ns
    ensures var s3 := SetTop(Opened(r, f), NewFrame(f).(inArg := true));
      Run(Start, Print(ns) + ("{" + f + "(") + (Spaces(n1) + t), 0) == Ok(SetTop(s3, Pending(Top(s3), NumArg(t))))
  {
    var s3;
    r, s3 := CallPrefix(ns, f);
    var p := Print(ns) + ("{" + f + "(");
    PaddedNumberRun(s3, t, n1, |p|);
    RunFromStart(p, Spaces(n1) + t, s3);
  }

  /** Spaces before a number argument are skipped, then the number is read. */
  lemma PaddedNumberRun(st: State, t: string, n1: nat, i: nat)
    requires ArgReady(st) && IsNumberLexeme(t)
    ensures Run(st, Spaces(n1) + t, i) == Ok(SetTop(st, Pending(Top(st), NumArg(t))))
  {
    SpacesRun(st, n1, i);
    NumArgRun(st, t, i + |Spaces(n1)|);
    assert PrintArg(NumArg(t)) == t;
    RunThen(st, Spaces(n1), t, i, st);
  }

  /** With a single argument `a` read, `)}` finishes the root variable and injects it. */
  lemma CloseRootAfterArg(r: State, f: string, a: Arg, p: string)
    requires !r.inVar && !r.escapeNext && PrintableArg(a)
    requires var s3 := SetTop(Opened(r, f), NewFrame(f).(inArg := true));
      Run(Start, p, 0) == Ok(SetTop(s3, Pending(Top(s3), a)))
    ensures Parse(p + ")}") == Ok(Flush(r) + [Inject(Var(f, [a]))])
  {
    var s3 := SetTop(Opened(r, f), NewFrame(f).(inArg := true));
    var m := SetTop(s3, Pending(Top(s3), a));
    var g := NewFrame(f).(inArg := true, args := [a]);
    var closed := Opened(r, f).(stack := [], closedRoot := Some(Var(f, [a])));
    DumpPending(Top(s3), a);
    assert Top(s3).(args := Top(s3).args + [a]) == g;
    SetTopSetTop(s3, Pending(Top(s3), a), g);
    RootClosed(r, f, g);
    assert Step(m, ')', |p|) == Ok(closed);
    assert p + ")}" == (p + ")") + "}";
    RunFromStart(p, ")", m);
    RunSingle(m, ')', |p|);
    CloseBrace(p + ")", closed);
  }

  // ---------------------------------------------------------------------
  // Errors

  /** A template that is cut off inside a variable is unterminated. */
  lemma UnterminatedIdentifier(ns: seq<Node>, id: string)
    requires Printable(ns) && IsIdentifier(id)
    ensures Parse(Print(ns) + ("{" + id)) == Err(UnterminatedVariable)
  {
    var r := PrintedPrefix(ns);
    RootIdentRun(r, id, |Print(ns)|);
    RunFromStart(Print(ns), "{" + id, r);
    ParseOfRun(Print(ns) + ("{" + id), Opened(r, id));
  }

  /** A complete call without its `}` is unterminated as well. */
  lemma MissingClosingBrace(ns: seq<Node>, v: Var)
    requires Printable(ns) && PrintableVar(v)
    ensures Parse(Print(ns) + ("{" + PrintVar(v))) == Err(UnterminatedVariable)
  {
    var r := PrintedPrefix(ns);
    var m := Opened(r, v.identifier).(stack := [], closedRoot := Some(v));
    RootCallRun(r, v, |Print(ns)|);
    RunFromStart(Print(ns), "{" + PrintVar(v), r);
    ParseOfRun(Print(ns) + ("{" + PrintVar(v)), m);
  }

  /** Once the root call is closed by `)`, any character but `}` is unexpected. */
  lemma CharacterAfterClosedRoot(ns: seq<Node>, v: Var, c: char, rest: string)
    requires Printable(ns) && PrintableVar(v) && c != '}'
    ensures Parse(Print(ns) + ("{" + PrintVar(v)) + ([c] + rest)) == Err(UnexpectedChar(c, |Print(ns) + ("{" + PrintVar(v))|))
  {
    var r := PrintedPrefix(ns);
    var m := Opened(r, v.identifier).(stack := [], closedRoot := Some(v));
    RootCallRun(r, v, |Print(ns)|);
    RunFromStart(Print(ns), "{" + PrintVar(v), r);
    FailsAfter(Print(ns) + ("{" + PrintVar(v)), m, c, rest);
  }

  /** A number argument that `Number()` rejects fails when its `,` or `)` is reached. */
  lemma InvalidNumberArgument(ns: seq<Node>, f: string, t: string, sep: char, rest: string)
    requires Printable(ns) && IsIdentifier(f) && IsNumberLexeme(t) && !Numeric.IsNumeric(t) && (sep == ')' || sep == ',')
    ensures Parse(Print(ns) + ("{" + f + "(") + t + ([sep] + rest)) == Err(InvalidNumber(t))
  {
    var m := NumberArgumentPrefix(ns, f, t);
    NumberEndFails(m, sep, |Print(ns) + ("{" + f + "(") + t|);
    FailsAfter(Print(ns) + ("{" + f + "(") + t, m, sep, rest);
  }

  /** The state after a printable prefix, `{`, an identifier, `(` and a number lexeme. */
  lemma NumberArgumentPrefix(ns: seq<Node>, f: string, t: string) returns (m: State)
    requires Printable(ns) && IsIdentifier(f) && IsNumberLexeme(t)
    ensures Run(Start, Print(ns) + ("{" + f + "(") + t, 0) == Ok(m)
    ensures m.inVar && m.stack != [] && Top(m).inArg && !Top(m).inQuote && Top(m).kind == NumberKind && Top(m).pending == t
  {
    var r, s3 := CallPrefix(ns, f);
    var p := Print(ns) + ("{" + f + "(");
    m := SetTop(s3, Pending(Top(s3), NumArg(t)));
    NumArgRun(s3, t, |p|);
    assert PrintArg(NumArg(t)) == t;
    assert Run(s3, t, |p|) == Ok(m);
    RunFromStart(p, t, s3);
    assert Run(Start, p + t, 0) == Run(s3, t, |p|);
    assert Run(Start, p + t, 0) == Ok(m);
    assert Top(m) == Top(s3).(kind := NumberKind, pending := t);
  }

  lemma TwoDecimalPoints(s: string, t: string)
    requires s == "{n(1.2.3)}" && t == "1.2.3"
    ensures Parse(s) == Err(InvalidNumber(t))
  {
    TwoDecimalPointsText(s, t);
    Numeric.TwoDecimalPointsRejected(t);
    InvalidSoleNumber("n", t);
  }

  lemma TwoDecimalPointsText(s: string, t: string)
    requires s == "{n(1.2.3)}" && t == "1.2.3"
    ensures s == "{" + "n" + "(" + t + ")}" && IsIdentifier("n") && IsNumberLexeme(t)
  {
    assert Numeric.IsDigit(t[0]);
  }

  /** `{f(t)}` with a number lexeme `t` that `Number()` rejects. */
  lemma InvalidSoleNumber(f: string, t: string)
    requires IsIdentifier(f) && IsNumberLexeme(t) && !Numeric.IsNumeric(t)
    ensures Parse("{" + f + "(" + t + ")}") == Err(InvalidNumber(t))
  {
    SoleArgumentText(f, t);
    InvalidNumberArgument([], f, t, ')', "}");
  }

  lemma SoleArgumentText(f: string, t: string)
    ensures Printable([])
    ensures Print([]) + ("{" + f + "(") + t + ([')'] + "}") == "{" + f + "(" + t + ")}"
  {
    assert Print([]) == "";
  }

  /** The separator after a number that `Number()` rejects. */
  lemma NumberEndFails(m: State, sep: char, i: nat)
    requires m.inVar && m.stack != [] && Top(m).inArg && !Top(m).inQuote && Top(m).kind == NumberKind
    requires !Numeric.IsNumeric(Top(m).pending) && (sep == ')' || sep == ',')
    ensures Step(m, sep, i) == Err(InvalidNumber(Top(m).pending))
  {
  }

  /** `}` while a nested variable is open: the nested call was never closed. */
  lemma BraceInsideNestedVariable(ns: seq<Node>, f: string, g: string, rest: string)
    requires Printable(ns) && IsIdentifier(f) && IsNestedIdentifier(g)
    ensures Parse(Print(ns) + ("{" + f + "(") + g + ("}" + rest)) == Err(UnclosedFunction)
  {
    var r, s3 := CallPrefix(ns, f);
    var p := Print(ns) + ("{" + f + "(");
    NestedIdentRun(s3, g, |p|);
    RunFromStart(p, g, s3);
    assert "}" + rest == ['}'] + rest;
    FailsAfter(p + g, Pushed(s3, g), '}', rest);
  }

  lemma UnclosedNestedCall()
    ensures Parse("{a(b}") == Err(UnclosedFunction)
  {
    BraceInsideNestedVariable([], "a", "b", "");
    assert Print([]) + ("{" + "a" + "(") + "b" + ("}" + "") == "{a(b}";
  }

  /** With no argument kind committed, `}` and `\` start a nested identifier like any other character. */
  lemma BraceOrBackslashStartsIdentifier(st: State, c: char, i: nat)
    requires ArgReady(st) && (c == '}' || c == '\\')
    ensures Step(st, c, i) == Ok(Pushed(st, [c]))
    ensures Top(Pushed(st, [c])).identifier == [c] && !Top(Pushed(st, [c])).inArg
  {
    assert Step(st, c, i) == StepArgs(st, c, i);
  }

  /** After a quoted string only `,`, `)` or a space may follow. */
  lemma CharacterAfterString(ns: seq<Node>, f: string, t: string, c: char, rest: string)
    requires Printable(ns) && IsIdentifier(f) && c != ')' && c != ',' && c != ' '
    ensures
      var before := Print(ns) + ("{" + f + "(") + PrintArg(StrArg(t));
      Parse(before + ([c] + rest)) == Err(UnexpectedChar(c, |before|))
  {
    var r, s3 := CallPrefix(ns, f);
    var p := Print(ns) + ("{" + f + "(");
    var m := SetTop(s3, Pending(Top(s3), StrArg(t)));
    StrArgRun(s3, t, |p|);
    RunFromStart(p, PrintArg(StrArg(t)), s3);
    AfterStringStep(s3, t, c, |p + PrintArg(StrArg(t))|);
    FailsAfter(p + PrintArg(StrArg(t)), m, c, rest);
  }

  lemma AfterStringStep(st: State, t: string, c: char, i: nat)
    requires ArgReady(st) && c != ')' && c != ',' && c != ' '
    ensures Step(SetTop(st, Pending(Top(st), StrArg(t))), c, i) == Err(UnexpectedChar(c, i))
  {
    var m := SetTop(st, Pending(Top(st), StrArg(t)));
    SetTopTop(m);
    assert Step(m, c, i) == StepArgs(m, c, i);
  }

  // ---------------------------------------------------------------------
  // One step

  /**
   * The characters on which one step of the parser fails, in a state the
   * parser can reach, and the error it raises.
   */
  lemma StepErrors(st: State, c: char, i: nat)
    requires Valid(st)
    ensures Step(st, c, i).Err? <==>
      || (st.inVar && st.stack == [] && c != '}')
      || (st.inVar && |st.stack| > 1 && !Top(st).inArg && c == '}')
      || (st.inVar && st.stack != [] && Top(st).inArg && !Top(st).inQuote &&
          (|| ((c == ')' || c == ',') && Top(st).kind == NumberKind && !Numeric.IsNumeric(Top(st).pending))
           || (c != ')' && c != ',' && c != ' ' && Top(st).kind == StringKind)))
    ensures Step(st, c, i).Err? ==>
      (Step(st, c, i).error ==
         if st.stack != [] && !Top(st).inArg then UnclosedFunction
         else if st.stack != [] && Top(st).kind == NumberKind then InvalidNumber(Top(st).pending)
         else UnexpectedChar(c, i))
  {
  }

  // ---------------------------------------------------------------------
  // Helpers

  /** The state after a printable prefix: between variables, with that tree read. */
  lemma PrintedPrefix(ns: seq<Node>) returns (r: State)
    requires Printable(ns)
    ensures Run(Start, Print(ns), 0) == Ok(r)
    ensures !r.inVar && !r.escapeNext && Flush(r) == ns
  {
    NodesRun(Start, ns, 0);
    r := Run(Start, Print(ns), 0).value;
    assert Flush(Start) + ns == ns;
  }

  /** The state after a printable prefix, `{`, an identifier and `(`: ready for the first argument. */
  lemma CallPrefix(ns: seq<Node>, f: string) returns (r: State, s3: State)
    requires Printable(ns) && IsIdentifier(f)
    ensures !r.inVar && !r.escapeNext && Flush(r) == ns
    ensures s3 == SetTop(Opened(r, f), NewFrame(f).(inArg := true)) && ArgReady(s3)
    ensures Run(Start, Print(ns) + ("{" + f + "("), 0) == Ok(s3)
  {
    r := PrintedPrefix(ns);
    s3 := SetTop(Opened(r, f), NewFrame(f).(inArg := true));
    RootOpenRun(r, f, |Print(ns)|);
    RunFromStart(Print(ns), "{" + f + "(", r);
  }

  /** Finishing the root variable: it is kept until `}`. */
  lemma RootClosed(r: State, f: string, g: Frame)
    ensures ReturnToParent(SetTop(SetTop(Opened(r, f), NewFrame(f).(inArg := true)), g))
      == Opened(r, f).(stack := [], closedRoot := Some(ToVar(g)))
  {
    SetTopSetTop(Opened(r, f), NewFrame(f).(inArg := true), g);
  }

  /** `}` after a finished root variable injects it. */
  lemma CloseBrace(p: string, closed: State)
    requires Run(Start, p, 0) == Ok(closed) && closed.inVar && closed.stack == [] && closed.closedRoot.Some?
    requires closed.text == ""
    ensures Parse(p + "}") == Ok(closed.result + [Inject(closed.closedRoot.value)])
  {
    var done := closed.(result := closed.result + [Inject(closed.closedRoot.value)], inVar := false, closedRoot := None);
    RunFromStart(p, "}", closed);
    RunSingle(closed, '}', |p|);
    ParseOfRun(p + "}", done);
  }

  lemma ParseOfRun(s: string, m: State)
    requires Run(Start, s, 0) == Ok(m)
    ensures Parse(s) == if m.inVar then Err(UnterminatedVariable) else Ok(Flush(m))
  {
  }

  lemma ThreePieces(st: State, a: string, b: string, c: string, i: nat, m1: State, m2: State)
    requires Run(st, a, i) == Ok(m1) && Run(m1, b, i + |a|) == Ok(m2)
    ensures Run(st, a + b + c, i) == Run(m2, c, i + |a| + |b|)
  {
    RunThen(m1, b, c, i + |a|, m2);
    assert a + b + c == a + (b + c);
    RunThen(st, a, b + c, i, m1);
  }

  /** A step that fails after a prefix makes the whole template fail, whatever follows. */
  lemma FailsAfter(p: string, m: State, c: char, rest: string)
    requires Run(Start, p, 0) == Ok(m) && Step(m, c, |p|).Err?
    ensures Parse(p + ([c] + rest)) == Err(Step(m, c, |p|).error)
  {
    RunFromStart(p, [c] + rest, m);
    RunCons(m, c, rest, |p|);
  }
}
