/**
 * `parseTemplate` of src/templateFormatter.ts as a state machine over the
 * characters of the template. `Step` is one iteration of the source's
 * `for` loop, `Run` the loop, `Parse` the whole function including the
 * checks after the loop. `ParseTemplate` is the same loop written with
 * local variables, proved equal to `Parse`.
 *
 * The source keeps the open variables as objects linked by `_parent`, with
 * `currentVar` pointing at the innermost one. Here they are an explicit
 * stack of frames, outermost first; `currentVar == null` (the root call has
 * been closed by `)`) is the empty stack, with the finished root kept in
 * `closedRoot`.
 */
module Parser {
  import opened Wrappers
  import opened TemplateTree
  import Numeric

  /** `_state.currentArgType`; `NoKind` is `null`. */
  datatype ArgKind = NoKind | StringKind | NumberKind | VarKind

  /**
   * An open variable: its identifier and arguments so far, and its `_state`.
   * `pending` is `currentArg` while that is text; when `kind` is `VarKind`
   * the pending argument is the frame above this one on the stack.
   */
  datatype Frame = Frame(identifier: string, args: seq<Arg>, inArg: bool, inQuote: bool, kind: ArgKind, pending: string)

  /** The parser's loop variables. */
  datatype State = State(
    result: seq<Node>,       // `result`
    inVar: bool,             // `inVar`
    text: string,            // `currentString`
    escapeNext: bool,        // `escapeNext`
    stack: seq<Frame>,       // `rootVar` .. `currentVar`
    closedRoot: Option<Var>) // `rootVar` once `currentVar` is null

  /** `newTemplateVar()`, with its identifier already started. */
  function NewFrame(identifier: string): Frame {
    Frame(identifier, [], false, false, NoKind, "")
  }

  /** The variable a frame stands for, without the parser's bookkeeping (`cleanUpParseResult`). */
  function ToVar(f: Frame): Var {
    Var(f.identifier, f.args)
  }

  const Start: State := State([], false, "", false, [], None)

  function Top(st: State): Frame
    requires st.stack != []
  {
    st.stack[|st.stack| - 1]
  }

  /** Replaces the innermost frame. */
  function SetTop(st: State, f: Frame): (r: State)
    requires st.stack != []
    ensures r.stack != [] && Top(r) == f && |r.stack| == |st.stack|
  {
    st.(stack := st.stack[..|st.stack| - 1] + [f])
  }

  /**
   * `dumpArg()` on the innermost variable: a finished number is checked and
   * appended, a finished string appended, then the argument is reset. The
   * innermost frame never has `VarKind` (`StepValid`), so a nested variable
   * is appended by `ReturnToParent` instead.
   */
  function DumpArg(f: Frame): Result<Frame, ParseError> {
    if f.kind == NumberKind then
      if Numeric.IsNumeric(f.pending) then Ok(f.(args := f.args + [NumArg(f.pending)], pending := "", kind := NoKind))
      else Err(InvalidNumber(f.pending))
    else if f.kind == StringKind then Ok(f.(args := f.args + [StrArg(f.pending)], pending := "", kind := NoKind))
    else Ok(f.(pending := "", kind := NoKind))
  }

  /**
   * `returnToParentVar()`: the innermost variable is finished and `dumpArg()`
   * on its parent appends it as the parent's pending argument (the parent's
   * kind is `VarKind`, see `Valid`). Finishing the root leaves no current
   * variable; with none, nothing happens.
   */
  function ReturnToParent(st: State): State {
    var n := |st.stack|;
    if n == 0 then st
    else if n == 1 then st.(stack := [], closedRoot := Some(ToVar(st.stack[0])))
    else
      var parent := st.stack[n - 2];
      st.(stack := st.stack[..n - 2] + [parent.(args := parent.args + [VarArg(ToVar(st.stack[n - 1]))], kind := NoKind, pending := "")])
  }

  /**
   * `exitInjectedVar()`: the `}` that ends an injected variable. It is an
   * error while a nested variable is current; otherwise the root variable is
   * appended to the result.
   */
  function ExitVar(st: State): Result<State, ParseError> {
    if |st.stack| > 1 then Err(UnclosedFunction)
    else
      var result :=
        if st.stack != [] then st.result + [Inject(ToVar(st.stack[0]))]
        else if st.closedRoot.Some? then st.result + [Inject(st.closedRoot.value)]
        else st.result;  // no root variable: never the case inside a variable (`Valid`)
      Ok(st.(result := result, inVar := false, stack := [], closedRoot := None))
  }

  /** A character inside a quoted argument of the innermost variable. */
  function StepQuoted(st: State, c: char): State
    requires st.stack != []
  {
    var f := Top(st);
    if st.escapeNext then SetTop(st, f.(pending := f.pending + [c])).(escapeNext := false)
    else if c == '\\' then st.(escapeNext := true)
    else if c == '"' then SetTop(st, f.(inQuote := false))
    else SetTop(st, f.(pending := f.pending + [c]))
  }

  /** A character outside quotes while the innermost variable reads its arguments. */
  function StepArgs(st: State, c: char, i: nat): Result<State, ParseError>
    requires st.stack != []
  {
    var f := Top(st);
    if c == ')' then
      var f' :- DumpArg(f);
      Ok(ReturnToParent(SetTop(st, f')))
    else if c == ',' then
      var f' :- DumpArg(f);
      Ok(SetTop(st, f'))
    else if f.kind == NumberKind then Ok(SetTop(st, f.(pending := f.pending + [c])))
    else if c == ' ' then Ok(st)
    else if c == '"' then
      if f.kind != NoKind then Err(UnexpectedChar(c, i))
      else Ok(SetTop(st, f.(kind := StringKind, inQuote := true)))
    else if Numeric.IsDigit(c) then
      if f.kind != NoKind then Err(UnexpectedChar(c, i))
      else Ok(SetTop(st, f.(kind := NumberKind, pending := f.pending + [c])))
    else if f.kind == NoKind then
      Ok(st.(stack := st.stack[..|st.stack| - 1] + [f.(kind := VarKind, pending := ""), NewFrame([c])]))
    else Err(UnexpectedChar(c, i))
  }

  /** A character while the innermost variable reads its identifier. */
  function StepIdentifier(st: State, c: char): Result<State, ParseError>
    requires st.stack != []
  {
    var f := Top(st);
    if c == '(' then Ok(SetTop(st, f.(inArg := true)))
    else if c == ',' then Ok(ReturnToParent(st))
    else if c == ')' then Ok(ReturnToParent(ReturnToParent(st)))
    else if c == '}' then ExitVar(st)
    else Ok(SetTop(st, f.(identifier := f.identifier + [c])))
  }

  /** A character of literal text. */
  function StepLiteral(st: State, c: char): State {
    if st.escapeNext then st.(text := st.text + [c], escapeNext := false)
    else if c == '\\' then st.(escapeNext := true)
    else if c == '{' then
      st.(result := Flush(st), text := "", inVar := true, stack := [NewFrame("")], closedRoot := None)
    else st.(text := st.text + [c])
  }

  /** One iteration of the parser's loop: character `c` at index `i`. */
  function Step(st: State, c: char, i: nat): Result<State, ParseError> {
    if !st.inVar then Ok(StepLiteral(st, c))
    else if st.stack == [] then
      if c == '}' then ExitVar(st) else Err(UnexpectedChar(c, i))
    else if !Top(st).inArg then StepIdentifier(st, c)
    else if Top(st).inQuote then Ok(StepQuoted(st, c))
    else StepArgs(st, c, i)
  }

  /** The loop over `s`, whose first character has index `i` in the template. */
  function Run(st: State, s: string, i: nat): Result<State, ParseError>
    decreases |s|
  {
    if s == [] then Ok(st)
    else
      var st' :- Step(st, s[0], i);
      Run(st', s[1..], i + 1)
  }

  /** `parseTemplate(s)`: the loop, then the end-of-input checks and the last literal. */
  function Parse(s: string): (r: Result<seq<Node>, ParseError>)
    ensures r.Ok? ==> NodesWellFormed(r.value)
  {
    RunValid(Start, s, 0);
    var st :- Run(Start, s, 0);
    if st.inVar then Err(UnterminatedVariable)
    else Ok(Flush(st))
  }

  /** The result with the pending literal text appended, if there is any. */
  function Flush(st: State): seq<Node> {
    if st.text != "" then st.result + [Lit(st.text)] else st.result
  }

  /**
   * The shape every reachable state has: all frames but the innermost are
   * reading arguments and wait for their nested variable; the innermost one
   * has no nested variable pending; a finished root exists exactly when the
   * stack is empty inside a variable; the result is well formed and, outside
   * variables, does not end with a literal.
   */
  ghost predicate Valid(st: State) {
    && NodesWellFormed(st.result)
    && (!st.inVar ==> st.stack == [] && st.closedRoot.None? && (st.result != [] ==> st.result[|st.result| - 1].Inject?))
    && (st.inVar ==> (st.stack == [] <==> st.closedRoot.Some?))
    && (forall k :: 0 <= k < |st.stack| - 1 ==> st.stack[k].inArg && !st.stack[k].inQuote && st.stack[k].kind == VarKind)
    && (st.stack != [] ==> Top(st).kind != VarKind)
  }

  /** Replacing the innermost frame by one without a pending nested variable keeps the shape. */
  lemma SetTopValid(st: State, f: Frame)
    requires Valid(st) && st.stack != [] && f.kind != VarKind
    ensures Valid(SetTop(st, f))
  {
    var r := SetTop(st, f);
    assert forall k :: 0 <= k < |r.stack| - 1 ==> r.stack[k] == st.stack[k];
  }

  /** Finishing the innermost variable keeps the shape. */
  lemma ReturnToParentValid(st: State)
    requires Valid(st) && st.inVar
    ensures Valid(ReturnToParent(st)) && ReturnToParent(st).inVar
  {
    var n := |st.stack|;
    if n > 1 {
      var r := ReturnToParent(st);
      assert forall k :: 0 <= k < |r.stack| - 1 ==> r.stack[k] == st.stack[k];
    }
  }

  /** Each step keeps the shape. */
  lemma StepValid(st: State, c: char, i: nat)
    requires Valid(st)
    ensures Step(st, c, i).Ok? ==> Valid(Step(st, c, i).value)
  {
    if !st.inVar {
      assert Valid(StepLiteral(st, c));
    } else if st.stack == [] {
    } else if !Top(st).inArg {
      StepIdentifierValid(st, c);
    } else if Top(st).inQuote {
      var f := Top(st);
      SetTopValid(st, f.(pending := f.pending + [c]));
      SetTopValid(st, f.(inQuote := false));
    } else {
      StepArgsValid(st, c, i);
    }
  }

  lemma StepIdentifierValid(st: State, c: char)
    requires Valid(st) && st.inVar && st.stack != [] && !Top(st).inArg
    ensures StepIdentifier(st, c).Ok? ==> Valid(StepIdentifier(st, c).value)
  {
    var f := Top(st);
    if c == '(' {
      SetTopValid(st, f.(inArg := true));
    } else if c == ',' {
      ReturnToParentValid(st);
    } else if c == ')' {
      ReturnToParentValid(st);
      ReturnToParentValid(ReturnToParent(st));
    } else if c == '}' {
    } else {
      SetTopValid(st, f.(identifier := f.identifier + [c]));
    }
  }

  lemma StepArgsValid(st: State, c: char, i: nat)
    requires Valid(st) && st.inVar && st.stack != [] && Top(st).inArg && !Top(st).inQuote
    ensures StepArgs(st, c, i).Ok? ==> Valid(StepArgs(st, c, i).value)
  {
    var f := Top(st);
    if c == ')' || c == ',' {
      if DumpArg(f).Ok? {
        SetTopValid(st, DumpArg(f).value);
        ReturnToParentValid(SetTop(st, DumpArg(f).value));
      }
    } else if f.kind == NumberKind {
      SetTopValid(st, f.(pending := f.pending + [c]));
    } else if c == ' ' {
    } else if c == '"' {
      SetTopValid(st, f.(kind := StringKind, inQuote := true));
    } else if Numeric.IsDigit(c) {
      SetTopValid(st, f.(kind := NumberKind, pending := f.pending + [c]));
    } else if f.kind == NoKind {
      var r := StepArgs(st, c, i).value;
      assert forall k :: 0 <= k < |st.stack| - 1 ==> r.stack[k] == st.stack[k];
    }
  }

  /** Every state the loop reaches from a valid one is valid. */
  lemma {:induction false} RunValid(st: State, s: string, i: nat)
    requires Valid(st)
    ensures Run(st, s, i).Ok? ==> Valid(Run(st, s, i).value)
    decreases |s|
  {
    if s != [] {
      StepValid(st, s[0], i);
      if Step(st, s[0], i).Ok? {
        RunValid(Step(st, s[0], i).value, s[1..], i + 1);
      }
    }
  }

  /** Running over `a + b` runs over `a`, then over `b` from where `a` left off; an error in `a` ends the run. */
  lemma {:induction false} RunConcat(st: State, a: string, b: string, i: nat)
    ensures Run(st, a + b, i) == (var m :- Run(st, a, i); Run(m, b, i + |a|))
    decreases |a|
  {
    if a == [] {
      assert a + b == b;
    } else {
      assert (a + b)[0] == a[0];
      assert (a + b)[1..] == a[1..] + b;
      match Step(st, a[0], i)
      case Err(e) =>
      case Ok(m) => RunConcat(m, a[1..], b, i + 1);
    }
  }

  /** An error is final: whatever follows the character that raised it, the parse fails with the same error. */
  lemma ErrorIsFinal(s: string, n: nat)
    requires n <= |s| && Run(Start, s[..n], 0).Err?
    ensures Parse(s) == Err(Run(Start, s[..n], 0).error)
  {
    assert s == s[..n] + s[n..];
    RunConcat(Start, s[..n], s[n..], 0);
  }

  /** The loop over one character is one step. */
  lemma RunSingle(st: State, c: char, i: nat)
    ensures Run(st, [c], i) == Step(st, c, i)
  {
    assert [c][0] == c && [c][1..] == [];
  }

  /** The loop over the first `n + 1` characters is the loop over the first `n`, then one more step. */
  lemma RunSnoc(s: string, n: nat)
    requires n < |s|
    ensures Run(Start, s[..n + 1], 0) == (var m :- Run(Start, s[..n], 0); Step(m, s[n], n))
  {
    assert s[..n + 1] == s[..n] + [s[n]];
    RunConcat(Start, s[..n], [s[n]], 0);
    if Run(Start, s[..n], 0).Ok? {
      RunSingle(Run(Start, s[..n], 0).value, s[n], n);
    }
  }

  /** The imperative form of `parseTemplate`: the source's loop over the characters, with its variables. */
  method ParseTemplate(s: string) returns (r: Result<seq<Node>, ParseError>)
    ensures r == Parse(s)
  {
    var result: seq<Node> := [];
    var inVar := false;
    var currentString := "";
    var escapeNext := false;
    var stack: seq<Frame> := [];
    var closedRoot: Option<Var> := None;

    var i := 0;
    assert s[..i] == [];
    assert Run(Start, [], 0) == Ok(Start);
    while i < |s|
      invariant 0 <= i <= |s|
      invariant Run(Start, s[..i], 0) == Ok(State(result, inVar, currentString, escapeNext, stack, closedRoot))
    {
      var c := s[i];
      RunSnoc(s, i);
      var st := State(result, inVar, currentString, escapeNext, stack, closedRoot);
      if inVar {
        var next := VariableChar(st, c, i);
        if next.Err? {
          ErrorIsFinal(s, i + 1);
          return Err(next.error);
        }
        st := next.value;
      } else {
        st := LiteralChar(st, c);
      }
      result, inVar, currentString, escapeNext, stack, closedRoot := st.result, st.inVar, st.text, st.escapeNext, st.stack, st.closedRoot;
      i := i + 1;
    }
    assert s[..i] == s;
    if inVar {
      return Err(UnterminatedVariable);
    }
    if currentString != "" {
      result := result + [Lit(currentString)];
    }
    return Ok(result);
  }

  /** The body of the parser's loop outside injected variables. */
  method LiteralChar(st: State, c: char) returns (r: State)
    requires !st.inVar
    ensures forall i: nat :: Step(st, c, i) == Ok(r)
  {
    var currentString, escapeNext, result := st.text, st.escapeNext, st.result;
    if escapeNext {
      currentString := currentString + [c];
      escapeNext := false;
    } else if c == '\\' {
      escapeNext := true;
    } else if c == '{' {
      if currentString != "" {
        result := result + [Lit(currentString)];
        currentString := "";
      }
      return st.(result := result, text := currentString, inVar := true, stack := [NewFrame("")], closedRoot := None);
    } else {
      currentString := currentString + [c];
    }
    r := st.(text := currentString, escapeNext := escapeNext);
  }

  /** The body of the parser's loop inside an injected variable. */
  method VariableChar(st: State, c: char, i: nat) returns (r: Result<State, ParseError>)
    requires st.inVar
    ensures r == Step(st, c, i)
    ensures r.Ok? ==> r.value.text == st.text
  {
    var stack := st.stack;
    if stack == [] {
      // the root call was closed by `)`: only `}` may follow
      if c == '}' {
        r := ExitVar(st);
      } else {
        r := Err(UnexpectedChar(c, i));
      }
      return;
    }
    var f := stack[|stack| - 1];
    if !f.inArg {
      if c == '(' {
        stack := stack[..|stack| - 1] + [f.(inArg := true)];
        r := Ok(st.(stack := stack));
      } else if c == ',' {
        r := Ok(ReturnToParent(st));
      } else if c == ')' {
        r := Ok(ReturnToParent(ReturnToParent(st)));
      } else if c == '}' {
        r := ExitVar(st);
      } else {
        stack := stack[..|stack| - 1] + [f.(identifier := f.identifier + [c])];
        r := Ok(st.(stack := stack));
      }
    } else if f.inQuote {
      var escapeNext := st.escapeNext;
      if escapeNext {
        stack := stack[..|stack| - 1] + [f.(pending := f.pending + [c])];
        escapeNext := false;
      } else if c == '\\' {
        escapeNext := true;
      } else if c == '"' {
        stack := stack[..|stack| - 1] + [f.(inQuote := false)];
      } else {
        stack := stack[..|stack| - 1] + [f.(pending := f.pending + [c])];
      }
      r := Ok(st.(stack := stack, escapeNext := escapeNext));
    } else {
      r := ArgumentChar(st, c, i);
    }
  }

  /** The body of the parser's loop while the current variable reads its arguments, outside quotes. */
  method ArgumentChar(st: State, c: char, i: nat) returns (r: Result<State, ParseError>)
    requires st.inVar && st.stack != [] && Top(st).inArg && !Top(st).inQuote
    ensures r == StepArgs(st, c, i)
  {
    var stack := st.stack;
    var f := stack[|stack| - 1];
    if c == ')' || c == ',' {
      var dumped := DumpArg(f);
      if dumped.Err? {
        return Err(dumped.error);
      }
      stack := stack[..|stack| - 1] + [dumped.value];
      if c == ')' {
        return Ok(ReturnToParent(st.(stack := stack)));
      }
    } else if f.kind == NumberKind {
      // validity of the number is checked when it is finished
      stack := stack[..|stack| - 1] + [f.(pending := f.pending + [c])];
    } else if c == ' ' {
      // white space between arguments is skipped
    } else if c == '"' {
      if f.kind != NoKind {
        return Err(UnexpectedChar(c, i));
      }
      stack := stack[..|stack| - 1] + [f.(kind := StringKind, inQuote := true)];
    } else if Numeric.IsDigit(c) {
      if f.kind != NoKind {
        return Err(UnexpectedChar(c, i));
      }
      stack := stack[..|stack| - 1] + [f.(kind := NumberKind, pending := f.pending + [c])];
    } else if f.kind == NoKind {
      stack := stack[..|stack| - 1] + [f.(kind := VarKind, pending := ""), NewFrame([c])];
    } else {
      return Err(UnexpectedChar(c, i));
    }
    r := Ok(st.(stack := stack));
  }
}
