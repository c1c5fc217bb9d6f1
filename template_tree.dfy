/**
 * The parse tree produced by `parseTemplate` (src/templateFormatter.ts):
 * a template is a sequence of literal strings and injected variables; an
 * injected variable names an identifier path and carries positional
 * arguments, which are quoted strings, numbers or nested variables.
 */
module TemplateTree {

  /** An argument as written: a quoted string, a number, or a nested variable. */
  datatype Arg =
    | StrArg(s: string)
    | NumArg(literal: string)  // the number's text as written; see Numeric.IsNumeric
    | VarArg(v: Var)

  /** An injected variable `{identifier(args)}`, with the parser's `_state` and `_parent` removed. */
  datatype Var = Var(identifier: string, args: seq<Arg>)

  /** One element of a parsed template. */
  datatype Node = Lit(text: string) | Inject(v: Var)

  /** The reasons `parseTemplate` throws a `TemplateParseError`. */
  datatype ParseError =
    | UnexpectedChar(c: char, at: nat)
    | UnclosedFunction
    | UnterminatedVariable
    | InvalidNumber(literal: string)

  /** Literal nodes are never empty and never adjacent: the text between two variables is one node. */
  predicate NodesWellFormed(ns: seq<Node>) {
    && (forall k :: 0 <= k < |ns| && ns[k].Lit? ==> ns[k].text != "")
    && (forall k :: 0 <= k < |ns| - 1 ==> !(ns[k].Lit? && ns[k + 1].Lit?))
  }
}
