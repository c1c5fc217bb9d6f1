# Template engine of ZeppelinBot, modelled in Dafny

This project models the template engine in `src/templateFormatter.ts`. A
template such as `Hello {user.name}, {if(admin,"boss","friend")}!` is
parsed into a tree of literal strings and injected variables. The tree is
then rendered against a context of values. An injected variable names an
identifier path and may carry arguments: quoted strings, numbers, or
nested variables.

The model has eight modules, one file each:

- `TemplateTree` (template_tree.dfy): the parse tree with its nodes, variables and arguments. The well-formedness predicate says that no literal node is empty and no two literal nodes are adjacent.
- `Parser` (parser.dfy): `parseTemplate`, modelled as a state machine.
  - `Step` is one iteration of the source's `for` loop, `Run` is the loop, and `Parse` is the whole function.
  - The `_parent`-linked open variables become an explicit stack of frames. The state where the root call was closed by `)` (`currentVar == null`) keeps the finished root aside until `}`.
  - `dumpArg`, `returnToParentVar`, `exitInjectedVar`, `newTemplateVar` and `cleanUpParseResult` are `DumpArg`, `ReturnToParent`, `ExitVar`, `NewFrame` and `ToVar`.
  - The method `ParseTemplate` is the loop with its local variables. It is proved equal to `Parse`. Its branch methods `LiteralChar` and `VariableChar` are proved equal to `Step`, and `ArgumentChar` to `StepArgs`.
- `Numeric` (numeric.dfy): the test `isNaN(text)` that `dumpArg` applies to a finished number argument. This is the StringNumericLiteral grammar of ECMAScript (section 7.1.4.1 of ECMA-262), which `Number(text)` accepts.
- `Printer` (printer.dfy): a canonical printer for parse trees. It is not in the source; it is the partner that pins down what the parser accepts, through the round trip `Parse(Print(ns)) == Ok(ns)`.
- `ParserFacts` (parser_facts.dfy): what the parser does with input the printer never writes:
  - escapes;
  - variables used without a call;
  - the `)` that closes two variables;
  - white space around arguments;
  - every way the parser throws.
- `Renderer` (render.dfy): `evaluateTemplateVariable`, `renderParsedTemplate` and `baseValues`, together with the lookup `at(values, path)[0]`.
- `Engine` (engine.dfy): `renderTemplate` and its cache of parse results. The cache is a class with the keys in insertion order and a map from key to tree. It holds at most 100 entries, and a miss on a full cache evicts the earliest-inserted key.
- `Wrappers` (wrappers.dfy): `Option` and `Result`.

Some things belong to the JavaScript host rather than to the engine. They are a `Host` parameter:

- whether a number is truthy;
- the string form of a number or a function;
- what a function from the context returns or throws.

Numbers are kept as the text they were written as.

Two behaviours of the code deserve a note:

- `{}` injects a variable with the empty identifier; see `ParserFacts.EmptyBraces`.
- A number argument is kept as the text it was written as. The code passes `parseFloat` of that text to the rendering; the model leaves the conversion to the host, and the text is what decides whether `dumpArg` throws.

## Model

| member | source | states |
|---|---|---|
| Parser.Parse | src/templateFormatter.ts:185-212 | a successful parse yields a well-formed tree: no literal node is empty and no two literal nodes are adjacent |
| Parser.ParseTemplate | src/templateFormatter.ts:48-218 | the loop over the characters with its local variables, then the end-of-input checks, gives exactly `Parse`, errors included |
| Parser.LiteralChar | src/templateFormatter.ts:184-203 | outside a variable every character is accepted, and the loop body's new state is one parser step at any index |
| Parser.VariableChar | src/templateFormatter.ts:98-183 | inside a variable the loop body is one parser step, and it never touches the pending literal text |
| Parser.ArgumentChar | src/templateFormatter.ts:114-155 | the branch for argument characters outside quotes is the argument step, error cases included |
| Parser.StepValid | src/templateFormatter.ts:97-204 | every successful step keeps the shape invariant: outer variables are reading arguments with a nested variable pending, the innermost one has none pending, and the result is well formed |
| Parser.StepIdentifierValid | src/templateFormatter.ts:156-176 | the identifier branch keeps the shape invariant |
| Parser.StepArgsValid | src/templateFormatter.ts:114-155 | the argument branch keeps the shape invariant |
| Parser.ReturnToParentValid | src/templateFormatter.ts:78-82 | returning to the parent variable keeps the invariant and stays in variable mode |
| Parser.RunValid | src/templateFormatter.ts:97-204 | every state the loop reaches from a valid state is valid |
| Parser.RunConcat | src/templateFormatter.ts:97-204 | the loop over `a + b` is the loop over `a`, then over `b` from where it stopped; a throw inside `a` ends it |
| Parser.ErrorIsFinal | src/templateFormatter.ts:97-208 | a throw while reading a prefix is the result of the whole parse, whatever follows |
| Numeric.DigitsAreNumeric | src/templateFormatter.ts:62-68 | a non-empty run of decimal digits passes the `isNaN` test |
| Numeric.Untrimmed | src/templateFormatter.ts:64 | text without white space at either end passes the `isNaN` test exactly when it is a numeric literal |
| Numeric.SpacesAroundNumbers | src/templateFormatter.ts:64 | `"1 "` passes the test and `"1 2"` does not |
| Numeric.TwoDecimalPointsRejected | src/templateFormatter.ts:64 | `"1.2.3"` fails the test |
| Numeric.FractionAccepted | src/templateFormatter.ts:64 | `"1.5"` passes the test |
| Numeric.ExponentAccepted | src/templateFormatter.ts:64 | `"2e10"` passes the test |
| Numeric.HexAccepted | src/templateFormatter.ts:64 | `"0x1F"` passes the test |
| Printer.ParsePrint | src/templateFormatter.ts:48-218 | every printable tree is read back exactly: `Parse(Print(ns)) == Ok(ns)` |
| Printer.LiteralRun | src/templateFormatter.ts:184-203 | escaped literal text is read into the pending literal, each backslash making the next character literal |
| Printer.QuoteRun | src/templateFormatter.ts:102-113 | inside quotes a backslash escapes the next character, and the text is appended to the pending string argument |
| Printer.NumberRun | src/templateFormatter.ts:121-124 | once a number has started, every character up to `,` or `)` is appended to it unchecked |
| Printer.IdentRun | src/templateFormatter.ts:173-175 | identifier characters are appended to the identifier of the innermost variable |
| Printer.ArgsCloseRun | src/templateFormatter.ts:114-120 | a list of arguments and the `)` after it append every argument, in order, and finish the variable |
| Printer.VarRun | src/templateFormatter.ts:144-152 | a nested call in argument position is appended to its parent's arguments |
| Printer.NestedClosed | src/templateFormatter.ts:78-82 | finishing a nested variable hands it to its parent, which is then ready for its next argument |
| Printer.RootCallRun | src/templateFormatter.ts:114-117 | after `{` and a call, the root variable is finished and kept until `}` |
| Printer.NodesRun | src/templateFormatter.ts:97-204 | reading a printed tree appends exactly that tree to the result |
| ParserFacts.EscapeRoundTrip | src/templateFormatter.ts:185-194 | any text, escaped, parses to one literal node holding it, or to no node when it is empty |
| ParserFacts.PlainText | src/templateFormatter.ts:185-212 | text without `{` and `\` parses to one literal node equal to it, or to none when it is empty |
| ParserFacts.TrailingBackslash | src/templateFormatter.ts:184-212 | a backslash at the very end of any printable template is dropped: the parse is that of the template without it |
| ParserFacts.EscapedClosingBrace | src/templateFormatter.ts:185-187 | `\}` after literal text yields `}` in the same literal node |
| ParserFacts.BareRootVariable | src/templateFormatter.ts:156-179 | `{id}`, `{id)}` and `{id,}` all inject `id` without arguments |
| ParserFacts.EmptyBraces | src/templateFormatter.ts:169-172 | `{}` injects the variable with the empty identifier |
| ParserFacts.CallWithoutArguments | src/templateFormatter.ts:114-117 | `{id()}` injects `id` with an empty argument list, because finishing an argument of no kind pushes nothing |
| ParserFacts.BareArguments | src/templateFormatter.ts:157-168 | bare identifiers separated by `,` become argument variables, and the last `)` closes both the last one and the call |
| ParserFacts.IfWithBareArguments | src/templateFormatter.ts:157-168 | `{if(a,b,c)}` parses to `if` applied to the variables `a`, `b` and `c` |
| ParserFacts.SpacesRun | src/templateFormatter.ts:125-127 | spaces outside quotes are skipped while no number is being read |
| ParserFacts.SpacesAroundArgument | src/templateFormatter.ts:125-127 | spaces before and after a string or variable argument do not change the tree |
| ParserFacts.NumberKeepsTrailingSpaces | src/templateFormatter.ts:121-127 | spaces before a number are skipped, and spaces after it become part of its text |
| ParserFacts.UnterminatedIdentifier | src/templateFormatter.ts:206-208 | a template that ends inside a variable's identifier fails as unterminated |
| ParserFacts.MissingClosingBrace | src/templateFormatter.ts:206-208 | a complete call without its `}` fails as unterminated |
| ParserFacts.CharacterAfterClosedRoot | src/templateFormatter.ts:177-182 | after the root call's `)`, any character but `}` is unexpected, at its index |
| ParserFacts.InvalidNumberArgument | src/templateFormatter.ts:62-66 | a number argument that `isNaN` rejects fails when its `,` or `)` is reached, whatever follows |
| ParserFacts.TwoDecimalPoints | src/templateFormatter.ts:62-66 | `{n(1.2.3)}` fails with an invalid numeric argument `1.2.3` |
| ParserFacts.InvalidSoleNumber | src/templateFormatter.ts:62-66 | `{f(t)}` fails with an invalid numeric argument when `t` starts with a digit and `isNaN(t)` holds |
| ParserFacts.NumberEndFails | src/templateFormatter.ts:114-120 | `,` or `)` after a number that `isNaN` rejects raises the invalid-number error |
| ParserFacts.BraceInsideNestedVariable | src/templateFormatter.ts:169-172 | `}` while a nested variable is the current one fails as an unclosed function |
| ParserFacts.UnclosedNestedCall | src/templateFormatter.ts:84-88 | `{a(b}` fails as an unclosed function |
| ParserFacts.CharacterAfterString | src/templateFormatter.ts:128-155 | after a quoted string only `,`, `)` or a space may follow; anything else is unexpected, at its index |
| ParserFacts.AfterStringStep | src/templateFormatter.ts:128-155 | a step on a character other than `,`, `)` or a space, after a quoted string, throws an unexpected-character error |
| ParserFacts.BraceOrBackslashStartsIdentifier | src/templateFormatter.ts:144-152 | with no argument kind committed, `}` and `\` start a nested identifier like any other character |
| ParserFacts.StepErrors | src/templateFormatter.ts:97-183 | in a reachable state, one step fails exactly in the listed cases (a character other than `}` after the root's `)`; `}` inside a nested variable; an invalid number at its separator; a character after a string other than a separator or space), and the error raised in each |
| Renderer.SplitJoin | src/templateFormatter.ts:221 | joining the segments of a split path with dots gives the path back |
| Renderer.SplitDotFree | src/templateFormatter.ts:221 | no segment of a split path contains a dot |
| Renderer.ResolveNested | src/templateFormatter.ts:221 | a dotted path `a.b` that is not itself a key finds the entry `b` of the object at `a` |
| Renderer.ResolveLength | src/templateFormatter.ts:221 | `a.length` that is not itself a key gives the number of elements of the array, or of characters of the string, at `a` |
| Renderer.ResolveIndex | src/templateFormatter.ts:221 | `a.k`, for a canonical decimal index `k` within bounds, gives the element of the array at `a`, or the one-character string of the string at `a` |
| Renderer.NatTextIndex | src/templateFormatter.ts:221 | the decimal text of a natural number is a canonical index segment denoting that number |
| Renderer.AllTruthy | src/templateFormatter.ts:259-264 | `and` is true exactly when every argument is truthy, so it is true of no arguments |
| Renderer.AnyTruthy | src/templateFormatter.ts:265-270 | `or` is true exactly when some argument is truthy, so it is false of no arguments |
| Renderer.IfChooses | src/templateFormatter.ts:256-258 | `if(c,t,e)` is `t` when `c` is truthy and `e` otherwise |
| Renderer.EmptyConnectives | src/templateFormatter.ts:259-273 | with no arguments `and` is true, `or` false, and `not` true |
| Renderer.NotOrIsAndNot | src/templateFormatter.ts:265-273 | `not(or(args))` is true exactly when every argument is falsy |
| Renderer.JoinAppend | src/templateFormatter.ts:274-276 | `concat` of two argument lists is the concatenation of their `concat`s |
| Renderer.ConcatOfStrings | src/templateFormatter.ts:274-276 | `concat` of strings is their concatenation |
| Renderer.MergeBaseOverrides | src/templateFormatter.ts:280-282 | a caller's entry overrides the built-in of the same name, the other built-ins remain, and without the base values the context is the caller's own |
| Renderer.Evaluate | src/templateFormatter.ts:220-239 | a variable never evaluates to null or undefined: both become "" |
| Renderer.EvaluateArgsPointwise | src/templateFormatter.ts:224-232 | the argument loop succeeds exactly when every argument does; its values are the arguments' values in order; otherwise its error is that of the first failing argument |
| Renderer.ArgumentsIgnoredUnlessCallable | src/templateFormatter.ts:221-238 | when the identifier does not name a function, the written arguments do not matter, and the value is the one found, or "" for absence or null |
| Renderer.EagerArguments | src/templateFormatter.ts:224-232 | an argument that fails makes the call fail |
| Renderer.CallReceivesArguments | src/templateFormatter.ts:223-235 | a function receives the evaluated arguments in order, and a null result becomes "" |
| Renderer.RenderAppend | src/templateFormatter.ts:241-253 | rendering two trees one after the other concatenates their texts |
| Renderer.RenderLiterals | src/templateFormatter.ts:244-249 | a tree of literals renders to the concatenation of their texts in any context |
| Renderer.RenderSingle | src/templateFormatter.ts:244-249 | a tree of one node renders to that node's text |
| Renderer.RenderErrorIsFinal | src/templateFormatter.ts:244-250 | an error while rendering a prefix of the tree is the result of the whole render |
| Renderer.RenderParsedTemplate | src/templateFormatter.ts:241-253 | the loop that appends each node's text computes `Render` |
| Engine.AdmitAllKeepsNewest | src/templateFormatter.ts:290-296 | after any run of misses from a cache within capacity, the keys are the newest 100 of all keys inserted, in insertion order |
| Engine.NewestMembers | src/templateFormatter.ts:290-296 | of distinct inserted keys, one is still cached exactly when it is among the last 100 |
| Engine.HundredAndOneTemplates | src/templateFormatter.ts:290-296 | after 101 distinct misses on an empty cache, the keys are the last 100 templates: the first has been evicted and every other one is cached |
| Engine.ParseInTurn | src/templateFormatter.ts:284-297 | calling `GetOrParse` on distinct, parseable templates one after another from an empty cache leaves exactly the last 100 cached, in insertion order |
| Engine.HundredAndOneParses | src/templateFormatter.ts:284-297 | 101 such calls leave 100 entries: the first template is no longer cached and every later one is |
| Engine.TemplateCache.constructor | src/templateFormatter.ts:4 | a new cache is empty and valid |
| Engine.TemplateCache.GetOrParse | src/templateFormatter.ts:284-297 | the result is the parse of the template. A hit or a parse error leaves keys, order and trees unchanged. A successful miss evicts the earliest key only when the cache is full and then appends the new key. At most 100 distinct keys are kept, each mapped to its own parse |
| Engine.RenderTemplate | src/templateFormatter.ts:279-300 | the text is that of parsing and rendering against the merged context, whether the cache hits or not; the cache keeps its invariant and changes only by admitting a newly parsed template |
| Engine.EscapedTextRendersAsIs | src/templateFormatter.ts:185-253 | escaped literal text renders to itself in any context |
| Engine.PlainTemplateRendersAsIs | src/templateFormatter.ts:185-253 | a template without `{` and `\` renders to itself in any context |
| Engine.EscapedBraces | src/templateFormatter.ts:185-194 | `\{` and `\}` around plain text render as the braces themselves |
| Engine.UserName | src/templateFormatter.ts:220-238 | `{user.name}` and `{user.name()}` both render the nested value `Amy` |
| Engine.IfExample | src/templateFormatter.ts:256-258 | `{if(a,b,c)}` renders `b`'s value when `a` is truthy |
| Engine.ConcatExample | src/templateFormatter.ts:274-276 | `{concat("a",1,"b")}` renders `a1b` |

## Left out

- The lookup `at(values, path)[0]` of lodash: the model looks the whole path up as a key first, then splits it at its dots and follows object fields, and the `length` and canonical indices of arrays and strings. A string is indexed by code point, where JavaScript counts UTF-16 units. Bracket paths, quoted segments, properties of numbers, booleans and functions, and inherited or prototype properties are not modelled.
- `async` and `await`: rendering is sequential and synchronous. A context function is a host function that returns a value or throws, with no side effects.
- JavaScript number semantics: `parseFloat`, the string form of a number, and its truthiness are host functions over the number's text. A number argument is kept as the text it was written as.
- The text of error messages: errors are a datatype. The index of an unexpected character is kept, counted in code points as `[...str]` counts them.
- The module-global `templateCache`: it is an object that the caller passes to `RenderTemplate`.
- `cleanUpParseResult` deletes the bookkeeping fields in place. The model builds the clean variable (`ToVar`) instead, because frames and variables are values here.
- `and`, `or` and `concat` loop over their arguments in the source. They are modelled as recursive functions, since the loops only compute a value.
- The argument loop of `evaluateTemplateVariable` is likewise modelled as a recursive function.
- A value that is not a string is shown as `String(value)` would show it. The forms of booleans and arrays are fixed, and numbers and functions are host functions. An object is always shown as `[object Object]`: an own `toString` or `valueOf` on a context object, which `+=` and `String` would call, is not modelled.
- `backend/src/plugins/Utility/commands/SetStatusCmd.ts`, the command that calls `renderTemplate`, is not part of this model.
