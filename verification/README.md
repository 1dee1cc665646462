# A verified model of the fetish-repl interpreter core

This project models the parsing and session logic of an interactive
interpreter. The interpreter sits on top of an external typed-term model.
The user types command lines such as
`let f = (#3p0 #1[1.0, 2.0])`, `eval (f x)` or `parse (g y)`. The interpreter:

- splits each line into a command word and a trimmed argument;
- parses the argument as an s-expression, resolving identifiers against the
  `let` bindings;
- builds a left-nested curried application tree from the atoms;
- evaluates it through the external model. The model's state is kept
  serialized between commands and is checked out, deserialized, used,
  re-serialized and checked back in around every operation.

Modules, one per part of the program:

| file | module | models |
|---|---|---|
| `results.dfy` | `Results` | Rust's `Option` and `Result` |
| `text.dfy` | `StrOps` | the `str` operations the parsers use: `trim`, `trim_start`, `find`, `split_once`, `split`, and decimal `usize` parsing |
| `terms.dfy` | `Terms` | term pointers, term indices and term references |
| `expression.dfy` | `ExpressionTree` | `src/expression.rs` |
| `bindings.dfy` | `BindingEnv` | `src/bindings.rs` |
| `command_line.dfy` | `CommandLine` | the command enums of `src/commands.rs` and the command-line parsers of `src/parsers.rs` |
| `parsers.dfy` | `Parsers` | the expression parsers of `src/parsers.rs` |
| `surface_syntax.dfy` | `SurfaceSyntax` | a reference grammar (printer plus denotation) that the expression parser is proved to invert |
| `state.dfy` | `ModelState` | `src/state.rs` |
| `commands.dfy` | `Commands` | the dispatch, the no-context guard, `let`/`evaluate` and `parse` of `src/commands.rs` |

Modelling decisions:

- **External model.** The model's operations are fields of a record,
  `ModelState.Capabilities`: create, serialize, deserialize, evaluate, the
  Bayesian update step, clearing newly received terms, and the empty
  placeholder. Every lemma holds for every such record. Where a lemma needs
  serialization to round-trip, it says so in its `requires`
  (`RoundTrips`, `Canonical`).
- **Floats.** Reading a vector element (`str::parse::<f32>` followed by
  `r32`) is a parameter `pf: string -> Option<real>`. The loop of
  `parse_vector` trims each piece just before reading it. The model trims
  all pieces first (`TrimAll`) and then reads them in order. Trimming has
  no effect other than its result, so both give the same result and the
  same error.
- **Whitespace** is the Unicode White_Space set that Rust's
  `char::is_whitespace` uses, written out code point by code point.
- **Empty digit runs panic.** An empty run of digits after `#` or after
  `p`/`n` (`#p5`, `#2p)`) makes the source `unwrap` a failed `usize` parse,
  which panics. The parsers model this as a separate failure,
  `ParseFailure.Abort`, and the command handlers turn it into
  `Outcome.Panic`. It is not a precondition. The panic can come from any
  depth of a nested s-expression, so a precondition ruling it out would have
  to re-run the parser.
- **File and library access** for `load_context` and `generate_context` is
  a parameter, `Commands.Host`. For a path it gives back the context bytes to
  keep and the context, or `None` on any I/O or JSON failure.

## Model

| member | source | states |
|---|---|---|
| StrOps.Trim | src/parsers.rs:9 | `trim` removes leading and trailing whitespace only; the result neither starts nor ends with whitespace, and trimming the two ends in either order agrees |
| StrOps.TrimStart | src/parsers.rs:68 | `trim_start` returns a suffix of the text; what it drops is all whitespace, and what it keeps does not start with whitespace |
| StrOps.TrimEnd | src/parsers.rs:9 | `trim_end` returns a prefix; what it drops is all whitespace, and what it keeps does not end with whitespace |
| StrOps.TrimStartEndCommute | src/parsers.rs:9 | trimming the start first or the end first gives the same string |
| StrOps.FindFirst | src/parsers.rs:176 | `find` returns the first index whose character satisfies the predicate, or `None` when no character does |
| StrOps.SplitOnce | src/parsers.rs:10 | `split_once` fails exactly when the separator is absent; otherwise the text is the part before + separator + the part after, and the part before holds no separator |
| StrOps.SplitOnceUnique | src/parsers.rs:50 | any decomposition whose first part is free of the separator is the one `split_once` returns |
| StrOps.Split | src/parsers.rs:154 | `split` yields at least one piece; no piece holds the separator; joining the pieces with the separator gives back the text |
| StrOps.SplitJoin | src/parsers.rs:154 | splitting a join of separator-free pieces gives back exactly those pieces |
| StrOps.ParseNat | src/parsers.rs:99 | the value of a run of n digits is below 10^n |
| StrOps.ParseNatAppend | src/parsers.rs:99 | the value is positional: the digits in front count 10^k times, where k is the number of digits after them |
| StrOps.LeadingZero | src/parsers.rs:129 | a leading zero does not change the value |
| StrOps.ShowNat | src/parsers.rs:99 | a number's decimal rendering is a non-empty run of digits |
| StrOps.ParseShowNat | src/parsers.rs:99 | parsing a number's decimal rendering gives the number back |
| ExpressionTree.MaybeFromExpression | src/expression.rs:20-30 | an expression can serve as a callee exactly when it is not a vector reference, and that callee denotes the same expression |
| ExpressionTree.CalleeRoundTrip | src/expression.rs:20-30 | every callee, written as an expression, is accepted back as the same callee |
| ExpressionTree.Curry | src/expression.rs:79-82 | the loop adds one application node per remaining argument, and the spine of the result is the old spine followed by those arguments |
| ExpressionTree.BuildApplication | src/expression.rs:65-86 | the empty list, a singleton, and a vector head fail with their three messages, in each case exactly then; the call succeeds exactly for two or more atoms headed by a callee; a success has at least n-1 spine nodes whose flattening is the input list in order |
| ExpressionTree.BuildUnspine | src/expression.rs:76-83 | every application is what `build_application` builds from the callee and arguments on its left spine |
| ExpressionTree.BuildSnoc | src/expression.rs:79-82 | appending an argument wraps the previous result as the callee of a new outermost node (left associativity) |
| ExpressionTree.UnspineInjective | src/expression.rs:76-83 | two applications with the same spine are equal |
| ExpressionTree.BuildFourAtoms | src/expression.rs:76-83 | `(f x y z)` builds `((f x) y) z` |
| ExpressionTree.RenderExpr | src/expression.rs:39-46 | an application renders inside one pair of parentheses, and a rendering takes at least three characters per application node |
| ExpressionTree.RenderFunc | src/expression.rs:56-63 | an applied callee renders inside one pair of parentheses, and a rendering takes at least three characters per application node |
| ExpressionTree.RenderApp | src/expression.rs:48-54 | an application always renders as `(…)`, at least three characters per application node |
| ExpressionTree.RenderCurry | src/expression.rs:48-54 | each node the `build_application` loop adds puts one `(` in front of the rendering so far and ` <argument>)` behind it |
| ExpressionTree.RenderBuilt | src/expression.rs:48-86 | a built application renders as one `(` per node, the callee, then each argument in order after a space and followed by `)`: `(<func> <arg>)` nested to the left |
| ExpressionTree.RenderParens | src/expression.rs:48-54 | rendering has exactly one `(` and one `)` per application node whenever the leaf renderings have none |
| BindingEnv.New | src/bindings.rs:22-26 | a fresh environment fails every lookup, with the unbound-identifier message |
| BindingEnv.Write | src/bindings.rs:10-12 | after a write the name looks up to the written value, and every other name looks up as before |
| BindingEnv.Lookup | src/bindings.rs:13-20 | lookup succeeds exactly for bound names and returns the bound value; otherwise the error is "No identifier named <name> in scope" |
| BindingEnv.LookupExtensional | src/bindings.rs:13-20 | environments that answer every lookup alike are equal |
| BindingEnv.WriteOverwrites | src/bindings.rs:10-12 | a second write to a name replaces the first |
| BindingEnv.WritesCommute | src/bindings.rs:10-12 | writes to different names commute |
| BindingEnv.WriteLookedUp | src/bindings.rs:10-20 | writing back a name's own value changes nothing |
| CommandLine.ParseCommandLine | src/parsers.rs:8-20 | the line is trimmed; with no space it is a bare command word, otherwise the word before the first space gets the trimmed rest as its argument |
| CommandLine.ParsePrimitiveCommand | src/parsers.rs:22-29 | exactly `unload_context`, `list_types` and `help` are accepted, giving unload-context, the contextual list-types command and help; any other word gives the "(without arguments)" error |
| CommandLine.ParseArgumentedCommand | src/parsers.rs:31-47 | each of the ten command words (thirteen spellings) gives its own command carrying the argument unchanged; `let` goes to `parse_let`; the call fails exactly for an unknown word (the "(with arguments)" error) or for a `let` with no `=` |
| CommandLine.ParseShowCommand | src/parsers.rs:8-60 | every command whose argument is non-empty and trimmed, and every `let` whose name and expression are trimmed (either may be empty) and whose name has no `=`, is read back from its canonical line `<word>` or `<word> <argument>` |
| CommandLine.WordYields | src/parsers.rs:31-47 | for every command other than `let`, its canonical word applied to its argument gives the command back |
| CommandLine.LetLine | src/parsers.rs:8-60 | `let <name> = <expr>` with trimmed parts and no `=` in the name reads back as that `let`, including the empty name that `let = e` binds |
| CommandLine.LetArgument | src/parsers.rs:49-60 | the trimmed `<name> = <expr>` holds an `=`, and `parse_let` splits it back into exactly that name and expression |
| CommandLine.ParseLet | src/parsers.rs:49-60 | the call succeeds exactly when the body holds `=`; the split is at the first `=` with both sides trimmed; otherwise the format error quotes the body |
| CommandLine.AliasesAgree | src/parsers.rs:38-41 | `eval`/`evaluate`, `sim`/`simulate` and `list_prim_terms`/`list_primitive_terms` give identical commands |
| CommandLine.OneWordLines | src/parsers.rs:8-28 | a line that is one word after trimming is accepted exactly when it is one of the three argument-less words |
| CommandLine.ArgumentIsTrimmedRest | src/parsers.rs:8-20 | surrounding whitespace of the line and of the argument never matters: the argument is the trimmed rest after the first space |
| CommandLine.TrimAround | src/parsers.rs:9 | leading whitespace is removed by `trim_start`, however much there is |
| CommandLine.TrimEndKeepsPrefix | src/parsers.rs:9 | `trim_end` of a text with a non-blank tail keeps everything in front of that tail |
| CommandLine.TrimEndWhitespaceTail | src/parsers.rs:9 | appending whitespace does not change `trim_end` |
| CommandLine.UnpaddedIsTrimmed | src/parsers.rs:9 | a text is its own `trim` exactly when it neither starts nor ends with whitespace |
| CommandLine.TrimEndIdempotent | src/parsers.rs:9 | `trim_end` is idempotent |
| Parsers.LeadingDigits | src/parsers.rs:94 | the position where `find(!is_digit)` stops: everything before it is a digit, and the character there is not |
| Parsers.ParseTermIndex | src/parsers.rs:117-138 | a first character other than `p`/`n` gives "Cannot parse term index"; an all-digit rest gives "Ran out of input"; an empty digit run panics; a success has a maximal non-empty digit run, a non-empty rest starting with a non-digit, and a Primitive/NonPrimitive index of that number |
| Parsers.TrimAll | src/parsers.rs:154-155 | every comma piece is trimmed at both ends, in order, and no piece is dropped |
| Parsers.FirstMalformed | src/parsers.rs:154-166 | the first trimmed element the float parser rejects: every earlier element is accepted |
| Parsers.ParseFloats | src/parsers.rs:156-166 | the call succeeds exactly when every trimmed element reads as a float, and returns those floats in order; otherwise the error names the first malformed trimmed element |
| Parsers.FirstClosingBracket | src/parsers.rs:145-150 | the `]` that `find` reports first after the `[` is the only position that closes the vector |
| Parsers.ParseVector | src/parsers.rs:140-173 | a missing `[` and a missing `]` give their errors; otherwise the elements are the comma pieces up to the first `]`, the rest starts right after it, and the call never reaches an `unwrap` panic (the `r32` panic lies inside `pf`) |
| Parsers.VectorElements | src/parsers.rs:149-168 | the bracket content is split at commas, each piece trimmed and read as a float, paired with the text after the `]`; a failure never reaches an `unwrap` panic (the `r32` panic lies inside `pf`) |
| Parsers.ParseReferenceTail | src/parsers.rs:100-110 | after the type id, a `[` leads to a vector reference and anything else to a term pointer, with the sub-parser's error passed on unchanged |
| Parsers.ParseReference | src/parsers.rs:89-115 | a missing `#` gives its error; an all-digit rest gives "Ran out of input"; an empty type-id run panics; otherwise the maximal digit run is the type id and the rest goes to the vector or term-index parser |
| Parsers.ParseIdentifier | src/parsers.rs:175-185 | the identifier runs up to the first whitespace or `)`; with no such character the call fails with "Ran out of input"; a bound name gives its reference with the rest starting at the terminator; an unbound name gives the lookup error |
| Parsers.ParseAtom | src/parsers.rs:187-205 | empty text is an error; `(` gives the sub-expression as an application, `#` the reference, anything else the identifier's binding; the rest is a suffix, a proper one unless the text starts with a terminator |
| Parsers.ParseAtoms | src/parsers.rs:70-81 | the atom loop stops at a `)` and returns the text right after it; running out of text gives the "s-expression" error |
| Parsers.ParseSExpression | src/parsers.rs:63-87 | without a leading `(` the call fails; a success is `build_application` of the atoms in source order, and the rest is exactly the untrimmed text after the closing `)`, a proper suffix |
| Parsers.UnclosedSExpression | src/parsers.rs:72-75 | text without any `)` never parses as a sub-expression |
| SurfaceSyntax.PrintStart | src/parsers.rs:72 | a printed well-formed s-expression starts with neither whitespace nor `)` |
| SurfaceSyntax.LeadingDigitsOf | src/parsers.rs:94 | the digit run of `digits + rest` is exactly `digits` when `rest` starts with a non-digit |
| SurfaceSyntax.JoinAvoids | src/parsers.rs:145 | if no piece contains a character and the separator differs from it, the joined text does not contain it |
| SurfaceSyntax.ParseReferenceHead | src/parsers.rs:93-100 | `#<n>` followed by a non-digit reads the type id `n` and passes the rest on |
| SurfaceSyntax.ParsePrintedIndex | src/parsers.rs:117-138 | `p<k>` or `n<k>` followed by a non-digit reads back as that term index |
| SurfaceSyntax.ParsePrintedPointer | src/parsers.rs:89-115 | `#<t>p<k>` followed by a non-digit reads back as that term pointer, with the following text left over |
| SurfaceSyntax.BracketedContent | src/parsers.rs:140-151 | in `[<c>]<tail>` with no `]` in `c`, the vector content is `c` and the rest is `tail` |
| SurfaceSyntax.ParsePrintedBrackets | src/parsers.rs:140-173 | `[<pieces joined by ,>]` reads as the float parser's reading of exactly those pieces |
| SurfaceSyntax.FloatsOfEmptyPiece | src/parsers.rs:154-160 | the single empty piece is read as the float parser reads the empty string |
| SurfaceSyntax.EmptyBrackets | src/parsers.rs:154-160 | `[]` is one empty piece: it fails with "Malformed float: " unless the float parser accepts the empty string |
| SurfaceSyntax.ParsePrintedVector | src/parsers.rs:100-102 | a printed vector reference reads back as the vector its pieces denote |
| SurfaceSyntax.ParsePrinted | src/parsers.rs:187-205 | parsing a printed well-formed s-expression, followed by anything allowed to follow it, gives its denotation: lookups, float readings and `build_application`, with errors in reading order; the following text is left over exactly |
| SurfaceSyntax.ParsePrintedIdent | src/parsers.rs:175-185 | an identifier followed by whitespace or `)` reads as its binding, or fails with the lookup's unbound-name message, leaving the following text |
| SurfaceSyntax.SExpressionOfAtoms | src/parsers.rs:63-85 | a sub-expression is `build_application` of what the atom loop reads after its `(` and any whitespace, with the same rest |
| SurfaceSyntax.SExpressionPrinted | src/parsers.rs:63-85 | a printed well-formed list reads back as `build_application` of its items' denotations, leaving exactly the following text |
| SurfaceSyntax.ParsePrintedList | src/parsers.rs:70-81 | the atom loop reads printed items in order and stops right after the closing `)` |
| SurfaceSyntax.AtomsStep | src/parsers.rs:72-79 | one turn of the atom loop: an atom, then the loop on the trimmed rest; the first failure wins |
| ModelState.NewContextState | src/state.rs:21-29 | a new context state keeps the given context and bytes and stores the fresh models for that context, serialized |
| ModelState.FreshContextChecksOut | src/state.rs:21-29 | when serialization round-trips, the first operation on a new context sees the model's fresh state |
| ModelState.CheckOutCheckIn | src/state.rs:50-61 | checking the models out and the same models back in restores the context state exactly; while they are out the placeholder is stored |
| ModelState.PerformOnModels | src/state.rs:47-64 | the operation's own result is returned; the stored models become the serialized updated live state; the context and its bytes are unchanged |
| ModelState.PerformComposes | src/state.rs:47-64 | when serialization round-trips, two operations in a row equal one operation doing both |
| ModelState.ReadOnlyPerform | src/state.rs:47-64 | when serialization is canonical, an operation that leaves the live state alone leaves the stored context state unchanged |
| ModelState.PlaceholderNotLeft | src/state.rs:50-61 | after the operation the stored models are the serialization of some live state, never a left-over placeholder that no state serializes to |
| ModelState.Eval | src/state.rs:66-69 | the evaluator's result, including an error, is passed through, and its updated live state is written back either way |
| ModelState.UpdateModels | src/state.rs:70-76 | the Bayesian update step runs first, then newly received terms are cleared, and the result is written back |
| ModelState.SetContext | src/state.rs:80-83 | the context becomes a new context state; the bindings stay |
| ModelState.UnloadContext | src/state.rs:84-86 | the context becomes none; the bindings stay |
| ModelState.UnloadAfterSet | src/state.rs:80-86 | unloading forgets whatever context was set |
| ModelState.SetAfterSet | src/state.rs:80-83 | setting a context twice keeps only the second |
| Commands.HandleLet | src/commands.rs:136-157 | a parse panic panics; a parse error changes nothing; otherwise the models are written back, and the name is bound to the value exactly when evaluation succeeds, with no other name touched |
| Commands.HandleParse | src/commands.rs:247-257 | the text is read with the s-expression parser, not the atom parser, so text not starting with `(` gets the missing-paren error |
| Commands.HandleContextual | src/commands.rs:42-69 | with no context loaded nothing changes; `simulate` and the model save/load commands panic; listing and saving change nothing; the context and its bytes are never replaced |
| Commands.HandleCommand | src/commands.rs:29-38 | non-contextual commands run with or without a context and never change the bindings; `parse` and `help` change nothing; unload clears the context; load and generate set it when the host succeeds |
| Commands.EvaluateIsLetAns | src/commands.rs:132-134 | `evaluate <e>` is `let ans = <e>` |
| Commands.LetParseErrorKeepsSession | src/commands.rs:138-142 | a `let` whose expression fails to parse leaves the whole session unchanged, models included |
| Commands.LetBindsValue | src/commands.rs:143-153 | a successful `let` binds the evaluated value and writes the updated models back |
| Commands.BareIdentifierRunsOut | src/parsers.rs:176-178 | a bare identifier as the whole expression always fails with "Ran out of input", so `let` changes nothing |
| Commands.BarePointerRunsOut | src/parsers.rs:124-126 | a bare `#<t>p<k>` as the whole expression always fails with "Ran out of input" |
| Commands.EmptyDigitRunPanics | src/parsers.rs:94-99 | `let x = #` followed by a non-digit panics |
| Commands.LetPrinted | src/commands.rs:136-153 | `let` of a printed well-formed s-expression evaluates exactly the tree the s-expression denotes |
| Commands.ParseCommandPrinted | src/commands.rs:247-252 | `parse` of a printed well-formed s-expression yields the tree it denotes |

## Left out

- `src/simulate.rs` is not part of this model. It is float linear algebra, random sampling and embedding calls; `simulate` is modelled only as the panic its unimplemented handler raises.
- `src/loading.rs` (dynamic-library loading) and `src/main.rs` (the readline loop) are not part of this model.
- Printing: everything handlers print, including `help`, the listing commands and the rendering of parse results, is not modelled. `display` is modelled only for the shape of applications, with the leaf renderings as parameters.
- File I/O, path expansion and context (de)serialization for `load_context`, `generate_context` and `save_context` are replaced by the `Host` parameter, or left out in the case of `save_context`, which only writes a file.
- `list_primitive_terms` can panic in the source, via an `unwrap` on an unknown type id. The model treats it as changing nothing, because the primitive directory belongs to the external model.
- The external model's evaluation, Bayesian step, clearing and (de)serialization are uninterpreted functions in `Capabilities`.
- Parsers.ParseFloats: reading a float and the `r32` conversion, including its panic on a non-finite value, are the parameter `pf`.
- StrOps.ParseNat: `usize` overflow of a very long digit run is not modelled; numbers are unbounded.
- ModelState.PerformOnModels: a panicking operation would leave the placeholder in place. Panics inside the external model are not modelled.
- RenderExpr: its contract states only the outer parentheses and a length bound; the callee-before-argument content is stated by ExpressionTree.RenderBuilt for built applications.
- RenderFunc: its contract states only the outer parentheses and a length bound; the content is stated by ExpressionTree.RenderBuilt.
- RenderApp: its contract states only the outer parentheses and a length bound; the `(<func> <arg>)` order is stated by ExpressionTree.RenderBuilt and RenderCurry.
- Parsers.ParseAtoms: its contract states only the shape of the rest and the two stopping cases. Its full behaviour on well-formed input is pinned down by SurfaceSyntax.ParsePrintedList.
