/** The command handlers' effect on the session (`src/commands.rs`): which
    commands need a loaded context, how `let` and `evaluate` parse, evaluate
    and bind, and which parser `parse` uses. Printing is not modelled; a
    handler's observable effect is the session state it leaves, or a panic. */
module Commands {
  import opened Results
  import opened StrOps
  import opened Terms
  import opened ExpressionTree
  import opened BindingEnv
  import opened Parsers
  import opened SurfaceSyntax
  import opened CommandLine
  import opened ModelState

  /** What a handler leaves behind: the next session state, or a panic
      (an `unwrap` on an empty digit run, or an unimplemented command). */
  datatype Outcome<T> = Continue(state: T) | Panic

  /** Reading a context file and turning it into a context, which this core
      leaves to the file system and the model library: for a path, the
      context bytes to keep and the context, or `None` on any failure. */
  datatype Host<!C> = Host(
    loadContext: string -> Option<(seq<bv8>, C)>,
    generateContext: string -> Option<(seq<bv8>, C)>)

  /** `handle_let`: parse the expression as one atom, evaluate it through the
      models and bind the result. A parse error leaves everything as it was;
      an evaluation error still writes the models back but binds nothing. */
  function HandleLet<C, L, S>(name: string, expr: string, cs: ContextState<C, S>, b: Bindings,
                              caps: Capabilities<C, L, S>, pf: FloatParser)
    : (r: Outcome<(ContextState<C, S>, Bindings)>)
    ensures r.Panic? <==> ParseAtom(expr, b, pf) == Err(Abort)
    ensures ParseAtom(expr, b, pf).Err? && r.Continue? ==> r.state == (cs, b)
    ensures ParseAtom(expr, b, pf).Ok? ==>
      var (cs', res) := Eval(cs, caps, ParseAtom(expr, b, pf).value.0);
      && r.Continue? && r.state.0 == cs'
      && (res.Err? ==> r.state.1 == b)
      && (res.Ok? ==> Lookup(r.state.1, name) == Ok(res.value)
                      && forall other :: other != name ==> Lookup(r.state.1, other) == Lookup(b, other))
  {
    match ParseAtom(expr, b, pf)
    case Err(Abort) => Panic
    case Err(Message(_)) => Continue((cs, b))
    case Ok((e, _)) =>
      var (cs', res) := Eval(cs, caps, e);
      match res
      case Err(_) => Continue((cs', b))
      case Ok(t) => Continue((cs', Write(b, name, t)))
  }

  /** `handle_parse`: the whole text as an s-expression (not as an atom); the
      outcome is the tree it displays or the error message it prints. */
  function HandleParse(text: string, b: Bindings, pf: FloatParser): (r: Outcome<Result<AppExpression, string>>)
    ensures r.Panic? <==> ParseSExpression(text, b, pf) == Err(Abort)
    ensures r.Continue? && r.state.Ok? <==> ParseSExpression(text, b, pf).Ok?
    ensures r.Continue? && r.state.Ok? ==> r.state.value == ParseSExpression(text, b, pf).value.0
    ensures (|text| == 0 || text[0] != '(')
        ==> r == Continue(Err("Missing left paren for sub-expression: " + text))
  {
    match ParseSExpression(text, b, pf)
    case Err(Abort) => Panic
    case Err(Message(m)) => Continue(Err(m))
    case Ok((a, _)) => Continue(Ok(a))
  }

  /** The session after a contextual command run against loaded context
      `cs`, with the bindings put back in place. */
  function WithContext<C, S>(g: GlobalState<C, S>, r: Outcome<(ContextState<C, S>, Bindings)>)
    : Outcome<GlobalState<C, S>>
  {
    match r
    case Panic => Panic
    case Continue((cs, b)) => Continue(GlobalState(b, Some(cs)))
  }

  /** `ContextualCommand::handle_command`: without a loaded context nothing
      happens; `simulate` and the model save/load commands are unimplemented
      and panic; listing types and terms and saving the context only print
      or write files. */
  function HandleContextual<C, L, S>(cmd: ContextualCommand, g: GlobalState<C, S>,
                                     caps: Capabilities<C, L, S>, pf: FloatParser)
    : (r: Outcome<GlobalState<C, S>>)
    ensures g.context.None? ==> r == Continue(g)
    ensures g.context.Some? && (cmd.Simulate? || cmd.LoadModelsFromPath? || cmd.SaveModelsToPath?) ==> r.Panic?
    ensures g.context.Some? && (cmd.ListTypes? || cmd.ListPrimitiveTerms? || cmd.SaveContextToPath?) ==> r == Continue(g)
    ensures r.Continue? ==> r.state.context.Some? == g.context.Some?
    ensures r.Continue? && r.state.context.Some? ==>
      r.state.context.value.ctxt == g.context.value.ctxt
      && r.state.context.value.ctxtBytes == g.context.value.ctxtBytes
  {
    match g.context
    case None => Continue(g)
    case Some(cs) =>
      match cmd
      case Let(name, expr) => WithContext(g, HandleLet(name, expr, cs, g.bindings, caps, pf))
      case Evaluate(expr) => WithContext(g, HandleLet("ans", expr, cs, g.bindings, caps, pf))
      case Simulate(_) => Panic
      case ListTypes => Continue(g)
      case ListPrimitiveTerms(_) => Continue(g)
      case SaveContextToPath(_) => Continue(g)
      case LoadModelsFromPath(_) => Panic
      case SaveModelsToPath(_) => Panic
  }

  /** `Command::handle_command`: contextual commands go through the guard
      above; the others run with or without a context, and none of them
      touches the bindings. */
  function HandleCommand<C, L, S>(cmd: Command, g: GlobalState<C, S>, caps: Capabilities<C, L, S>,
                                  pf: FloatParser, host: Host<C>)
    : (r: Outcome<GlobalState<C, S>>)
    ensures cmd.Contextual? ==> r == HandleContextual(cmd.cc, g, caps, pf)
    ensures !cmd.Contextual? && r.Continue? ==> r.state.bindings == g.bindings
    ensures cmd.Parse? ==> (r.Panic? <==> ParseSExpression(cmd.text, g.bindings, pf) == Err(Abort))
    ensures cmd.Parse? && r.Continue? ==> r.state == g
    ensures cmd == UnloadContext ==> r == Continue(g.(context := None))
    ensures cmd.LoadContextFromPath? ==> r.Continue?
    ensures cmd.LoadContextFromPath? && host.loadContext(cmd.path).None? ==> r == Continue(g)
    ensures cmd.LoadContextFromPath? && host.loadContext(cmd.path).Some? ==>
      var (bytes, c) := host.loadContext(cmd.path).value;
      r.Continue? && r.state.context == Some(NewContextState(bytes, c, caps))
    ensures cmd.GenerateContextFromPath? ==> r.Continue?
    ensures cmd.GenerateContextFromPath? && host.generateContext(cmd.path).None? ==> r == Continue(g)
    ensures cmd.GenerateContextFromPath? && host.generateContext(cmd.path).Some? ==>
      var (bytes, c) := host.generateContext(cmd.path).value;
      r.Continue? && r.state.context == Some(NewContextState(bytes, c, caps))
    ensures cmd == Help ==> r == Continue(g)
  {
    match cmd
    case Contextual(cc) => HandleContextual(cc, g, caps, pf)
    case Parse(text) =>
      (match HandleParse(text, g.bindings, pf)
       case Panic => Panic
       case Continue(_) => Continue(g))
    case GenerateContextFromPath(path) =>
      (match host.generateContext(path)
       case None => Continue(g)
       case Some((bytes, c)) => Continue(SetContext(g, bytes, c, caps)))
    case LoadContextFromPath(path) =>
      (match host.loadContext(path)
       case None => Continue(g)
       case Some((bytes, c)) => Continue(SetContext(g, bytes, c, caps)))
    case UnloadContext => Continue(ModelState.UnloadContext(g))
    case Help => Continue(g)
  }

  /** `evaluate <expr>` is `let ans = <expr>`. */
  lemma EvaluateIsLetAns<C, L, S>(expr: string, g: GlobalState<C, S>, caps: Capabilities<C, L, S>, pf: FloatParser)
    ensures HandleContextual(Evaluate(expr), g, caps, pf) == HandleContextual(Let("ans", expr), g, caps, pf)
  {
  }

  /** A `let` whose expression does not parse leaves the session exactly as
      it was: the models are not even checked out. */
  lemma LetParseErrorKeepsSession<C, L, S>(name: string, expr: string, g: GlobalState<C, S>,
                                           caps: Capabilities<C, L, S>, pf: FloatParser)
    requires exists m :: ParseAtom(expr, g.bindings, pf) == Err(Message(m))
    ensures HandleContextual(Let(name, expr), g, caps, pf) == Continue(g)
  {
  }

  /** `let` binds the value its expression evaluates to, and nothing else. */
  lemma LetBindsValue<C, L, S>(name: string, expr: string, g: GlobalState<C, S>,
                               caps: Capabilities<C, L, S>, pf: FloatParser, e: Expression, t: TermReference)
    requires g.context.Some?
    requires ParseAtom(expr, g.bindings, pf).Ok? && ParseAtom(expr, g.bindings, pf).value.0 == e
    requires Eval(g.context.value, caps, e).1 == Ok(t)
    ensures var r := HandleContextual(Let(name, expr), g, caps, pf);
      && r.Continue?
      && r.state.bindings == Write(g.bindings, name, t)
      && r.state.context == Some(Eval(g.context.value, caps, e).0)
  {
  }

  /** A top-level expression that is a bare identifier never gets bound: the
      argument of `let` has been trimmed, so nothing follows the identifier
      to end it, and parsing runs out of input. */
  lemma BareIdentifierRunsOut<C, L, S>(name: string, x: string, g: GlobalState<C, S>,
                                       caps: Capabilities<C, L, S>, pf: FloatParser)
    requires WellFormed(Ident(x))
    ensures ParseAtom(x, g.bindings, pf) == Err(Message("Ran out of input while parsing identifier: " + x))
    ensures HandleContextual(Let(name, x), g, caps, pf) == Continue(g)
  {
    assert forall j :: 0 <= j < |x| ==> !EndsIdentifier(x[j]);
  }

  /** Likewise a bare term pointer `#<t>p<k>` at the end of the text: the
      term-index digits run to the end of input. */
  lemma BarePointerRunsOut(t: nat, i: TermIndex, b: Bindings, pf: FloatParser)
    ensures ParseAtom(Print(Ptr(t, i)), b, pf)
         == Err(Message("Ran out of input while parsing term index: " + ShowIndex(i)))
  {
    var text := Print(Ptr(t, i));
    var suffix := ShowIndex(i);
    assert text == "#" + ShowNat(t) + suffix;
    ParseReferenceHead(t, suffix, pf);
    assert suffix[1..] == ShowNat(i.n);
  }

  /** An empty digit run after `#` or after `p`/`n` panics the handler. */
  lemma EmptyDigitRunPanics<C, L, S>(name: string, rest: string, g: GlobalState<C, S>,
                                     caps: Capabilities<C, L, S>, pf: FloatParser)
    requires g.context.Some?
    requires |rest| > 0 && !IsDigit(rest[0])
    ensures HandleContextual(Let(name, "#" + rest), g, caps, pf).Panic?
  {
    assert ("#" + rest)[1] == rest[0];
  }

  /** `let` of a printed, well-formed s-expression evaluates exactly the
      tree the s-expression denotes. */
  lemma LetPrinted<C, L, S>(name: string, items: seq<Sexp>, g: GlobalState<C, S>,
                            caps: Capabilities<C, L, S>, pf: FloatParser, e: Expression)
    requires g.context.Some?
    requires WellFormedList(items)
    requires Denote(List(items), g.bindings, pf) == Ok(e)
    ensures var (cs', res) := Eval(g.context.value, caps, e);
      HandleContextual(Let(name, Print(List(items))), g, caps, pf)
      == Continue(GlobalState(if res.Ok? then Write(g.bindings, name, res.value) else g.bindings, Some(cs')))
  {
    ParsePrinted(List(items), [], g.bindings, pf);
    assert Print(List(items)) + [] == Print(List(items));
  }

  /** `parse` reads a printed s-expression back as the tree it denotes. */
  lemma ParseCommandPrinted(items: seq<Sexp>, b: Bindings, pf: FloatParser, a: AppExpression)
    requires WellFormedList(items)
    requires Denote(List(items), b, pf) == Ok(App(a))
    ensures HandleParse(Print(List(items)), b, pf) == Continue(Ok(a))
  {
    SExpressionPrinted(items, [], b, pf);
    assert Print(List(items)) + [] == Print(List(items));
    assert Built(DenoteList(items, b, pf)) == Ok(a);
  }
}
