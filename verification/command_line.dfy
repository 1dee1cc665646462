/** The REPL's command words (`src/commands.rs`) and the line parser that
    recognises them (`parse_command_line` and friends in `src/parsers.rs`). */
module CommandLine {
  import opened Results
  import opened StrOps

  /** Commands that need a loaded context. */
  datatype ContextualCommand =
    | Let(name: string, expr: string)
    | Evaluate(expr: string)
    | Simulate(expr: string)
    | ListTypes
    | ListPrimitiveTerms(typeText: string)
    | SaveContextToPath(path: string)
    | LoadModelsFromPath(path: string)
    | SaveModelsToPath(path: string)

  datatype Command =
    | Contextual(cc: ContextualCommand)
    | Parse(text: string)
    | GenerateContextFromPath(path: string)
    | LoadContextFromPath(path: string)
    | UnloadContext
    | Help

  /** The words `parse_primitive_command` accepts. */
  predicate IsPrimitiveWord(w: string) {
    w == "unload_context" || w == "list_types" || w == "help"
  }

  /** The words `parse_argumented_command` accepts. */
  predicate IsArgumentedWord(w: string) {
    w == "parse" || w == "generate_context" || w == "load_context" || w == "let"
    || w == "evaluate" || w == "eval" || w == "simulate" || w == "sim"
    || w == "list_primitive_terms" || w == "list_prim_terms"
    || w == "save_context" || w == "load_models" || w == "save_models"
  }

  /** `parse_command_line`: trims the line; without a space it is a bare
      command word, otherwise the word before the first space takes the
      trimmed rest of the line as its argument. */
  function ParseCommandLine(line: string): (r: Result<Command, string>)
    ensures ' ' !in Trim(line) ==> r == ParsePrimitiveCommand(Trim(line))
    ensures ' ' in Trim(line) ==> exists w, rest ::
      Trim(line) == w + " " + rest && ' ' !in w && r == ParseArgumentedCommand(w, Trim(rest))
  {
    var trimmed := Trim(line);
    match SplitOnce(trimmed, ' ')
    case Some((w, rest)) =>
      assert trimmed == w + " " + rest;
      ParseArgumentedCommand(w, Trim(rest))
    case None => ParsePrimitiveCommand(trimmed)
  }

  /** `parse_primitive_command`: a command without an argument. */
  function ParsePrimitiveCommand(w: string): (r: Result<Command, string>)
    ensures r.Ok? <==> IsPrimitiveWord(w)
    ensures r.Err? ==> r.error == w + " is not a recognized command (without arguments)"
    ensures r.Ok? && r.value.Contextual? ==> r.value.cc == ListTypes
    ensures w == "unload_context" ==> r == Ok(UnloadContext)
    ensures w == "list_types" ==> r == Ok(Contextual(ListTypes))
    ensures w == "help" ==> r == Ok(Help)
  {
    if w == "unload_context" then Ok(UnloadContext)
    else if w == "list_types" then Ok(Contextual(ListTypes))
    else if w == "help" then Ok(Help)
    else Err(w + " is not a recognized command (without arguments)")
  }

  /** `parse_argumented_command`: a command word and its (trimmed) argument. */
  function ParseArgumentedCommand(w: string, rest: string): (r: Result<Command, string>)
    ensures r.Err? <==> !IsArgumentedWord(w) || (w == "let" && '=' !in rest)
    ensures !IsArgumentedWord(w) ==> r.error == w + " is not a recognized command (with arguments)"
    ensures w == "let" ==> r == ParseLet(rest)
    ensures w == "parse" ==> r == Ok(Parse(rest))
    ensures w == "generate_context" ==> r == Ok(GenerateContextFromPath(rest))
    ensures w == "load_context" ==> r == Ok(LoadContextFromPath(rest))
    ensures w == "evaluate" || w == "eval" ==> r == Ok(Contextual(Evaluate(rest)))
    ensures w == "simulate" || w == "sim" ==> r == Ok(Contextual(Simulate(rest)))
    ensures w == "list_primitive_terms" || w == "list_prim_terms" ==> r == Ok(Contextual(ListPrimitiveTerms(rest)))
    ensures w == "save_context" ==> r == Ok(Contextual(SaveContextToPath(rest)))
    ensures w == "load_models" ==> r == Ok(Contextual(LoadModelsFromPath(rest)))
    ensures w == "save_models" ==> r == Ok(Contextual(SaveModelsToPath(rest)))
  {
    if w == "parse" then Ok(Parse(rest))
    else if w == "generate_context" then Ok(GenerateContextFromPath(rest))
    else if w == "load_context" then Ok(LoadContextFromPath(rest))
    else if w == "let" then ParseLet(rest)
    else if w == "evaluate" || w == "eval" then Ok(Contextual(Evaluate(rest)))
    else if w == "simulate" || w == "sim" then Ok(Contextual(Simulate(rest)))
    else if w == "list_primitive_terms" || w == "list_prim_terms" then Ok(Contextual(ListPrimitiveTerms(rest)))
    else if w == "save_context" then Ok(Contextual(SaveContextToPath(rest)))
    else if w == "load_models" then Ok(Contextual(LoadModelsFromPath(rest)))
    else if w == "save_models" then Ok(Contextual(SaveModelsToPath(rest)))
    else Err(w + " is not a recognized command (with arguments)")
  }

  /** `parse_let`: `<var> = <expr>`, split at the first `=`, both sides trimmed. */
  function ParseLet(body: string): (r: Result<Command, string>)
    ensures r.Ok? <==> '=' in body
    ensures r.Err? ==> r.error == "Let body " + body + " does not have the format [var] = [expr]"
    ensures r.Ok? ==> exists lhs, rhs ::
      body == lhs + "=" + rhs && '=' !in lhs && r.value == Contextual(Let(Trim(lhs), Trim(rhs)))
  {
    match SplitOnce(body, '=')
    case Some((lhs, rhs)) =>
      assert body == lhs + "=" + rhs;
      Ok(Contextual(Let(Trim(lhs), Trim(rhs))))
    case None => Err("Let body " + body + " does not have the format [var] = [expr]")
  }

  /** The command word a command is written with (the long spelling). */
  function CommandWord(c: Command): string
  {
    match c
    case Contextual(cc) =>
      (match cc
       case Let(_, _) => "let"
       case Evaluate(_) => "evaluate"
       case Simulate(_) => "simulate"
       case ListTypes => "list_types"
       case ListPrimitiveTerms(_) => "list_primitive_terms"
       case SaveContextToPath(_) => "save_context"
       case LoadModelsFromPath(_) => "load_models"
       case SaveModelsToPath(_) => "save_models")
    case Parse(_) => "parse"
    case GenerateContextFromPath(_) => "generate_context"
    case LoadContextFromPath(_) => "load_context"
    case UnloadContext => "unload_context"
    case Help => "help"
  }

  /** The text after the command word, if the command takes one; a `let`
      writes its name and expression around ` = `. */
  function CommandArgument(c: Command): Option<string>
  {
    match c
    case Contextual(cc) =>
      (match cc
       case Let(n, e) => Some(n + " = " + e)
       case Evaluate(e) => Some(e)
       case Simulate(e) => Some(e)
       case ListTypes => None
       case ListPrimitiveTerms(t) => Some(t)
       case SaveContextToPath(p) => Some(p)
       case LoadModelsFromPath(p) => Some(p)
       case SaveModelsToPath(p) => Some(p))
    case Parse(t) => Some(t)
    case GenerateContextFromPath(p) => Some(p)
    case LoadContextFromPath(p) => Some(p)
    case UnloadContext => None
    case Help => None
  }

  /** A command written as a REPL line: the word, then a space and the
      argument when there is one. */
  function ShowCommand(c: Command): string
  {
    match CommandArgument(c)
    case None => CommandWord(c)
    case Some(a) => CommandWord(c) + " " + a
  }

  /** Text that neither starts nor ends with whitespace, which is exactly the
      text trimming leaves alone (see `UnpaddedIsTrimmed`). */
  predicate Unpadded(s: string) {
    |s| == 0 || (!IsWhitespace(s[0]) && !IsWhitespace(s[|s| - 1]))
  }

  lemma UnpaddedIsTrimmed(s: string)
    ensures Unpadded(s) <==> Trim(s) == s
  {
    if Unpadded(s) && |s| > 0 {
      WordIsTrimmed(s);
    }
  }

  /** Non-empty text that trimming leaves alone. */
  predicate IsTrimmed(s: string) {
    |s| > 0 && Trim(s) == s
  }

  /** The commands a line can express: arguments are non-empty and already
      trimmed (the parser trims them); a `let` name and expression are
      trimmed but may be empty, and the name holds no `=` (the parser splits
      at the first one). */
  predicate Showable(c: Command) {
    match c
    case Contextual(Let(n, e)) => Unpadded(n) && '=' !in n && Unpadded(e)
    case _ => CommandArgument(c).Some? ==> IsTrimmed(CommandArgument(c).value)
  }

  /** Every expressible command survives being written as a line and parsed
      back. */
  lemma ParseShowCommand(c: Command)
    requires Showable(c)
    ensures ParseCommandLine(ShowCommand(c)) == Ok(c)
  {
    var w := CommandWord(c);
    if CommandArgument(c).None? {
      BareWordLine(c);
    } else if c.Contextual? && c.cc.Let? {
      UnpaddedIsTrimmed(c.cc.name);
      UnpaddedIsTrimmed(c.cc.expr);
      LetLine(c.cc.name, c.cc.expr);
    } else {
      var a := CommandArgument(c).value;
      WordShape(c);
      ArgumentIsTrimmedRest("", w, a, "");
      NoPadding(w, a);
      WordYields(c);
    }
  }

  /** Command words are single non-blank words. */
  lemma WordShape(c: Command)
    ensures var w := CommandWord(c); |w| > 0 && !IsWhitespace(w[0]) && !IsWhitespace(w[|w| - 1]) && ' ' !in w
  {
    if c.Contextual? {
      ContextualWordIsSnakeCase(c.cc);
    } else {
      assert IsSnakeCase(CommandWord(c));
    }
    SnakeCaseShape(CommandWord(c));
  }

  lemma ContextualWordIsSnakeCase(cc: ContextualCommand)
    ensures IsSnakeCase(CommandWord(Contextual(cc)))
  {
    match cc {
      case Let(_, _) =>
      case Evaluate(_) =>
      case Simulate(_) =>
      case ListTypes =>
      case ListPrimitiveTerms(_) =>
        assert IsSnakeCase("list_primitive_terms");
      case SaveContextToPath(_) =>
      case LoadModelsFromPath(_) =>
      case SaveModelsToPath(_) =>
    }
  }

  /** Lower-case letters and `_`, as every command word is. */
  predicate IsSnakeCase(w: string) {
    |w| > 0 && forall k :: 0 <= k < |w| ==> 'a' <= w[k] <= 'z' || w[k] == '_'
  }

  lemma SnakeCaseShape(w: string)
    requires IsSnakeCase(w)
    ensures !IsWhitespace(w[0]) && !IsWhitespace(w[|w| - 1]) && ' ' !in w
  {
  }

  lemma NoPadding(w: string, a: string)
    ensures "" + w + " " + a + "" == w + " " + a
  {
  }

  /** A command without an argument is written as its bare word, which
      `parse_primitive_command` reads back. */
  lemma BareWordLine(c: Command)
    requires CommandArgument(c).None?
    ensures ParseCommandLine(ShowCommand(c)) == Ok(c)
  {
    var w := CommandWord(c);
    WordShape(c);
    WordIsTrimmed(w);
    assert IsPrimitiveWord(w);
  }

  /** `parse_argumented_command` turns a command's own word and argument
      back into that command (`let`, whose argument is re-split, aside). */
  lemma WordYields(c: Command)
    requires CommandArgument(c).Some? && !(c.Contextual? && c.cc.Let?)
    ensures ParseArgumentedCommand(CommandWord(c), CommandArgument(c).value) == Ok(c)
  {
    match c
    case Contextual(cc) => ContextualWordYields(cc);
    case Parse(t) => assert ParseArgumentedCommand("parse", t) == Ok(c);
    case GenerateContextFromPath(p) => assert ParseArgumentedCommand("generate_context", p) == Ok(c);
    case LoadContextFromPath(p) => assert ParseArgumentedCommand("load_context", p) == Ok(c);
  }

  lemma ContextualWordYields(cc: ContextualCommand)
    requires CommandArgument(Contextual(cc)).Some? && !cc.Let?
    ensures ParseArgumentedCommand(CommandWord(Contextual(cc)), CommandArgument(Contextual(cc)).value) == Ok(Contextual(cc))
  {
    match cc {
      case Evaluate(e) => assert ParseArgumentedCommand("evaluate", e) == Ok(Contextual(cc));
      case Simulate(e) => assert ParseArgumentedCommand("simulate", e) == Ok(Contextual(cc));
      case ListPrimitiveTerms(t) => assert ParseArgumentedCommand("list_primitive_terms", t) == Ok(Contextual(cc));
      case SaveContextToPath(p) => assert ParseArgumentedCommand("save_context", p) == Ok(Contextual(cc));
      case LoadModelsFromPath(p) => assert ParseArgumentedCommand("load_models", p) == Ok(Contextual(cc));
      case SaveModelsToPath(p) => assert ParseArgumentedCommand("save_models", p) == Ok(Contextual(cc));
    }
  }


  /** A command word is its own trimmed line. */
  lemma WordIsTrimmed(w: string)
    requires |w| > 0 && !IsWhitespace(w[0]) && !IsWhitespace(w[|w| - 1])
    ensures Trim(w) == w
  {
    TrimEndNoOp(w);
    TrimStartNoOp(w);
  }

  /** A `let` line reads back as that `let`, even with an empty name or an
      empty expression. */
  lemma LetLine(n: string, e: string)
    requires Trim(n) == n && '=' !in n && Trim(e) == e
    ensures ParseCommandLine(ShowCommand(Contextual(Let(n, e)))) == Ok(Contextual(Let(n, e)))
  {
    var a := n + " = " + e;
    LetShown(n, e);
    LetWordShape();
    LetArgument(n, e);
    ArgumentIsTrimmedRest("", "let", a, "");
    NoPadding("let", a);
  }

  lemma LetShown(n: string, e: string)
    ensures ShowCommand(Contextual(Let(n, e))) == "let" + " " + (n + " = " + e)
  {
  }

  lemma LetWordShape()
    ensures |"let"| > 0 && !IsWhitespace("let"[0]) && ' ' !in "let"
  {
    WordShape(Contextual(Let("", "")));
  }

  /** `<name> = <expr>`, once trimmed, is split by `parse_let` back into
      `name` and `expr`. */
  lemma LetArgument(n: string, e: string)
    requires Trim(n) == n && '=' !in n && Trim(e) == e
    ensures '=' in Trim(n + " = " + e)
    ensures ParseLet(Trim(n + " = " + e)) == Ok(Contextual(Let(n, e)))
  {
    var rhs := LetTrimEnd(n, e);
    var lhs := LetTrimStart(n, rhs);
    var t := Trim(n + " = " + e);
    assert t == lhs + "=" + rhs;
    assert t[|lhs|] == '=';
    SplitOnceUnique(t, '=', lhs, rhs);
  }

  /** `trim_end` of `<name> = <expr>` keeps `<name> =` and whatever of
      ` <expr>` is not blank. */
  lemma LetTrimEnd(n: string, e: string) returns (rhs: string)
    requires Trim(e) == e
    ensures TrimEnd(n + " = " + e) == n + " =" + rhs
    ensures Trim(rhs) == e
  {
    var body := n + " = " + e;
    if |e| > 0 {
      assert body == n + " =" + (" " + e);
      assert body[|body| - 1] == e[|e| - 1];
      TrimEndNoOp(body);
      rhs := " " + e;
      TrimAround(" ", e);
      TrimEndNoOp(e);
      TrimStartEndCommute(rhs);
    } else {
      assert body == (n + " =") + " ";
      TrimEndWhitespaceTail(n + " =", " ");
      TrimEndNoOp(n + " =");
      rhs := "";
    }
  }

  /** `trim_start` of `<name> =<rest>` keeps the name and the `=`, dropping
      only the space of an empty name. */
  lemma LetTrimStart(n: string, rhs: string) returns (lhs: string)
    requires Trim(n) == n && '=' !in n
    ensures TrimStart(n + " =" + rhs) == lhs + "=" + rhs
    ensures '=' !in lhs && Trim(lhs) == n
  {
    var s := n + " =" + rhs;
    if |n| > 0 {
      assert s[0] == n[0];
      TrimStartNoOp(s);
      lhs := n + " ";
      assert s == lhs + "=" + rhs;
      TrimEndWhitespaceTail(n, " ");
      TrimEndNoOp(n);
      TrimStartNoOp(n);
    } else {
      assert s == " " + ("=" + rhs);
      TrimAround(" ", "=" + rhs);
      lhs := "";
    }
  }

  /** The long and short spellings of a command are the same command. */
  lemma AliasesAgree(rest: string)
    ensures ParseArgumentedCommand("eval", rest) == ParseArgumentedCommand("evaluate", rest)
    ensures ParseArgumentedCommand("sim", rest) == ParseArgumentedCommand("simulate", rest)
    ensures ParseArgumentedCommand("list_prim_terms", rest)
         == ParseArgumentedCommand("list_primitive_terms", rest)
  {
  }

  /** A line that is one word after trimming is accepted only as one of the
      three argument-less commands. */
  lemma {:induction false} OneWordLines(line: string)
    requires ' ' !in Trim(line)
    ensures ParseCommandLine(line).Ok? <==> IsPrimitiveWord(Trim(line))
  {
  }

  /** `<word> <argument>`: the argument is the rest of the line, trimmed, so
      surrounding whitespace of the line and of the argument never matters. */
  lemma {:induction false} ArgumentIsTrimmedRest(pad: string, w: string, arg: string, tail: string)
    requires AllWhitespace(pad) && AllWhitespace(tail)
    requires |w| > 0 && !IsWhitespace(w[0]) && ' ' !in w
    requires |Trim(arg)| > 0
    ensures ParseCommandLine(pad + w + " " + arg + tail) == ParseArgumentedCommand(w, Trim(arg))
  {
    var line := pad + w + " " + arg + tail;
    var kept := TrimmedLine(pad, w, arg, tail);
    SplitOnceUnique(w + " " + kept, ' ', w, kept);
    assert ParseCommandLine(line) == ParseArgumentedCommand(w, Trim(kept));
    TrimEndIdempotent(arg);
  }

  /** Trimming `<pad><word> <arg><tail>` keeps the word, the space and the
      argument with only its trailing whitespace dropped. */
  lemma TrimmedLine(pad: string, w: string, arg: string, tail: string) returns (kept: string)
    requires AllWhitespace(pad) && AllWhitespace(tail)
    requires |w| > 0 && !IsWhitespace(w[0])
    requires |Trim(arg)| > 0
    ensures kept == TrimEnd(arg)
    ensures Trim(pad + w + " " + arg + tail) == w + " " + kept
  {
    kept := TrimEnd(arg);
    var s := w + " " + (arg + tail);
    LineShape(pad, w, arg, tail);
    TrimPadded(pad, s);
    assert |kept| > 0 by {
      assert |Trim(arg)| <= |TrimEnd(arg)|;
    }
    TrimEndOfArgument(w, arg, tail);
  }

  lemma LineShape(pad: string, w: string, arg: string, tail: string)
    ensures pad + w + " " + arg + tail == pad + (w + " " + (arg + tail))
  {
  }

  /** Leading whitespace before a non-blank text only affects `trim_start`. */
  lemma TrimPadded(pad: string, s: string)
    requires AllWhitespace(pad)
    requires |s| > 0 && !IsWhitespace(s[0])
    ensures Trim(pad + s) == TrimEnd(s)
  {
    TrimAround(pad, s);
  }

  /** Trailing whitespace after the argument does not survive `trim_end`,
      and neither does anything else of the line's front change. */
  lemma TrimEndOfArgument(w: string, arg: string, tail: string)
    requires AllWhitespace(tail) && |TrimEnd(arg)| > 0
    ensures TrimEnd(w + " " + (arg + tail)) == w + " " + TrimEnd(arg)
  {
    TrimEndWhitespaceTail(arg, tail);
    TrimEndKeepsPrefix(w + " ", arg + tail);
  }

  /** Leading whitespace never survives `trim`. */
  lemma TrimAround(pad: string, s: string)
    requires AllWhitespace(pad)
    requires |s| > 0 && !IsWhitespace(s[0])
    ensures TrimStart(pad + s) == s
    decreases |pad|
  {
    if |pad| > 0 {
      assert (pad + s)[1..] == pad[1..] + s;
      TrimAround(pad[1..], s);
    } else {
      assert pad + s == s;
    }
  }

  /** Trailing whitespace is trimmed from the end, leaving a non-blank prefix alone. */
  lemma TrimEndKeepsPrefix(p: string, s: string)
    requires |TrimEnd(s)| > 0
    ensures TrimEnd(p + s) == p + TrimEnd(s)
    decreases |s|
  {
    assert (p + s)[|p + s| - 1] == s[|s| - 1];
    if IsWhitespace(s[|s| - 1]) {
      assert (p + s)[..|p + s| - 1] == p + s[..|s| - 1];
      TrimEndKeepsPrefix(p, s[..|s| - 1]);
    }
  }

  lemma TrimEndWhitespaceTail(arg: string, tail: string)
    requires AllWhitespace(tail)
    ensures TrimEnd(arg + tail) == TrimEnd(arg)
    decreases |tail|
  {
    if |tail| > 0 {
      assert (arg + tail)[..|arg + tail| - 1] == arg + tail[..|tail| - 1];
      TrimEndWhitespaceTail(arg, tail[..|tail| - 1]);
    } else {
      assert arg + tail == arg;
    }
  }

  lemma TrimEndIdempotent(s: string)
    ensures TrimEnd(TrimEnd(s)) == TrimEnd(s)
  {
    TrimEndNoOp(TrimEnd(s));
  }
}
