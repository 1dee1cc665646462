/** The recursive-descent expression parser (`src/parsers.rs`). Every parse
    function consumes a prefix of its text and returns the value together
    with the untouched rest; there is no backtracking, and the next
    character alone picks the branch. Identifiers are resolved against the
    bindings while parsing. */
module Parsers {
  import opened Results
  import opened StrOps
  import opened Terms
  import opened ExpressionTree
  import opened BindingEnv

  /** A parse failure: a reported error message, or the panic of the
      source's `unwrap` on an empty digit run (`#p5`, `#2p)`), which no
      caller can recover from. */
  datatype ParseFailure = Message(text: string) | Abort

  /** `str::parse::<f32>` followed by `r32`: the float a trimmed piece of a
      vector literal denotes, or `None` when it is malformed. */
  type FloatParser = string -> Option<real>

  type Parsed<T> = Result<(T, string), ParseFailure>

  /** A character that ends an identifier. */
  predicate EndsIdentifier(c: char) {
    IsWhitespace(c) || c == ')'
  }

  predicate IsRightBracket(c: char) {
    c == ']'
  }

  /** Where `find(|c| !c.is_digit(10))` stops: the length of the leading
      run of decimal digits. */
  function LeadingDigits(s: string): (d: nat)
    ensures d <= |s| && AllDigits(s[..d])
    ensures d < |s| ==> !IsDigit(s[d])
  {
    if |s| > 0 && IsDigit(s[0]) then
      var d := 1 + LeadingDigits(s[1..]);
      assert forall k :: 1 <= k < d ==> s[..d][k] == s[1..][..d - 1][k - 1];
      d
    else 0
  }

  /** `parse_term_index`: `p<digits>` or `n<digits>`, followed by at least
      one more (non-digit) character. */
  function ParseTermIndex(text: string): (r: Parsed<TermIndex>)
    ensures |text| == 0 || (text[0] != 'p' && text[0] != 'n')
        ==> r == Err(Message("Cannot parse term index " + text))
    ensures |text| > 0 && (text[0] == 'p' || text[0] == 'n') && AllDigits(text[1..])
        ==> r == Err(Message("Ran out of input while parsing term index: " + text))
    ensures |text| > 1 && (text[0] == 'p' || text[0] == 'n') && !IsDigit(text[1])
        <==> r == Err(Abort)
    ensures r.Ok? <==> (|text| > 1 && (text[0] == 'p' || text[0] == 'n') && IsDigit(text[1])
                        && !AllDigits(text[1..]))
    ensures r.Ok? ==> IsSuffix(r.value.1, text) && 0 < |r.value.1| < |text| - 1
    ensures r.Ok? ==> var digits := text[1..|text| - |r.value.1|];
      && AllDigits(digits) && !IsDigit(r.value.1[0])
      && r.value.0 == (if text[0] == 'p' then Primitive(ParseNat(digits)) else NonPrimitive(ParseNat(digits)))
    ensures r.Ok? ==> r.value.1 == text[1 + LeadingDigits(text[1..])..]
  {
    if |text| == 0 || (text[0] != 'p' && text[0] != 'n') then
      Err(Message("Cannot parse term index " + text))
    else
      var numeral := text[1..];
      var d := LeadingDigits(numeral);
      if d == |numeral| then
        assert numeral[..d] == numeral;
        Err(Message("Ran out of input while parsing term index: " + text))
      else if d == 0 then Err(Abort)
      else
        var n := ParseNat(numeral[..d]);
        assert text[1..|text| - |numeral[d..]|] == numeral[..d];
        Ok((if text[0] == 'p' then Primitive(n) else NonPrimitive(n), numeral[d..]))
  }

  /** Each piece of a vector literal, trimmed at both ends. */
  function TrimAll(pieces: seq<string>): (r: seq<string>)
    ensures |r| == |pieces|
    ensures forall k :: 0 <= k < |pieces| ==> r[k] == Trim(pieces[k])
  {
    seq(|pieces|, k requires 0 <= k < |pieces| => Trim(pieces[k]))
  }

  /** The position of the first (trimmed) element of a vector literal that
      the float parser rejects, or the number of elements if there is none. */
  function FirstMalformed(elems: seq<string>, pf: FloatParser): (k: nat)
    ensures k <= |elems|
    ensures forall j :: 0 <= j < k ==> pf(elems[j]).Some?
    ensures k < |elems| ==> pf(elems[k]).None?
  {
    if |elems| == 0 || pf(elems[0]).None? then 0
    else
      var m := FirstMalformed(elems[1..], pf);
      AcceptedShift(elems, pf, m);
      1 + m
  }

  /** An accepted first element, followed by `m` accepted ones, makes `m + 1`. */
  lemma AcceptedShift(elems: seq<string>, pf: FloatParser, m: nat)
    requires 0 < |elems| && pf(elems[0]).Some? && m < |elems|
    requires forall j :: 0 <= j < m ==> pf(elems[1..][j]).Some?
    requires m < |elems| - 1 ==> pf(elems[1..][m]).None?
    ensures forall j :: 0 <= j < m + 1 ==> pf(elems[j]).Some?
    ensures m + 1 < |elems| ==> pf(elems[m + 1]).None?
  {
    forall j | 1 <= j < m + 1
      ensures pf(elems[j]).Some?
    {
      assert elems[j] == elems[1..][j - 1];
    }
    if m + 1 < |elems| {
      assert elems[m + 1] == elems[1..][m];
    }
  }

  /** The loop over the (trimmed) elements of a vector literal: each is
      handed to the float parser; the first one it rejects is the error. */
  function ParseFloats(elems: seq<string>, pf: FloatParser): (r: Result<seq<real>, ParseFailure>)
    ensures r.Ok? <==> FirstMalformed(elems, pf) == |elems|
    ensures r.Ok? ==> |r.value| == |elems|
    ensures r.Ok? ==> forall k :: 0 <= k < |elems| ==> pf(elems[k]) == Some(r.value[k])
    ensures r.Err? ==> r.error == Message("Malformed float: " + elems[FirstMalformed(elems, pf)])
  {
    if |elems| == 0 then Ok([])
    else
      var rest := elems[1..];
      match pf(elems[0])
      case None => Err(Message("Malformed float: " + elems[0]))
      case Some(x) =>
        match ParseFloats(rest, pf)
        case Err(e) =>
          assert elems[FirstMalformed(elems, pf)] == rest[FirstMalformed(rest, pf)];
          Err(e)
        case Ok(xs) =>
          assert forall k | 1 <= k < |elems| :: pf(elems[k]) == Some(([x] + xs)[k]) by {
            forall k | 1 <= k < |elems| ensures pf(elems[k]) == Some(([x] + xs)[k]) {
              assert elems[k] == rest[k - 1];
            }
          }
          Ok([x] + xs)
  }

  /** `close` is the first `]` after the opening `[` of `text`. */
  predicate ClosingBracket(text: string, close: int) {
    1 <= close < |text| && text[close] == ']' && forall j :: 1 <= j < close ==> text[j] != ']'
  }

  /** `parse_vector`: `[` then the comma-separated pieces up to the first
      `]`; the rest starts right after that `]`. */
  function ParseVector(text: string, pf: FloatParser): (r: Parsed<seq<real>>)
    ensures |text| == 0 || text[0] != '[' ==> r == Err(Message("Missing left bracket for vector: " + text))
    ensures |text| > 0 && text[0] == '[' && ']' !in text[1..]
        ==> r == Err(Message("Missing right bracket for vector: " + text))
    ensures |text| > 0 && text[0] == '[' ==> forall close | ClosingBracket(text, close) ::
      r == VectorElements(text[1..close], text[close + 1..], pf)
    ensures r.Ok? ==> IsSuffix(r.value.1, text) && |r.value.1| <= |text| - 2
    ensures r != Err(Abort)
  {
    if |text| == 0 || text[0] != '[' then Err(Message("Missing left bracket for vector: " + text))
    else
      var inner := text[1..];
      match FindFirst(inner, IsRightBracket)
      case None => Err(Message("Missing right bracket for vector: " + text))
      case Some(i) =>
        FirstClosingBracket(text, i);
        VectorElements(text[1..i + 1], text[i + 2..], pf)
  }

  /** The first `]` that `find` reports after the `[` is the only closing
      bracket there is. */
  lemma FirstClosingBracket(text: string, i: nat)
    requires |text| > 0 && FindFirst(text[1..], IsRightBracket) == Some(i)
    ensures ClosingBracket(text, i + 1)
    ensures forall close | ClosingBracket(text, close) :: close == i + 1
  {
    var inner := text[1..];
    forall j | 1 <= j < i + 1
      ensures text[j] != ']'
    {
      assert text[j] == inner[j - 1];
    }
    assert text[i + 1] == inner[i];
  }

  /** The comma-separated pieces between the brackets, as floats, paired
      with the text after the `]`. */
  function VectorElements(content: string, rest: string, pf: FloatParser): (r: Parsed<seq<real>>)
    ensures r.Ok? <==> ParseFloats(TrimAll(Split(content, ',')), pf).Ok?
    ensures r.Ok? ==> r.value == (ParseFloats(TrimAll(Split(content, ',')), pf).value, rest)
    ensures r.Err? ==> r.error == ParseFloats(TrimAll(Split(content, ',')), pf).error
    ensures r != Err(Abort)
  {
    var elems :- ParseFloats(TrimAll(Split(content, ',')), pf);
    Ok((elems, rest))
  }

  /** The type id a reference carries. */
  function TypeIdOf(t: TermReference): nat
  {
    match t
    case FuncRef(p) => p.typeId
    case VecRef(id, _) => id
  }

  /** What follows the type id of a reference: a vector literal when it
      starts with `[`, a term index otherwise. */
  function ParseReferenceTail(typeId: nat, suffix: string, pf: FloatParser): (r: Parsed<TermReference>)
    requires |suffix| > 0
    ensures r.Ok? ==> TypeIdOf(r.value.0) == typeId && (r.value.0.VecRef? <==> suffix[0] == '[')
    ensures r.Ok? ==> IsSuffix(r.value.1, suffix) && |r.value.1| < |suffix|
    ensures suffix[0] == '[' ==> match ParseVector(suffix, pf)
      case Ok((v, rest)) => r == Ok((VecRef(typeId, v), rest))
      case Err(e) => r == Err(e)
    ensures suffix[0] != '[' ==> match ParseTermIndex(suffix)
      case Ok((t, rest)) => r == Ok((FuncRef(TermPointer(typeId, t)), rest))
      case Err(e) => r == Err(e)
  {
    if suffix[0] == '[' then
      var v :- ParseVector(suffix, pf);
      Ok((VecRef(typeId, v.0), v.1))
    else
      var t :- ParseTermIndex(suffix);
      Ok((FuncRef(TermPointer(typeId, t.0)), t.1))
  }

  /** `parse_reference`: `#`, the maximal digit run (the type id), then a
      vector literal or a term index. */
  function ParseReference(text: string, pf: FloatParser): (r: Parsed<TermReference>)
    ensures |text| == 0 || text[0] != '#' ==> r == Err(Message("Missing pound sign for reference: " + text))
    ensures |text| > 0 && text[0] == '#' && AllDigits(text[1..])
        ==> r == Err(Message("Ran out of input while parsing reference: " + text))
    ensures |text| > 1 && text[0] == '#' && !IsDigit(text[1]) ==> r == Err(Abort)
    ensures |text| > 1 && text[0] == '#' && IsDigit(text[1]) && !AllDigits(text[1..]) ==>
      var d := LeadingDigits(text[1..]);
      && 0 < d < |text| - 1
      && r == ParseReferenceTail(ParseNat(text[1..][..d]), text[d + 1..], pf)
    ensures r.Ok? ==> IsSuffix(r.value.1, text) && |r.value.1| < |text|
  {
    if |text| == 0 || text[0] != '#' then Err(Message("Missing pound sign for reference: " + text))
    else
      var numeral := text[1..];
      var d := LeadingDigits(numeral);
      if d == |numeral| then
        assert numeral[..d] == numeral;
        Err(Message("Ran out of input while parsing reference: " + text))
      else if d == 0 then Err(Abort)
      else
        assert numeral[d..] == text[d + 1..];
        ParseReferenceTail(ParseNat(numeral[..d]), numeral[d..], pf)
  }

  /** `i` is where the identifier at the start of `text` ends: the first
      whitespace character or `)`. */
  predicate IdentifierEnd(text: string, i: int) {
    0 <= i < |text| && EndsIdentifier(text[i]) && forall j :: 0 <= j < i ==> !EndsIdentifier(text[j])
  }

  /** `parse_identifier`: the text up to the first whitespace or `)`, looked
      up in the bindings; running out of text before such a character is an
      error. */
  function ParseIdentifier(text: string, b: Bindings): (r: Parsed<TermReference>)
    ensures (forall j :: 0 <= j < |text| ==> !EndsIdentifier(text[j]))
        ==> r == Err(Message("Ran out of input while parsing identifier: " + text))
    ensures forall i | IdentifierEnd(text, i) ::
      && (Lookup(b, text[..i]).Ok? ==> r == Ok((Lookup(b, text[..i]).value, text[i..])))
      && (Lookup(b, text[..i]).Err? ==> r == Err(Message(Unbound(text[..i]))))
    ensures r.Ok? ==> IsSuffix(r.value.1, text) && |r.value.1| > 0 && EndsIdentifier(r.value.1[0])
    ensures r.Ok? ==> var name := text[..|text| - |r.value.1|];
      && (forall j :: 0 <= j < |name| ==> !EndsIdentifier(name[j]))
      && Lookup(b, name) == Ok(r.value.0)
    ensures r != Err(Abort)
  {
    match FindFirst(text, EndsIdentifier)
    case None => Err(Message("Ran out of input while parsing identifier: " + text))
    case Some(i) =>
      assert text[..|text| - |text[i..]|] == text[..i];
      match Lookup(b, text[..i])
      case Err(e) => Err(Message(e))
      case Ok(t) => Ok((t, text[i..]))
  }

  /** `parse_atom`: the first character picks a sub-expression, a reference
      or an identifier. */
  function ParseAtom(text: string, b: Bindings, pf: FloatParser): (r: Parsed<Expression>)
    ensures |text| == 0 ==> r == Err(Message("Cannot parse atom: empty text"))
    ensures r.Ok? ==> IsSuffix(r.value.1, text)
    ensures r.Ok? && !EndsIdentifier(text[0]) ==> |r.value.1| < |text|
    ensures r.Ok? && text[0] == '(' ==> r.value.0.App?
    ensures |text| > 0 && text[0] == '(' ==> r == LiftApp(ParseSExpression(text, b, pf))
    ensures |text| > 0 && text[0] == '#' ==> r == LiftRef(ParseReference(text, pf))
    ensures |text| > 0 && text[0] != '(' && text[0] != '#' ==> r == LiftRef(ParseIdentifier(text, b))
    decreases |text|, 1
  {
    if |text| == 0 then Err(Message("Cannot parse atom: empty text"))
    else if text[0] == '(' then
      var s :- ParseSExpression(text, b, pf);
      Ok((App(s.0), s.1))
    else if text[0] == '#' then LiftRef(ParseReference(text, pf))
    else LiftRef(ParseIdentifier(text, b))
  }

  /** A parsed sub-expression as an `Expression::App` atom. */
  function LiftApp(p: Parsed<AppExpression>): Parsed<Expression>
  {
    match p
    case Ok((a, rest)) => Ok((App(a), rest))
    case Err(e) => Err(e)
  }

  /** A parsed reference as an `Expression::Ref` atom. */
  function LiftRef(p: Parsed<TermReference>): Parsed<Expression>
  {
    match p
    case Ok((t, rest)) => Ok((Ref(t), rest))
    case Err(e) => Err(e)
  }

  /** `rest` is what follows a `)` at the end of a prefix of `text`. */
  predicate ClosedBefore(rest: string, text: string)
  {
    IsSuffix(rest, text) && |rest| < |text| && text[|text| - |rest| - 1] == ')'
  }

  /** The `while` loop of `parse_s_expression`: atoms separated by
      whitespace until a `)`; `cur` has had its leading whitespace trimmed,
      and `whole` is the full sub-expression text, for the error message.
      The rest starts right after the `)`. */
  function ParseAtoms(cur: string, whole: string, b: Bindings, pf: FloatParser): (r: Parsed<seq<Expression>>)
    requires |cur| == 0 || !IsWhitespace(cur[0])
    ensures |cur| == 0 ==> r == Err(Message("Ran out of input while parsing s-expression: " + whole))
    ensures |cur| > 0 && cur[0] == ')' ==> r == Ok(([], cur[1..]))
    ensures r.Ok? ==> ClosedBefore(r.value.1, cur)
    decreases |cur|, 2
  {
    if |cur| > 0 && cur[0] == ')' then Ok(([], cur[1..]))
    else if |cur| == 0 then Err(Message("Ran out of input while parsing s-expression: " + whole))
    else
      var first := ParseAtom(cur, b, pf);
      if first.Err? then Err(first.error)
      else
        var after := first.value.1;
        assert IsSuffix(after, cur);
        var next := TrimStart(after);
        var more := ParseAtoms(next, whole, b, pf);
        if more.Err? then Err(more.error)
        else
          var rest := more.value.1;
          assert ClosedBefore(rest, next);
          SuffixClosed(cur, after, next, rest);
          Ok(([first.value.0] + more.value.0, rest))
  }

  /** The `)` just before the rest of a trimmed tail of `cur` is also the
      `)` just before that rest within `cur`. */
  lemma SuffixClosed(cur: string, after: string, next: string, rest: string)
    requires IsSuffix(after, cur) && IsSuffix(next, after)
    requires ClosedBefore(rest, next)
    ensures ClosedBefore(rest, cur)
  {
    assert next == cur[|cur| - |next|..];
    assert next[|next| - |rest| - 1] == cur[|cur| - |rest| - 1];
  }

  /** `parse_s_expression`: `(, atoms, `)`, then `build_application` of the
      atoms; the rest is exactly the text after the `)`, untrimmed. */
  function ParseSExpression(text: string, b: Bindings, pf: FloatParser): (r: Parsed<AppExpression>)
    ensures (|text| == 0 || text[0] != '(') ==> r == Err(Message("Missing left paren for sub-expression: " + text))
    ensures r.Ok? ==> ClosedBefore(r.value.1, text)
    ensures r.Ok? ==> text[0] == '(' && var atoms := ParseAtoms(TrimStart(text[1..]), text, b, pf);
      && atoms.Ok? && atoms.value.1 == r.value.1
      && BuildApplication(atoms.value.0) == Ok(r.value.0)
    decreases |text|, 0
  {
    if |text| == 0 || text[0] != '(' then Err(Message("Missing left paren for sub-expression: " + text))
    else
      var atoms :- ParseAtoms(TrimStart(text[1..]), text, b, pf);
      match BuildApplication(atoms.0)
      case Err(e) => Err(Message(e))
      case Ok(app) => Ok((app, atoms.1))
  }

  /** Without a `)` anywhere in the text, a sub-expression never closes. */
  lemma UnclosedSExpression(text: string, b: Bindings, pf: FloatParser)
    requires ')' !in text
    ensures ParseSExpression(text, b, pf).Err?
  {
  }
}
