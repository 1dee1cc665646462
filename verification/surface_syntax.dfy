/** A reference grammar for the expression language, used to pin down what
    the parser in `src/parsers.rs` accepts: a well-formed s-expression is
    printed as text, and parsing that text (followed by anything that may
    legally follow it) yields exactly the expression the s-expression
    denotes, with the following text left over. */
module SurfaceSyntax {
  import opened Results
  import opened StrOps
  import opened Terms
  import opened ExpressionTree
  import opened BindingEnv
  import opened Parsers

  /** Abstract syntax of the surface language. A vector literal keeps its
      elements as the text pieces between the commas, because reading them
      as floats is the float parser's business. */
  datatype Sexp =
    | Ident(name: string)
    | Ptr(typeId: nat, index: TermIndex)
    | Vec(typeId: nat, pieces: seq<string>)
    | List(items: seq<Sexp>)

  /** `p<k>` or `n<k>`. */
  function ShowIndex(i: TermIndex): string
  {
    match i
    case Primitive(k) => "p" + ShowNat(k)
    case NonPrimitive(k) => "n" + ShowNat(k)
  }

  /** The concrete text of an s-expression, items separated by one space. */
  function Print(s: Sexp): string
    decreases s, 1
  {
    match s
    case Ident(n) => n
    case Ptr(t, i) => "#" + ShowNat(t) + ShowIndex(i)
    case Vec(t, ps) => "#" + ShowNat(t) + "[" + Join(ps, ',') + "]"
    case List(items) => "(" + PrintList(items) + ")"
  }

  function PrintList(items: seq<Sexp>): string
    decreases items, 0
  {
    if |items| == 0 then ""
    else if |items| == 1 then Print(items[0])
    else Print(items[0]) + " " + PrintList(items[1..])
  }

  /** The s-expressions the grammar can print unambiguously: identifiers are
      non-empty, hold no whitespace or `)` and do not start like a reference
      or a sub-expression; vector pieces hold no `,` or `]`. */
  predicate WellFormed(s: Sexp)
    decreases s, 1
  {
    match s
    case Ident(n) =>
      |n| > 0 && n[0] != '(' && n[0] != '#' && forall j :: 0 <= j < |n| ==> !EndsIdentifier(n[j])
    case Ptr(_, _) => true
    case Vec(_, ps) => |ps| >= 1 && forall k :: 0 <= k < |ps| ==> ',' !in ps[k] && ']' !in ps[k]
    case List(items) => WellFormedList(items)
  }

  predicate WellFormedList(items: seq<Sexp>)
    decreases items, 0
  {
    |items| == 0 || (WellFormed(items[0]) && WellFormedList(items[1..]))
  }

  /** What may follow `s` without being read as part of it: an identifier
      needs a whitespace or `)` after it, a term index a non-digit. */
  predicate Follows(s: Sexp, tail: string)
  {
    match s
    case Ident(_) => |tail| > 0 && EndsIdentifier(tail[0])
    case Ptr(_, _) => |tail| > 0 && !IsDigit(tail[0])
    case _ => true
  }

  /** The expression an s-expression stands for: identifiers are looked up,
      vector pieces read as floats, and lists built into curried
      applications; failures are reported in reading order. */
  function Denote(s: Sexp, b: Bindings, pf: FloatParser): Result<Expression, ParseFailure>
    decreases s, 1
  {
    match s
    case Ident(n) =>
      (match Lookup(b, n)
       case Ok(t) => Ok(Ref(t))
       case Err(e) => Err(Message(e)))
    case Ptr(t, i) => Ok(Ref(FuncRef(TermPointer(t, i))))
    case Vec(t, ps) =>
      (match ParseFloats(TrimAll(ps), pf)
       case Ok(v) => Ok(Ref(VecRef(t, v)))
       case Err(e) => Err(e))
    case List(items) => AppAtom(Built(DenoteList(items, b, pf)))
  }

  /** A sub-expression as an `Expression::App` atom. */
  function AppAtom(r: Result<AppExpression, ParseFailure>): Result<Expression, ParseFailure>
  {
    match r
    case Ok(a) => Ok(App(a))
    case Err(e) => Err(e)
  }

  /** `build_application` of the atoms, once they have all been read. */
  function Built(atoms: Result<seq<Expression>, ParseFailure>): Result<AppExpression, ParseFailure>
  {
    match atoms
    case Err(e) => Err(e)
    case Ok(es) =>
      match BuildApplication(es)
      case Ok(a) => Ok(a)
      case Err(m) => Err(Message(m))
  }

  function DenoteList(items: seq<Sexp>, b: Bindings, pf: FloatParser): Result<seq<Expression>, ParseFailure>
    decreases items, 0
  {
    if |items| == 0 then Ok([])
    else match Denote(items[0], b, pf)
      case Err(e) => Err(e)
      case Ok(e) =>
        match DenoteList(items[1..], b, pf)
        case Err(e') => Err(e')
        case Ok(es) => Ok([e] + es)
  }

  /** A result paired with the text left over after it. */
  function WithRest<T>(r: Result<T, ParseFailure>, rest: string): Result<(T, string), ParseFailure>
  {
    match r
    case Ok(v) => Ok((v, rest))
    case Err(e) => Err(e)
  }

  /** A printed s-expression starts with a character that is neither
      whitespace nor `)`. */
  lemma PrintStart(s: Sexp)
    requires WellFormed(s)
    ensures |Print(s)| > 0 && !IsWhitespace(Print(s)[0]) && Print(s)[0] != ')'
  {
  }

  /** The digit run at the front of `ds + rest` is exactly `ds` when `rest`
      starts with a non-digit. */
  lemma {:induction false} LeadingDigitsOf(ds: string, rest: string)
    requires AllDigits(ds) && |rest| > 0 && !IsDigit(rest[0])
    ensures LeadingDigits(ds + rest) == |ds|
    decreases |ds|
  {
    if |ds| > 0 {
      assert (ds + rest)[1..] == ds[1..] + rest;
      LeadingDigitsOf(ds[1..], rest);
    } else {
      assert ds + rest == rest;
    }
  }

  /** A character in no piece, other than the separator, is not in the join. */
  lemma {:induction false} JoinAvoids(ps: seq<string>, sep: char, c: char)
    requires c != sep && forall k :: 0 <= k < |ps| ==> c !in ps[k]
    ensures c !in Join(ps, sep)
  {
    if |ps| > 1 {
      JoinAvoids(ps[1..], sep, c);
    }
  }

  /** `#<t>` followed by a non-digit: the type id is `t`, and the rest is
      left to the vector or term-index parser. */
  lemma ParseReferenceHead(t: nat, suffix: string, pf: FloatParser)
    requires |suffix| > 0 && !IsDigit(suffix[0])
    ensures ParseReference("#" + ShowNat(t) + suffix, pf) == ParseReferenceTail(t, suffix, pf)
  {
    var text := "#" + ShowNat(t) + suffix;
    var st := ShowNat(t);
    assert text[1..] == st + suffix;
    LeadingDigitsOf(st, suffix);
    assert text[1..][..|st|] == st;
    ParseShowNat(t);
    assert text[|st| + 1..] == suffix;
    assert text[1] == st[0] && !IsDigit(text[|st| + 1]);
  }

  /** `p<k>` or `n<k>` followed by a non-digit parses to that term index. */
  lemma ParsePrintedIndex(i: TermIndex, tail: string)
    requires |tail| > 0 && !IsDigit(tail[0])
    ensures ParseTermIndex(ShowIndex(i) + tail) == Ok((i, tail))
  {
    var text := ShowIndex(i) + tail;
    var sk := ShowNat(i.n);
    assert text[1..] == sk + tail;
    LeadingDigitsOf(sk, tail);
    assert text[1..][..|sk|] == sk;
    ParseShowNat(i.n);
    assert text[1 + |sk|..] == tail;
    assert text[1] == sk[0] && !IsDigit(text[1 + |sk|]);
  }

  /** `#<t><index>` followed by a non-digit parses to that term pointer. */
  lemma ParsePrintedPointer(t: nat, i: TermIndex, tail: string, pf: FloatParser)
    requires |tail| > 0 && !IsDigit(tail[0])
    ensures ParseReference(Print(Ptr(t, i)) + tail, pf) == Ok((FuncRef(TermPointer(t, i)), tail))
  {
    var suffix := ShowIndex(i) + tail;
    assert Print(Ptr(t, i)) + tail == "#" + ShowNat(t) + suffix;
    ParseReferenceHead(t, suffix, pf);
    ParsePrintedIndex(i, tail);
  }

  /** The first `]` of `[<j>]<tail>` closes the vector when `j` holds none. */
  lemma BracketedContent(j: string, tail: string, pf: FloatParser)
    requires ']' !in j
    ensures ParseVector("[" + j + "]" + tail, pf) == VectorElements(j, tail, pf)
  {
    var text := "[" + j + "]" + tail;
    assert ClosingBracket(text, |j| + 1) by {
      assert forall k :: 1 <= k < |j| + 1 ==> text[k] == j[k - 1];
    }
    assert text[1..|j| + 1] == j && text[|j| + 2..] == tail;
  }

  /** `[<pieces>]` parses to what the float parser reads from the pieces,
      with any text after the `]` left over. */
  lemma ParsePrintedBrackets(ps: seq<string>, tail: string, pf: FloatParser)
    requires |ps| >= 1 && forall k :: 0 <= k < |ps| ==> ',' !in ps[k] && ']' !in ps[k]
    ensures ParseVector("[" + Join(ps, ',') + "]" + tail, pf) == WithRest(ParseFloats(TrimAll(ps), pf), tail)
  {
    var j := Join(ps, ',');
    JoinAvoids(ps, ',', ']');
    BracketedContent(j, tail, pf);
    SplitJoin(ps, ',');
  }

  /** The single empty piece is read as the float parser reads "". */
  lemma FloatsOfEmptyPiece(pf: FloatParser)
    ensures pf("").None? ==> ParseFloats(TrimAll([""]), pf) == Err(Message("Malformed float: "))
    ensures pf("").Some? ==> ParseFloats(TrimAll([""]), pf) == Ok([pf("").value])
  {
    assert TrimEnd(TrimStart("")) == "";
    assert Trim("") == "";
    var elems: seq<string> := [""];
    assert TrimAll([""]) == elems;
    assert "Malformed float: " + "" == "Malformed float: ";
    assert elems[1..] == [];
    assert ParseFloats(elems[1..], pf) == Ok([]);
    if pf("").Some? {
      assert [pf("").value] + [] == [pf("").value];
    }
  }

  /** `[]` holds one empty piece, so it is a vector of one element only if
      the float parser accepts the empty string. */
  lemma EmptyBrackets(tail: string, pf: FloatParser)
    ensures pf("").None? ==> ParseVector("[]" + tail, pf) == Err(Message("Malformed float: "))
    ensures pf("").Some? ==> ParseVector("[]" + tail, pf) == Ok(([pf("").value], tail))
  {
    var text := "[" + Join([""], ',') + "]" + tail;
    assert Join([""], ',') == "";
    assert text == "[]" + tail;
    ParsePrintedBrackets([""], tail, pf);
    var floats := ParseFloats(TrimAll([""]), pf);
    assert ParseVector(text, pf) == WithRest(floats, tail);
    FloatsOfEmptyPiece(pf);
  }

  /** `#<t>[<pieces>]` parses to the vector the float parser reads from the
      pieces, with any text after the `]` left over. */
  lemma ParsePrintedVector(t: nat, ps: seq<string>, tail: string, b: Bindings, pf: FloatParser)
    requires |ps| >= 1 && forall k :: 0 <= k < |ps| ==> ',' !in ps[k] && ']' !in ps[k]
    ensures LiftRef(ParseReference(Print(Vec(t, ps)) + tail, pf))
         == WithRest(Denote(Vec(t, ps), b, pf), tail)
  {
    var suffix := "[" + Join(ps, ',') + "]" + tail;
    assert Print(Vec(t, ps)) + tail == "#" + ShowNat(t) + suffix;
    ParseReferenceHead(t, suffix, pf);
    ParsePrintedBrackets(ps, tail, pf);
  }

  /** Parsing the printed text of a well-formed s-expression, followed by
      anything that may follow it, gives what the s-expression denotes and
      leaves exactly the following text. */
  lemma {:induction false} ParsePrinted(s: Sexp, tail: string, b: Bindings, pf: FloatParser)
    requires WellFormed(s) && Follows(s, tail)
    ensures ParseAtom(Print(s) + tail, b, pf) == WithRest(Denote(s, b, pf), tail)
    decreases s, 1
  {
    match s
    case Ident(n) =>
      ParsePrintedIdent(n, tail, b, pf);
    case Ptr(t, i) =>
      ParsePrintedPointer(t, i, tail, pf);
    case Vec(t, ps) =>
      ParsePrintedVector(t, ps, tail, b, pf);
    case List(items) =>
      SExpressionPrinted(items, tail, b, pf);
  }

  /** An identifier followed by whitespace or `)` reads as its binding. */
  lemma ParsePrintedIdent(n: string, tail: string, b: Bindings, pf: FloatParser)
    requires WellFormed(Ident(n)) && |tail| > 0 && EndsIdentifier(tail[0])
    ensures ParseAtom(n + tail, b, pf) == WithRest(Denote(Ident(n), b, pf), tail)
  {
    var text := n + tail;
    assert IdentifierEnd(text, |n|);
    assert text[..|n|] == n && text[|n|..] == tail;
  }

  /** A sub-expression is `build_application` of what the atom loop reads
      after its `(` and any whitespace. */
  lemma SExpressionOfAtoms(inner: string, b: Bindings, pf: FloatParser,
                           atoms: Result<seq<Expression>, ParseFailure>, tail: string)
    requires ParseAtoms(TrimStart(inner), "(" + inner, b, pf) == WithRest(atoms, tail)
    ensures ParseSExpression("(" + inner, b, pf) == WithRest(Built(atoms), tail)
  {
    assert ("(" + inner)[1..] == inner;
  }

  /** A printed list is read as a sub-expression: `build_application` of
      what the atom loop reads between its parentheses. */
  lemma {:induction false} SExpressionPrinted(items: seq<Sexp>, tail: string, b: Bindings, pf: FloatParser)
    requires WellFormedList(items)
    ensures ParseSExpression(Print(List(items)) + tail, b, pf) == WithRest(Built(DenoteList(items, b, pf)), tail)
    decreases items, 1
  {
    if |items| > 0 {
      PrintStart(items[0]);
    }
    var cur := ListInterior(items, tail);
    ParsePrintedList(items, tail, Print(List(items)) + tail, b, pf);
    TrimStartNoOp(cur);
    SExpressionOfAtoms(cur, b, pf, DenoteList(items, b, pf), tail);
  }

  /** The text after the `(` of a printed list starts with its first item,
      or with the `)` of an empty list. */
  lemma ListInterior(items: seq<Sexp>, tail: string) returns (cur: string)
    requires |items| == 0 || (|Print(items[0])| > 0 && !IsWhitespace(Print(items[0])[0]))
    ensures cur == PrintList(items) + ")" + tail
    ensures Print(List(items)) + tail == "(" + cur
    ensures |cur| > 0 && !IsWhitespace(cur[0])
  {
    cur := PrintList(items) + ")" + tail;
    if |items| > 0 {
      assert PrintList(items)[0] == Print(items[0])[0];
    }
  }

  /** The items of a list, printed and closed by `)`, are read by the atom
      loop in order; the loop stops right after the `)`. */
  lemma {:induction false} ParsePrintedList(items: seq<Sexp>, tail: string, whole: string, b: Bindings, pf: FloatParser)
    requires WellFormedList(items)
    requires |PrintList(items) + ")" + tail| > 0
    requires !IsWhitespace((PrintList(items) + ")" + tail)[0])
    ensures ParseAtoms(PrintList(items) + ")" + tail, whole, b, pf) == WithRest(DenoteList(items, b, pf), tail)
    decreases items, 0
  {
    var cur := PrintList(items) + ")" + tail;
    if |items| == 0 {
      assert cur == ")" + tail;
    } else {
      var head, rest := items[0], items[1..];
      var after, next := ListSplit(items, tail);
      ParsePrinted(head, after, b, pf);
      ParsePrintedList(rest, tail, whole, b, pf);
      AtomsStep(cur, whole, b, pf, Denote(head, b, pf), after, next, DenoteList(rest, b, pf), tail);
    }
  }

  /** The printed items and `)` are the first item, then what follows it:
      the `)` directly, or a space and the next item; trimming that space
      leaves the printed rest of the list. */
  lemma ListSplit(items: seq<Sexp>, tail: string) returns (after: string, next: string)
    requires WellFormedList(items) && |items| > 0
    ensures PrintList(items) + ")" + tail == Print(items[0]) + after
    ensures next == PrintList(items[1..]) + ")" + tail
    ensures TrimStart(after) == next
    ensures Follows(items[0], after)
    ensures |next| > 0 && !IsWhitespace(next[0])
    ensures |Print(items[0])| > 0 && Print(items[0])[0] != ')' && !IsWhitespace(Print(items[0])[0])
  {
    var head, rest := items[0], items[1..];
    PrintStart(head);
    next := PrintList(rest) + ")" + tail;
    if |items| == 1 {
      after := ")" + tail;
      assert PrintList(items) == Print(head);
      assert next == after;
    } else {
      after := " " + next;
      assert PrintList(items) == Print(head) + " " + PrintList(rest);
      PrintStart(rest[0]);
      assert next[0] == Print(rest[0])[0];
      assert after[1..] == next;
    }
    TrimStartNoOp(next);
  }

  /** One turn of the atom loop: an atom, then the loop on what follows it. */
  lemma AtomsStep(cur: string, whole: string, b: Bindings, pf: FloatParser,
                  first: Result<Expression, ParseFailure>, after: string, next: string,
                  more: Result<seq<Expression>, ParseFailure>, tail: string)
    requires |cur| > 0 && cur[0] != ')' && !IsWhitespace(cur[0])
    requires ParseAtom(cur, b, pf) == WithRest(first, after)
    requires TrimStart(after) == next
    requires ParseAtoms(next, whole, b, pf) == WithRest(more, tail)
    ensures ParseAtoms(cur, whole, b, pf) == WithRest(
      match first
      case Err(e) => Err(e)
      case Ok(e) =>
        match more
        case Err(e') => Err(e')
        case Ok(es) => Ok([e] + es), tail)
  {
  }
}
