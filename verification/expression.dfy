/** The expression tree of the interpreter and the curried-application
    builder (`src/expression.rs`). Trees are immutable values; a vector
    reference can never stand in callee position, because the callee of an
    application is a `FuncExpression`. */
module ExpressionTree {
  import opened Results
  import opened Terms

  /** Something that can be applied: a function term or a nested application. */
  datatype FuncExpression =
    | Func(ptr: TermPointer)
    | FuncApp(app: AppExpression)

  /** An atom of the surface language: a term reference or an application. */
  datatype Expression =
    | Ref(ref: TermReference)
    | App(app: AppExpression)

  /** One binary application node, `AppExpression::new(func, arg)`. */
  datatype AppExpression = AppExpression(func: FuncExpression, arg: Expression)

  /** The expression a callee denotes when it is written as an atom. */
  function AsExpression(f: FuncExpression): Expression
  {
    match f
    case Func(p) => Ref(FuncRef(p))
    case FuncApp(a) => App(a)
  }

  /** `AppExpression::maybe_from_expression`: the callee an expression can
      serve as, which exists for everything except a vector reference. */
  function MaybeFromExpression(e: Expression): (r: Option<FuncExpression>)
    ensures r.None? <==> e.Ref? && e.ref.VecRef?
    ensures r.Some? ==> AsExpression(r.value) == e
  {
    match e
    case Ref(FuncRef(p)) => Some(Func(p))
    case Ref(VecRef(_, _)) => None
    case App(a) => Some(FuncApp(a))
  }

  /** Every callee, written back as an atom, is accepted as that same callee. */
  lemma CalleeRoundTrip(f: FuncExpression)
    ensures MaybeFromExpression(AsExpression(f)) == Some(f)
  {
  }

  /** The number of application nodes on the left spine of `a`. */
  function Depth(a: AppExpression): nat
  {
    match a.func
    case Func(_) => 1
    case FuncApp(inner) => Depth(inner) + 1
  }

  /** Peels `k` application nodes off the left spine of `a`: the callee left
      after that, followed by the `k` arguments in application order. */
  function Unspine(a: AppExpression, k: nat): seq<Expression>
    requires 1 <= k <= Depth(a)
  {
    if k == 1 then [AsExpression(a.func), a.arg]
    else Unspine(a.func.app, k - 1) + [a.arg]
  }

  /** The `for` loop of `build_application`: each further argument wraps the
      application built so far as the callee of a new node. */
  function Curry(acc: AppExpression, rest: seq<Expression>): (r: AppExpression)
    ensures Depth(r) == Depth(acc) + |rest|
    ensures forall k :: 1 <= k <= Depth(acc) ==> Unspine(r, k + |rest|) == Unspine(acc, k) + rest
    decreases |rest|
  {
    if |rest| == 0 then acc
    else
      var next := AppExpression(FuncApp(acc), rest[0]);
      var r := Curry(next, rest[1..]);
      assert forall k :: 1 <= k <= Depth(acc) ==> Unspine(next, k + 1) == Unspine(acc, k) + [rest[0]];
      assert forall k :: 1 <= k <= Depth(acc) ==>
        Unspine(r, k + |rest|) == (Unspine(acc, k) + [rest[0]]) + rest[1..];
      assert forall k :: 1 <= k <= Depth(acc) ==>
        (Unspine(acc, k) + [rest[0]]) + rest[1..] == Unspine(acc, k) + rest;
      r
  }

  /** `build_application`: folds a list of at least two atoms, left to right,
      into a curried application whose callee is the first atom. */
  function BuildApplication(es: seq<Expression>): (r: Result<AppExpression, string>)
    ensures |es| == 0 <==> r == Err("Empty expression")
    ensures |es| == 1 <==> r == Err("Singleton expressions are disallowed")
    ensures (|es| >= 2 && es[0].Ref? && es[0].ref.VecRef?) <==> r == Err("Cannot apply vector as a function")
    ensures r.Ok? <==> |es| >= 2 && MaybeFromExpression(es[0]).Some?
    ensures r.Ok? ==> Depth(r.value) >= |es| - 1 >= 1 && Unspine(r.value, |es| - 1) == es
  {
    if |es| == 0 then Err("Empty expression")
    else if |es| < 2 then Err("Singleton expressions are disallowed")
    else match MaybeFromExpression(es[0])
      case None => Err("Cannot apply vector as a function")
      case Some(f) =>
        var first := AppExpression(f, es[1]);
        assert Unspine(first, 1) == es[..2];
        assert es[..2] + es[2..] == es;
        Ok(Curry(first, es[2..]))
  }

  /** Every application is what `build_application` makes of the callee and
      arguments found on the first `k` nodes of its left spine. */
  lemma {:induction false} BuildUnspine(a: AppExpression, k: nat)
    requires 1 <= k <= Depth(a)
    ensures BuildApplication(Unspine(a, k)) == Ok(a)
    decreases k
  {
    var es := Unspine(a, k);
    if k == 1 {
      assert es[2..] == [];
    } else {
      var inner := a.func.app;
      BuildUnspine(inner, k - 1);
      var es' := Unspine(inner, k - 1);
      assert es == es' + [a.arg];
      BuildSnoc(es', a.arg);
    }
  }

  /** Left associativity: one more argument wraps the whole previous
      application as the callee of a new outermost node. */
  lemma BuildSnoc(es: seq<Expression>, e: Expression)
    requires BuildApplication(es).Ok?
    ensures BuildApplication(es + [e]) == Ok(AppExpression(FuncApp(BuildApplication(es).value), e))
  {
    var a := BuildApplication(es).value;
    var n := |es| - 1;
    var b := AppExpression(FuncApp(a), e);
    assert Unspine(b, n + 1) == es + [e];
    var r := BuildApplication(es + [e]);
    assert r.Ok?;
    UnspineInjective(r.value, b, n + 1);
  }

  /** An application is determined by the spine it unrolls to. */
  lemma {:induction false} UnspineInjective(a: AppExpression, b: AppExpression, k: nat)
    requires 1 <= k <= Depth(a) && k <= Depth(b)
    requires Unspine(a, k) == Unspine(b, k)
    ensures a == b
    decreases k
  {
    var s := Unspine(a, k);
    assert a.arg == s[|s| - 1] == b.arg;
    if k == 1 {
      assert AsExpression(a.func) == s[0] == AsExpression(b.func);
      assert MaybeFromExpression(s[0]) == Some(a.func) == Some(b.func);
    } else {
      assert Unspine(a.func.app, k - 1) == s[..|s| - 1] == Unspine(b.func.app, k - 1);
      UnspineInjective(a.func.app, b.func.app, k - 1);
    }
  }

  /** `(f a b c)` is `((f a) b) c`: three arguments give three nested nodes. */
  lemma BuildFourAtoms(f: TermPointer, x: Expression, y: Expression, z: Expression)
    ensures BuildApplication([Ref(FuncRef(f)), x, y, z])
         == Ok(AppExpression(FuncApp(AppExpression(FuncApp(AppExpression(Func(f), x)), y)), z))
  {
    BuildSnoc([Ref(FuncRef(f)), x], y);
    assert [Ref(FuncRef(f)), x] + [y] == [Ref(FuncRef(f)), x, y];
    BuildSnoc([Ref(FuncRef(f)), x, y], z);
    assert [Ref(FuncRef(f)), x, y] + [z] == [Ref(FuncRef(f)), x, y, z];
  }

  /** The number of occurrences of `c` in `s`. */
  function Count(s: string, c: char): nat
  {
    if |s| == 0 then 0 else Count(s[..|s| - 1], c) + (if s[|s| - 1] == c then 1 else 0)
  }

  lemma {:induction false} CountAppend(s: string, t: string, c: char)
    ensures Count(s + t, c) == Count(s, c) + Count(t, c)
    decreases |t|
  {
    if |t| > 0 {
      assert (s + t)[..|s + t| - 1] == s + t[..|t| - 1];
      CountAppend(s, t[..|t| - 1], c);
    } else {
      assert s + t == s;
    }
  }

  /** Leaf renderers: the model's own display of term pointers and term
      references is outside this core, so they are parameters. */
  datatype Renderer = Renderer(ptr: TermPointer -> string, ref: TermReference -> string)

  /** `display` of an `Expression`. */
  function RenderExpr(e: Expression, show: Renderer): (r: string)
    ensures e.App? ==> |r| >= 3 && r[0] == '(' && r[|r| - 1] == ')'
    ensures |r| >= 3 * NodesExpr(e)
    decreases e, 1
  {
    match e
    case Ref(r) => show.ref(r)
    case App(a) => RenderApp(a, show)
  }

  /** `display` of a `FuncExpression`. */
  function RenderFunc(f: FuncExpression, show: Renderer): (r: string)
    ensures f.FuncApp? ==> |r| >= 3 && r[0] == '(' && r[|r| - 1] == ')'
    ensures |r| >= 3 * NodesFunc(f)
    decreases f, 1
  {
    match f
    case Func(p) => show.ptr(p)
    case FuncApp(a) => RenderApp(a, show)
  }

  /** `display` of an `AppExpression`: always the binary `(<func> <arg>)`. */
  function RenderApp(a: AppExpression, show: Renderer): (r: string)
    ensures |r| >= 3 && r[0] == '(' && r[|r| - 1] == ')'
    ensures |r| >= 3 * NodesApp(a)
    decreases a, 0
  {
    "(" + RenderFunc(a.func, show) + " " + RenderExpr(a.arg, show) + ")"
  }

  /** `n` opening parentheses. */
  function Opens(n: nat): string
  {
    if n == 0 then "" else Opens(n - 1) + "("
  }

  /** Each argument in turn, after a space and followed by the `)` of its
      application node. */
  function Args(xs: seq<Expression>, show: Renderer): string
  {
    if |xs| == 0 then "" else " " + RenderExpr(xs[0], show) + ")" + Args(xs[1..], show)
  }

  /** The `build_application` loop's nodes nest to the left: each further
      argument adds an opening parenthesis in front and its own rendering
      and `)` behind. */
  lemma {:induction false} RenderCurry(acc: AppExpression, rest: seq<Expression>, show: Renderer)
    ensures RenderApp(Curry(acc, rest), show) == Opens(|rest|) + RenderApp(acc, show) + Args(rest, show)
    decreases |rest|
  {
    var inner := RenderApp(acc, show);
    if |rest| == 0 {
      assert Opens(0) + inner + Args(rest, show) == inner;
    } else {
      var next := AppExpression(FuncApp(acc), rest[0]);
      var x := RenderExpr(rest[0], show);
      RenderCurry(next, rest[1..], show);
      assert RenderApp(next, show) == "(" + inner + " " + x + ")";
      assert Args(rest, show) == " " + x + ")" + Args(rest[1..], show);
      assert Opens(|rest|) == Opens(|rest| - 1) + "(";
      Regroup(Opens(|rest| - 1), inner, x, Args(rest[1..], show));
    }
  }

  /** Moving a node's `(` in front and its argument and `)` behind. */
  lemma Regroup(o: string, inner: string, x: string, tail: string)
    ensures o + ("(" + inner + " " + x + ")") + tail == (o + "(") + inner + (" " + x + ")" + tail)
  {
  }

  /** What `display` shows for a built application: one `(` per node, then
      the callee, then the arguments left to right, each closing its node,
      as `(<func> <arg>)` nested to the left. */
  lemma RenderBuilt(es: seq<Expression>, a: AppExpression, show: Renderer)
    requires BuildApplication(es) == Ok(a)
    ensures |es| >= 2 && MaybeFromExpression(es[0]).Some?
    ensures RenderApp(a, show)
         == Opens(|es| - 1) + RenderFunc(MaybeFromExpression(es[0]).value, show) + Args(es[1..], show)
  {
    var f := MaybeFromExpression(es[0]).value;
    var first := AppExpression(f, es[1]);
    var fs, x := RenderFunc(f, show), RenderExpr(es[1], show);
    assert a == Curry(first, es[2..]);
    RenderCurry(first, es[2..], show);
    assert es[1..][1..] == es[2..];
    assert Args(es[1..], show) == " " + x + ")" + Args(es[2..], show);
    assert Opens(|es| - 1) == Opens(|es| - 2) + "(";
    Regroup(Opens(|es| - 2), fs, x, Args(es[2..], show));
  }

  /** Application nodes anywhere in an expression. */
  function NodesExpr(e: Expression): nat
    decreases e, 1
  {
    match e
    case Ref(_) => 0
    case App(a) => NodesApp(a)
  }

  function NodesFunc(f: FuncExpression): nat
    decreases f, 1
  {
    match f
    case Func(_) => 0
    case FuncApp(a) => NodesApp(a)
  }

  function NodesApp(a: AppExpression): nat
    decreases a, 0
  {
    NodesFunc(a.func) + NodesExpr(a.arg) + 1
  }

  /** Leaf renderings that contain no parentheses. */
  ghost predicate ParenFree(show: Renderer, c: char) {
    (forall p :: Count(show.ptr(p), c) == 0) && (forall r :: Count(show.ref(r), c) == 0)
  }

  /** Rendering is fully parenthesised: one `(` and one `)` per application
      node, so a rendered tree reads as nested binary applications. */
  lemma {:induction false} RenderParens(a: AppExpression, show: Renderer)
    requires ParenFree(show, '(') && ParenFree(show, ')')
    ensures Count(RenderApp(a, show), '(') == NodesApp(a)
    ensures Count(RenderApp(a, show), ')') == NodesApp(a)
    decreases a
  {
    var fs, xs := RenderFunc(a.func, show), RenderExpr(a.arg, show);
    forall c | c == '(' || c == ')'
      ensures Count(RenderFunc(a.func, show), c) == NodesFunc(a.func)
      ensures Count(RenderExpr(a.arg, show), c) == NodesExpr(a.arg)
    {
      match a.func {
        case Func(p) =>
        case FuncApp(inner) => RenderParens(inner, show);
      }
      match a.arg {
        case Ref(r) =>
        case App(inner) => RenderParens(inner, show);
      }
    }
    forall c | c == '(' || c == ')'
      ensures Count(RenderApp(a, show), c) == NodesApp(a)
    {
      CountAppend("(" + fs + " " + xs, ")", c);
      CountAppend("(" + fs + " ", xs, c);
      CountAppend("(" + fs, " ", c);
      CountAppend("(", fs, c);
    }
  }
}
