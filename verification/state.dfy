/** The interpreter's session state (`src/state.rs`): the loaded context, its
    serialized bytes, and the external model's interpreter-and-embedder
    state, which is kept serialized between commands and checked out, used
    and written back around every operation on it. */
module ModelState {
  import opened Results
  import opened Terms
  import opened ExpressionTree
  import opened BindingEnv

  /** The external model's operations, which this core only calls: `C` is a
      context, `L` a live interpreter-and-embedder state and `S` its
      serialized form. */
  datatype Capabilities<!C, !L, !S> = Capabilities(
    create: C -> L,                                             // `InterpreterAndEmbedderState::new`
    serialize: L -> S,
    deserialize: (S, C) -> L,
    evaluate: (L, Expression) -> (L, Result<TermReference, string>),  // `evaluate_expression`
    bayesianUpdateStep: L -> L,
    clearNewlyReceived: L -> L,
    placeholder: S)                                             // `make_empty_interpreter_and_embedder_state`

  /** A loaded context: the context, the bytes it was read from, and the
      serialized models. */
  datatype ContextState<C, S> = ContextState(ctxt: C, ctxtBytes: seq<bv8>, models: S)

  /** The whole session: the bindings and, maybe, a loaded context. */
  datatype GlobalState<C, S> = GlobalState(bindings: Bindings, context: Option<ContextState<C, S>>)

  /** Serialize and deserialize are inverse on live states over `c`. */
  ghost predicate RoundTrips<C, L(!new), S>(caps: Capabilities<C, L, S>, c: C) {
    forall l :: caps.deserialize(caps.serialize(l), c) == l
  }

  /** Deserializing over `c` and serializing again gives back the same bytes. */
  ghost predicate Canonical<C, L, S(!new)>(caps: Capabilities<C, L, S>, c: C) {
    forall s :: caps.serialize(caps.deserialize(s, c)) == s
  }

  /** `ContextState::new`: fresh models for `ctxt`, stored serialized. */
  function NewContextState<C, L, S>(ctxtBytes: seq<bv8>, ctxt: C, caps: Capabilities<C, L, S>): (cs: ContextState<C, S>)
    ensures cs.ctxt == ctxt && cs.ctxtBytes == ctxtBytes
    ensures cs.models == caps.serialize(caps.create(ctxt))
  {
    ContextState(ctxt, ctxtBytes, caps.serialize(caps.create(ctxt)))
  }

  /** The first `mem::replace` of `perform_on_models`: the placeholder goes
      in and the stored models come out. */
  function CheckOut<C, L, S>(cs: ContextState<C, S>, caps: Capabilities<C, L, S>): (r: (ContextState<C, S>, S))
    ensures r.0 == cs.(models := caps.placeholder) && r.1 == cs.models
  {
    (cs.(models := caps.placeholder), cs.models)
  }

  /** The second `mem::replace`: the re-serialized models take the
      placeholder's place. */
  function CheckIn<C, S>(cs: ContextState<C, S>, s: S): (r: ContextState<C, S>)
    ensures r.ctxt == cs.ctxt && r.ctxtBytes == cs.ctxtBytes && r.models == s
  {
    cs.(models := s)
  }

  /** `perform_on_models`: check the models out, deserialize them over the
      context, run `op` on the live state, serialize the outcome and check
      it back in; `op`'s own result is returned. */
  function PerformOnModels<C, L, S, R>(cs: ContextState<C, S>, caps: Capabilities<C, L, S>, op: L -> (L, R))
    : (r: (ContextState<C, S>, R))
    ensures r.0.ctxt == cs.ctxt && r.0.ctxtBytes == cs.ctxtBytes
    ensures r.1 == op(caps.deserialize(cs.models, cs.ctxt)).1
    ensures r.0.models == caps.serialize(op(caps.deserialize(cs.models, cs.ctxt)).0)
  {
    var (held, stored) := CheckOut(cs, caps);
    var live := caps.deserialize(stored, held.ctxt);
    var (live', ret) := op(live);
    (CheckIn(held, caps.serialize(live')), ret)
  }

  /** `ContextState::eval`: evaluation through `perform_on_models`. */
  function Eval<C, L, S>(cs: ContextState<C, S>, caps: Capabilities<C, L, S>, e: Expression)
    : (r: (ContextState<C, S>, Result<TermReference, string>))
    ensures r.0.ctxt == cs.ctxt && r.0.ctxtBytes == cs.ctxtBytes
    ensures var (live', res) := caps.evaluate(caps.deserialize(cs.models, cs.ctxt), e);
      r.1 == res && r.0.models == caps.serialize(live')
  {
    PerformOnModels(cs, caps, (l: L) => caps.evaluate(l, e))
  }

  /** `ContextState::update_models`: a Bayesian update step, then clearing the
      newly received terms. */
  function UpdateModels<C, L, S>(cs: ContextState<C, S>, caps: Capabilities<C, L, S>): (r: ContextState<C, S>)
    ensures r.ctxt == cs.ctxt && r.ctxtBytes == cs.ctxtBytes
    ensures r.models
         == caps.serialize(caps.clearNewlyReceived(caps.bayesianUpdateStep(caps.deserialize(cs.models, cs.ctxt))))
  {
    PerformOnModels(cs, caps, (l: L) => (caps.clearNewlyReceived(caps.bayesianUpdateStep(l)), ())).0
  }

  /** `GlobalState::set_context`: a fresh context state replaces any loaded one. */
  function SetContext<C, L, S>(g: GlobalState<C, S>, ctxtBytes: seq<bv8>, ctxt: C, caps: Capabilities<C, L, S>)
    : (g': GlobalState<C, S>)
    ensures g'.bindings == g.bindings
    ensures g'.context == Some(NewContextState(ctxtBytes, ctxt, caps))
  {
    g.(context := Some(NewContextState(ctxtBytes, ctxt, caps)))
  }

  /** `GlobalState::unload_context`. */
  function UnloadContext<C, S>(g: GlobalState<C, S>): (g': GlobalState<C, S>)
    ensures g'.bindings == g.bindings && g'.context.None?
  {
    g.(context := None)
  }

  /** Two operations performed one after the other act on the models like
      one operation doing both, when serialization round-trips. */
  lemma PerformComposes<C, L(!new), S, R1, R2>(cs: ContextState<C, S>, caps: Capabilities<C, L, S>,
                                         op1: L -> (L, R1), op2: L -> (L, R2))
    requires RoundTrips(caps, cs.ctxt)
    ensures var (cs1, _) := PerformOnModels(cs, caps, op1);
      var (cs2, r2) := PerformOnModels(cs1, caps, op2);
      var both := PerformOnModels(cs, caps, (l: L) => op2(op1(l).0));
      cs2 == both.0 && r2 == both.1
  {
    var live := caps.deserialize(cs.models, cs.ctxt);
    var cs1 := PerformOnModels(cs, caps, op1).0;
    assert caps.deserialize(cs1.models, cs1.ctxt) == op1(live).0;
  }

  /** An operation that leaves the live state as it found it leaves the
      stored models byte-for-byte unchanged, when serialization is canonical. */
  lemma ReadOnlyPerform<C, L(!new), S(!new), R>(cs: ContextState<C, S>, caps: Capabilities<C, L, S>, op: L -> (L, R))
    requires Canonical(caps, cs.ctxt)
    requires forall l :: op(l).0 == l
    ensures PerformOnModels(cs, caps, op).0 == cs
  {
    var live := caps.deserialize(cs.models, cs.ctxt);
    assert caps.serialize(op(live).0) == caps.serialize(live) == cs.models;
  }

  /** Checking the models out and straight back in restores the context
      state exactly: the placeholder is only ever a stand-in. */
  lemma CheckOutCheckIn<C, L, S>(cs: ContextState<C, S>, caps: Capabilities<C, L, S>)
    ensures CheckIn(CheckOut(cs, caps).0, CheckOut(cs, caps).1) == cs
    ensures CheckOut(cs, caps).0.models == caps.placeholder
  {
  }

  /** The placeholder is only ever seen while the models are checked out:
      after the operation the stored models are the serialization of some
      live state, namely the one the operation left. */
  lemma PlaceholderNotLeft<C, L(!new), S, R>(cs: ContextState<C, S>, caps: Capabilities<C, L, S>, op: L -> (L, R))
    ensures exists l :: PerformOnModels(cs, caps, op).0.models == caps.serialize(l)
  {
    var live' := op(caps.deserialize(cs.models, cs.ctxt)).0;
    assert PerformOnModels(cs, caps, op).0.models == caps.serialize(live');
  }

  /** The first operation on a freshly set context sees the model's fresh
      state for that context, when serialization round-trips. */
  lemma FreshContextChecksOut<C, L(!new), S, R>(ctxtBytes: seq<bv8>, ctxt: C, caps: Capabilities<C, L, S>, op: L -> (L, R))
    requires RoundTrips(caps, ctxt)
    ensures PerformOnModels(NewContextState(ctxtBytes, ctxt, caps), caps, op).1 == op(caps.create(ctxt)).1
  {
  }

  /** Unloading forgets whichever context was set. */
  lemma UnloadAfterSet<C, L, S>(g: GlobalState<C, S>, ctxtBytes: seq<bv8>, ctxt: C, caps: Capabilities<C, L, S>)
    ensures UnloadContext(SetContext(g, ctxtBytes, ctxt, caps)) == UnloadContext(g)
  {
  }

  /** Setting a context twice keeps only the second. */
  lemma SetAfterSet<C, L, S>(g: GlobalState<C, S>, b1: seq<bv8>, c1: C, b2: seq<bv8>, c2: C, caps: Capabilities<C, L, S>)
    ensures SetContext(SetContext(g, b1, c1, caps), b2, c2, caps) == SetContext(g, b2, c2, caps)
  {
  }
}
