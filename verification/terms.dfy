/** The term vocabulary of the external typed-term model, as far as the
    interpreter sees it: type ids and term indices are plain numbers, and a
    vector literal is a sequence of (abstract) floats. */
module Terms {

  /** A built-in term or one synthesised during evaluation. */
  datatype TermIndex = Primitive(n: nat) | NonPrimitive(n: nat)

  /** One function-typed term: its type and its index within that type. */
  datatype TermPointer = TermPointer(typeId: nat, index: TermIndex)

  /** A reference to a function term, or a literal vector of a vector type. */
  datatype TermReference =
    | FuncRef(ptr: TermPointer)
    | VecRef(typeId: nat, vec: seq<real>)
}
