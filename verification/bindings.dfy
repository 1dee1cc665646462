/** The binding environment of `let` (`src/bindings.rs`): identifiers to term
    references, overwritten on write, failing on a missing name. */
module BindingEnv {
  import opened Results
  import opened Terms

  datatype Bindings = Bindings(entries: map<string, TermReference>)

  /** The message of a failed lookup. */
  function Unbound(name: string): string
  {
    "No identifier named " + name + " in scope"
  }

  /** `Bindings::new`: nothing is bound. */
  function New(): (b: Bindings)
    ensures forall name :: Lookup(b, name) == Err(Unbound(name))
  {
    Bindings(map[])
  }

  /** `Bindings::write`: binds `name` to `v`, replacing any earlier binding. */
  function Write(b: Bindings, name: string, v: TermReference): (b': Bindings)
    ensures Lookup(b', name) == Ok(v)
    ensures forall other :: other != name ==> Lookup(b', other) == Lookup(b, other)
  {
    Bindings(b.entries[name := v])
  }

  /** `Bindings::lookup`: the bound reference, or an error naming the identifier. */
  function Lookup(b: Bindings, name: string): (r: Result<TermReference, string>)
    ensures r.Ok? <==> name in b.entries
    ensures r.Ok? ==> r.value == b.entries[name]
    ensures r.Err? ==> r.error == Unbound(name)
  {
    if name in b.entries then Ok(b.entries[name]) else Err(Unbound(name))
  }

  /** Environments that answer every lookup alike are the same environment. */
  lemma LookupExtensional(b: Bindings, c: Bindings)
    requires forall name :: Lookup(b, name) == Lookup(c, name)
    ensures b == c
  {
    assert forall name :: name in b.entries <==> name in c.entries by {
      forall name ensures name in b.entries <==> name in c.entries {
        assert Lookup(b, name).Ok? == Lookup(c, name).Ok?;
      }
    }
    assert forall name | name in b.entries :: b.entries[name] == c.entries[name] by {
      forall name | name in b.entries ensures b.entries[name] == c.entries[name] {
        assert Lookup(b, name) == Lookup(c, name);
      }
    }
  }

  /** A second write to the same name overwrites the first. */
  lemma WriteOverwrites(b: Bindings, name: string, v1: TermReference, v2: TermReference)
    ensures Write(Write(b, name, v1), name, v2) == Write(b, name, v2)
  {
    var x, y := Write(Write(b, name, v1), name, v2), Write(b, name, v2);
    forall other ensures Lookup(x, other) == Lookup(y, other) {
    }
    LookupExtensional(x, y);
  }

  /** Writes to different names do not interfere. */
  lemma WritesCommute(b: Bindings, n1: string, v1: TermReference, n2: string, v2: TermReference)
    requires n1 != n2
    ensures Write(Write(b, n1, v1), n2, v2) == Write(Write(b, n2, v2), n1, v1)
  {
    var x, y := Write(Write(b, n1, v1), n2, v2), Write(Write(b, n2, v2), n1, v1);
    forall other ensures Lookup(x, other) == Lookup(y, other) {
    }
    LookupExtensional(x, y);
  }

  /** Writing back what a name already holds changes nothing. */
  lemma WriteLookedUp(b: Bindings, name: string)
    requires Lookup(b, name).Ok?
    ensures Write(b, name, Lookup(b, name).value) == b
  {
    var x := Write(b, name, Lookup(b, name).value);
    forall other ensures Lookup(x, other) == Lookup(b, other) {
    }
    LookupExtensional(x, b);
  }
}
