/** The registry and the resolution algorithm of the factory container, as
    values and functions.

    A registry maps the key of an abstract type to the factory registered for
    it: either a stored instance (RegisterInstance) or the constructor of a
    concrete type together with the keys of its constructor's parameters
    (RegisterType).  Resolving a key looks it up, refuses keys that are
    already being resolved further up the current call path (the ancestor
    list), and otherwise invokes the factory with the key pushed onto the
    ancestor list.  Resolution never changes the registry. */
module Factories {

  /** The identity of a C++ type (std::type_index). */
  type Key = nat

  /** A resolved shared pointer: null, the pre-built instance `id`, or a
      newly built object of concrete type `tag` holding its constructor's
      arguments. */
  datatype Value = Null | Shared(id: nat) | Built(tag: nat, args: seq<Value>)

  /** What RegisterInstance and RegisterType store under a key: the stored
      pointer (any pointer, null or one the container built earlier
      included), or the concrete type `tag` and its constructor's parameter
      types in declaration order. */
  datatype Factory = Instance(ptr: Value) | Ctor(tag: nat, deps: seq<Key>)

  type Registry = map<Key, Factory>

  function Elems(s: seq<Key>): set<Key> {
    set k | k in s
  }

  /** The registered keys that are not on the ancestor list: the keys whose
      factories may still be invoked below this point. */
  function Pending(reg: Registry, ancestors: seq<Key>): set<Key> {
    reg.Keys - Elems(ancestors)
  }

  predicate Distinct(s: seq<Key>) {
    forall i, j :: 0 <= i < j < |s| ==> s[i] != s[j]
  }

  /** Pushing a registered key that is not yet an ancestor leaves one key
      fewer pending; this is why resolution terminates on cyclic
      registrations. */
  lemma PushShrinksPending(reg: Registry, ancestors: seq<Key>, key: Key)
    requires key in reg && key !in ancestors
    ensures Pending(reg, ancestors + [key]) == Pending(reg, ancestors) - {key}
    ensures |Pending(reg, ancestors + [key])| == |Pending(reg, ancestors)| - 1
  {
  }

  /** The private, recursive Resolve: a missing registration yields null; a
      key already on the ancestor list yields null without its factory being
      invoked; otherwise the factory is invoked with the key pushed. */
  function Resolve(reg: Registry, key: Key, ancestors: seq<Key>): (r: Value)
    decreases |Pending(reg, ancestors)|, 0
    ensures r != Null <==> key in reg && key !in ancestors && reg[key] != Instance(Null)
  {
    if key !in reg then Null
    else if key in ancestors then Null
    else
      PushShrinksPending(reg, ancestors, key);
      Invoke(reg, reg[key], ancestors + [key])
  }

  /** Calling a stored factory closure with the ancestor list it is given:
      an instance factory returns its instance, a type factory builds a new
      object from its resolved dependencies. */
  function Invoke(reg: Registry, f: Factory, ancestors: seq<Key>): (r: Value)
    decreases |Pending(reg, ancestors)|, 2
    ensures r == Null <==> f == Instance(Null)
  {
    match f
    case Instance(ptr) => ptr
    case Ctor(tag, deps) => Built(tag, ResolveArgs(reg, deps, ancestors))
  }

  /** The expansion of the constructor's parameter pack: every dependency is
      resolved against the same ancestor list and lands at its own position. */
  function ResolveArgs(reg: Registry, deps: seq<Key>, ancestors: seq<Key>): (r: seq<Value>)
    decreases |Pending(reg, ancestors)|, 1, |deps|
    ensures |r| == |deps|
    ensures forall j :: 0 <= j < |deps| ==> r[j] == Resolve(reg, deps[j], ancestors)
  {
    if deps == [] then []
    else [Resolve(reg, deps[0], ancestors)] + ResolveArgs(reg, deps[1..], ancestors)
  }

  /** A type registration resolves to a new object of its concrete type,
      whatever its arity (a type with no dependencies gives `Built(tag, [])`);
      the i-th constructor argument is the resolution of the i-th declared
      dependency with the resolved key pushed. */
  lemma ConstructorArgumentsArePositional(reg: Registry, key: Key, ancestors: seq<Key>)
    requires key in reg && reg[key].Ctor? && key !in ancestors
    ensures Resolve(reg, key, ancestors).Built? && Resolve(reg, key, ancestors).tag == reg[key].tag
    ensures |Resolve(reg, key, ancestors).args| == |reg[key].deps|
    ensures forall i :: 0 <= i < |reg[key].deps| ==>
              Resolve(reg, key, ancestors).args[i] == Resolve(reg, reg[key].deps[i], ancestors + [key])
  {
  }

  /** An instance registration yields the identical stored pointer whenever
      the key is not its own ancestor. */
  lemma InstanceIsShared(reg: Registry, key: Key, ancestors: seq<Key>)
    requires key in reg && reg[key].Instance? && key !in ancestors
    ensures Resolve(reg, key, ancestors) == reg[key].ptr
  {
  }

  /* ---------------------------------------------------------------------
     The call tree of one resolve.  A Call is one invocation of the private
     Resolve: the key asked for and the ancestor list at that moment. */

  datatype Call = Call(key: Key, ancestors: seq<Key>)

  /** Every invocation of the private Resolve made while resolving `key`
      against `ancestors`, that one included. */
  ghost function Calls(reg: Registry, key: Key, ancestors: seq<Key>): set<Call>
    decreases |Pending(reg, ancestors)|, 0
  {
    {Call(key, ancestors)} +
    if key in reg && key !in ancestors && reg[key].Ctor? then
      PushShrinksPending(reg, ancestors, key);
      CallsArgs(reg, reg[key].deps, ancestors + [key])
    else {}
  }

  ghost function CallsArgs(reg: Registry, deps: seq<Key>, ancestors: seq<Key>): set<Call>
    decreases |Pending(reg, ancestors)|, 1, |deps|
  {
    if deps == [] then {}
    else Calls(reg, deps[0], ancestors) + CallsArgs(reg, deps[1..], ancestors)
  }

  /** A key that is already an ancestor is answered with null and no nested
      Resolve is called.  That its factory is not invoked shows in the first
      clause: an invoked type factory would give a Built object, and an
      invoked instance factory its stored pointer, which need not be null. */
  lemma CycleGuard(reg: Registry, key: Key, ancestors: seq<Key>)
    requires key in ancestors
    ensures Resolve(reg, key, ancestors) == Null
    ensures Calls(reg, key, ancestors) == {Call(key, ancestors)}
  {
  }

  predicate CtorKey(reg: Registry, k: Key) {
    k in reg && reg[k].Ctor?
  }

  /** The shape of an ancestor list during a resolve: distinct keys, each of
      them registered with a type factory (only those resolve further). */
  predicate WellFormedAncestors(reg: Registry, ancestors: seq<Key>) {
    Distinct(ancestors) && forall k :: k in ancestors ==> CtorKey(reg, k)
  }

  /** Every call below a well-formed ancestor list sees a well-formed list
      that extends it. */
  lemma {:induction false} CallsKeepAncestorsWellFormed(reg: Registry, key: Key, ancestors: seq<Key>)
    requires WellFormedAncestors(reg, ancestors)
    decreases |Pending(reg, ancestors)|, 0
    ensures forall c :: c in Calls(reg, key, ancestors) ==>
              WellFormedAncestors(reg, c.ancestors) && ancestors <= c.ancestors
  {
    if key in reg && key !in ancestors && reg[key].Ctor? {
      var pushed := ancestors + [key];
      PushShrinksPending(reg, ancestors, key);
      assert WellFormedAncestors(reg, pushed) by {
        forall i, j | 0 <= i < j < |pushed| ensures pushed[i] != pushed[j] {
          if j == |ancestors| {
            assert pushed[i] == ancestors[i];
          }
        }
      }
      CallsArgsKeepAncestorsWellFormed(reg, reg[key].deps, pushed);
      forall c | c in Calls(reg, key, ancestors)
        ensures WellFormedAncestors(reg, c.ancestors) && ancestors <= c.ancestors
      {
        if c != Call(key, ancestors) {
          assert c in CallsArgs(reg, reg[key].deps, pushed);
          assert ancestors <= pushed <= c.ancestors;
          assert c.ancestors[..|ancestors|] == ancestors;
        }
      }
    }
  }

  lemma {:induction false} CallsArgsKeepAncestorsWellFormed(reg: Registry, deps: seq<Key>, ancestors: seq<Key>)
    requires WellFormedAncestors(reg, ancestors)
    decreases |Pending(reg, ancestors)|, 1, |deps|
    ensures forall c :: c in CallsArgs(reg, deps, ancestors) ==>
              WellFormedAncestors(reg, c.ancestors) && ancestors <= c.ancestors
  {
    if deps != [] {
      CallsKeepAncestorsWellFormed(reg, deps[0], ancestors);
      CallsArgsKeepAncestorsWellFormed(reg, deps[1..], ancestors);
    }
  }

  lemma {:induction false} DistinctElems(s: seq<Key>)
    requires Distinct(s)
    ensures |Elems(s)| == |s|
  {
    if s != [] {
      var init := s[..|s| - 1];
      assert Distinct(init);
      DistinctElems(init);
      assert Elems(s) == Elems(init) + {s[|s| - 1]};
      assert s[|s| - 1] !in Elems(init);
    }
  }

  lemma SubsetCard(a: set<Key>, b: set<Key>)
    requires a <= b
    ensures |a| <= |b|
  {
    assert b == a + (b - a);
  }

  /** During a top-level resolve (empty ancestor list) the ancestor list of
      every call holds distinct keys registered with type factories, so the
      recursion is never deeper than the number of registrations. */
  lemma AncestorsBoundedByRegistrations(reg: Registry, key: Key, c: Call)
    requires c in Calls(reg, key, [])
    ensures WellFormedAncestors(reg, c.ancestors)
    ensures |c.ancestors| <= |reg|
  {
    CallsKeepAncestorsWellFormed(reg, key, []);
    DistinctElems(c.ancestors);
    SubsetCard(Elems(c.ancestors), reg.Keys);
  }

  /** An instance registration is never its own ancestor: every call that
      asks for it during a top-level resolve gets the identical stored
      pointer. */
  lemma InstanceIdenticalInEveryCall(reg: Registry, key: Key, c: Call)
    requires c in Calls(reg, key, [])
    requires c.key in reg && reg[c.key].Instance?
    ensures Resolve(reg, c.key, c.ancestors) == reg[c.key].ptr
  {
    CallsKeepAncestorsWellFormed(reg, key, []);
    assert !CtorKey(reg, c.key);
  }

  /* ---------------------------------------------------------------------
     What a resolve depends on: only the registrations of the keys it calls. */

  predicate AgreeAt(r1: Registry, r2: Registry, k: Key) {
    (k in r1 <==> k in r2) && (k in r1 ==> r1[k] == r2[k])
  }

  lemma {:induction false} ResolveDependsOnlyOnCalls(r1: Registry, r2: Registry, key: Key, ancestors: seq<Key>)
    requires forall c :: c in Calls(r1, key, ancestors) ==> AgreeAt(r1, r2, c.key)
    decreases |Pending(r1, ancestors)|, 0
    ensures Resolve(r1, key, ancestors) == Resolve(r2, key, ancestors)
  {
    assert Call(key, ancestors) in Calls(r1, key, ancestors);
    if key in r1 && key !in ancestors && r1[key].Ctor? {
      PushShrinksPending(r1, ancestors, key);
      var deps := r1[key].deps;
      ResolveArgsDependsOnlyOnCalls(r1, r2, deps, ancestors + [key]);
    }
  }

  lemma {:induction false} ResolveArgsDependsOnlyOnCalls(r1: Registry, r2: Registry, deps: seq<Key>, ancestors: seq<Key>)
    requires forall c :: c in CallsArgs(r1, deps, ancestors) ==> AgreeAt(r1, r2, c.key)
    decreases |Pending(r1, ancestors)|, 1, |deps|
    ensures ResolveArgs(r1, deps, ancestors) == ResolveArgs(r2, deps, ancestors)
  {
    if deps != [] {
      ResolveDependsOnlyOnCalls(r1, r2, deps[0], ancestors);
      ResolveArgsDependsOnlyOnCalls(r1, r2, deps[1..], ancestors);
    }
  }

  /** Registering a factory for `i` changes no resolve that never asks for
      `i`: every other key's registration is left as it was. */
  lemma RegisterLeavesOtherResolvesUnchanged(reg: Registry, i: Key, f: Factory, key: Key, ancestors: seq<Key>)
    requires forall c :: c in Calls(reg, key, ancestors) ==> c.key != i
    ensures Resolve(reg[i := f], key, ancestors) == Resolve(reg, key, ancestors)
  {
    ResolveDependsOnlyOnCalls(reg, reg[i := f], key, ancestors);
  }

  /** Likewise for removing the registration of `i`. */
  lemma UnregisterLeavesOtherResolvesUnchanged(reg: Registry, i: Key, key: Key, ancestors: seq<Key>)
    requires forall c :: c in Calls(reg, key, ancestors) ==> c.key != i
    ensures Resolve(reg - {i}, key, ancestors) == Resolve(reg, key, ancestors)
  {
    ResolveDependsOnlyOnCalls(reg, reg - {i}, key, ancestors);
  }
}
