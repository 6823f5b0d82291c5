/** The FactoryContainer class: a registry field that the register and
    unregister operations update in place, and a recursive resolver that
    pushes onto and pops from one shared ancestor list. */
module Container {
  import F = Factories

  /** The std::vector of type keys that one top-level Resolve allocates and
      hands, by pointer, to every nested Resolve and factory call. */
  class AncestorList {
    var keys: seq<F.Key>

    constructor()
      ensures keys == []
    {
      keys := [];
    }

    method Push(k: F.Key)
      modifies this
      ensures keys == old(keys) + [k]
    {
      keys := keys + [k];
    }

    method Pop()
      requires keys != []
      modifies this
      ensures keys == old(keys)[..|old(keys)| - 1]
    {
      keys := keys[..|keys| - 1];
    }

    /** The linear std::find over the list. */
    method Find(k: F.Key) returns (found: bool)
      ensures found <==> k in keys
    {
      var n := 0;
      while n < |keys|
        invariant n <= |keys|
        invariant k !in keys[..n]
      {
        if keys[n] == k {
          return true;
        }
        n := n + 1;
      }
      assert keys[..n] == keys;
      return false;
    }
  }

  /** The argument positions of a constructor with `n` parameters. */
  function Positions(n: nat): (r: set<nat>)
    ensures forall j: int :: j in r <==> 0 <= j < n
  {
    if n == 0 then {} else Positions(n - 1) + {n - 1}
  }

  class FactoryContainer {
    var factories: F.Registry

    constructor()
      ensures factories == map[]
    {
      factories := map[];
    }

    /** Registers the concrete type `tag`, built from the resolutions of
        `deps`, under `i`, replacing any earlier registration of `i`. */
    method RegisterType(i: F.Key, tag: nat, deps: seq<F.Key>)
      modifies this
      ensures factories == old(factories)[i := F.Ctor(tag, deps)]
      ensures i in factories && factories[i] == F.Ctor(tag, deps)
      ensures forall k :: k != i ==> F.AgreeAt(factories, old(factories), k)
    {
      RegisterFactory(i, F.Ctor(tag, deps));
    }

    /** Registers the pointer `instance` under `i`, replacing any earlier
        registration of `i`. */
    method RegisterInstance(i: F.Key, instance: F.Value)
      modifies this
      ensures factories == old(factories)[i := F.Instance(instance)]
      ensures i in factories && factories[i] == F.Instance(instance)
      ensures forall k :: k != i ==> F.AgreeAt(factories, old(factories), k)
    {
      RegisterFactory(i, F.Instance(instance));
    }

    /** Removes the registration of `i` if there is one. */
    method Unregister(i: F.Key)
      modifies this
      ensures factories == old(factories) - {i}
      ensures i !in factories
      ensures forall k :: k != i ==> F.AgreeAt(factories, old(factories), k)
      ensures i !in old(factories) ==> factories == old(factories)
    {
      if i in factories {
        factories := factories - {i};
      }
    }

    /** Unregisters `i`, then stores `f` under it: exactly one entry for `i`
        remains afterwards, the new one. */
    method RegisterFactory(i: F.Key, f: F.Factory)
      modifies this
      ensures factories == old(factories)[i := f]
    {
      Unregister(i);
      factories := factories[i := f];
    }

    /** The public Resolve: starts from a fresh, empty ancestor list. */
    method Resolve(i: F.Key) returns (v: F.Value)
      ensures v == F.Resolve(factories, i, [])
    {
      var ancestors := new AncestorList();
      v := ResolveWith(i, ancestors);
    }

    /** The private Resolve.  It leaves the ancestor list as it found it, so
        sibling dependencies are all resolved against the same list. */
    method ResolveWith(i: F.Key, ancestors: AncestorList) returns (v: F.Value)
      modifies ancestors
      decreases |F.Pending(factories, ancestors.keys)|, 0
      ensures ancestors.keys == old(ancestors.keys)
      ensures v == F.Resolve(factories, i, old(ancestors.keys))
    {
      if i !in factories {
        return F.Null;
      }
      var cyclic := ancestors.Find(i);
      if cyclic {
        return F.Null;
      }
      F.PushShrinksPending(factories, ancestors.keys, i);
      ancestors.Push(i);
      v := Invoke(factories[i], ancestors);
      ancestors.Pop();
    }

    /** Calls a stored factory closure.  C++ leaves the evaluation order of
        the constructor's arguments unspecified, so the dependencies are
        resolved here in an arbitrary order, each into its own slot. */
    method Invoke(f: F.Factory, ancestors: AncestorList) returns (v: F.Value)
      modifies ancestors
      decreases |F.Pending(factories, ancestors.keys)|, 1
      ensures ancestors.keys == old(ancestors.keys)
      ensures v == F.Invoke(factories, f, old(ancestors.keys))
    {
      match f
      case Instance(ptr) =>
        v := ptr;
      case Ctor(tag, deps) =>
        var args := new F.Value[|deps|];
        var todo := Positions(|deps|);
        while todo != {}
          invariant ancestors.keys == old(ancestors.keys)
          invariant forall j: int :: j in todo ==> 0 <= j < |deps|
          invariant forall j :: 0 <= j < |deps| && j !in todo ==>
                      args[j] == F.Resolve(factories, deps[j], old(ancestors.keys))
          decreases |todo|
        {
          var j :| j in todo;
          var a := ResolveWith(deps[j], ancestors);
          args[j] := a;
          todo := todo - {j};
        }
        assert args[..] == F.ResolveArgs(factories, deps, old(ancestors.keys));
        v := F.Built(tag, args[..]);
    }
  }
}
