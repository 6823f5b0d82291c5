# FactoryContainer in Dafny

A model of `FactoryContainer`, a small inversion-of-control container for
C++. The container maps the identity of an abstract type to a factory. A
factory is either a stored `shared_ptr` (`RegisterInstance<I>`) or the
constructor of a concrete type `T` with its parameter types
(`RegisterType<I, T, Deps...>`). `Resolve<I>()` looks up the factory and
invokes it. A type factory first resolves each constructor parameter type
recursively and then builds a new `T`. An ancestor list holds the keys
currently being resolved on the call path. It breaks dependency cycles: a
key that is already its own ancestor resolves to null, and its factory is
not invoked.

The project has three modules:

- `Factories` (factories.dfy) holds the registry as a value and resolution
  as mutually recursive functions: `Resolve` is the private recursive
  `Resolve`, `Invoke` calls a factory closure and `ResolveArgs` expands the
  constructor's parameter pack. Type keys, concrete-type tags and instance
  identities are `nat`. A resolved pointer is `Null`, `Shared(id)` (a
  pre-built instance) or `Built(tag, args)` (a new object of type `tag`
  holding its constructor arguments). Resolution terminates on any registry,
  cyclic ones included. The measure is the number of registered keys not
  yet on the ancestor list. The ghost function `Calls` collects every
  invocation of the private `Resolve` in one call tree. The lemmas about it
  show:
  - the ancestor list stays a list of distinct type-registered keys, no
    longer than the number of registrations;
  - an instance key always yields its stored pointer;
  - a resolve depends only on the registrations of the keys it asks for.
- `Container` (container.dfy) holds the class itself. `FactoryContainer`
  has a `map` field that `RegisterType`, `RegisterInstance`,
  `RegisterFactory` and `Unregister` update in place. `AncestorList` is the
  `std::vector` that one top-level `Resolve` allocates and hands by pointer
  to every nested call, with `Push`, `Pop` and the linear `Find`. The
  methods `Resolve`, `ResolveWith` and `Invoke` are proved equal to the
  functions of `Factories`, and they leave the ancestor list as they found
  it. C++ does not specify the order in which the arguments of
  `std::make_shared<T>(Resolve<Deps>(ancestor_list)...)` are evaluated. So
  the method `Invoke` resolves the dependencies in an arbitrary order, each
  into its own slot, and is still proved to yield the positional result.
- `Scenarios` (scenarios.dfy) resolves the object graphs of the tests:
  constructor injection, the chicken-and-egg cycle, the A/B/C cycle and the
  Class1/Class2/Class3 cycle. It also has client methods that drive the
  class the way the tests do: `NothingRegistered`,
  `SameTypeTwiceKeepsTheLast`, `InstanceIsSameInstance` and
  `CircularDependency`. A fifth, `UnregisterForgetsTheType`, has no
  matching test. It follows the comment on `Unregister` at
  `FactoryContainer.hpp:75-76`, which says that `Resolve` returns null
  after the call. These methods only make assertions, so they have no rows
  below.

`FactoryContainer.hpp:132-137` pushes the key, calls the factory and pops
the key, with no guard around the call. If the factory throws, the key stays
on the list, but the exception leaves the public `Resolve`. The vector is
local to that call (`FactoryContainer.hpp:96`) and is destroyed during
unwinding, so no later call sees the stale key. The model has no
exceptions.

## Model

| member | source | states |
|---|---|---|
| `Factories.Resolve` | FactoryContainer.hpp:117-143 | The result is non-null exactly when the key is registered, is not on the ancestor list, and is not registered with a null instance. An unregistered key or a cycle yields null. |
| `Factories.Invoke` | FactoryContainer.hpp:52-71 | A factory returns null only when it is an instance registration of a null pointer. `make_shared` always yields an object. |
| `Factories.ResolveArgs` | FactoryContainer.hpp:57 | The expanded parameter pack has one entry per declared dependency. Entry j is the resolution of dependency j against the same ancestor list. |
| `Factories.PushShrinksPending` | FactoryContainer.hpp:125-132 | Pushing a registered key that is not yet an ancestor removes exactly that key from the pending keys, so the pending count drops by one. This is the termination measure of resolution. |
| `Factories.ConstructorArgumentsArePositional` | FactoryContainer.hpp:52-58 | Resolving a type registration that is not its own ancestor builds an object of the registered concrete type with one argument per dependency, for every arity (a type with no dependencies gives an object with no arguments). For every i, argument i is the resolution of dependency i with the resolved key pushed. |
| `Factories.InstanceIsShared` | FactoryContainer.hpp:65-73 | An instance registration resolves to the identical stored pointer whenever the key is not its own ancestor. |
| `Factories.CycleGuard` | FactoryContainer.hpp:124-129 | A key already on the ancestor list resolves to null, and no nested resolve is made. The null result shows that the factory is not invoked: an invoked type factory gives a built object, and an invoked instance factory gives its stored pointer. |
| `Factories.CallsKeepAncestorsWellFormed` | FactoryContainer.hpp:125-137 | Start from an ancestor list of distinct type-registered keys. Every call in the resolve tree then sees such a list, and that list extends the starting one. |
| `Factories.CallsArgsKeepAncestorsWellFormed` | FactoryContainer.hpp:57 | The same holds for every call made while resolving a dependency list. |
| `Factories.AncestorsBoundedByRegistrations` | FactoryContainer.hpp:92-98 | In a top-level resolve, every call's ancestor list holds distinct keys registered with type factories. Its length is at most the number of registrations. |
| `Factories.InstanceIdenticalInEveryCall` | FactoryContainer.hpp:65-73 | During a top-level resolve, every call that asks for an instance-registered key gets the identical stored pointer. |
| `Factories.ResolveDependsOnlyOnCalls` | FactoryContainer.hpp:117-143 | Two registries that agree on every key the resolve tree asks for give the same resolution. |
| `Factories.ResolveArgsDependsOnlyOnCalls` | FactoryContainer.hpp:57 | The same holds for a dependency list. |
| `Factories.RegisterLeavesOtherResolvesUnchanged` | FactoryContainer.hpp:106-115 | Registering a factory for `i` does not change any resolution that never asks for `i`. |
| `Factories.UnregisterLeavesOtherResolvesUnchanged` | FactoryContainer.hpp:77-86 | Removing the registration of `i` does not change any resolution that never asks for `i`. |
| `Container.AncestorList.constructor` | FactoryContainer.hpp:96 | A new ancestor list is empty. |
| `Container.AncestorList.Push` | FactoryContainer.hpp:132 | `push_back` appends the key. |
| `Container.AncestorList.Pop` | FactoryContainer.hpp:137 | `pop_back` removes the last key. |
| `Container.AncestorList.Find` | FactoryContainer.hpp:125-126 | The linear search reports true exactly when the key is on the list. |
| `Container.FactoryContainer.constructor` | FactoryContainer.hpp:38-40 | A new container has no registrations. |
| `Container.FactoryContainer.RegisterType` | FactoryContainer.hpp:49-60 | The registry becomes the old one with `i` bound to the type factory. `i` ends with exactly the new factory and every other key's entry is unchanged, so the last registration wins. |
| `Container.FactoryContainer.RegisterInstance` | FactoryContainer.hpp:65-73 | The registry becomes the old one with `i` bound to the stored pointer, whatever that pointer is (null, or an object the container built earlier). Every other key's entry is unchanged. |
| `Container.FactoryContainer.Unregister` | FactoryContainer.hpp:77-86 | `i` is removed and every other entry is unchanged. If `i` was absent, nothing changes. |
| `Container.FactoryContainer.RegisterFactory` | FactoryContainer.hpp:106-115 | Unregistering and then storing leaves the old registry with `i` rebound to the new factory, with no duplicate entry. |
| `Container.FactoryContainer.Resolve` | FactoryContainer.hpp:92-98 | The public resolve returns the recursive resolution from an empty ancestor list. |
| `Container.FactoryContainer.ResolveWith` | FactoryContainer.hpp:117-143 | The private resolve returns the functional resolution and restores the ancestor list it was given. Its push and pop are balanced. |
| `Container.FactoryContainer.Invoke` | FactoryContainer.hpp:52-71 | A factory call yields the functional result for any order of argument evaluation and restores the ancestor list. |
| `Scenarios.ConstructorInjection` | FactoryContainerTests.cpp:116-128 | Breakfast(Milk, Cereal) resolves to a built Breakfast holding a built Milk and a built Cereal, in that order. |
| `Scenarios.ChickenAndEgg` | FactoryContainerTests.cpp:130-139 | Chicken(Egg), Egg(Chicken) resolves to Chicken(Egg(null)). |
| `Scenarios.TwoBranchCycle` | FactoryContainerTests.cpp:141-160 | A(B,C), B(C), C(B) resolves to A(B(C(null)), C(B(null))). |
| `Scenarios.ThreeClassCycle` | FactoryContainerTests.cpp:161-177 | Class1(Class2), Class2(Class1,Class3), Class3(Class1) resolves to Class1(Class2(null, Class3(null))). |

## Left out

- Object identity of built objects is not modelled. `make_shared` creates a
  distinct object on every call, but `Built` values are compared by
  structure. So the model cannot state that two resolves of a type
  registration give different objects. It can state that an instance
  registration always gives the same stored pointer.
- `shared_ptr` reference counting and object lifetime are memory
  management. Instances are abstract ids.
- `std::type_index` / `typeid` become `nat` keys.
- The unchecked `std::static_pointer_cast` at the end of `Resolve` has no
  checked meaning, so the resolved value is returned as it is.
- The variadic template and the `std::function` closure that captures
  `this` become a constructor tag with a list of dependency keys.
- The deleted copy constructor and assignment operator are C++ object-model
  details.
- Exceptions are not modelled. A type factory can throw: `make_shared` can
  throw `std::bad_alloc`, and `T`'s constructor is user code. Nothing catches
  the exception, so it propagates out of the public `Resolve`. The missing
  pop guard does no harm there, because the ancestor vector is local to the
  public `Resolve` (`FactoryContainer.hpp:96`) and is destroyed during
  unwinding.
- Thread safety is not modelled. The class has none and claims none.
- The fixture classes' behaviour (`What`, `Weather`, `GetCalories`) is not
  modelled. The scenarios check the shape of the resolved object graph, not
  the calorie sum that the constructor-injection test computes from it.
