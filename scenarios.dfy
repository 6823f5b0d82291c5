/** The object graphs the container's tests build, resolved through the
    model.  Each type of the test fixtures gets a key; a type registered as
    itself uses its key as its concrete tag too. */
module Scenarios {
  import opened Factories
  import Container

  const INumber: Key := 0
  const NumberOne: nat := 1
  const NumberTwo: nat := 2

  const Milk: Key := 10
  const Cereal: Key := 11
  const Breakfast: Key := 12

  const Chicken: Key := 20
  const Egg: Key := 21

  const A: Key := 30
  const B: Key := 31
  const C: Key := 32

  const Class1: Key := 40
  const Class2: Key := 41
  const Class3: Key := 42

  /** Breakfast(Milk, Cereal): both arguments are built, in order. */
  lemma ConstructorInjection()
    ensures var reg := map[Milk := Ctor(Milk, []), Cereal := Ctor(Cereal, []),
                           Breakfast := Ctor(Breakfast, [Milk, Cereal])];
            Resolve(reg, Breakfast, []) == Built(Breakfast, [Built(Milk, []), Built(Cereal, [])])
  {
    var reg := map[Milk := Ctor(Milk, []), Cereal := Ctor(Cereal, []),
                   Breakfast := Ctor(Breakfast, [Milk, Cereal])];
    assert [] + [Breakfast] == [Breakfast];
    assert [Breakfast] + [Milk] == [Breakfast, Milk] && [Breakfast] + [Cereal] == [Breakfast, Cereal];
    assert Resolve(reg, Milk, [Breakfast]) == Built(Milk, []);
    assert Resolve(reg, Cereal, [Breakfast]) == Built(Cereal, []);
  }

  /** Chicken(Egg), Egg(Chicken): the cycle is broken one level down, at the
      egg's chicken, not at the root. */
  lemma ChickenAndEgg()
    ensures var reg := map[Chicken := Ctor(Chicken, [Egg]), Egg := Ctor(Egg, [Chicken])];
            Resolve(reg, Chicken, []) == Built(Chicken, [Built(Egg, [Null])])
  {
    var reg := map[Chicken := Ctor(Chicken, [Egg]), Egg := Ctor(Egg, [Chicken])];
    assert [] + [Chicken] == [Chicken] && [Chicken] + [Egg] == [Chicken, Egg];
    assert Resolve(reg, Chicken, [Chicken, Egg]) == Null;
    assert Resolve(reg, Egg, [Chicken]) == Built(Egg, [Null]);
  }

  /** A(B, C), B(C), C(B): A, A.B, A.C, A.B.C and A.C.B are built, A.B.C.B
      and A.C.B.C are null. */
  lemma TwoBranchCycle()
    ensures var reg := map[A := Ctor(A, [B, C]), B := Ctor(B, [C]), C := Ctor(C, [B])];
            Resolve(reg, A, []) ==
              Built(A, [Built(B, [Built(C, [Null])]), Built(C, [Built(B, [Null])])])
  {
    var reg := map[A := Ctor(A, [B, C]), B := Ctor(B, [C]), C := Ctor(C, [B])];
    assert [] + [A] == [A] && [A] + [B] == [A, B] && [A] + [C] == [A, C];
    assert [A, B] + [C] == [A, B, C] && [A, C] + [B] == [A, C, B];
    assert Resolve(reg, B, [A, B, C]) == Null;
    assert Resolve(reg, C, [A, B]) == Built(C, [Null]);
    assert Resolve(reg, B, [A]) == Built(B, [Built(C, [Null])]);
    assert Resolve(reg, C, [A, C, B]) == Null;
    assert Resolve(reg, B, [A, C]) == Built(B, [Null]);
    assert Resolve(reg, C, [A]) == Built(C, [Built(B, [Null])]);
  }

  /** Class1(Class2), Class2(Class1, Class3), Class3(Class1): Class1.Class2
      is built with a null first argument and a Class3 whose own argument is
      null. */
  lemma ThreeClassCycle()
    ensures var reg := map[Class1 := Ctor(Class1, [Class2]), Class2 := Ctor(Class2, [Class1, Class3]),
                           Class3 := Ctor(Class3, [Class1])];
            Resolve(reg, Class1, []) == Built(Class1, [Built(Class2, [Null, Built(Class3, [Null])])])
  {
    var reg := map[Class1 := Ctor(Class1, [Class2]), Class2 := Ctor(Class2, [Class1, Class3]),
                   Class3 := Ctor(Class3, [Class1])];
    assert [] + [Class1] == [Class1] && [Class1] + [Class2] == [Class1, Class2];
    assert [Class1, Class2] + [Class3] == [Class1, Class2, Class3];
    assert Resolve(reg, Class1, [Class1, Class2]) == Null;
    assert Resolve(reg, Class1, [Class1, Class2, Class3]) == Null;
    assert Resolve(reg, Class3, [Class1, Class2]) == Built(Class3, [Null]);
    assert Resolve(reg, Class2, [Class1]) == Built(Class2, [Null, Built(Class3, [Null])]);
  }

  /* Client sequences on the container class, as the tests run them. */

  method NothingRegistered() {
    var container := new Container.FactoryContainer();
    var v := container.Resolve(INumber);
    assert v == Null;
  }

  method SameTypeTwiceKeepsTheLast() {
    var container := new Container.FactoryContainer();
    container.RegisterType(INumber, NumberOne, []);
    container.RegisterType(INumber, NumberTwo, []);
    var v := container.Resolve(INumber);
    assert v == Built(NumberTwo, []);
  }

  method InstanceIsSameInstance(instance: nat) {
    var container := new Container.FactoryContainer();
    container.RegisterInstance(INumber, Shared(instance));
    var first := container.Resolve(INumber);
    var second := container.Resolve(INumber);
    assert first == second == Shared(instance);
  }

  method UnregisterForgetsTheType() {
    var container := new Container.FactoryContainer();
    container.RegisterType(INumber, NumberOne, []);
    var before := container.Resolve(INumber);
    assert before != Null;
    container.Unregister(INumber);
    var after := container.Resolve(INumber);
    assert after == Null;
    container.Unregister(INumber);
    assert container.factories == map[];
  }

  method CircularDependency() {
    var container := new Container.FactoryContainer();
    container.RegisterType(Chicken, Chicken, [Egg]);
    container.RegisterType(Egg, Egg, [Chicken]);
    var chicken := container.Resolve(Chicken);
    ChickenAndEgg();
    assert container.factories == map[Chicken := Ctor(Chicken, [Egg]), Egg := Ctor(Egg, [Chicken])];
    assert chicken == Built(Chicken, [Built(Egg, [Null])]);
  }
}
