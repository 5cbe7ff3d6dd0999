/** The widget class registry of widgets/registry.py: a dictionary from a
    widget's short name to its class, filled in place by `add`. */
module Registry {
  import opened Results
  import opened Seqs

  /** A widget class, known by its `__name__`; `id` tells apart two classes
      that happen to share a name. */
  datatype WidgetClass = WidgetClass(name: string, id: nat)

  const Suffix: string := "Widget"

  predicate EndsWithWidget(name: string) {
    |name| >= |Suffix| && name[|name| - |Suffix|..] == Suffix
  }

  /** The key `add` files a class under: its name with the six characters of
      `Widget` removed, or a ValueError when the name does not end that way. */
  function RegisteredName(cls: WidgetClass): (r: Result<string>)
    ensures r.Ok? <==> EndsWithWidget(cls.name)
    ensures r.Ok? ==> r.value + Suffix == cls.name
    ensures r.Err? ==> r.error == ValueError
  {
    if !EndsWithWidget(cls.name) then Err(ValueError)
    else Ok(cls.name[..|cls.name| - 6])
  }

  /** Stripping the suffix undoes appending it: `Test1Widget` is filed as `Test1`. */
  lemma RegisteredNameOfSuffixed(base: string, id: nat)
    ensures RegisteredName(WidgetClass(base + Suffix, id)) == Ok(base)
  {
    var n := base + Suffix;
    assert n[|n| - 6..] == Suffix;
    assert n[..|n| - 6] == base;
  }

  class WidgetClassRegistry {
    /** The dictionary's entries. */
    var registry: map<string, WidgetClass>
    /** The dictionary's keys in insertion order (a Python dict keeps it;
        overwriting a key does not move it). */
    var order: seq<string>

    ghost predicate Valid()
      reads this
    {
      NoDup(order) && Elems(order) == registry.Keys
    }

    constructor ()
      ensures Valid() && registry == map[] && order == []
    {
      registry := map[];
      order := [];
    }

    /** `widget_set`: the registered names. */
    function WidgetSet(): (names: set<string>)
      reads this
      requires Valid()
      ensures names == Elems(WidgetList())
      ensures forall n :: n in names <==> HasWidget(n)
    {
      registry.Keys
    }

    /** `widget_list`: the registered names in registration order, each once. */
    function WidgetList(): (names: seq<string>)
      reads this
      requires Valid()
      ensures NoDup(names) && Elems(names) == registry.Keys
    {
      order
    }

    /** `has_widget`. */
    function HasWidget(name: string): (b: bool)
      reads this
      ensures b <==> name in registry
    {
      name in registry
    }

    /** `get_widget_class`: the registered class, or a KeyError. */
    function GetWidgetClass(name: string): (r: Result<WidgetClass>)
      reads this
      ensures r.Ok? <==> HasWidget(name)
      ensures r.Ok? ==> r.value == registry[name]
      ensures r.Err? ==> r.error == KeyError
    {
      if name in registry then Ok(registry[name]) else Err(KeyError)
    }

    /** `add`: files the class under its stripped name, replacing an earlier
        class of that name in place; a name not ending in `Widget` is a
        ValueError and leaves the registry as it was. */
    method Add(cls: WidgetClass) returns (r: Outcome)
      requires Valid()
      modifies this
      ensures Valid()
      ensures r.Fail? <==> !EndsWithWidget(cls.name)
      ensures r.Fail? ==> r.error == ValueError && registry == old(registry) && order == old(order)
      ensures r.Pass? ==> (
        var key := RegisteredName(cls).value;
        && registry == old(registry)[key := cls]
        && GetWidgetClass(key) == Ok(cls)
        && (forall n | n != key :: GetWidgetClass(n) == old(GetWidgetClass(n)))
        && order == if key in old(registry) then old(order) else old(order) + [key])
    {
      var key := RegisteredName(cls);
      if key.Err? {
        return Fail(key.error);
      }
      if key.value !in registry {
        order := order + [key.value];
      }
      registry := registry[key.value := cls];
      r := Pass;
    }
  }

  /** `register_widget`, the class decorator: adds the class to the registry
      and hands the class back unchanged. */
  method RegisterWidget(reg: WidgetClassRegistry, cls: WidgetClass) returns (r: Result<WidgetClass>)
    requires reg.Valid()
    modifies reg
    ensures reg.Valid()
    ensures r.Ok? <==> EndsWithWidget(cls.name)
    ensures r.Ok? ==> r.value == cls && reg.GetWidgetClass(RegisteredName(cls).value) == Ok(cls)
    ensures r.Ok? ==> (
      var key := RegisteredName(cls).value;
      && reg.registry == old(reg.registry)[key := cls]
      && reg.order == if key in old(reg.registry) then old(reg.order) else old(reg.order) + [key])
    ensures r.Err? ==> r.error == ValueError && reg.registry == old(reg.registry) && reg.order == old(reg.order)
  {
    var added := reg.Add(cls);
    if added.Fail? {
      return Err(added.error);
    }
    r := Ok(cls);
  }

  /** The registry tests: two decorated classes are listed in the order they
      were registered and can be looked up by their short names. */
  method RegistryScenario() returns (reg: WidgetClassRegistry)
    ensures fresh(reg) && reg.Valid()
    ensures reg.order == ["Test1", "Test2"]
    ensures reg.registry == map["Test1" := WidgetClass("Test1Widget", 1), "Test2" := WidgetClass("Test2Widget", 2)]
  {
    reg := new WidgetClassRegistry();
    var t1 := WidgetClass("Test1Widget", 1);
    var t2 := WidgetClass("Test2Widget", 2);
    assert t1.name == "Test1" + Suffix;
    RegisteredNameOfSuffixed("Test1", 1);
    var r1 := RegisterWidget(reg, t1);
    assert t2.name == "Test2" + Suffix;
    RegisteredNameOfSuffixed("Test2", 2);
    var r2 := RegisterWidget(reg, t2);
  }

  /** Then: lookups by short name, and a class whose name lacks the suffix is
      refused. */
  method LookupScenario() {
    var reg := RegistryScenario();
    assert reg.HasWidget("Test1");
    assert reg.WidgetSet() == {"Test1", "Test2"};
    assert reg.GetWidgetClass("Test1") == Ok(WidgetClass("Test1Widget", 1));
    assert reg.GetWidgetClass("Test3") == Err(KeyError);
    var bad := reg.Add(WidgetClass("Test1", 3));
    assert bad == Fail(ValueError);
  }
}
