/**
 * The `Singleton` metaclass: one table, shared by every class that uses the
 * metaclass, from class to its one instance. Calling a class looks the class
 * up; only the first call runs its constructor, with that call's arguments,
 * and stores the result.
 */
module SingletonMeta {
  import opened Values

  /**
   * The identity of a class object that uses the metaclass (the table is keyed
   * by the class itself, so two classes of the same name in different modules
   * have different identities).
   */
  type ClassId = string

  /** The `*args, **kwargs` of a constructor call. */
  datatype Args = Args(positional: seq<Value>, keyword: map<string, Value>)

  /**
   * What a constructor run produces: an object of class `cls`, told apart
   * from every other object by `serial` (the number of constructor runs
   * before it), built from `args`.
   */
  datatype Instance = Instance(cls: ClassId, serial: nat, args: Args)

  /** The shared table and the number of constructor runs so far. */
  datatype Registry = Registry(instances: map<ClassId, Instance>, runs: nat)

  const EmptyRegistry: Registry := Registry(map[], 0)

  /**
   * Every stored instance belongs to its key's class, each run stored exactly
   * one instance (so a class's constructor ran at most once), and no two
   * classes share an instance.
   */
  ghost predicate Valid(r: Registry)
  {
    && r.runs == |r.instances|
    && (forall c :: c in r.instances ==> r.instances[c].cls == c && r.instances[c].serial < r.runs)
    && (forall c, d :: c in r.instances && d in r.instances && c != d ==>
          r.instances[c].serial != r.instances[d].serial)
  }

  /** `cls(*args, **kwargs)` as one step on registry `r`: the new registry and the instance returned. */
  function Step(r: Registry, cls: ClassId, args: Args): (Registry, Instance)
  {
    if cls in r.instances then (r, r.instances[cls])
    else
      var inst := Instance(cls, r.runs, args);
      (Registry(r.instances[cls := inst], r.runs + 1), inst)
  }

  lemma EmptyRegistryValid()
    ensures Valid(EmptyRegistry)
  {
  }

  /** A call keeps the registry valid and returns the instance stored for the class. */
  lemma CallValid(r: Registry, cls: ClassId, args: Args)
    requires Valid(r)
    ensures var (r', inst) := Step(r, cls, args);
            && Valid(r')
            && cls in r'.instances && r'.instances[cls] == inst && inst.cls == cls
            && r.instances.Keys <= r'.instances.Keys
            && (forall c :: c in r.instances ==> r'.instances[c] == r.instances[c])
  {
    if cls !in r.instances {
      var (r', inst) := Step(r, cls, args);
      assert r'.instances.Keys == r.instances.Keys + {cls};
      assert |r'.instances| == |r.instances| + 1;
    }
  }

  /** Once a class is registered, calling it again changes nothing and ignores the arguments. */
  lemma CallAgain(r: Registry, cls: ClassId, args1: Args, args2: Args)
    ensures var (r1, inst1) := Step(r, cls, args1);
            Step(r1, cls, args2) == (r1, inst1)
  {
  }

  /** The constructor runs exactly when the class is not yet registered. */
  lemma CallRunsConstructor(r: Registry, cls: ClassId, args: Args)
    ensures var (r', inst) := Step(r, cls, args);
            && (cls in r.instances ==> r' == r && inst == r.instances[cls])
            && (cls !in r.instances ==> r'.runs == r.runs + 1 && inst == Instance(cls, r.runs, args))
  {
  }

  /** A program's sequence of constructor calls. */
  datatype Request = Request(cls: ClassId, args: Args)

  /** The calls made one after the other: the final registry and every instance returned. */
  function CallAll(r: Registry, calls: seq<Request>): (res: (Registry, seq<Instance>))
    ensures |res.1| == |calls|
    decreases |calls|
  {
    if |calls| == 0 then (r, [])
    else
      var first := Step(r, calls[0].cls, calls[0].args);
      var rest := CallAll(first.0, calls[1..]);
      (rest.0, [first.1] + rest.1)
  }

  /** The classes called in `calls`. */
  ghost function Classes(calls: seq<Request>): set<ClassId>
  {
    set i | 0 <= i < |calls| :: calls[i].cls
  }

  lemma ClassesCons(calls: seq<Request>)
    requires |calls| > 0
    ensures Classes(calls) == {calls[0].cls} + Classes(calls[1..])
  {
    forall c | c in Classes(calls) ensures c in {calls[0].cls} + Classes(calls[1..]) {
      var i :| 0 <= i < |calls| && calls[i].cls == c;
      if i > 0 { assert calls[1..][i - 1].cls == c; }
    }
    forall c | c in Classes(calls[1..]) ensures c in Classes(calls) {
      var i :| 0 <= i < |calls[1..]| && calls[1..][i].cls == c;
      assert calls[i + 1].cls == c;
    }
  }

  /** Over a sequence of calls the registry stays valid. */
  lemma {:induction false} CallAllValid(r: Registry, calls: seq<Request>)
    requires Valid(r)
    ensures Valid(CallAll(r, calls).0)
    decreases |calls|
  {
    if |calls| > 0 {
      var r1 := Step(r, calls[0].cls, calls[0].args).0;
      CallValid(r, calls[0].cls, calls[0].args);
      CallAllValid(r1, calls[1..]);
      assert CallAll(r, calls).0 == CallAll(r1, calls[1..]).0;
    }
  }

  /** Every instance held before is kept, and exactly the called classes are added. */
  lemma {:induction false} CallAllKeys(r: Registry, calls: seq<Request>)
    ensures CallAll(r, calls).0.instances.Keys == r.instances.Keys + Classes(calls)
    ensures forall c :: c in r.instances ==> CallAll(r, calls).0.instances[c] == r.instances[c]
    decreases |calls|
  {
    if |calls| > 0 {
      var r1 := Step(r, calls[0].cls, calls[0].args).0;
      assert r1.instances.Keys == r.instances.Keys + {calls[0].cls};
      assert forall c :: c in r.instances ==> r1.instances[c] == r.instances[c];
      CallAllKeys(r1, calls[1..]);
      assert CallAll(r, calls).0 == CallAll(r1, calls[1..]).0;
      ClassesCons(calls);
    }
  }

  /** The i-th call returns what the final registry stores for its class. */
  lemma {:induction false} CallAllReturnsStored(r: Registry, calls: seq<Request>, i: nat)
    requires i < |calls|
    ensures calls[i].cls in CallAll(r, calls).0.instances
    ensures CallAll(r, calls).1[i] == CallAll(r, calls).0.instances[calls[i].cls]
    decreases |calls|
  {
    var first := Step(r, calls[0].cls, calls[0].args);
    var rest := CallAll(first.0, calls[1..]);
    assert CallAll(r, calls) == (rest.0, [first.1] + rest.1);
    CallAllKeys(first.0, calls[1..]);
    if i > 0 {
      assert calls[1..][i - 1] == calls[i];
      CallAllReturnsStored(first.0, calls[1..], i - 1);
    }
  }

  /** Every call for the same class returns the identical instance, whatever its arguments. */
  lemma SameClassSameInstance(r: Registry, calls: seq<Request>, i: nat, j: nat)
    requires i < |calls| && j < |calls| && calls[i].cls == calls[j].cls
    ensures CallAll(r, calls).1[i] == CallAll(r, calls).1[j]
  {
    CallAllReturnsStored(r, calls, i);
    CallAllReturnsStored(r, calls, j);
  }

  /** Calls for different classes return different instances. */
  lemma DistinctClassesDistinctInstances(r: Registry, calls: seq<Request>, i: nat, j: nat)
    requires Valid(r)
    requires i < |calls| && j < |calls| && calls[i].cls != calls[j].cls
    ensures CallAll(r, calls).1[i] != CallAll(r, calls).1[j]
    ensures CallAll(r, calls).1[i].serial != CallAll(r, calls).1[j].serial
  {
    CallAllValid(r, calls);
    CallAllReturnsStored(r, calls, i);
    CallAllReturnsStored(r, calls, j);
  }

  /** Two disjoint sets of classes together have as many elements as both. */
  lemma {:induction false} DisjointUnionSize(a: set<ClassId>, b: set<ClassId>)
    requires a * b == {}
    ensures |a + b| == |a| + |b|
    decreases |b|
  {
    if b != {} {
      var x :| x in b;
      DisjointUnionSize(a, b - {x});
      assert a + b == (a + (b - {x})) + {x};
    }
  }

  /** The constructors ran once for each newly called class and never more. */
  lemma {:induction false} ConstructorRunsOncePerClass(r: Registry, calls: seq<Request>)
    requires Valid(r)
    ensures CallAll(r, calls).0.runs == r.runs + |Classes(calls) - r.instances.Keys|
  {
    CallAllValid(r, calls);
    CallAllKeys(r, calls);
    var r' := CallAll(r, calls).0;
    var old_keys, added := r.instances.Keys, Classes(calls) - r.instances.Keys;
    assert old_keys * added == {};
    DisjointUnionSize(old_keys, added);
    calc {
      r'.runs;
      |r'.instances.Keys|;
      { assert r'.instances.Keys == old_keys + added; }
      |old_keys + added|;
      |old_keys| + |added|;
      r.runs + |added|;
    }
  }

  /**
   * The instance of a class new to the registry is built from the arguments of
   * the first call for it; the arguments of later calls play no part.
   */
  lemma {:induction false} FirstCallArgs(r: Registry, calls: seq<Request>, i: nat)
    requires i < |calls| && calls[i].cls !in r.instances
    requires forall k :: 0 <= k < i ==> calls[k].cls != calls[i].cls
    ensures CallAll(r, calls).1[i].args == calls[i].args
    decreases i
  {
    if i > 0 {
      var r1 := Step(r, calls[0].cls, calls[0].args).0;
      assert calls[i].cls !in r1.instances;
      forall k | 0 <= k < i - 1 ensures calls[1..][k].cls != calls[1..][i - 1].cls {
        assert calls[1..][k] == calls[k + 1];
      }
      FirstCallArgs(r1, calls[1..], i - 1);
    }
  }

  /** The metaclass's shared `_instances` table, updated in place. */
  class Singleton {
    var instances: map<ClassId, Instance>
    var runs: nat

    function State(): Registry
      reads this
    {
      Registry(instances, runs)
    }

    constructor ()
      ensures State() == EmptyRegistry && Valid(State())
    {
      instances := map[];
      runs := 0;
    }

    /** `Singleton.__call__`: stores a new instance on the first call for `cls`, then returns the stored one. */
    method Call(cls: ClassId, args: Args) returns (inst: Instance)
      requires Valid(State())
      modifies this
      ensures Valid(State())
      ensures (State(), inst) == Step(old(State()), cls, args)
      ensures cls in instances && instances[cls] == inst
      ensures cls in old(instances) ==> inst == old(instances)[cls] && State() == old(State())
    {
      CallValid(State(), cls, args);
      if cls !in instances {
        instances := instances[cls := Instance(cls, runs, args)];
        runs := runs + 1;
      }
      inst := instances[cls];
    }
  }
}
