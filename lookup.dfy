/**
 * The nested-key walk behind `Config.retrieve_nested_with_default`: a query
 * `"a/b/c"` is split on `/` and the keys are applied one after the other,
 * as `data["a"]["b"]["c"]`. Indexing a mapping by a key it lacks raises
 * `KeyError`; indexing anything that is not a mapping by a string raises
 * `TypeError`; the retrieval turns both into the caller's default.
 */
module NestedLookup {
  import opened Values
  import StrSplit

  /** The two exceptions `current_value[key]` can raise and that are caught. */
  datatype LookupError = KeyError(key: string) | TypeError(key: string)

  datatype Outcome = Reached(value: Value) | Raised(error: LookupError)

  /** `v[key]` for a string key. */
  function Index(v: Value, key: string): (r: Outcome)
    ensures r.Reached? <==> v.Mapping? && key in v.entries
    ensures r.Reached? ==> r.value == v.entries[key]
    ensures r == Raised(KeyError(key)) <==> v.Mapping? && key !in v.entries
    ensures r == Raised(TypeError(key)) <==> !v.Mapping?
  {
    match v
    case Mapping(m) => if key in m then Reached(m[key]) else Raised(KeyError(key))
    case _ => Raised(TypeError(key))
  }

  /** Applies the keys in order, stopping at the first exception. */
  function Walk(v: Value, keys: seq<string>): Outcome
    decreases |keys|
  {
    if |keys| == 0 then Reached(v)
    else match Index(v, keys[0])
      case Reached(w) => Walk(w, keys[1..])
      case Raised(e) => Raised(e)
  }

  /** The query split into keys, exactly as `query.split('/')`. */
  function Keys(query: string): (keys: seq<string>)
    ensures |keys| >= 1
    ensures StrSplit.Join(keys, '/') == query
  {
    StrSplit.JoinSplit(query, '/');
    StrSplit.Split(query, '/')
  }

  /** The value reached, or `default` when a caught exception was raised. */
  function OrDefault(o: Outcome, default: Value): Value
  {
    match o
    case Reached(w) => w
    case Raised(_) => default
  }

  /** `retrieve_nested_with_default` as a value. */
  function Retrieve(data: Value, query: string, default: Value): Value
  {
    OrDefault(Walk(data, Keys(query)), default)
  }

  /**
   * Independent description of a successful walk: `vs` lists the values
   * visited, every value but the last is a mapping holding the next key,
   * and each step goes to that key's entry.
   */
  ghost predicate IsPath(v: Value, keys: seq<string>, vs: seq<Value>)
  {
    && |vs| == |keys| + 1
    && vs[0] == v
    && forall i :: 0 <= i < |keys| ==>
         vs[i].Mapping? && keys[i] in vs[i].entries && vs[i + 1] == vs[i].entries[keys[i]]
  }

  /** Walking a concatenation is walking the first part, then the second. */
  lemma {:induction false} WalkAppend(v: Value, a: seq<string>, b: seq<string>)
    ensures Walk(v, a + b) == match Walk(v, a)
                              case Reached(w) => Walk(w, b)
                              case Raised(e) => Raised(e)
    decreases |a|
  {
    if |a| == 0 {
      assert a + b == b;
    } else {
      assert (a + b)[0] == a[0];
      assert (a + b)[1..] == a[1..] + b;
      match Index(v, a[0])
      case Reached(w) => WalkAppend(w, a[1..], b);
      case Raised(e) =>
    }
  }

  /** When every key is present along a chain of mappings, the walk reaches its end. */
  lemma {:induction false} PathReaches(v: Value, keys: seq<string>, vs: seq<Value>)
    requires IsPath(v, keys, vs)
    ensures Walk(v, keys) == Reached(vs[|keys|])
    decreases |keys|
  {
    if |keys| > 0 {
      assert IsPath(vs[1], keys[1..], vs[1..]) by {
        forall i | 0 <= i < |keys| - 1
          ensures vs[1..][i].Mapping? && keys[1..][i] in vs[1..][i].entries
          ensures vs[1..][i + 1] == vs[1..][i].entries[keys[1..][i]]
        {
          assert vs[1..][i] == vs[i + 1] && keys[1..][i] == keys[i + 1];
        }
      }
      PathReaches(vs[1], keys[1..], vs[1..]);
    }
  }

  /** The values a successful walk visits. */
  ghost function PathOf(v: Value, keys: seq<string>): (vs: seq<Value>)
    requires Walk(v, keys).Reached?
    ensures IsPath(v, keys, vs) && vs[|keys|] == Walk(v, keys).value
    decreases |keys|
  {
    if |keys| == 0 then [v]
    else
      var rest := PathOf(v.entries[keys[0]], keys[1..]);
      assert forall i :: 0 <= i < |keys| - 1 ==> ([v] + rest)[i + 1] == rest[i];
      [v] + rest
  }

  /** A walk succeeds exactly when such a chain exists, and then reaches its last value. */
  lemma WalkReachedIff(v: Value, keys: seq<string>, w: Value)
    ensures Walk(v, keys) == Reached(w) <==> exists vs :: IsPath(v, keys, vs) && vs[|keys|] == w
  {
    if Walk(v, keys) == Reached(w) {
      var vs := PathOf(v, keys);
      assert IsPath(v, keys, vs) && vs[|keys|] == w;
    }
    if exists vs :: IsPath(v, keys, vs) && vs[|keys|] == w {
      var vs :| IsPath(v, keys, vs) && vs[|keys|] == w;
      PathReaches(v, keys, vs);
    }
  }

  /** A key missing at level `i` raises `KeyError` for that key. */
  lemma KeyMissingAt(v: Value, keys: seq<string>, i: nat, m: map<string, Value>)
    requires i < |keys|
    requires Walk(v, keys[..i]) == Reached(Mapping(m))
    requires keys[i] !in m
    ensures Walk(v, keys) == Raised(KeyError(keys[i]))
  {
    assert keys == keys[..i] + keys[i..];
    WalkAppend(v, keys[..i], keys[i..]);
  }

  /** A non-mapping value reached before the last key raises `TypeError`. */
  lemma NotMappingAt(v: Value, keys: seq<string>, i: nat, w: Value)
    requires i < |keys|
    requires Walk(v, keys[..i]) == Reached(w)
    requires !w.Mapping?
    ensures Walk(v, keys) == Raised(TypeError(keys[i]))
  {
    assert keys == keys[..i] + keys[i..];
    WalkAppend(v, keys[..i], keys[i..]);
  }

  /** Success case of the retrieval: the value at the end of the chain of keys. */
  lemma RetrieveFound(data: Value, query: string, default: Value, vs: seq<Value>)
    requires IsPath(data, Keys(query), vs)
    ensures Retrieve(data, query, default) == vs[|Keys(query)|]
  {
    PathReaches(data, Keys(query), vs);
  }

  /** Failure cases of the retrieval: a missing key or a non-mapping gives `default`. */
  lemma RetrieveFailsToDefault(data: Value, query: string, default: Value, i: nat)
    requires i < |Keys(query)|
    requires Walk(data, Keys(query)[..i]).Reached?
    requires var w := Walk(data, Keys(query)[..i]).value;
             !(w.Mapping? && Keys(query)[i] in w.entries)
    ensures Retrieve(data, query, default) == default
  {
    var keys := Keys(query);
    var w := Walk(data, keys[..i]).value;
    if w.Mapping? {
      KeyMissingAt(data, keys, i, w.entries);
    } else {
      NotMappingAt(data, keys, i, w);
    }
  }

  /** Every query on `{}` (the data of a fresh or file-less config) gives `default`. */
  lemma RetrieveOnEmpty(query: string, default: Value)
    ensures Retrieve(EmptyMapping, query, default) == default
  {
  }

  /** Joining separator-free keys with `/` gives a query that splits back into them. */
  lemma KeysOfJoin(keys: seq<string>)
    requires |keys| >= 1
    requires forall i :: 0 <= i < |keys| ==> '/' !in keys[i]
    ensures Keys(StrSplit.Join(keys, '/')) == keys
  {
    forall i | 0 <= i < |keys| ensures StrSplit.SepFree(keys[i], '/') {
      assert forall k :: 0 <= k < |keys[i]| ==> keys[i][k] in keys[i];
    }
    StrSplit.SplitJoin(keys, '/');
  }
}
