# visual_graph_datasets configuration core, in Dafny

This project models the configuration module of `visual_graph_datasets`
(`visual_graph_datasets/config.py`), and proves properties of that model. The module has three parts:

- the `Config` object: the data loaded from the YAML file `config.yaml` and the path it came from;
- its lookup of nested keys: a query `"a/b"` is split on `/` and applied as `data["a"]["b"]`, and the caller's default comes back if a `KeyError` or `TypeError` is raised;
- the `Singleton` metaclass: one table, shared by every class that uses the metaclass, maps each class to its only instance.

Modules (one concept each):

- `Values` (`values.dfy`): the values a YAML file loads into. These are null, booleans, integers, strings, lists and mappings from string keys. Any other object the loader builds (a float, a timestamp, `!!binary` bytes, a `!!set`, a tuple) is an `Opaque` leaf, known by its type name and text. The module also holds `Option`.
- `StrSplit` (`strsplit.dfy`): Python's `str.split(sep)` and `sep.join`. Empty pieces are kept, so `"a//b"` gives `["a", "", "b"]` and `""` gives `[""]`.
- `NestedLookup` (`lookup.dfy`): one indexing step `v[key]`, with the exception it raises, and the walk over all keys. `Retrieve` is the value of `retrieve_nested_with_default`. `IsPath` describes a successful walk independently, as a chain of mappings.
- `Paths` (`paths.dfy`): POSIX `os.path.join` and `os.path.dirname`.
- `ConfigObject` (`config.dfy`): the default locations, `load_config`, and the class `Config`. Its fields `data` and `path` are updated in place. `RetrieveNestedWithDefault` is a loop proved against `Retrieve`, and the getters delegate to it.
- `SingletonMeta` (`singleton.dfy`): the metaclass table as the class `Singleton` (fields `instances` and `runs`), proved against the pure step function `Step`. `CallAll` is a sequence of calls, and the lemmas about it cover identity, distinct instances, the number of constructor runs and which arguments are used.

Inputs from outside the program are parameters:

- The file system and the YAML parser are the `ConfigFile` given to `Load`: `Missing`, `Parsed(content)` or `Unreadable`.
- The home folder (`pathlib.Path.home()`) is the `home` argument of `FolderPath`, `ConfigPath`, `DefaultDatasetsPath` and `Config.GetDatasetsPath`.
- A constructor run is modelled by the `Instance` it produces. The instance is tagged with the number of earlier runs, so two runs never give the same object.

## Model

| member | source | states |
|---|---|---|
| StrSplit.JoinSplit | visual_graph_datasets/config.py:136 | joining the pieces of `query.split('/')` with `/` gives back the query |
| StrSplit.SplitJoin | visual_graph_datasets/config.py:136 | splitting a `/`-join of separator-free keys gives back exactly those keys |
| StrSplit.SplitPiecesSepFree | visual_graph_datasets/config.py:136 | no key produced by the split contains `/` |
| StrSplit.SplitLength | visual_graph_datasets/config.py:136 | the split has one key more than the query has `/` characters, so it is never empty |
| StrSplit.SplitEdgeCases | visual_graph_datasets/config.py:136 | `''` splits into `['']` and `'a//b'` into `['a', '', 'b']` |
| NestedLookup.Keys | visual_graph_datasets/config.py:136 | the keys of a query are at least one, and they join back into the query |
| NestedLookup.KeysOfJoin | visual_graph_datasets/config.py:136 | a query written as separator-free keys joined by `/` is split into those keys |
| NestedLookup.Index | visual_graph_datasets/config.py:139-142 | `v[key]` succeeds exactly on a mapping holding the key and gives its entry; otherwise it raises `KeyError` on a mapping and `TypeError` on any other value |
| NestedLookup.WalkAppend | visual_graph_datasets/config.py:138-139 | walking keys `a + b` is walking `a` and then `b` from where `a` ended; an exception in `a` stops the walk |
| NestedLookup.PathReaches | visual_graph_datasets/config.py:136-141 | if each intermediate value is a mapping holding the next key, the walk reaches the value at the end of that chain |
| NestedLookup.PathOf | visual_graph_datasets/config.py:136-141 | a successful walk has a chain of mappings that ends at the value it returns |
| NestedLookup.WalkReachedIff | visual_graph_datasets/config.py:136-141 | the walk returns `w` if and only if some chain of mappings along the keys ends at `w` |
| NestedLookup.KeyMissingAt | visual_graph_datasets/config.py:139-142 | a key missing from the mapping reached at its level raises `KeyError` for that key |
| NestedLookup.NotMappingAt | visual_graph_datasets/config.py:139-142 | reaching any value that is not a mapping (string, number, list, null or another leaf) before the last key raises `TypeError` |
| NestedLookup.RetrieveFound | visual_graph_datasets/config.py:134-141 | when every key is present along a chain of mappings, the retrieval returns the value at its end |
| NestedLookup.RetrieveFailsToDefault | visual_graph_datasets/config.py:134-143 | a missing key or a non-mapping at any level makes the retrieval return `default` |
| NestedLookup.RetrieveOnEmpty | visual_graph_datasets/config.py:134-143 | every query on `{}` returns its default |
| Paths.Join | visual_graph_datasets/config.py:21-23 | an absolute second part replaces the first; otherwise the parts are joined by one `/`, or directly when the first part is empty or already ends in `/` |
| Paths.BaseStart | visual_graph_datasets/config.py:105 | the last component starts just after the last `/`, and contains no `/` |
| Paths.RStripSep | visual_graph_datasets/config.py:105 | stripping trailing `/` gives a prefix that does not end in `/`, and only `/` is removed |
| Paths.DirnameShape | visual_graph_datasets/config.py:105 | the folder part is a prefix of the path; after it come only separators and then the last component; it ends in `/` only if it consists of separators alone |
| Paths.DirnameOfBareName | visual_graph_datasets/config.py:105 | a path without a separator has an empty folder part |
| Paths.DirnameOfChild | visual_graph_datasets/config.py:105 | the folder part of `folder/name` is `folder` |
| ConfigObject.DefaultLocationsInFolder | visual_graph_datasets/config.py:20-23 | `config.yaml` and `datasets` lie directly inside `~/.visual_graph_datasets`, for every home folder |
| ConfigObject.LoadConfig | visual_graph_datasets/config.py:26-42 | a missing file gives `{}`; an existing file gives its parsed content; an unreadable one raises |
| ConfigObject.Config.constructor | visual_graph_datasets/config.py:94-96 | a new configuration has data `{}` and no path |
| ConfigObject.Config.Load | visual_graph_datasets/config.py:100-102 | records the path and replaces the data by the file's content alone (`{}` if missing); keeps the data if reading raises, but the path is already set |
| ConfigObject.Config.GetFolderPath | visual_graph_datasets/config.py:104-105 | the folder of the recorded path; none when no path is recorded |
| ConfigObject.Config.RetrieveNestedWithDefault | visual_graph_datasets/config.py:134-143 | the loop over the keys returns `Retrieve(data, query, default)`; it has no `modifies`, so `data` and `path` are unchanged |
| ConfigObject.Config.GetDatasetsPath | visual_graph_datasets/config.py:120-121 | the lookup of keys `base`, `datasets_path`, with the given default; called without one, the default `DEFAULT_DATASETS_PATH` for the given home folder |
| ConfigObject.Config.GetProvider | visual_graph_datasets/config.py:123-124 | the lookup of keys `base`, `provider`, with the given default; called without one, the default `'nextcloud'` |
| ConfigObject.Config.GetProvidersMap | visual_graph_datasets/config.py:126-127 | the lookup of key `providers`, with the given default; called without one, the default `{}` |
| ConfigObject.Config.GetNextcloudUrl | visual_graph_datasets/config.py:129-130 | the lookup of keys `nextcloud`, `url`, with the given default; called without one, the default `''` |
| ConfigObject.GettersWithoutDefault | visual_graph_datasets/config.py:120-130 | the four getters called without a default give the lookup of their fixed keys, falling back to the datasets folder, `'nextcloud'`, `{}` and `''` |
| ConfigObject.QueryFreshConfig | visual_graph_datasets/config.py:94-96 | before `load`, any query on a new configuration returns its default |
| ConfigObject.QueryAfterMissingFile | visual_graph_datasets/config.py:100-102 | loading a missing file empties the data whatever it held, so any query then returns its default |
| SingletonMeta.EmptyRegistryValid | visual_graph_datasets/config.py:67 | the empty shared table satisfies the registry invariant |
| SingletonMeta.CallValid | visual_graph_datasets/config.py:69-72 | a call keeps the invariant, returns the instance stored for the class, and keeps every instance stored before |
| SingletonMeta.CallAgain | visual_graph_datasets/config.py:69-72 | a second call for a class returns the same instance, changes nothing and ignores its arguments |
| SingletonMeta.CallRunsConstructor | visual_graph_datasets/config.py:70-71 | the constructor runs, with this call's arguments, exactly when the class is not yet in the table |
| SingletonMeta.CallAllValid | visual_graph_datasets/config.py:67-72 | any sequence of calls keeps the invariant, so each class's constructor ran at most once |
| SingletonMeta.CallAllKeys | visual_graph_datasets/config.py:67-72 | after a sequence of calls the table holds the old classes and the called ones, and the old entries are unchanged |
| SingletonMeta.CallAllReturnsStored | visual_graph_datasets/config.py:69-72 | every call in a sequence returns the instance the table finally stores for its class |
| SingletonMeta.SameClassSameInstance | visual_graph_datasets/config.py:61-65 | all calls for one class return the identical instance, whatever their arguments |
| SingletonMeta.DistinctClassesDistinctInstances | visual_graph_datasets/config.py:67-72 | calls for different classes return different instances, from different constructor runs |
| SingletonMeta.ConstructorRunsOncePerClass | visual_graph_datasets/config.py:70-71 | the number of constructor runs grows by exactly the number of distinct classes new to the table |
| SingletonMeta.FirstCallArgs | visual_graph_datasets/config.py:71 | a class's instance is built from the arguments of its first call |
| SingletonMeta.Singleton.constructor | visual_graph_datasets/config.py:67 | the shared table starts empty, with no constructor runs |
| SingletonMeta.Singleton.Call | visual_graph_datasets/config.py:69-72 | `__call__` updates the table in place as `Step` does: it stores a new instance only if the class is absent, and returns the stored one |

## Left out

- YAML parsing and the `os.path.exists` check inside `load_config` are library and I/O behaviour. They are the abstract `ConfigFile` argument. An empty file parses to null and is then `Parsed(Null)`.
- Floats, timestamps, bytes, sets and tuples from YAML are `Opaque` leaves: the model keeps their type name and text, not their structure or arithmetic. Indexing one by a string raises `TypeError`, as in Python.
- Mapping keys that are not strings (YAML allows `1: x`) are not modelled. A string key never matches such an entry, and `Value` has only string keys.
- ConfigObject.Config.GetDatasetsPath: the home folder is an extra first argument, because `DEFAULT_DATASETS_PATH` is computed from `pathlib.Path.home()`, which the model does not read.
- ConfigObject.Config.GetProvidersMap: Python's default `{}` is one dict object shared by all calls. The model returns a value, so aliasing of that dict is not captured.
- ConfigObject.Config.Load: the default path argument `CONFIG_PATH` is not modelled; the caller passes the path.
- ConfigObject.Config.GetFolderPath: where the source raises `TypeError` on an unset path, the model returns `None`.
- `get_platform` (`platform.system()`), the logger set up in `__init__`, and `__str__` are foreign calls or formatting, and are not modelled.
- SingletonMeta.Singleton.Call: a constructor that raises is not modelled; every constructor run succeeds and produces an instance.
- A `ClassId` stands for the identity of a class object that uses the metaclass, not its name; `Config` is one such class. The identity of an instance is modelled by its serial number.
- The two experiment scripts under `visual_graph_datasets/experiments/` are not models: they are literal settings handed to an external experiment framework. Neither is the matplotlib/networkx code in `visual_graph_datasets/visualization/base.py`.
