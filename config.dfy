/**
 * The configuration object: the loaded data, the path it was loaded from,
 * and the facade of getters that read fixed nested keys from the data.
 */
module ConfigObject {
  import opened Values
  import opened NestedLookup
  import Paths
  import StrSplit

  /** `~/.visual_graph_datasets` for the user's home folder `home`. */
  function FolderPath(home: string): string
  {
    Paths.Join(home, ".visual_graph_datasets")
  }

  /** The default config file, `config.yaml` inside the folder. */
  function ConfigPath(home: string): string
  {
    Paths.Join(FolderPath(home), "config.yaml")
  }

  /** The default datasets folder, `datasets` inside the folder. */
  function DefaultDatasetsPath(home: string): string
  {
    Paths.Join(FolderPath(home), "datasets")
  }

  /** Both default locations sit directly inside the program's folder. */
  lemma DefaultLocationsInFolder(home: string)
    ensures Paths.Dirname(ConfigPath(home)) == FolderPath(home)
    ensures Paths.Dirname(DefaultDatasetsPath(home)) == FolderPath(home)
  {
    var folder := FolderPath(home);
    assert folder[|folder| - 1] == 's';
    assert Paths.SepFree("config.yaml") && Paths.SepFree("datasets");
    Paths.DirnameOfChild(folder, "config.yaml");
    Paths.DirnameOfChild(folder, "datasets");
  }

  /** The default arguments of the getters. */
  const DefaultProvider: Value := Str("nextcloud")
  const DefaultProvidersMap: Value := EmptyMapping
  const DefaultNextcloudUrl: Value := Str("")

  /** What the file system and the YAML parser make of a config path. */
  datatype ConfigFile =
    | Missing                  // the path does not exist
    | Parsed(content: Value)   // the file exists and parses (an empty file parses to Null)
    | Unreadable               // opening or parsing raises

  /** `load_config(path)`: the parsed content, `{}` for a missing file, nothing if it raises. */
  function LoadConfig(file: ConfigFile): (r: Option<Value>)
    ensures r.None? <==> file.Unreadable?
    ensures file.Parsed? ==> r == Some(file.content)
    ensures file.Missing? ==> r == Some(EmptyMapping)
  {
    match file
    case Missing => Some(EmptyMapping)
    case Parsed(v) => Some(v)
    case Unreadable => None
  }

  class Config {
    var data: Value
    var path: Option<string>

    /** A fresh configuration holds `{}` and no path; nothing is loaded yet. */
    constructor ()
      ensures data == EmptyMapping && path == None
    {
      data := EmptyMapping;
      path := None;
    }

    /**
     * Records `p`, then replaces the data wholesale with what the file holds.
     * If reading the file raises, the path is already recorded and the data
     * stays as it was; `raised` reports that case.
     */
    method Load(p: string, file: ConfigFile) returns (raised: bool)
      modifies this
      ensures path == Some(p)
      ensures raised <==> file.Unreadable?
      ensures !raised ==> data == LoadConfig(file).value
      ensures raised ==> data == old(data)
    {
      path := Some(p);
      match LoadConfig(file)
      case Some(v) =>
        data := v;
        raised := false;
      case None =>
        raised := true;
    }

    /** `get_folder_path`: the folder of the loaded path; None where the source raises on a missing path. */
    function GetFolderPath(): (r: Option<string>)
      reads this
      ensures r.None? <==> path.None?
      ensures r.Some? ==> r.value == Paths.Dirname(path.value)
    {
      match path
      case None => None
      case Some(p) => Some(Paths.Dirname(p))
    }

    /**
     * `retrieve_nested_with_default`: walks the `/`-separated keys of `query`
     * through the data one at a time and gives `default` as soon as one
     * step raises. Reads the object and changes nothing.
     */
    method RetrieveNestedWithDefault(query: string, default: Value) returns (r: Value)
      ensures r == Retrieve(data, query, default)
    {
      var keys := Keys(query);
      var current := data;
      var i := 0;
      while i < |keys|
        invariant 0 <= i <= |keys|
        invariant Walk(data, keys) == Walk(current, keys[i..])
      {
        assert keys[i..][1..] == keys[i + 1..];
        match current {
          case Mapping(m) =>
            if keys[i] in m {
              current := m[keys[i]];
            } else {
              return default;
            }
          case _ =>
            return default;
        }
        i := i + 1;
      }
      return current;
    }

    /**
     * `get_datasets_path`: the entry `datasets_path` of the mapping `base`;
     * `home` is the user's home folder the default location is built from.
     */
    method GetDatasetsPath(home: string, default: Value := Str(DefaultDatasetsPath(home))) returns (r: Value)
      ensures r == Retrieve(data, "base/datasets_path", default)
      ensures r == OrDefault(Walk(data, ["base", "datasets_path"]), default)
    {
      assert StrSplit.Join(["base", "datasets_path"], '/') == "base/datasets_path";
      KeysOfJoin(["base", "datasets_path"]);
      r := RetrieveNestedWithDefault("base/datasets_path", default);
    }

    /** `get_provider`: the entry `provider` of the mapping `base`. */
    method GetProvider(default: Value := DefaultProvider) returns (r: Value)
      ensures r == Retrieve(data, "base/provider", default)
      ensures r == OrDefault(Walk(data, ["base", "provider"]), default)
    {
      assert StrSplit.Join(["base", "provider"], '/') == "base/provider";
      KeysOfJoin(["base", "provider"]);
      r := RetrieveNestedWithDefault("base/provider", default);
    }

    /** `get_providers_map`: the top-level entry `providers`. */
    method GetProvidersMap(default: Value := DefaultProvidersMap) returns (r: Value)
      ensures r == Retrieve(data, "providers", default)
      ensures r == OrDefault(Walk(data, ["providers"]), default)
    {
      assert StrSplit.Join(["providers"], '/') == "providers";
      KeysOfJoin(["providers"]);
      r := RetrieveNestedWithDefault("providers", default);
    }

    /** `get_nextcloud_url`: the entry `url` of the mapping `nextcloud`. */
    method GetNextcloudUrl(default: Value := DefaultNextcloudUrl) returns (r: Value)
      ensures r == Retrieve(data, "nextcloud/url", default)
      ensures r == OrDefault(Walk(data, ["nextcloud", "url"]), default)
    {
      assert StrSplit.Join(["nextcloud", "url"], '/') == "nextcloud/url";
      KeysOfJoin(["nextcloud", "url"]);
      r := RetrieveNestedWithDefault("nextcloud/url", default);
    }
  }

  /**
   * The getters called without a default fall back to their fixed defaults:
   * the datasets folder, `'nextcloud'`, `{}` and `''`.
   */
  method GettersWithoutDefault(config: Config, home: string)
    returns (datasetsPath: Value, provider: Value, providersMap: Value, nextcloudUrl: Value)
    ensures datasetsPath == OrDefault(Walk(config.data, ["base", "datasets_path"]), Str(DefaultDatasetsPath(home)))
    ensures provider == OrDefault(Walk(config.data, ["base", "provider"]), Str("nextcloud"))
    ensures providersMap == OrDefault(Walk(config.data, ["providers"]), EmptyMapping)
    ensures nextcloudUrl == OrDefault(Walk(config.data, ["nextcloud", "url"]), Str(""))
  {
    datasetsPath := config.GetDatasetsPath(home);
    provider := config.GetProvider();
    providersMap := config.GetProvidersMap();
    nextcloudUrl := config.GetNextcloudUrl();
  }

  /** Until `load` is called, every query on a new configuration gives its default. */
  method QueryFreshConfig(query: string, default: Value) returns (r: Value)
    ensures r == default
  {
    var config := new Config();
    r := config.RetrieveNestedWithDefault(query, default);
    RetrieveOnEmpty(query, default);
  }

  /** After loading a missing file, every query gives its default, whatever was loaded before. */
  method QueryAfterMissingFile(config: Config, p: string, query: string, default: Value) returns (r: Value)
    modifies config
    ensures config.path == Some(p) && config.data == EmptyMapping
    ensures r == default
  {
    var _ := config.Load(p, Missing);
    r := config.RetrieveNestedWithDefault(query, default);
    RetrieveOnEmpty(query, default);
  }
}
