/** The agent registry: discovery of plug-in modules in the `agents` package, the choice
    of one class per module, and the read-only queries over the result.

    Reflection is replaced by data. The directory listing is a sequence of file names
    in whatever order the platform returned them. Importing is a `ModuleTable`: a module
    name that is absent from it fails to import. The members that
    `inspect.getmembers(module, inspect.isclass)` reports are a sequence of
    `PluginClass` records in the order it reports them. */
module Registry {
  import opened Wrappers
  import opened Text

  const PluginSuffix := ".py"
  const PackageInit := "__init__.py"
  const PackageName := "agents"
  const DefaultDescription := "No description provided"

  /** A class found in a plug-in module, with what the loader learns from it. */
  datatype PluginClass = PluginClass(
    name: string,                 // the class's own name
    definedIn: string,            // its `__module__`
    description: Option<string>,  // the `description` attribute of an instance, if any
    hasProcessHook: bool,         // whether instances have `process_article`
    constructorRaises: bool)      // whether calling the class with no arguments raises

  /** The value stored per agent: the instance (represented by the class it was made
      from) and its description. */
  datatype Entry = Entry(instance: PluginClass, description: string)

  /** One element of `get_agents_list()`. */
  datatype AgentInfo = AgentInfo(name: string, description: string)

  /** The exceptions that abort loading. */
  datatype LoadError =
    | ImportFailed(moduleName: string)
    | ConstructorFailed(moduleName: string, className: string)

  /** Importable modules, by dotted name, with their classes in member order. */
  type ModuleTable = map<string, seq<PluginClass>>

  /** The contents of the registry's dict: keys in insertion order and the entries. */
  datatype Snapshot = Snapshot(order: seq<string>, agents: map<string, Entry>)

  const Empty := Snapshot([], map[])

  ghost predicate Distinct<T>(s: seq<T>) {
    forall i, j :: 0 <= i < j < |s| ==> s[i] != s[j]
  }

  /** A dict's keys are distinct and are exactly its insertion order. */
  ghost predicate WellFormed(r: Snapshot) {
    && Distinct(r.order)
    && (forall k :: k in r.agents <==> k in r.order)
  }

  /** `d[key] = e` on an insertion-ordered dict: a new key goes last, an existing key
      keeps its place and gets the new value. */
  function Put(r: Snapshot, key: string, e: Entry): (r': Snapshot)
    requires WellFormed(r)
    ensures WellFormed(r')
  {
    Snapshot(if key in r.agents then r.order else r.order + [key], r.agents[key := e])
  }

  /** The file-name filter of the loader. */
  predicate IsAgentFile(filename: string) {
    EndsWith(filename, PluginSuffix) && filename != PackageInit
  }

  /** The agent name of a plug-in file: the file name without its last three characters,
      which are the suffix. */
  function AgentKey(filename: string): (key: string)
    requires IsAgentFile(filename)
    ensures key + PluginSuffix == filename
  {
    filename[..|filename| - 3]
  }

  function ModuleName(key: string): string {
    PackageName + "." + key
  }

  /** The position of the first member class defined in `moduleName` itself, skipping
      classes that the module merely imported. */
  function FirstLocalClass(members: seq<PluginClass>, moduleName: string): (r: Option<nat>)
    ensures r.Some? ==> r.value < |members| && members[r.value].definedIn == moduleName
    ensures r.Some? ==> forall j :: 0 <= j < r.value ==> members[j].definedIn != moduleName
    ensures r.None? <==> forall j :: 0 <= j < |members| ==> members[j].definedIn != moduleName
  {
    if members == [] then None
    else if members[0].definedIn == moduleName then Some(0)
    else match FirstLocalClass(members[1..], moduleName)
      case None => None
      case Some(i) => Some(i + 1)
  }

  /** The class the loader instantiates for agent `key`, if its module imports and
      defines one. */
  function Chosen(key: string, modules: ModuleTable): Option<PluginClass> {
    var moduleName := ModuleName(key);
    if moduleName !in modules then None
    else match FirstLocalClass(modules[moduleName], moduleName)
      case None => None
      case Some(i) => Some(modules[moduleName][i])
  }

  /** `getattr(instance, "description", "No description provided")`. */
  function DescriptionOf(c: PluginClass): string {
    c.description.GetOr(DefaultDescription)
  }

  /** What one directory entry does to the registry, or the exception it raises. */
  function LoadFile(r: Snapshot, filename: string, modules: ModuleTable): Result<Snapshot, LoadError>
    requires WellFormed(r)
  {
    if !IsAgentFile(filename) then Ok(r)
    else
      var key := AgentKey(filename);
      var moduleName := ModuleName(key);
      if moduleName !in modules then Err(ImportFailed(moduleName))
      else match FirstLocalClass(modules[moduleName], moduleName)
        case None => Ok(r)
        case Some(i) =>
          var c := modules[moduleName][i];
          if c.constructorRaises then Err(ConstructorFailed(moduleName, c.name))
          else Ok(Put(r, key, Entry(c, DescriptionOf(c))))
  }

  /** The loader over a whole listing, file after file, stopping at the first
      exception. */
  function LoadAll(r: Snapshot, listing: seq<string>, modules: ModuleTable): (res: Result<Snapshot, LoadError>)
    requires WellFormed(r)
    ensures res.Ok? ==> WellFormed(res.value)
    decreases |listing|
  {
    if listing == [] then Ok(r)
    else match LoadAll(r, listing[..|listing| - 1], modules)
      case Err(e) => Err(e)
      case Ok(r') => LoadFile(r', listing[|listing| - 1], modules)
  }

  /** Whether a plug-in file loads without raising: its module imports, and the class
      chosen from it (if any) can be instantiated. */
  predicate Loadable(filename: string, modules: ModuleTable)
    requires IsAgentFile(filename)
  {
    var key := AgentKey(filename);
    && ModuleName(key) in modules
    && (Chosen(key, modules).Some? ==> !Chosen(key, modules).value.constructorRaises)
  }

  /** The agent names the loader registers, in listing order, described as a filter of
      the listing rather than as a sequence of dict updates. */
  function ExpectedKeys(listing: seq<string>, modules: ModuleTable): seq<string>
    decreases |listing|
  {
    if listing == [] then []
    else
      var keys := ExpectedKeys(listing[..|listing| - 1], modules);
      var f := listing[|listing| - 1];
      if IsAgentFile(f) && Chosen(AgentKey(f), modules).Some? then keys + [AgentKey(f)] else keys
  }

  /** Once loading has raised, later files change nothing. */
  lemma {:induction false} LoadAllErrSticks(r: Snapshot, listing: seq<string>, k: nat, modules: ModuleTable)
    requires WellFormed(r)
    requires k <= |listing|
    requires LoadAll(r, listing[..k], modules).Err?
    ensures LoadAll(r, listing, modules) == LoadAll(r, listing[..k], modules)
  {
    if k < |listing| {
      var p := listing[..|listing| - 1];
      assert p[..k] == listing[..k];
      LoadAllErrSticks(r, p, k, modules);
    } else {
      assert listing[..k] == listing;
    }
  }

  /** Loading succeeds exactly when every plug-in file in the listing is loadable:
      there is no per-plug-in recovery. */
  lemma {:induction false} LoadAllOkIff(r: Snapshot, listing: seq<string>, modules: ModuleTable)
    requires WellFormed(r)
    ensures LoadAll(r, listing, modules).Ok?
        <==> forall i :: 0 <= i < |listing| && IsAgentFile(listing[i]) ==> Loadable(listing[i], modules)
  {
    if listing != [] {
      var p := listing[..|listing| - 1];
      LoadAllOkIff(r, p, modules);
      assert forall i :: 0 <= i < |p| ==> p[i] == listing[i];
    }
  }

  /** An agent name is registered exactly when its file `<name>.py` is in the listing,
      is not the package initialiser, and its module defines a class of its own. */
  lemma {:induction false} ExpectedKeysMembers(listing: seq<string>, modules: ModuleTable, key: string)
    ensures key in ExpectedKeys(listing, modules)
        <==> key + PluginSuffix in listing && IsAgentFile(key + PluginSuffix) && Chosen(key, modules).Some?
  {
    if listing != [] {
      var p := listing[..|listing| - 1];
      ExpectedKeysMembers(p, modules, key);
      assert listing == p + [listing[|listing| - 1]];
    }
  }

  /** What a successful load from an empty registry holds, for a listing of distinct
      file names: the keys are the expected names in listing order, and each entry holds
      the chosen class with its description or the placeholder. */
  lemma {:induction false} LoadedContents(listing: seq<string>, modules: ModuleTable, r: Snapshot)
    requires Distinct(listing)
    requires LoadAll(Empty, listing, modules) == Ok(r)
    ensures r.order == ExpectedKeys(listing, modules)
    ensures forall k :: k in r.agents ==>
      && Chosen(k, modules).Some?
      && r.agents[k].instance == Chosen(k, modules).value
      && r.agents[k].description == DescriptionOf(Chosen(k, modules).value)
  {
    if listing != [] {
      var p := listing[..|listing| - 1];
      var f := listing[|listing| - 1];
      assert LoadAll(Empty, p, modules).Ok?;
      var r0 := LoadAll(Empty, p, modules).value;
      assert Distinct(p) by {
        assert forall i :: 0 <= i < |p| ==> p[i] == listing[i];
      }
      LoadedContents(p, modules, r0);
      assert LoadFile(r0, f, modules) == Ok(r);
      if IsAgentFile(f) {
        var key := AgentKey(f);
        var moduleName := ModuleName(key);
        match FirstLocalClass(modules[moduleName], moduleName)
        case None =>
          assert r == r0;
        case Some(idx) =>
          var c := modules[moduleName][idx];
          assert Chosen(key, modules) == Some(c);
          // the new key is not already present: it would come from an earlier file
          // with the same name
          ExpectedKeysMembers(p, modules, key);
          assert f !in p by {
            assert forall i :: 0 <= i < |p| ==> p[i] == listing[i] && i < |listing| - 1;
          }
          assert key !in r0.agents;
          assert r == Snapshot(r0.order + [key], r0.agents[key := Entry(c, DescriptionOf(c))]);
      }
    }
  }

  /** The registry object: a dict from agent name to entry, kept as its insertion order
      and its contents. */
  class Manager {
    var order: seq<string>
    var agents: map<string, Entry>

    function State(): Snapshot
      reads this
    {
      Snapshot(order, agents)
    }

    ghost predicate Valid()
      reads this
    {
      WellFormed(State())
    }

    /** `self.agents = {}`. */
    constructor ()
      ensures Valid() && State() == Empty
    {
      order := [];
      agents := map[];
    }

    /** `load_agents`: walks the listing, and for each plug-in file imports its module
        and registers the first class defined there. Returns the exception that stops
        it, if any. */
    method LoadAgents(listing: seq<string>, modules: ModuleTable) returns (err: Option<LoadError>)
      requires Valid()
      modifies this
      ensures Valid()
      ensures LoadAll(old(State()), listing, modules) == if err.None? then Ok(State()) else Err(err.value)
    {
      ghost var start := State();
      var i := 0;
      while i < |listing|
        invariant 0 <= i <= |listing|
        invariant Valid()
        invariant LoadAll(start, listing[..i], modules) == Ok(State())
      {
        var filename := listing[i];
        ghost var before := State();
        assert listing[..i + 1][..i] == listing[..i];
        if EndsWith(filename, PluginSuffix) && filename != PackageInit {
          var key := filename[..|filename| - 3];
          var moduleName := PackageName + "." + key;
          if moduleName !in modules {
            err := Some(ImportFailed(moduleName));
            LoadAllErrSticks(start, listing, i + 1, modules);
            return;
          }
          var members := modules[moduleName];
          var j := 0;
          while j < |members|
            invariant 0 <= j <= |members|
            invariant forall t :: 0 <= t < j ==> members[t].definedIn != moduleName
            invariant State() == before
          {
            var cls := members[j];
            if cls.definedIn == moduleName {
              assert FirstLocalClass(members, moduleName) == Some(j);
              if cls.constructorRaises {
                err := Some(ConstructorFailed(moduleName, cls.name));
                LoadAllErrSticks(start, listing, i + 1, modules);
                return;
              }
              var description := cls.description.GetOr(DefaultDescription);
              if key !in agents {
                order := order + [key];
              }
              agents := agents[key := Entry(cls, description)];
              assert LoadFile(before, filename, modules) == Ok(State());
              break;
            }
            j := j + 1;
          }
        }
        assert LoadAll(start, listing[..i + 1], modules) == Ok(State());
        i := i + 1;
      }
      assert listing[..i] == listing;
      err := None;
    }

    /** `get_agents_list`: one name/description pair per entry, in insertion order. */
    function AgentsList(): (r: seq<AgentInfo>)
      reads this
      requires Valid()
      ensures |r| == |order|
      ensures forall i :: 0 <= i < |r| ==> r[i].name == order[i] && r[i].description == agents[order[i]].description
    {
      var keys, entries := order, agents;
      seq(|keys|, i requires 0 <= i < |keys| && keys[i] in entries => AgentInfo(keys[i], entries[keys[i]].description))
    }

    /** `get_agent_by_name`: the stored instance, or `None` for an unknown name. */
    function AgentByName(name: string): (r: Option<PluginClass>)
      reads this
      ensures r.Some? <==> name in agents
      ensures r.Some? ==> r.value == agents[name].instance
    {
      if name in agents then Some(agents[name].instance) else None
    }
  }

  /** `Manager()`: construction and loading together; any exception during loading
      means there is no registry at all. */
  method NewManager(listing: seq<string>, modules: ModuleTable) returns (r: Result<Manager, LoadError>)
    ensures r.Ok? ==> r.value.Valid() && LoadAll(Empty, listing, modules) == Ok(r.value.State())
    ensures r.Err? ==> LoadAll(Empty, listing, modules) == Err(r.error)
  {
    var m := new Manager();
    var err := m.LoadAgents(listing, modules);
    if err.Some? {
      return Err(err.value);
    }
    return Ok(m);
  }

  /** The agent list of a freshly loaded registry, stated against the listing: the
      expected names in listing order, each with the chosen class's description or the
      placeholder. */
  lemma LoadedAgentsList(m: Manager, listing: seq<string>, modules: ModuleTable)
    requires m.Valid() && Distinct(listing)
    requires LoadAll(Empty, listing, modules) == Ok(m.State())
    ensures |m.AgentsList()| == |ExpectedKeys(listing, modules)|
    ensures forall i :: 0 <= i < |m.AgentsList()| ==>
      var info := m.AgentsList()[i];
      && info.name == ExpectedKeys(listing, modules)[i]
      && Chosen(info.name, modules).Some?
      && var c := Chosen(info.name, modules).value;
         info.description == if c.description.Some? then c.description.value else DefaultDescription
  {
    LoadedContents(listing, modules, m.State());
  }

  /** Lookup in a freshly loaded registry never fails: it yields the chosen class's
      instance for a registered name and `None` for every other name. */
  lemma LoadedLookup(m: Manager, listing: seq<string>, modules: ModuleTable, name: string)
    requires m.Valid() && Distinct(listing)
    requires LoadAll(Empty, listing, modules) == Ok(m.State())
    ensures m.AgentByName(name) == if name in ExpectedKeys(listing, modules) then Chosen(name, modules) else None
  {
    LoadedContents(listing, modules, m.State());
  }
}
