/** The simulated file system (`fileSystemService.ts`): a registry of
    known paths kept in insertion order, file contents by path, and the
    base path both in a module variable and in storage. Registry entry
    metadata (type, timestamps) is written but never read, so only the
    path is kept. */
module FileSystem {
  import opened Wrappers
  import opened Strs

  // ------------------------------------------------------------ paths

  predicate NoDoubleSlash(s: string) {
    forall i :: 0 <= i < |s| - 1 ==> !(s[i] == '/' && s[i + 1] == '/')
  }

  /** The characters other than `/`, in order. */
  function Unslashed(s: string): string
    decreases |s|
  {
    if |s| == 0 then "" else (if s[0] == '/' then "" else [s[0]]) + Unslashed(s[1..])
  }

  /** `replace(/\/+/g, '/')`: every run of slashes becomes one. */
  function Collapse(s: string): (r: string)
    ensures |r| <= |s|
    ensures |s| > 0 ==> |r| > 0 && r[0] == s[0] && r[|r| - 1] == s[|s| - 1]
    decreases |s|
  {
    if |s| < 2 then s
    else if s[0] == '/' && s[1] == '/' then Collapse(s[1..])
    else [s[0]] + Collapse(s[1..])
  }

  /** Collapsing leaves no `//` and keeps every other character in
      order. */
  lemma {:induction false} CollapseMeaning(s: string)
    ensures NoDoubleSlash(Collapse(s))
    ensures Unslashed(Collapse(s)) == Unslashed(s)
    decreases |s|
  {
    if |s| >= 2 {
      CollapseMeaning(s[1..]);
      if s[0] == '/' && s[1] == '/' {
      } else {
        var t := Collapse(s[1..]);
        assert ([s[0]] + t)[1..] == t;
      }
    }
  }

  /** A path with no `//` is left alone. */
  lemma {:induction false} CollapseNoop(s: string)
    requires NoDoubleSlash(s)
    ensures Collapse(s) == s
    decreases |s|
  {
    if |s| >= 2 {
      CollapseNoop(s[1..]);
    }
  }

  /** Text ending in something other than `/` collapses on its own: no
      run of slashes spans the seam. */
  lemma {:induction false} CollapseAppend(x: string, t: string)
    requires |x| > 0 && x[|x| - 1] != '/'
    ensures Collapse(x + t) == Collapse(x) + Collapse(t)
    decreases |x|
  {
    if |x| == 1 {
      if |t| > 0 {
        assert ([x[0]] + t)[1..] == t;
      }
    } else {
      assert (x + t)[1..] == x[1..] + t;
      CollapseAppend(x[1..], t);
    }
  }

  /** A name without `/` appended after a `/` to a path that does not
      end in `/` is kept as it is. */
  lemma ChildCollapse(x: string, n: string)
    requires |x| > 0 && x[|x| - 1] != '/' && '/' !in n
    ensures Collapse(x + "/" + n) == Collapse(x) + "/" + n
  {
    var t := "/" + n;
    var s := x + "/" + n;
    assert s == x + t;
    CollapseAppend(x, t);
    SlashName(n);
  }

  /** One `/` before a name without `/` is no run to collapse. */
  lemma SlashName(n: string)
    requires '/' !in n
    ensures Collapse("/" + n) == "/" + n
  {
    var t := "/" + n;
    assert NoDoubleSlash(t) by {
      forall i | 0 <= i < |t| - 1
        ensures !(t[i] == '/' && t[i + 1] == '/')
      {
        assert t[i + 1] == n[i];
      }
    }
    CollapseNoop(t);
  }

  /** `path.join`: the pieces joined with `/`, runs of `/` collapsed. */
  function Join(parts: seq<string>): string {
    Collapse(JoinWith(parts, '/'))
  }

  /** `path.dirname`: everything before the last `/`. */
  function Dirname(p: string): string {
    var parts := SplitOn(p, '/');
    JoinWith(parts[..|parts| - 1], '/')
  }

  lemma {:induction false} JoinWithSnoc(init: seq<string>, last: string, c: char)
    requires |init| > 0
    ensures JoinWith(init + [last], c) == JoinWith(init, c) + [c] + last
    decreases |init|
  {
    if |init| == 1 {
      assert (init + [last])[1..] == [last];
    } else {
      assert (init + [last])[1..] == init[1..] + [last];
      JoinWithSnoc(init[1..], last, c);
    }
  }

  /** The directory name and the last segment make up the path again; a
      path without `/` has an empty directory name. */
  lemma DirnameLast(p: string)
    ensures var parts := SplitOn(p, '/');
      ('/' in p ==> Dirname(p) + "/" + parts[|parts| - 1] == p && '/' !in parts[|parts| - 1]) &&
      ('/' !in p ==> Dirname(p) == "")
  {
    var parts := SplitOn(p, '/');
    JoinSplit(p, '/');
    if |parts| > 1 {
      var n := |parts| - 1;
      assert parts == parts[..n] + [parts[n]];
      JoinWithSnoc(parts[..n], parts[n], '/');
      assert parts[n] in parts;
      assert '/' in p by {
        assert p == JoinWith(parts[..n], '/') + ['/'] + parts[n];
        assert p[|JoinWith(parts[..n], '/')|] == '/';
      }
    }
  }

  // ------------------------------------------------------- the shim

  /** The registry's keys in insertion order, file contents by path, the
      stored base path (`betaboss_base_path`) and the module variable. */
  datatype Fs = Fs(registry: seq<string>, files: map<string, string>, storedBase: Option<string>, base: string)

  const DefaultBase := "C:/Betaboss"

  /** A store the app has never touched. */
  const Fresh := Fs([], map[], None, DefaultBase)

  /** A registry key that is set again keeps its place. */
  function Register(reg: seq<string>, p: string): (r: seq<string>)
    ensures r == if p in reg then reg else reg + [p]
  {
    if p in reg then reg else reg + [p]
  }

  /** `existsSync`. */
  predicate Exists(fs: Fs, p: string) {
    p in fs.registry
  }

  /** `mkdirSync`. */
  function Mkdir(fs: Fs, p: string): (r: Fs)
    ensures forall q :: Exists(r, q) <==> Exists(fs, q) || q == p
    ensures r.files == fs.files && r.storedBase == fs.storedBase && r.base == fs.base
  {
    fs.(registry := Register(fs.registry, p))
  }

  /** `writeFileSync`: registers the path and stores the data. The
      parent directory is not registered. */
  function Write(fs: Fs, p: string, d: string): (r: Fs)
    ensures forall q :: Exists(r, q) <==> Exists(fs, q) || q == p
    ensures r.storedBase == fs.storedBase && r.base == fs.base
  {
    fs.(registry := Register(fs.registry, p), files := fs.files[p := d])
  }

  /** `readFileSync`: the stored data, `''` for a never-written path. */
  function Read(fs: Fs, p: string): (r: string)
    ensures p !in fs.files ==> r == ""
  {
    if p in fs.files then fs.files[p] else ""
  }

  /** Reading what was just written gives it back; other paths read as
      before. */
  lemma WriteThenRead(fs: Fs, p: string, d: string, q: string)
    ensures Exists(Write(fs, p, d), p) && Read(Write(fs, p, d), p) == d
    ensures q != p ==> Read(Write(fs, p, d), q) == Read(fs, q) && (Exists(Write(fs, p, d), q) <==> Exists(fs, q))
  {
  }

  /** Whether a registry key is listed by `readdirSync(dir)`: a different
      key that starts with `dir` and has no `/` after the next
      character. */
  predicate ListedIn(key: string, dir: string) {
    key != dir && dir <= key && '/' !in key[|dir| + 1..]
  }

  /** `readdirSync`: for every listed key, in registry order, the key
      without its first `|dir| + 1` characters. */
  function Readdir(keys: seq<string>, dir: string): (r: seq<string>)
    ensures forall n :: n in r <==> exists k :: k in keys && ListedIn(k, dir) && n == k[|dir| + 1..]
    decreases |keys|
  {
    if |keys| == 0 then []
    else
      var k := keys[|keys| - 1];
      var init := Readdir(keys[..|keys| - 1], dir);
      assert forall x :: x in keys <==> x in keys[..|keys| - 1] || x == k by {
        assert keys == keys[..|keys| - 1] + [k];
      }
      if ListedIn(k, dir) then init + [k[|dir| + 1..]] else init
  }

  /** Readdir does not check that the character after `dir` is `/`: a
      sibling whose name extends `dir` is listed, minus one more
      character. */
  lemma ReaddirSiblingQuirk()
    ensures Readdir(["C:/Betaboss/Test", "C:/Betaboss/TestCases"], "C:/Betaboss/Test") == ["ases"]
  {
    var dir := "C:/Betaboss/Test";
    var keys := ["C:/Betaboss/Test", "C:/Betaboss/TestCases"];
    assert keys[..1] == [dir];
    assert [dir][..0] == [];
    assert !ListedIn(dir, dir);
    assert "C:/Betaboss/TestCases"[17..] == "ases";
  }

  /** A file directly under `dir` is listed by its name. */
  lemma ReaddirChild(keys: seq<string>, dir: string, name: string)
    requires dir + "/" + name in keys && '/' !in name
    ensures name in Readdir(keys, dir)
  {
    var k := dir + "/" + name;
    assert k[..|dir|] == dir && k[|dir| + 1..] == name;
  }

  // ------------------------------------------------------- base path

  const Subdirectories := ["TestCases", "TestSuites", "TestResults", "ApiCollections", "Environments", "Reports", "module"]

  /** `path.join(base, d)` for each of `dirs`. */
  function SubPaths(base: string, dirs: seq<string>): (r: seq<string>)
    ensures |r| == |dirs|
  {
    seq(|dirs|, i requires 0 <= i < |dirs| => Join([base, dirs[i]]))
  }

  /** Registers each of `dirs` under `base` that is not yet registered. */
  function MakeSubdirs(fs: Fs, base: string, dirs: seq<string>): (r: Fs)
    ensures forall q :: Exists(r, q) <==> Exists(fs, q) || q in SubPaths(base, dirs)
    ensures r.files == fs.files && r.storedBase == fs.storedBase && r.base == fs.base
    decreases |dirs|
  {
    if |dirs| == 0 then fs
    else
      var p := Join([base, dirs[0]]);
      var next := if Exists(fs, p) then fs else Mkdir(fs, p);
      assert SubPaths(base, dirs) == [p] + SubPaths(base, dirs[1..]);
      MakeSubdirs(next, base, dirs[1..])
  }

  /** `initializeFileSystem`: adopts a non-empty custom path, registers
      the base directory and the seven subdirectories, and stores the
      base path. */
  function InitializeFileSystem(fs: Fs, custom: Option<string>): (r: Fs)
    ensures r.base == (if custom.Some? && custom.value != "" then custom.value else fs.base)
    ensures r.storedBase == Some(r.base) && Exists(r, r.base)
    ensures forall q :: q in SubPaths(r.base, Subdirectories) ==> Exists(r, q)
    ensures r.files == fs.files
    ensures forall q :: Exists(fs, q) ==> Exists(r, q)
  {
    var base := if custom.Some? && custom.value != "" then custom.value else fs.base;
    var withBase := fs.(base := base);
    var dirs := MakeSubdirs(if Exists(withBase, base) then withBase else Mkdir(withBase, base), base, Subdirectories);
    dirs.(storedBase := Some(base))
  }

  /** `isFileSystemInitialized`. */
  predicate IsInitialized(fs: Fs) {
    fs.storedBase.Some?
  }

  /** `getBasePath`: the stored path unless empty or missing, else the
      module variable. */
  function GetBasePath(fs: Fs): (r: string)
    ensures fs.storedBase.Some? && fs.storedBase.value != "" ==> r == fs.storedBase.value
    ensures fs.storedBase.None? || fs.storedBase.value == "" ==> r == fs.base
  {
    if fs.storedBase.Some? && fs.storedBase.value != "" then fs.storedBase.value else fs.base
  }

  /** `setBasePath`: updates both copies. */
  function SetBasePath(fs: Fs, p: string): (r: Fs)
    ensures r.base == p && r.storedBase == Some(p) && r.registry == fs.registry && r.files == fs.files
  {
    fs.(base := p, storedBase := Some(p))
  }

  /** A first start registers `C:/Betaboss` and stores it. */
  lemma FirstStart()
    ensures var r := InitializeFileSystem(Fresh, None);
      IsInitialized(r) && GetBasePath(r) == DefaultBase && Exists(r, DefaultBase) && r.files == map[]
  {
  }

  /** After setting, getting gives the new path back, and the store
      counts as initialized; after initializing likewise. */
  lemma BasePathRoundTrip(fs: Fs, p: string, custom: Option<string>)
    ensures GetBasePath(SetBasePath(fs, p)) == p && IsInitialized(SetBasePath(fs, p))
    ensures var r := InitializeFileSystem(fs, custom); IsInitialized(r) && GetBasePath(r) == r.base
  {
  }

  // --------------------------------------------------- entity files

  /** Where `save*` puts the record with this id: `<base>/<folder>/<id>.json`. */
  function RecordPath(fs: Fs, folder: string, id: string): string {
    Join([fs.base, folder, id + ".json"])
  }

  /** `saveTestCase`, `saveApiCollection`, ...: writes the record's JSON. */
  function SaveRecord(fs: Fs, folder: string, id: string, json: string): (r: Fs)
    ensures Exists(r, RecordPath(fs, folder, id)) && r.base == fs.base
  {
    Write(fs, RecordPath(fs, folder, id), json)
  }

  /** `getTestCase`, `getApiCollection`, ...: the parsed record, or null
      when the file is not registered. */
  function GetRecord<T>(fs: Fs, folder: string, id: string, parse: string -> T): (r: Option<T>)
    ensures r.None? <==> !Exists(fs, RecordPath(fs, folder, id))
    ensures r.Some? ==> r.value == parse(Read(fs, RecordPath(fs, folder, id)))
  {
    if Exists(fs, RecordPath(fs, folder, id)) then Some(parse(Read(fs, RecordPath(fs, folder, id)))) else None
  }

  /** Saving and then getting the same id parses back what was saved. */
  lemma SaveThenGet<T>(fs: Fs, folder: string, id: string, json: string, parse: string -> T)
    ensures GetRecord(SaveRecord(fs, folder, id, json), folder, id, parse) == Some(parse(json))
  {
  }

  /** The names that end in `.json`, in order. */
  function JsonNames(names: seq<string>): (r: seq<string>)
    ensures forall n :: n in r <==> n in names && EndsWith(n, ".json")
    ensures |r| <= |names|
    decreases |names|
  {
    if |names| == 0 then []
    else
      var n := names[|names| - 1];
      assert forall x :: x in names <==> x in names[..|names| - 1] || x == n by {
        assert names == names[..|names| - 1] + [n];
      }
      JsonNames(names[..|names| - 1]) + (if EndsWith(n, ".json") then [n] else [])
  }

  /** The `forEach` over the listed names: the parsed contents of every
      `.json` name, in listing order. */
  function ParseListed<T>(fs: Fs, dir: string, names: seq<string>, parse: string -> T): (r: seq<T>)
    ensures |r| == |JsonNames(names)|
    ensures forall i :: 0 <= i < |r| ==> r[i] == parse(Read(fs, Join([dir, JsonNames(names)[i]])))
    decreases |names|
  {
    if |names| == 0 then []
    else
      var n := names[|names| - 1];
      ParseListed(fs, dir, names[..|names| - 1], parse) +
        (if EndsWith(n, ".json") then [parse(Read(fs, Join([dir, n])))] else [])
  }

  /** `getAllTestCases`, `getAllApiCollections`, ...: nothing unless the
      folder itself is registered; then the `.json` children. */
  function GetAllRecords<T>(fs: Fs, folder: string, parse: string -> T): (r: seq<T>)
    ensures !Exists(fs, Join([fs.base, folder])) ==> r == []
    ensures var dir := Join([fs.base, folder]); var names := JsonNames(Readdir(fs.registry, dir));
      Exists(fs, dir) ==>
        |r| == |names| && forall i :: 0 <= i < |r| ==> r[i] == parse(Read(fs, Join([dir, names[i]])))
  {
    var dir := Join([fs.base, folder]);
    if !Exists(fs, dir) then [] else ParseListed(fs, dir, Readdir(fs.registry, dir), parse)
  }

  /** Writing a file never registers its folder, so on a store where the
      folder was never made, saving leaves `getAll*` empty. */
  lemma SaveDoesNotCreateFolder<T>(fs: Fs, folder: string, id: string, json: string, parse: string -> T)
    requires !Exists(fs, Join([fs.base, folder])) && RecordPath(fs, folder, id) != Join([fs.base, folder])
    ensures GetAllRecords(SaveRecord(fs, folder, id, json), folder, parse) == []
  {
  }

  /** With a plain folder name and an id without `/`, the record's file
      sits directly under the folder, and joining the folder with the
      file name gives the record's path back. */
  lemma RecordPathIsChild(fs: Fs, folder: string, id: string)
    requires folder != "" && '/' !in folder && '/' !in id
    ensures var dir := Join([fs.base, folder]);
      RecordPath(fs, folder, id) == dir + "/" + (id + ".json") &&
      Join([dir, id + ".json"]) == RecordPath(fs, folder, id) && '/' !in id + ".json"
  {
    var dir := Join([fs.base, folder]);
    var name := id + ".json";
    var x := fs.base + "/" + folder;
    assert JoinWith([fs.base, folder], '/') == x;
    assert JoinWith([fs.base, folder, name], '/') == x + "/" + name by {
      assert [fs.base, folder, name][1..] == [folder, name];
      assert [folder, name][1..] == [name];
      assert JoinWith([name], '/') == name;
      assert JoinWith([folder, name], '/') == folder + ['/'] + name;
    }
    assert x[|x| - 1] == folder[|folder| - 1];
    assert '/' !in name by {
      assert forall k :: 0 <= k < |name| ==> name[k] == (if k < |id| then id[k] else ".json"[k - |id|]);
    }
    ChildCollapse(x, name);
    CollapseMeaning(x);
    CollapseNoop(dir);
    ChildCollapse(dir, name);
    assert JoinWith([dir, name], '/') == dir + "/" + name;
  }

  /** Every `.json` name contributes the parse of its file. */
  lemma ListedParsed<T>(fs: Fs, dir: string, names: seq<string>, name: string, parse: string -> T)
    requires name in names && EndsWith(name, ".json")
    ensures parse(Read(fs, Join([dir, name]))) in ParseListed(fs, dir, names, parse)
  {
    var js := JsonNames(names);
    var i :| 0 <= i < |js| && js[i] == name;
    assert ParseListed(fs, dir, names, parse)[i] == parse(Read(fs, Join([dir, name])));
  }

  /** In a folder that exists, a saved record is among all records: its
      file `<id>.json` is listed directly under the folder and reads back
      the saved JSON. The folder is one plain name, as every caller's
      is, and the id holds no `/`. */
  lemma SaveThenListed<T>(fs: Fs, folder: string, id: string, json: string, parse: string -> T)
    requires Exists(fs, Join([fs.base, folder]))
    requires folder != "" && '/' !in folder && '/' !in id
    ensures parse(json) in GetAllRecords(SaveRecord(fs, folder, id, json), folder, parse)
  {
    var dir := Join([fs.base, folder]);
    var name := id + ".json";
    var path := RecordPath(fs, folder, id);
    RecordPathIsChild(fs, folder, id);
    var fs2 := Write(fs, path, json);
    assert SaveRecord(fs, folder, id, json) == fs2;
    ReaddirChild(fs2.registry, dir, name);
    assert EndsWith(name, ".json") by {
      assert name[|name| - 5..] == ".json";
    }
    WriteThenRead(fs, path, json, path);
    ListedParsed(fs2, dir, Readdir(fs2.registry, dir), name, parse);
  }

  /** Saving a list of records in order, as the `forEach` loops do; a
      record is an id and its JSON text. */
  function SaveAll(fs: Fs, folder: string, recs: seq<(string, string)>): (r: Fs)
    ensures r.base == fs.base && r.storedBase == fs.storedBase
    ensures forall i :: 0 <= i < |recs| ==> Exists(r, RecordPath(fs, folder, recs[i].0))
    ensures forall q :: Exists(fs, q) ==> Exists(r, q)
    decreases |recs|
  {
    if |recs| == 0 then fs
    else
      var last := recs[|recs| - 1];
      SaveRecord(SaveAll(fs, folder, recs[..|recs| - 1]), folder, last.0, last.1)
  }

  /** The last save of a record wins: a record that no later record
      overwrites is read back as it was saved. */
  lemma {:induction false} SaveAllThenGet<T>(fs: Fs, folder: string, recs: seq<(string, string)>, i: nat, parse: string -> T)
    requires i < |recs|
    requires forall j :: i < j < |recs| ==> RecordPath(fs, folder, recs[j].0) != RecordPath(fs, folder, recs[i].0)
    ensures GetRecord(SaveAll(fs, folder, recs), folder, recs[i].0, parse) == Some(parse(recs[i].1))
    decreases |recs|
  {
    var init := recs[..|recs| - 1];
    var before := SaveAll(fs, folder, init);
    var last := recs[|recs| - 1];
    if i == |recs| - 1 {
      SaveThenGet(before, folder, last.0, last.1, parse);
    } else {
      SaveAllThenGet(fs, folder, init, i, parse);
      WriteThenRead(before, RecordPath(fs, folder, last.0), last.1, RecordPath(fs, folder, recs[i].0));
    }
  }

  /** `initializeSampleData`: saves the sample test cases, suites, API
      collections and environments, in that order, each into its own
      folder. The sample records are arguments. */
  function InitializeSampleData(
    fs: Fs, cases: seq<(string, string)>, suites: seq<(string, string)>,
    collections: seq<(string, string)>, environments: seq<(string, string)>): (r: Fs)
    ensures r.base == fs.base && r.storedBase == fs.storedBase
    ensures forall q :: Exists(fs, q) ==> Exists(r, q)
    ensures forall i :: 0 <= i < |cases| ==> Exists(r, RecordPath(fs, "TestCases", cases[i].0))
    ensures forall i :: 0 <= i < |suites| ==> Exists(r, RecordPath(fs, "TestSuites", suites[i].0))
    ensures forall i :: 0 <= i < |collections| ==> Exists(r, RecordPath(fs, "ApiCollections", collections[i].0))
    ensures forall i :: 0 <= i < |environments| ==> Exists(r, RecordPath(fs, "Environments", environments[i].0))
  {
    SaveAll(SaveAll(SaveAll(SaveAll(fs, "TestCases", cases), "TestSuites", suites), "ApiCollections", collections),
      "Environments", environments)
  }

  const DefaultConfigName := "config.json"

  /** `getConfig`: the parsed `<base>/config.json` when it exists, the
      default settings otherwise, and null when parsing throws (`parse`
      gives `None`). */
  function GetConfig<T>(fs: Fs, parse: string -> Option<T>, defaults: T): (r: Option<T>)
    ensures !Exists(fs, Join([fs.base, DefaultConfigName])) ==> r == Some(defaults)
    ensures Exists(fs, Join([fs.base, DefaultConfigName])) ==> r == parse(Read(fs, Join([fs.base, DefaultConfigName])))
  {
    var p := Join([fs.base, DefaultConfigName]);
    if Exists(fs, p) then parse(Read(fs, p)) else Some(defaults)
  }

  /** Writing a config file that parses makes `getConfig` return it
      instead of the defaults. */
  lemma ConfigWritten<T>(fs: Fs, text: string, parse: string -> Option<T>, defaults: T)
    ensures GetConfig(Write(fs, Join([fs.base, DefaultConfigName]), text), parse, defaults) == parse(text)
  {
    WriteThenRead(fs, Join([fs.base, DefaultConfigName]), text, Join([fs.base, DefaultConfigName]));
  }
}
