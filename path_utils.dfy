/**
 * The project path resolution of src/utils/path_utils.py: the walk from the
 * working directory up to the `src` directory, the project directories
 * derived from it, and the data files located under them. Paths are
 * absolute, written as their components below the root; the working
 * directory and the filesystem's existence tests are parameters.
 */
module PathUtils {
  import opened Wrappers
  import opened Strings

  /** An absolute path: its components below the root `/`. */
  type Path = seq<string>

  /**
   * How a path function ends: with a value, with an exception, or never,
   * in the walk to `src` above a working directory without one.
   */
  datatype Outcome<T> = Returns(value: T) | Raises(error: PyError) | Hangs

  /** `p.name`: the last component; the root has the empty name. */
  function Name(p: Path): string
  {
    if p == [] then "" else p[|p| - 1]
  }

  /** `p.parent`: everything but the last component; the root is its own parent. */
  function Parent(p: Path): (r: Path)
    ensures r <= p
    ensures p != [] ==> |r| == |p| - 1
  {
    if p == [] then [] else p[..|p| - 1]
  }

  // ---------------------------------------------------------------------
  // `PurePath.suffix`, `PurePath.stem` and `with_suffix`.

  /** `name.rfind('.')`. */
  function LastDot(name: string): (i: int)
    ensures -1 <= i < |name|
    ensures i >= 0 ==> name[i] == '.'
    ensures forall k :: i < k < |name| ==> name[k] != '.'
  {
    if name == [] then -1
    else if name[|name| - 1] == '.' then |name| - 1
    else LastDot(name[..|name| - 1])
  }

  /** From the last '.', unless that dot is the first or the last character. */
  function Suffix(name: string): string
  {
    var i := LastDot(name);
    if 0 < i < |name| - 1 then name[i..] else ""
  }

  /** The name without its suffix. */
  function Stem(name: string): string
  {
    var i := LastDot(name);
    if 0 < i < |name| - 1 then name[..i] else name
  }

  /** Stem and suffix split the name; only the empty name has an empty stem. */
  lemma StemSuffix(name: string)
    ensures Stem(name) + Suffix(name) == name
    ensures Stem(name) == [] <==> name == []
  {
    var i := LastDot(name);
    if 0 < i < |name| - 1 {
      assert name == name[..i] + name[i..];
    } else {
      assert name + [] == name;
    }
  }

  /** `src.bak` has the stem `src`: the walk stops there as well. */
  lemma SrcBakStem()
    ensures Stem("src.bak") == "src"
  {
    assert "src.bak"[..6] == "src.ba";
    assert "src.ba"[..5] == "src.b";
    assert "src.b"[..4] == "src.";
    assert LastDot("src.bak") == 3;
  }

  lemma {:induction false} LastDotNoDot(a: string, t: string)
    requires '.' !in t
    ensures LastDot(a + t) == LastDot(a)
    decreases |t|
  {
    if t != [] {
      var s := a + t;
      assert s[..|s| - 1] == a + t[..|t| - 1];
      LastDotNoDot(a, t[..|t| - 1]);
    } else {
      assert a + t == a;
    }
  }

  /** The name `with_suffix(".yaml")` gives a non-empty name. */
  function WithYamlName(name: string): string
  {
    Stem(name) + ".yaml"
  }

  /** The new name keeps the stem and has the suffix `.yaml`. */
  lemma WithYamlNameProperties(name: string)
    requires name != []
    ensures Suffix(WithYamlName(name)) == ".yaml"
    ensures Stem(WithYamlName(name)) == Stem(name)
  {
    var s := Stem(name);
    StemSuffix(name);
    var n := WithYamlName(name);
    assert n == (s + ".") + "yaml";
    LastDotNoDot(s + ".", "yaml");
    assert LastDot(s + ".") == |s|;
    assert n[|s|..] == ".yaml" && n[..|s|] == s;
  }

  /** `p.with_suffix(".yaml")`: a ValueError for a path with the empty name. */
  function WithYamlSuffix(p: Path): (r: Result<Path>)
    ensures r.Err? <==> Name(p) == []
    ensures r.Ok? ==> Parent(r.value) == Parent(p) && Name(r.value) == WithYamlName(Name(p))
  {
    if Name(p) == [] then Err(ValueError("has an empty name"))
    else
      var q := Parent(p) + [WithYamlName(Name(p))];
      assert Parent(q) == Parent(p);
      Ok(q)
  }

  // ---------------------------------------------------------------------
  // `joinpath` with a string argument.

  /** The parts `pathlib` keeps of a path string: no empty and no '.' parts. */
  function Keep(fields: seq<string>): (r: seq<string>)
    ensures |r| <= |fields|
  {
    if fields == [] then []
    else if fields[0] == "" || fields[0] == "." then Keep(fields[1..])
    else [fields[0]] + Keep(fields[1..])
  }

  function Components(s: string): seq<string>
  {
    Keep(SplitOn(s, '/'))
  }

  /** `base.joinpath(s)`: an absolute `s` replaces the base. */
  function Join(base: Path, s: string): Path
  {
    if s != [] && s[0] == '/' then Components(s) else base + Components(s)
  }

  /** A single file or directory name. */
  predicate PlainName(s: string)
  {
    s != "" && s != "." && '/' !in s
  }

  /** Joining a single name appends it as the last component. */
  lemma JoinPlain(base: Path, s: string)
    requires PlainName(s)
    ensures Join(base, s) == base + [s]
    ensures Parent(Join(base, s)) == base && Name(Join(base, s)) == s
  {
    SplitOnNone(s, '/');
    assert Keep([s]) == [s] by {
      assert [s][1..] == [];
    }
    assert Parent(base + [s]) == base;
  }

  // ---------------------------------------------------------------------
  // `get_project_src_dir`

  predicate IsSrc(p: Path)
  {
    Stem(Name(p)) == "src"
  }

  /** The nearest ancestor-or-self named `src`; None when only the root is left. */
  function NearestSrc(p: Path): Option<Path>
    decreases |p|
  {
    if IsSrc(p) then Some(p)
    else if p == [] then None
    else NearestSrc(Parent(p))
  }

  /** No ancestor-or-self of `p` strictly below `lo` components and up to `p` itself is named `src`. */
  predicate NoSrcAbove(p: Path, lo: int)
  {
    forall k :: 0 <= k <= |p| && lo < k ==> !IsSrc(p[..k])
  }

  lemma ParentPrefix(p: Path, k: int)
    requires p != [] && 0 <= k < |p|
    ensures p[..k] == Parent(p)[..k]
  {
  }

  /** Going up one level keeps what is known about the ancestors below. */
  lemma NoSrcAboveParent(p: Path, lo: int)
    requires p != [] && !IsSrc(p) && NoSrcAbove(Parent(p), lo)
    ensures NoSrcAbove(p, lo)
  {
    assert p[..|p|] == p;
    forall k | 0 <= k <= |p| && lo < k
      ensures !IsSrc(p[..k])
    {
      if k < |p| {
        ParentPrefix(p, k);
      }
    }
  }

  /** `NearestSrc` finds an ancestor-or-self of `p` whose stem is `src`, and no nearer one. */
  lemma {:induction false} NearestSrcIsNearest(p: Path)
    requires NearestSrc(p).Some?
    ensures var r := NearestSrc(p).value;
      r <= p && r != [] && IsSrc(r) && NoSrcAbove(p, |r|)
    decreases |p|
  {
    if IsSrc(p) {
      assert p != [] by { StemSuffix(Name(p)); }
    } else {
      NearestSrcIsNearest(Parent(p));
      NoSrcAboveParent(p, |NearestSrc(p).value|);
    }
  }

  /** `NearestSrc` finds nothing exactly when no ancestor-or-self, the root included, is named `src`. */
  lemma {:induction false} NearestSrcNone(p: Path)
    ensures NearestSrc(p).None? <==> NoSrcAbove(p, -1)
    decreases |p|
  {
    assert p[..|p|] == p;
    if !IsSrc(p) {
      if p != [] {
        var q := Parent(p);
        NearestSrcNone(q);
        if NearestSrc(p).None? {
          NoSrcAboveParent(p, -1);
        } else {
          assert !NoSrcAbove(q, -1);
          var k :| 0 <= k <= |q| && IsSrc(q[..k]);
          ParentPrefix(p, k);
        }
      }
    }
  }

  /**
   * The loop of `get_project_src_dir`: climb to the parent until the stem is
   * `src`. At the root the parent is the root again, so without a `src`
   * above the working directory the loop never ends (None).
   */
  method GetProjectSrcDir(cwd: Path) returns (r: Option<Path>)
    ensures r == NearestSrc(cwd)
  {
    var p := cwd;
    while !IsSrc(p) && p != []
      invariant NearestSrc(p) == NearestSrc(cwd)
      decreases |p|
    {
      p := Parent(p);
    }
    if IsSrc(p) {
      r := Some(p);
    } else {
      r := None;
    }
  }

  /** `get_suturo_blenderproc_path`: the parent of `src`. */
  function SuturoBlenderprocPath(cwd: Path): (r: Option<Path>)
    ensures r.Some? <==> NearestSrc(cwd).Some?
    ensures r.Some? ==> r.value == Parent(NearestSrc(cwd).value)
  {
    match NearestSrc(cwd)
    case None => None
    case Some(src) => Some(Parent(src))
  }

  /** `get_project_root`: the parent of that. */
  function ProjectRoot(cwd: Path): (r: Option<Path>)
    ensures r.Some? <==> NearestSrc(cwd).Some?
    ensures r.Some? ==> r.value == Parent(SuturoBlenderprocPath(cwd).value)
  {
    match SuturoBlenderprocPath(cwd)
    case None => None
    case Some(p) => Some(Parent(p))
  }

  /** The project directories are the two ancestors right above `src`, both above the working directory. */
  lemma ProjectDirectories(cwd: Path)
    requires NearestSrc(cwd).Some?
    ensures var src := NearestSrc(cwd).value;
      var sbp := SuturoBlenderprocPath(cwd).value;
      && sbp + [Name(src)] == src
      && ProjectRoot(cwd).value <= sbp <= src <= cwd
  {
    NearestSrcIsNearest(cwd);
    var src := NearestSrc(cwd).value;
    assert src == src[..|src| - 1] + [src[|src| - 1]];
  }

  // ---------------------------------------------------------------------
  // The data files.

  /** `get_path_id2name_json`: `data/id2name.json` below the suturo_blenderproc directory, if it exists. */
  function GetPathId2NameJson(cwd: Path, present: Path -> bool): (r: Outcome<Path>)
    ensures r.Hangs? <==> NearestSrc(cwd).None?
    ensures r.Returns? ==> present(r.value) && Name(r.value) == "id2name.json"
    ensures r.Raises? ==>
      && r.error == PlainException("id2name.json doesn't exist")
      && !present(SuturoBlenderprocPath(cwd).value + ["data", "id2name.json"])
  {
    match SuturoBlenderprocPath(cwd)
    case None => Hangs
    case Some(sbp) =>
      var p := sbp + ["data", "id2name.json"];
      if !present(p) then Raises(PlainException("id2name.json doesn't exist")) else Returns(p)
  }

  /** The file `get_path_yaml_config` looks for, before any suffix change. */
  function YamlCandidate(sbp: Path, filename: string): Path
  {
    Join(sbp + ["data", "yaml"], filename)
  }

  /**
   * The lookup of `get_path_yaml_config` below the suturo_blenderproc
   * directory `sbp`: a name without the suffix `.yaml` gets it, and the
   * file must exist either way.
   */
  function YamlConfigAt(sbp: Path, filename: string, isFile: Path -> bool): (r: Outcome<Path>)
    ensures !r.Hangs?
    ensures r.Returns? ==> isFile(r.value) && Suffix(Name(r.value)) == ".yaml"
    ensures r.Returns? ==>
      var p := YamlCandidate(sbp, filename);
      Parent(r.value) == Parent(p) && Stem(Name(r.value)) == Stem(Name(p))
  {
    var p := YamlCandidate(sbp, filename);
    if Suffix(Name(p)) != ".yaml" then
      match WithYamlSuffix(p)
      case Err(e) => Raises(e)
      case Ok(q) =>
        WithYamlNameProperties(Name(p));
        if isFile(q) then Returns(q) else Raises(PlainException("File doesn't exist"))
    else if !isFile(p) then Raises(PlainException("File doesn't exist"))
    else Returns(p)
  }

  /** `get_path_yaml_config`: the lookup below the directory above `src`. */
  function GetPathYamlConfig(cwd: Path, filename: string, isFile: Path -> bool): (r: Outcome<Path>)
    ensures r.Hangs? <==> NearestSrc(cwd).None?
    ensures r.Returns? ==> isFile(r.value) && Suffix(Name(r.value)) == ".yaml"
  {
    match SuturoBlenderprocPath(cwd)
    case None => Hangs
    case Some(sbp) => YamlConfigAt(sbp, filename, isFile)
  }

  /** A missing config file raises, whatever its suffix. */
  lemma YamlConfigMissing(sbp: Path, filename: string, isFile: Path -> bool)
    requires var p := YamlCandidate(sbp, filename);
      Name(p) != [] && !isFile(p) && !isFile(Parent(p) + [WithYamlName(Name(p))])
    ensures YamlConfigAt(sbp, filename, isFile).Raises?
  {
  }

  /** A plain name `foo` resolves to `data/yaml/foo.yaml` when that file exists. */
  lemma YamlConfigPlainName(sbp: Path, filename: string, isFile: Path -> bool)
    requires PlainName(filename) && Suffix(filename) != ".yaml"
    requires isFile(sbp + ["data", "yaml", WithYamlName(filename)])
    ensures YamlConfigAt(sbp, filename, isFile) == Returns(sbp + ["data", "yaml", WithYamlName(filename)])
  {
    var dir := sbp + ["data", "yaml"];
    JoinPlain(dir, filename);
    var p := YamlCandidate(sbp, filename);
    assert Name(p) == filename;
    var q := dir + [WithYamlName(filename)];
    assert WithYamlSuffix(p) == Ok(q);
    assert q == sbp + ["data", "yaml", WithYamlName(filename)];
  }

  /** The scene file `get_path_blender_scene` looks for first. */
  function SceneCandidate(root: Path, scene: string): Path
  {
    Join(root + ["suturo-blenderproc_data", "scenes"], scene)
  }

  /**
   * `get_path_blender_scene`: the scene path if it exists, otherwise the
   * same path with `.blend` appended to the scene name, unchecked.
   */
  function GetPathBlenderScene(cwd: Path, scene: string, present: Path -> bool): (r: Outcome<Path>)
    ensures r.Hangs? <==> NearestSrc(cwd).None?
    ensures !r.Raises?
    ensures r.Returns? ==>
      var p := SceneCandidate(ProjectRoot(cwd).value, scene);
      && (present(p) ==> r.value == p)
      && (!present(p) ==> r.value == SceneCandidate(ProjectRoot(cwd).value, scene + ".blend"))
  {
    match ProjectRoot(cwd)
    case None => Hangs
    case Some(root) =>
      var p := SceneCandidate(root, scene);
      if !present(p) then Returns(SceneCandidate(root, scene + ".blend")) else Returns(p)
  }

  /** For a plain scene name that does not exist, the fallback is `<scene>.blend` in the same directory. */
  lemma BlendFallback(cwd: Path, scene: string, present: Path -> bool)
    requires NearestSrc(cwd).Some? && PlainName(scene)
    requires !present(SceneCandidate(ProjectRoot(cwd).value, scene))
    ensures var r := GetPathBlenderScene(cwd, scene, present).value;
      var p := SceneCandidate(ProjectRoot(cwd).value, scene);
      Parent(r) == Parent(p) && Name(r) == scene + ".blend"
  {
    var dir := ProjectRoot(cwd).value + ["suturo-blenderproc_data", "scenes"];
    JoinPlain(dir, scene);
    assert PlainName(scene + ".blend");
    JoinPlain(dir, scene + ".blend");
  }

  /** `get_path_output_dir`: `output` below the suturo_blenderproc directory, created when missing. */
  function GetPathOutputDir(cwd: Path, present: Path -> bool): (r: Outcome<(Path, bool)>)
    ensures r.Hangs? <==> NearestSrc(cwd).None?
    ensures !r.Raises?
    ensures r.Returns? ==>
      var (p, created) := r.value;
      Parent(p) == SuturoBlenderprocPath(cwd).value && Name(p) == "output" && created == !present(p)
  {
    match SuturoBlenderprocPath(cwd)
    case None => Hangs
    case Some(sbp) =>
      var p := sbp + ["output"];
      assert Parent(p) == sbp;
      Returns((p, !present(p)))
  }
}
