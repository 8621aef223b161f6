/**
 * src/suturo_blenderproc/utils/blenderproc_utils.py: hiding meshes from the
 * renderer, a random yaw added to an object's rotation, and duplicating the
 * objects to annotate as the configuration asks.
 */
module BlenderUtils {
  import opened Geometry
  import opened Strings
  import opened SceneTypes

  /** `hide_mesh_objects`: every listed object gets `hide_render := render`, nothing else changes. */
  method HideMeshObjects(meshObjects: seq<MeshObject>, render: bool)
    modifies set i | 0 <= i < |meshObjects| :: meshObjects[i]
    ensures forall i :: 0 <= i < |meshObjects| ==> meshObjects[i].hideRender == render
    ensures forall i :: 0 <= i < |meshObjects| ==>
      meshObjects[i].location == old(meshObjects[i].location) && meshObjects[i].rotation == old(meshObjects[i].rotation)
  {
    for k := 0 to |meshObjects|
      invariant forall i :: 0 <= i < k ==> meshObjects[i].hideRender == render
      invariant forall i :: 0 <= i < |meshObjects| ==>
        meshObjects[i].location == old(meshObjects[i].location) && meshObjects[i].rotation == old(meshObjects[i].rotation)
    {
      meshObjects[k].hideRender := render;
    }
  }

  /**
   * `set_random_rotation_euler_zaxis`: `uniform([0,0,0], [0,0,6])` draws
   * (0, 0, r) with r in [0, 6); it is added to the rotation.
   */
  method SetRandomRotationEulerZaxis(meshObject: MeshObject, r: real)
    requires 0.0 <= r < 6.0
    modifies meshObject
    ensures meshObject.rotation == Vec3(old(meshObject.rotation.x), old(meshObject.rotation.y), old(meshObject.rotation.z) + r)
    ensures meshObject.location == old(meshObject.location) && meshObject.hideRender == old(meshObject.hideRender)
  {
    var rotation := Vec3(0.0, 0.0, r);
    var current := meshObject.rotation;
    meshObject.rotation := Vec3(current.x + rotation.x, current.y + rotation.y, current.z + rotation.z);
  }

  // ---------------------------------------------------------------------
  // `duplicate_objects` (src/suturo_blenderproc/utils/blenderproc_utils.py:22-42).

  /** What `config.get_duplicate_objects()` holds: an int, a dict (in insertion order), or anything else. */
  datatype DuplicateConfig =
    | Count(n: int)
    | PerName(entries: seq<(string, int)>)
    | Unrecognised

  /**
   * How the host names a copy: `copyName(x, present)` is the name `duplicate()`
   * gives a copy of an object named `x` when the list built so far holds objects
   * named `present`. Blender picks an unused `x.NNN`, so successive copies of one
   * object get different names.
   */
  type Namer = (string, seq<string>) -> string

  function Names(objects: seq<MeshObject>): (r: seq<string>)
    ensures |r| == |objects|
    ensures forall i :: 0 <= i < |objects| ==> r[i] == objects[i].name
  {
    if objects == [] then [] else Names(objects[..|objects| - 1]) + [objects[|objects| - 1].name]
  }

  /** The number of copies `range(times - 1)` makes. */
  function Copies(times: int): nat
  {
    if times >= 1 then times - 1 else 0
  }

  /** The names after `times - 1` copies of an object named `x` are appended to `current`, one at a time. */
  function WithCopies(current: seq<string>, x: string, times: int, copyName: Namer): (r: seq<string>)
    ensures |r| == |current| + Copies(times)
    decreases times
  {
    if times <= 1 then current
    else
      var before := WithCopies(current, x, times - 1, copyName);
      before + [copyName(x, before)]
  }

  /** Every name after `current` is the host's name for a copy of `x`, given the names before it. */
  predicate NamedAsCopies(current: seq<string>, r: seq<string>, x: string, copyName: Namer)
  {
    forall j :: |current| <= j < |r| ==> r[j] == copyName(x, r[..j])
  }

  /**
   * The existing names stay in front, and each copy is named by the host from
   * the names present when it is made, so copies of one object can differ.
   */
  lemma {:induction false} WithCopiesNamed(current: seq<string>, x: string, times: int, copyName: Namer)
    ensures var r := WithCopies(current, x, times, copyName);
      r[..|current|] == current && NamedAsCopies(current, r, x, copyName)
    decreases times
  {
    if times > 1 {
      var before := WithCopies(current, x, times - 1, copyName);
      WithCopiesNamed(current, x, times - 1, copyName);
      var r := before + [copyName(x, before)];
      assert r[..|before|] == before;
      forall j | |current| <= j < |r|
        ensures r[j] == copyName(x, r[..j])
      {
        if j < |before| {
          assert r[..j] == before[..j];
        }
      }
      assert r[..|current|] == before[..|current|];
    }
  }

  /** The names after every one of `sources`, in order, gets `times - 1` copies. */
  function WithCopiesOfEach(current: seq<string>, sources: seq<string>, times: int, copyName: Namer): seq<string>
    decreases |sources|
  {
    if sources == [] then current
    else WithCopies(WithCopiesOfEach(current, sources[..|sources| - 1], times, copyName), sources[|sources| - 1], times, copyName)
  }

  /** The names `k in name` selects, in order. */
  function Matching(names: seq<string>, k: string): (r: seq<string>)
    ensures |r| <= |names|
    ensures forall i :: 0 <= i < |r| ==> IsSubstring(k, r[i])
  {
    if names == [] then []
    else Matching(names[..|names| - 1], k) + (if IsSubstring(k, names[|names| - 1]) then [names[|names| - 1]] else [])
  }

  /** The names after the dict entries have been applied one after the other. */
  function PerNameResult(names: seq<string>, entries: seq<(string, int)>, copyName: Namer): seq<string>
  {
    if entries == [] then names
    else
      var before := PerNameResult(names, entries[..|entries| - 1], copyName);
      var (k, v) := entries[|entries| - 1];
      WithCopiesOfEach(before, Matching(before, k), v, copyName)
  }

  /** The names `duplicate_objects` returns for a given configuration. */
  function DuplicatedNames(names: seq<string>, config: DuplicateConfig, copyName: Namer): seq<string>
  {
    match config
    case Count(n) => WithCopiesOfEach(names, names, n, copyName)
    case PerName(entries) => PerNameResult(names, entries, copyName)
    case Unrecognised => names
  }

  /** With an int n >= 1 every object ends up n times; with n <= 1 nothing is added. */
  lemma {:induction false} CountLength(names: seq<string>, n: int, copyName: Namer)
    ensures |DuplicatedNames(names, Count(n), copyName)| == if n >= 1 then |names| * n else |names|
  {
    CopyNamesLength(names, names, n, copyName);
    if n >= 1 {
      MulSucc(|names|, n - 1);
    }
  }

  lemma MulSucc(a: int, b: int)
    ensures a * b + a == a * (b + 1)
  {
  }

  /** Giving each of `sources` its copies adds `times - 1` names per source. */
  lemma {:induction false} CopyNamesLength(current: seq<string>, sources: seq<string>, times: int, copyName: Namer)
    ensures |WithCopiesOfEach(current, sources, times, copyName)| == |current| + |sources| * Copies(times)
    decreases |sources|
  {
    if sources != [] {
      var init := sources[..|sources| - 1];
      CopyNamesLength(current, init, times, copyName);
      MulSucc(Copies(times), |init|);
      assert |init| * Copies(times) + Copies(times) == |sources| * Copies(times);
    }
  }

  /** Each dict entry adds `v - 1` copies of every name that matches it at that point. */
  lemma PerNameStepLength(names: seq<string>, entries: seq<(string, int)>, copyName: Namer)
    requires entries != []
    ensures var before := PerNameResult(names, entries[..|entries| - 1], copyName);
      var (k, v) := entries[|entries| - 1];
      |PerNameResult(names, entries, copyName)| == |before| + |Matching(before, k)| * Copies(v)
  {
    var before := PerNameResult(names, entries[..|entries| - 1], copyName);
    CopyNamesLength(before, Matching(before, entries[|entries| - 1].0), entries[|entries| - 1].1, copyName);
  }

  /** Blender's names for the first two copies of `Cup`: `Cup.001`, then `Cup.002`. */
  function CupNamer(x: string, present: seq<string>): string
  {
    x + (if |present| == 1 then ".001" else ".002")
  }

  /** The first key of the example: `Cup` matches the one object, which gets two copies. */
  lemma CupKey()
    ensures PerNameResult(["Cup"], [("Cup", 3)], CupNamer) == ["Cup", "Cup.001", "Cup.002"]
  {
    var entries: seq<(string, int)> := [("Cup", 3)];
    assert |entries[..0]| == 0;
    assert IsSubstring("Cup", "Cup");
    assert Matching(["Cup"], "Cup") == ["Cup"];
    assert WithCopies(["Cup"], "Cup", 1, CupNamer) == ["Cup"];
    assert "Cup" + ".001" == "Cup.001" && "Cup" + ".002" == "Cup.002";
    assert WithCopies(["Cup"], "Cup", 2, CupNamer) == ["Cup", "Cup.001"];
    assert WithCopies(["Cup"], "Cup", 3, CupNamer) == ["Cup", "Cup.001", "Cup.002"];
    assert |["Cup"][..0]| == 0;
  }

  /** `"001" in name` for the three names of the example. */
  lemma KeyInCupNames()
    ensures !IsSubstring("001", "Cup") && IsSubstring("001", "Cup.001") && !IsSubstring("001", "Cup.002")
  {
    MissingChar("001", "Cup", '0');
    assert "Cup.001"[4..] == "001";
    IsSubstringSuffix("001", "Cup.001", 4);
    MissingChar("001", "Cup.002", '1');
  }

  /** The second key of the example matches `Cup.001` alone. */
  lemma OnlyFirstCopyMatches()
    ensures Matching(["Cup", "Cup.001", "Cup.002"], "001") == ["Cup.001"]
  {
    var names := ["Cup", "Cup.001", "Cup.002"];
    KeyInCupNames();
    var one := names[..1];
    assert one == ["Cup"] && |one[..0]| == 0;
    assert Matching(one, "001") == [];
    var two := names[..2];
    assert two == ["Cup", "Cup.001"] && two[..1] == one;
    assert Matching(two, "001") == ["Cup.001"];
  }

  /**
   * The program's example `{"Cup": 3, "001": 2}` on one object `Cup`. The first
   * key makes `Cup.001` and `Cup.002`; the second matches `Cup.001` alone, which
   * gets one more copy: four objects in all.
   */
  lemma PartialKeyMatch()
    ensures var r := DuplicatedNames(["Cup"], PerName([("Cup", 3), ("001", 2)]), CupNamer);
      |r| == 4 && r[..3] == ["Cup", "Cup.001", "Cup.002"] && r[3] == CupNamer("Cup.001", r[..3])
  {
    var entries: seq<(string, int)> := [("Cup", 3), ("001", 2)];
    var first: seq<string> := ["Cup", "Cup.001", "Cup.002"];
    assert entries[..1] == [("Cup", 3)];
    CupKey();
    OnlyFirstCopyMatches();
    assert PerNameResult(["Cup"], entries, CupNamer) == WithCopiesOfEach(first, ["Cup.001"], 2, CupNamer);
    assert |["Cup.001"][..0]| == 0;
    assert WithCopiesOfEach(first, ["Cup.001"], 2, CupNamer) == WithCopies(first, "Cup.001", 2, CupNamer);
    assert WithCopies(first, "Cup.001", 1, CupNamer) == first;
    var r := first + [CupNamer("Cup.001", first)];
    assert WithCopies(first, "Cup.001", 2, CupNamer) == r;
    assert r[..3] == first;
  }

  lemma {:induction false} IsSubstringSuffix(k: string, s: string, i: nat)
    requires i <= |s| && k <= s[i..]
    ensures IsSubstring(k, s)
    decreases i
  {
    if i > 0 {
      assert s[1..][i - 1..] == s[i..];
      IsSubstringSuffix(k, s[1..], i - 1);
    }
  }

  /** A key holding a character the name lacks is not in the name. */
  lemma {:induction false} MissingChar(k: string, s: string, c: char)
    requires c in k && c !in s
    ensures !IsSubstring(k, s)
    decreases |s|
  {
    if s != [] {
      assert forall d :: d in s[1..] ==> d in s;
      MissingChar(k, s[1..], c);
    }
  }

  lemma {:induction false} NamesAppend(a: seq<MeshObject>, b: seq<MeshObject>)
    ensures Names(a + b) == Names(a) + Names(b)
  {
  }

  lemma CopyNamesStep(current: seq<string>, sources: seq<MeshObject>, i: nat, times: int, copyName: Namer)
    requires i < |sources|
    ensures WithCopiesOfEach(current, Names(sources[..i + 1]), times, copyName)
      == WithCopies(WithCopiesOfEach(current, Names(sources[..i]), times, copyName), sources[i].name, times, copyName)
  {
    assert sources[..i + 1][..i] == sources[..i];
    assert Names(sources[..i + 1])[..i] == Names(sources[..i]);
  }

  /** `objects.append(obj.duplicate())`: the host names the copy from the names already present. */
  method AppendCopy(objects: seq<MeshObject>, obj: MeshObject, copyName: Namer) returns (r: seq<MeshObject>)
    ensures |r| == |objects| + 1 && r[..|objects|] == objects
    ensures Names(r) == Names(objects) + [copyName(obj.name, Names(objects))]
    ensures fresh(r[|objects|]) && IsCopyOf(r[|objects|], obj)
  {
    var copy := obj.Duplicate(copyName(obj.name, Names(objects)));
    NamesAppend(objects, [copy]);
    r := objects + [copy];
  }

  /** `for _ in range(times - 1): objects.append(obj.duplicate())`. */
  method AppendCopies(objects: seq<MeshObject>, obj: MeshObject, times: int, copyName: Namer)
    returns (r: seq<MeshObject>)
    ensures objects <= r
    ensures Names(r) == WithCopies(Names(objects), obj.name, times, copyName)
    ensures forall j :: |objects| <= j < |r| ==> fresh(r[j])
    ensures forall j :: |objects| <= j < |r| ==> IsCopyOf(r[j], obj)
  {
    r := objects;
    for c := 0 to Copies(times)
      invariant objects <= r
      invariant Names(r) == WithCopies(Names(objects), obj.name, c + 1, copyName)
      invariant forall j :: |objects| <= j < |r| ==> fresh(r[j])
      invariant forall j :: |objects| <= j < |r| ==> IsCopyOf(r[j], obj)
    {
      WithCopiesNext(Names(objects), obj.name, c, copyName);
      ghost var prev := r;
      r := AppendCopy(r, obj, copyName);
      forall j | |objects| <= j < |r|
        ensures fresh(r[j]) && IsCopyOf(r[j], obj)
      {
        if j < |prev| {
          assert r[j] == prev[j];
        }
      }
    }
    WithCopiesAll(Names(objects), obj.name, times, copyName);
  }

  lemma WithCopiesNext(current: seq<string>, x: string, c: nat, copyName: Namer)
    ensures var before := WithCopies(current, x, c + 1, copyName);
      WithCopies(current, x, c + 2, copyName) == before + [copyName(x, before)]
  {
  }

  /** `range(times - 1)` runs `Copies(times)` times, whatever the sign of `times`. */
  lemma WithCopiesAll(current: seq<string>, x: string, times: int, copyName: Namer)
    ensures WithCopies(current, x, Copies(times) + 1, copyName) == WithCopies(current, x, times, copyName)
  {
    if times <= 1 {
      assert WithCopies(current, x, 1, copyName) == current;
    }
  }

  /** Every one of `sources`, in order, gets `times - 1` copies appended to `objects`. */
  method AppendCopiesOfEach(objects: seq<MeshObject>, sources: seq<MeshObject>, times: int, copyName: Namer)
    returns (r: seq<MeshObject>)
    ensures objects <= r
    ensures Names(r) == WithCopiesOfEach(Names(objects), Names(sources), times, copyName)
    ensures forall j :: |objects| <= j < |r| ==> fresh(r[j])
    ensures forall j :: |objects| <= j < |r| ==> TracesTo(r[j], sources)
  {
    r := objects;
    for i := 0 to |sources|
      invariant objects <= r
      invariant Names(r) == WithCopiesOfEach(Names(objects), Names(sources[..i]), times, copyName)
      invariant forall j :: |objects| <= j < |r| ==> fresh(r[j])
      invariant forall j :: |objects| <= j < |r| ==> TracesTo(r[j], sources)
    {
      ghost var before := r;
      r := AppendCopies(r, sources[i], times, copyName);
      CopyNamesStep(Names(objects), sources, i, times, copyName);
      CopiesOfOne(objects, before, r, sources, sources[i]);
    }
    assert sources[..|sources|] == sources;
  }

  /** `c` is a copy of one of `objects`. */
  predicate TracesTo(c: MeshObject, objects: seq<MeshObject>)
    reads c, objects
  {
    exists o :: o in objects && IsCopyOf(c, o)
  }

  /**
   * Copies of objects already in the list carry the state of an original:
   * copies of copies trace back to the objects the call started with.
   */
  lemma CopiesTrace(objects: seq<MeshObject>, before: seq<MeshObject>, matching: seq<MeshObject>, r: seq<MeshObject>)
    requires objects <= before <= r
    requires forall m :: m in matching ==> m in before
    requires forall j :: |objects| <= j < |before| ==> TracesTo(before[j], objects)
    requires forall j :: |before| <= j < |r| ==> TracesTo(r[j], matching)
    ensures forall j :: |objects| <= j < |r| ==> TracesTo(r[j], objects)
  {
    forall j | |objects| <= j < |r|
      ensures TracesTo(r[j], objects)
    {
      if j < |before| {
        var o :| o in objects && IsCopyOf(before[j], o);
        assert r[j] == before[j];
        assert IsCopyOf(r[j], o);
      } else {
        var m :| m in matching && IsCopyOf(r[j], m);
        assert m in before;
        var i :| 0 <= i < |before| && before[i] == m;
        if i < |objects| {
          assert objects[i] == m && m in objects;
        } else {
          var o :| o in objects && IsCopyOf(before[i], o);
          assert IsCopyOf(r[j], o);
        }
      }
    }
  }

  /** The copies of one source, appended after earlier copies, keep every copy traced to a source. */
  lemma CopiesOfOne(objects: seq<MeshObject>, before: seq<MeshObject>, r: seq<MeshObject>, sources: seq<MeshObject>, x: MeshObject)
    requires objects <= before <= r && x in sources
    requires forall j :: |objects| <= j < |before| ==> TracesTo(before[j], sources)
    requires forall j :: |before| <= j < |r| ==> IsCopyOf(r[j], x)
    ensures forall j :: |objects| <= j < |r| ==> TracesTo(r[j], sources)
  {
    forall j | |objects| <= j < |r|
      ensures TracesTo(r[j], sources)
    {
      if j < |before| {
        assert r[j] == before[j];
      } else {
        assert IsCopyOf(r[j], x);
      }
    }
  }

  /** The dict branch: for each (k, v) in order, every current object whose name contains k gets v - 1 copies. */
  method ApplyPerName(objects: seq<MeshObject>, entries: seq<(string, int)>, copyName: Namer)
    returns (r: seq<MeshObject>)
    ensures objects <= r
    ensures Names(r) == PerNameResult(Names(objects), entries, copyName)
    ensures forall j :: |objects| <= j < |r| ==> fresh(r[j])
    ensures forall j :: |objects| <= j < |r| ==> TracesTo(r[j], objects)
  {
    r := objects;
    for e := 0 to |entries|
      invariant objects <= r
      invariant Names(r) == PerNameResult(Names(objects), entries[..e], copyName)
      invariant forall j :: |objects| <= j < |r| ==> fresh(r[j])
      invariant forall j :: |objects| <= j < |r| ==> TracesTo(r[j], objects)
    {
      var (k, v) := entries[e];
      var matching := MatchingObjects(r, k);
      ghost var before := r;
      r := AppendCopiesOfEach(r, matching, v, copyName);
      assert entries[..e + 1][..e] == entries[..e];
      CopiesTrace(objects, before, matching, r);
    }
    assert entries[..|entries|] == entries;
  }

  /**
   * `duplicate_objects`: the originals first, in their order, then the
   * copies, each carrying the state of one of the originals.
   */
  method DuplicateObjects(objectList: seq<MeshObject>, config: DuplicateConfig, copyName: Namer)
    returns (duplicated: seq<MeshObject>)
    ensures |duplicated| >= |objectList| && duplicated[..|objectList|] == objectList
    ensures Names(duplicated) == DuplicatedNames(Names(objectList), config, copyName)
    ensures forall i :: |objectList| <= i < |duplicated| ==>
      fresh(duplicated[i]) && TracesTo(duplicated[i], objectList)
  {
    duplicated := [];
    for i := 0 to |objectList|
      invariant duplicated == objectList[..i]
    {
      duplicated := duplicated + [objectList[i]];
    }
    assert duplicated == objectList;
    match config {
      case Count(n) =>
        duplicated := AppendCopiesOfEach(duplicated, objectList, n, copyName);
      case PerName(entries) =>
        duplicated := ApplyPerName(duplicated, entries, copyName);
      case Unrecognised =>
    }
  }

  /** `[o for o in objects if k in o.get_name()]`. */
  function MatchingObjects(objects: seq<MeshObject>, k: string): (r: seq<MeshObject>)
    ensures Names(r) == Matching(Names(objects), k)
    ensures forall o :: o in r ==> o in objects
  {
    if objects == [] then []
    else
      var init := objects[..|objects| - 1];
      var last := objects[|objects| - 1];
      assert Names(objects)[..|objects| - 1] == Names(init);
      MatchingObjects(init, k) + (if IsSubstring(k, last.name) then [last] else [])
  }
}
