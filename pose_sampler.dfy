/**
 * src/suturo_blenderproc/sampler/pose_sampler.py: flattening furniture
 * into surfaces, the camera-pose sampler (bounds test, accept/reject pose
 * construction, table/shelf/list samplers), the object-pose sampler with its
 * surface cursor, and the light sampler.
 *
 * Random draws are parameters. The table and shelf samplers loop until
 * `num_poses` poses have been accepted, with no cap on the attempts; here
 * they consume a finite sequence of draws, and `DrawsExhausted` is the
 * outcome "had not finished when the draws ran out" (for a loop that never
 * finishes, that is every outcome).
 */
module PoseSampler {
  import opened Wrappers
  import opened Geometry
  import opened SceneTypes
  import BlenderUtils

  // ---------------------------------------------------------------------
  // `extract_surfaces_from_furnitures` (pose_sampler.py:15-26).

  /** The surfaces one item contributes: a table its top, a shelf its floors, anything else none. */
  function SurfacesOfOne(f: Furniture): seq<Surface>
  {
    match f
    case Table(_, _, top) => [top]
    case Shelf(_, floors) => floors
    case OtherItem(_) => []
  }

  /** `s` is the top of table `f` or one of the floors of shelf `f`. */
  predicate Provides(f: Furniture, s: Surface)
  {
    (f.Table? && s == f.tableSurface) || (f.Shelf? && s in f.shelfFloors)
  }

  /** The surfaces of all items, item by item in the given order. */
  function SurfacesOf(furnitures: seq<Furniture>): seq<Surface>
  {
    if furnitures == [] then []
    else SurfacesOf(furnitures[..|furnitures| - 1]) + SurfacesOfOne(furnitures[|furnitures| - 1])
  }

  /** A surface is extracted exactly when some item provides it. */
  lemma {:induction false} SurfacesOfMembers(furnitures: seq<Furniture>, s: Surface)
    ensures s in SurfacesOf(furnitures) <==> exists f :: f in furnitures && Provides(f, s)
  {
    if furnitures != [] {
      var init := furnitures[..|furnitures| - 1];
      var last := furnitures[|furnitures| - 1];
      SurfacesOfMembers(init, s);
      assert forall f :: f in furnitures <==> f in init || f == last;
      assert s in SurfacesOfOne(last) <==> Provides(last, s);
    }
  }

  /** Flattening distributes over concatenation: the furniture order is kept. */
  lemma {:induction false} SurfacesOfAppend(a: seq<Furniture>, b: seq<Furniture>)
    ensures SurfacesOf(a + b) == SurfacesOf(a) + SurfacesOf(b)
  {
    if b == [] {
      assert a + b == a;
    } else {
      var init, last := b[..|b| - 1], b[|b| - 1];
      SurfacesOfAppend(a, init);
      var ab := a + b;
      assert ab[..|ab| - 1] == a + init && ab[|ab| - 1] == last;
      calc {
        SurfacesOf(ab);
        SurfacesOf(a + init) + SurfacesOfOne(last);
        (SurfacesOf(a) + SurfacesOf(init)) + SurfacesOfOne(last);
        SurfacesOf(a) + (SurfacesOf(init) + SurfacesOfOne(last));
        SurfacesOf(a) + SurfacesOf(b);
      }
    }
  }

  /** Items that are neither tables nor shelves contribute nothing. */
  lemma {:induction false} OtherItemsSkipped(furnitures: seq<Furniture>)
    requires forall i :: 0 <= i < |furnitures| ==> furnitures[i].OtherItem?
    ensures SurfacesOf(furnitures) == []
  {
    if furnitures != [] {
      OtherItemsSkipped(furnitures[..|furnitures| - 1]);
    }
  }

  method ExtractSurfacesFromFurnitures(furnitures: seq<Furniture>) returns (extracted: seq<Surface>)
    ensures extracted == SurfacesOf(furnitures)
  {
    extracted := [];
    for i := 0 to |furnitures|
      invariant extracted == SurfacesOf(furnitures[..i])
    {
      assert furnitures[..i + 1][..i] == furnitures[..i];
      match furnitures[i] {
        case Table(_, _, top) =>
          extracted := extracted + [top];
        case Shelf(_, floors) =>
          for j := 0 to |floors|
            invariant extracted == SurfacesOf(furnitures[..i]) + floors[..j]
          {
            extracted := extracted + [floors[j]];
          }
          assert floors[..|floors|] == floors;
        case OtherItem(_) =>
      }
    }
    assert furnitures[..|furnitures|] == furnitures;
  }

  // ---------------------------------------------------------------------
  // Camera poses.

  /** A pose handed to the host: the camera position, looking at `poi`. */
  datatype CameraPose = CameraPose(position: Vec3, poi: Vec3)

  /** How a sampling loop ended. */
  datatype SamplingOutcome =
    | Done                     // `num_poses` poses accepted
    | Raised(error: PyError)   // an exception left the loop
    | DrawsExhausted           // not finished within the given draws

  const PoiOutOfBoundsMessage: string := "Position of Interest is out of bounds, please use a valid poi"

  /** The poses `build_cam_poses_from_config` keeps: one per in-bounds position, in order. */
  function AcceptedPoses(walls: BoundingBox, positions: seq<Vec3>, poi: Vec3): seq<CameraPose>
  {
    if positions == [] then []
    else
      var last := positions[|positions| - 1];
      AcceptedPoses(walls, positions[..|positions| - 1], poi) + (if OutOfBox(walls, last) then [] else [CameraPose(last, poi)])
  }

  /** Every kept pose looks at `poi` from an in-bounds position, and a position is kept exactly when it is in bounds. */
  lemma {:induction false} AcceptedPosesMembers(walls: BoundingBox, positions: seq<Vec3>, poi: Vec3)
    ensures |AcceptedPoses(walls, positions, poi)| <= |positions|
    ensures forall i :: 0 <= i < |AcceptedPoses(walls, positions, poi)| ==>
      AcceptedPoses(walls, positions, poi)[i].poi == poi && !OutOfBox(walls, AcceptedPoses(walls, positions, poi)[i].position)
    ensures forall p :: CameraPose(p, poi) in AcceptedPoses(walls, positions, poi) <==> p in positions && !OutOfBox(walls, p)
  {
    if positions != [] {
      var init := positions[..|positions| - 1];
      var last := positions[|positions| - 1];
      AcceptedPosesMembers(walls, init, poi);
      assert forall p :: p in positions <==> p in init || p == last;
    }
  }

  lemma {:induction false} AcceptedPosesAppend(walls: BoundingBox, a: seq<Vec3>, b: seq<Vec3>, poi: Vec3)
    ensures AcceptedPoses(walls, a + b, poi) == AcceptedPoses(walls, a, poi) + AcceptedPoses(walls, b, poi)
  {
    if b == [] {
      assert a + b == a;
    } else {
      AcceptedPosesAppend(walls, a, b[..|b| - 1], poi);
      assert (a + b)[..|a + b| - 1] == a + b[..|b| - 1];
    }
  }

  /** One more position: the poses kept from a prefix grow by that position's pose exactly when it is in bounds. */
  lemma AcceptedPosesStep(walls: BoundingBox, positions: seq<Vec3>, i: nat, poi: Vec3)
    requires i < |positions|
    ensures AcceptedPoses(walls, positions[..i + 1], poi) ==
      AcceptedPoses(walls, positions[..i], poi) + (if OutOfBox(walls, positions[i]) then [] else [CameraPose(positions[i], poi)])
  {
    assert positions[..i + 1][..i] == positions[..i];
  }

  /** The end of a sampling loop: how it ended, and the poses it added in order. */
  datatype Run = Run(outcome: SamplingOutcome, poses: seq<CameraPose>)

  /**
   * The retry loop of the table and shelf samplers from attempt `k` on, over
   * the camera positions the draws give: `remaining` poses are still wanted;
   * `poi` is `None` when the surface has no mesh to compute it from.
   */
  function Attempts(walls: BoundingBox, candidates: seq<Vec3>, k: nat, poi: Option<Vec3>, remaining: int): Run
    requires k <= |candidates|
    decreases |candidates| - k
  {
    if remaining == 0 then Run(Done, [])
    else if k == |candidates| then Run(DrawsExhausted, [])
    else if poi.None? then Run(Raised(AttributeError), [])
    else if OutOfBox(walls, poi.value) then Run(Raised(PlainException(PoiOutOfBoundsMessage)), [])
    else if OutOfBox(walls, candidates[k]) then Attempts(walls, candidates, k + 1, poi, remaining)
    else
      var rest := Attempts(walls, candidates, k + 1, poi, remaining - 1);
      Run(rest.outcome, [CameraPose(candidates[k], poi.value)] + rest.poses)
  }

  /**
   * What the retry loop promises: every added pose is in bounds, looks at
   * the point of interest and was one of the candidates; `Done` means exactly
   * `remaining` poses were added (so a negative `num_poses` is never done);
   * running out of draws leaves fewer; and the loop raises exactly when a
   * pose is wanted, a draw is made and the point of interest is missing or
   * out of bounds, in which case nothing was added.
   */
  lemma {:induction false} AttemptsProperties(walls: BoundingBox, candidates: seq<Vec3>, k: nat, poi: Option<Vec3>, remaining: int)
    requires k <= |candidates|
    ensures var r := Attempts(walls, candidates, k, poi, remaining);
      && |r.poses| <= |candidates| - k
      && (forall i :: 0 <= i < |r.poses| ==> poi == Some(r.poses[i].poi) && !OutOfBox(walls, r.poses[i].position))
      && (forall i :: 0 <= i < |r.poses| ==> r.poses[i].position in candidates[k..])
      && (r.outcome == Done ==> |r.poses| == remaining)
      && (r.outcome == DrawsExhausted ==> remaining < 0 || |r.poses| < remaining)
      && (r.outcome.Raised? <==> remaining != 0 && k < |candidates| && (poi.None? || OutOfBox(walls, poi.value)))
      && (r.outcome.Raised? ==> r.poses == [] && r.outcome.error == (if poi.None? then AttributeError else PlainException(PoiOutOfBoundsMessage)))
    decreases |candidates| - k
  {
    if remaining != 0 && k < |candidates| && poi.Some? && !OutOfBox(walls, poi.value) {
      var rem' := if OutOfBox(walls, candidates[k]) then remaining else remaining - 1;
      AttemptsProperties(walls, candidates, k + 1, poi, rem');
      assert candidates[k..] == [candidates[k]] + candidates[k + 1..];
    }
  }

  /**
   * With a valid point of interest, the poses the loop adds are exactly the
   * accepted poses (as `build_cam_poses_from_config` would keep them) of the
   * candidates drawn so far.
   */
  lemma {:induction false} AttemptsAcceptPrefix(walls: BoundingBox, candidates: seq<Vec3>, k: nat, poi: Vec3, remaining: int)
    requires k <= |candidates| && !OutOfBox(walls, poi)
    ensures exists j :: (k <= j <= |candidates| &&
      Attempts(walls, candidates, k, Some(poi), remaining).poses == AcceptedPoses(walls, candidates[k..j], poi))
    decreases |candidates| - k
  {
    var r := Attempts(walls, candidates, k, Some(poi), remaining);
    if remaining == 0 || k == |candidates| {
      assert r.poses == AcceptedPoses(walls, candidates[k..k], poi);
    } else {
      var c := candidates[k];
      var rem' := if OutOfBox(walls, c) then remaining else remaining - 1;
      AttemptsAcceptPrefix(walls, candidates, k + 1, poi, rem');
      var j :| k + 1 <= j <= |candidates| &&
        Attempts(walls, candidates, k + 1, Some(poi), rem').poses == AcceptedPoses(walls, candidates[k + 1..j], poi);
      assert candidates[k..j] == [c] + candidates[k + 1..j];
      AcceptedPosesAppend(walls, [c], candidates[k + 1..j], poi);
      assert AcceptedPoses(walls, [c], poi) == (if OutOfBox(walls, c) then [] else [CameraPose(c, poi)]) by {
        assert [c][..0] == [];
      }
      assert r.poses == AcceptedPoses(walls, candidates[k..j], poi);
    }
  }

  // The angle rules of the two circular samplers.

  /** `np.random.randint(360 / 5) * 5` for the draw `d` in [0, 72). */
  function TableAngle(d: int): (a: int)
    requires 0 <= d < 72
    ensures 0 <= a < 360 && a % 5 == 0
  {
    d * 5
  }

  /** Every multiple of 5 in [0, 360) is a possible table angle. */
  lemma TableAnglesCovered(a: int)
    requires 0 <= a < 360 && a % 5 == 0
    ensures exists d :: 0 <= d < 72 && TableAngle(d) == a
  {
    assert TableAngle(a / 5) == a;
  }

  /** The yaw of a shelf's mesh: its parent's when it has a parent, otherwise its own. */
  function ShelfYaw(mesh: MeshObject): real
    reads mesh, mesh.parent
  {
    if mesh.parent != null then mesh.parent.rotation.z else mesh.rotation.z
  }

  /** `deg_z`: the yaw in degrees, turned by -90. */
  function ShelfDegZ(mesh: MeshObject, trig: Trig): real
    reads mesh, mesh.parent
  {
    trig.degrees(ShelfYaw(mesh)) - 90.0
  }

  /**
   * `np.random.randint(low=deg_z - 30, high=deg_z + 30)`: the float bounds are
   * truncated toward zero, and the draw is in [low, high).
   */
  predicate InShelfWindow(a: int, degZ: real)
  {
    Trunc(degZ - 30.0) <= a < Trunc(degZ + 30.0)
  }

  /** The shelf window is never empty, and every angle in it is within (deg_z - 31, deg_z + 30). */
  lemma ShelfWindowBounds(degZ: real, a: int)
    ensures Trunc(degZ + 30.0) - Trunc(degZ - 30.0) >= 59
    ensures InShelfWindow(a, degZ) ==> degZ - 31.0 < a as real < degZ + 30.0
  {
  }

  /** The camera positions of the attempts, the k-th at `angles[k]` degrees on the circle. */
  function CircleCandidates(angles: seq<int>, radius: real, height: real, center: Vec3, trig: Trig): (r: seq<Vec3>)
    ensures |r| == |angles|
    ensures forall k :: 0 <= k < |angles| ==> r[k] == Position2DCircle(angles[k] as real, radius, height, center, trig)
  {
    seq(|angles|, k requires 0 <= k < |angles| => Position2DCircle(angles[k] as real, radius, height, center, trig))
  }

  /** Every draw is a possible `randint(72)`. */
  predicate TableDraws(draws: seq<int>)
  {
    forall k :: 0 <= k < |draws| ==> 0 <= draws[k] < 72
  }

  /** The angles of the table attempts: the k-th is `TableAngle(draws[k])`. */
  function TableAngles(draws: seq<int>): (r: seq<int>)
    requires TableDraws(draws)
    ensures |r| == |draws|
    ensures forall k :: 0 <= k < |draws| ==> r[k] == TableAngle(draws[k])
  {
    seq(|draws|, k requires 0 <= k < |draws| => TableAngle(draws[k]))
  }

  /** What `shelf_or_shelf_floor` holds: a shelf, a list whose first floor names its shelf, or the default `None`. */
  datatype ShelfArg =
    | ShelfEntity(shelf: Entity)
    | FloorList(floors: seq<Surface>)
    | NoShelf

  /** The shelf the sampler works on, if the argument names one. */
  function ShelfOf(arg: ShelfArg): Option<Entity>
  {
    match arg
    case ShelfEntity(e) => Some(e)
    case FloorList(floors) => if floors != [] && floors[0].ShelfFloor? then Some(floors[0].shelf) else None
    case NoShelf => None
  }

  /** The draws fit the window of the shelf the argument names (once it has a mesh). */
  predicate ShelfDrawsFit(arg: ShelfArg, draws: seq<int>, trig: Trig)
    reads if ShelfOf(arg).Some? && ShelfOf(arg).value.mesh != null then {ShelfOf(arg).value.mesh} else {}
    reads if ShelfOf(arg).Some? && ShelfOf(arg).value.mesh != null then {ShelfOf(arg).value.mesh.parent} else {}
  {
    ShelfOf(arg).Some? && ShelfOf(arg).value.mesh != null ==>
      forall k :: 0 <= k < |draws| ==> InShelfWindow(draws[k], ShelfDegZ(ShelfOf(arg).value.mesh, trig))
  }

  /** The draws one surface of the list sampler consumes fit that surface's sampler. */
  predicate SurfaceDrawsFit(surface: Surface, draws: seq<int>, trig: Trig)
    reads if surface.ShelfFloor? && surface.shelf.mesh != null then {surface.shelf.mesh} else {}
    reads if surface.ShelfFloor? && surface.shelf.mesh != null then {surface.shelf.mesh.parent} else {}
  {
    if surface.ShelfFloor? then ShelfDrawsFit(ShelfEntity(surface.shelf), draws, trig)
    else TableDraws(draws)
  }

  /** `compute_poi([entity.mesh_object])`: the host's point of interest of the mesh, if the entity has one. */
  function PoiOf(e: Entity): Option<Vec3>
  {
    if e.mesh == null then None else Some(e.mesh.poi)
  }

  // ---------------------------------------------------------------------
  // `sample_circular_camera_poses_list`: one sampler run per surface, in order.

  /**
   * The run of the sampler a list entry is handed to: a shelf floor goes to
   * the shelf sampler with the floor's shelf, anything else to the table
   * sampler. A shelf without a mesh fails on its first attempt, before any draw.
   */
  function SurfaceRun(walls: BoundingBox, surface: Surface, numPoses: int, radius: real, height: real,
                      draws: seq<int>, trig: Trig): Run
    requires surface.TableSurface? ==> TableDraws(draws)
  {
    match surface
    case TableSurface(e, _) =>
      Attempts(walls, CircleCandidates(TableAngles(draws), radius, height, e.center, trig), 0, PoiOf(e), numPoses)
    case ShelfFloor(_, _, _, _, shelf) =>
      if shelf.mesh == null then Run(if numPoses == 0 then Done else Raised(AttributeError), [])
      else Attempts(walls, CircleCandidates(draws, radius, height, shelf.center, trig), 0, Some(shelf.mesh.poi), numPoses)
  }

  /** Each surface's run adds only in-bounds poses, and exactly `num_poses` of them when it is done. */
  lemma SurfaceRunProperties(walls: BoundingBox, surface: Surface, numPoses: int, radius: real, height: real,
                             draws: seq<int>, trig: Trig)
    requires surface.TableSurface? ==> TableDraws(draws)
    ensures var r := SurfaceRun(walls, surface, numPoses, radius, height, draws, trig);
      && (forall j :: 0 <= j < |r.poses| ==> !OutOfBox(walls, r.poses[j].position))
      && (r.outcome == Done ==> |r.poses| == numPoses)
  {
    match surface
    case TableSurface(e, _) =>
      AttemptsProperties(walls, CircleCandidates(TableAngles(draws), radius, height, e.center, trig), 0, PoiOf(e), numPoses);
    case ShelfFloor(_, _, _, _, shelf) =>
      if shelf.mesh != null {
        AttemptsProperties(walls, CircleCandidates(draws, radius, height, shelf.center, trig), 0, Some(shelf.mesh.poi), numPoses);
      }
  }

  /** The draws of every table entry are possible `randint(72)` values. */
  predicate ListDraws(surfaces: seq<Surface>, draws: seq<seq<int>>)
  {
    |draws| == |surfaces| && forall i :: 0 <= i < |surfaces| ==> surfaces[i].TableSurface? ==> TableDraws(draws[i])
  }

  /** The runs of the surfaces one after the other, up to the first that does not finish. */
  function ListRun(walls: BoundingBox, surfaces: seq<Surface>, numPoses: int, radius: real, height: real,
                   draws: seq<seq<int>>, trig: Trig): Run
    requires ListDraws(surfaces, draws)
  {
    if surfaces == [] then Run(Done, [])
    else
      var n := |surfaces| - 1;
      var before := ListRun(walls, surfaces[..n], numPoses, radius, height, draws[..n], trig);
      if before.outcome != Done then before
      else
        var last := SurfaceRun(walls, surfaces[n], numPoses, radius, height, draws[n], trig);
        Run(last.outcome, before.poses + last.poses)
  }

  lemma ListRunStep(walls: BoundingBox, surfaces: seq<Surface>, numPoses: int, radius: real, height: real,
                    draws: seq<seq<int>>, trig: Trig, i: nat)
    requires ListDraws(surfaces, draws) && i < |surfaces|
    ensures ListDraws(surfaces[..i], draws[..i]) && ListDraws(surfaces[..i + 1], draws[..i + 1])
    ensures var before := ListRun(walls, surfaces[..i], numPoses, radius, height, draws[..i], trig);
      var last := SurfaceRun(walls, surfaces[i], numPoses, radius, height, draws[i], trig);
      ListRun(walls, surfaces[..i + 1], numPoses, radius, height, draws[..i + 1], trig)
        == if before.outcome != Done then before else Run(last.outcome, before.poses + last.poses)
  {
    assert surfaces[..i + 1][..i] == surfaces[..i] && draws[..i + 1][..i] == draws[..i];
  }

  lemma AppendAssociative(a: seq<CameraPose>, b: seq<CameraPose>, c: seq<CameraPose>)
    ensures (a + b) + c == a + (b + c)
  {
  }

  /** Once a surface's run does not finish, the later surfaces are never sampled. */
  lemma {:induction false} ListRunStops(walls: BoundingBox, surfaces: seq<Surface>, numPoses: int, radius: real, height: real,
                                        draws: seq<seq<int>>, trig: Trig, i: nat)
    requires ListDraws(surfaces, draws) && i <= |surfaces|
    requires ListRun(walls, surfaces[..i], numPoses, radius, height, draws[..i], trig).outcome != Done
    ensures ListRun(walls, surfaces, numPoses, radius, height, draws, trig)
         == ListRun(walls, surfaces[..i], numPoses, radius, height, draws[..i], trig)
  {
    if i < |surfaces| {
      var n := |surfaces| - 1;
      assert surfaces[..n][..i] == surfaces[..i] && draws[..n][..i] == draws[..i];
      ListRunStops(walls, surfaces[..n], numPoses, radius, height, draws[..n], trig, i);
    } else {
      assert surfaces[..i] == surfaces && draws[..i] == draws;
    }
  }

  lemma MulStep(n: int, m: int)
    ensures n * m + m == (n + 1) * m
  {
  }

  /**
   * What the list sampler promises: every pose it adds is in bounds, and
   * when every surface's loop finishes it has added `num_poses` poses per
   * surface (so with a negative `num_poses` and a surface it never finishes).
   */
  lemma {:induction false} ListRunProperties(walls: BoundingBox, surfaces: seq<Surface>, numPoses: int, radius: real, height: real,
                                             draws: seq<seq<int>>, trig: Trig)
    requires ListDraws(surfaces, draws)
    ensures var r := ListRun(walls, surfaces, numPoses, radius, height, draws, trig);
      && (forall j :: 0 <= j < |r.poses| ==> !OutOfBox(walls, r.poses[j].position))
      && (r.outcome == Done ==> |r.poses| == |surfaces| * numPoses)
      && (numPoses < 0 && surfaces != [] ==> r.outcome != Done)
  {
    if surfaces != [] {
      var n := |surfaces| - 1;
      var before := ListRun(walls, surfaces[..n], numPoses, radius, height, draws[..n], trig);
      var last := SurfaceRun(walls, surfaces[n], numPoses, radius, height, draws[n], trig);
      ListRunProperties(walls, surfaces[..n], numPoses, radius, height, draws[..n], trig);
      SurfaceRunProperties(walls, surfaces[n], numPoses, radius, height, draws[n], trig);
      var r := ListRun(walls, surfaces, numPoses, radius, height, draws, trig);
      if before.outcome == Done {
        assert r.poses == before.poses + last.poses;
        if r.outcome == Done {
          MulStep(n, numPoses);
        }
      }
    }
  }

  class CameraPoseSampler {
    const room: Room
    /** The poses added to the host camera, in order. */
    var cameraPoses: seq<CameraPose>

    constructor (room: Room)
      ensures this.room == room && cameraPoses == []
    {
      this.room := room;
      cameraPoses := [];
    }

    /** Outside the walls' box: beyond the corners' range on some axis. */
    predicate IsPositionOutOfBounds(position: Vec3)
    {
      OutOfBox(room.walls.entity.bbox, position)
    }

    /** In bounds exactly when, on every axis, the position lies between two corners of the walls. */
    lemma InBoundsIffBetweenCorners(position: Vec3)
      ensures !IsPositionOutOfBounds(position) <==>
        forall axis :: 0 <= axis < 3 ==> BetweenCorners(room.walls.entity.bbox, position, axis)
    {
      InBoxIsBetweenCorners(room.walls.entity.bbox, position);
    }

    /** The corners of the walls' box are themselves in bounds. */
    lemma WallCornersInBounds(k: nat)
      requires k < 8
      ensures !IsPositionOutOfBounds(room.walls.entity.bbox[k])
    {
      CornersInBox(room.walls.entity.bbox, k);
    }

    method BuildCameraPose(cameraPosition: Vec3, poi: Vec3) returns (r: Result<bool>)
      modifies this
      ensures IsPositionOutOfBounds(poi) ==>
        r == Err(PlainException(PoiOutOfBoundsMessage)) && cameraPoses == old(cameraPoses)
      ensures !IsPositionOutOfBounds(poi) && !IsPositionOutOfBounds(cameraPosition) ==>
        r == Ok(true) && cameraPoses == old(cameraPoses) + [CameraPose(cameraPosition, poi)]
      ensures !IsPositionOutOfBounds(poi) && IsPositionOutOfBounds(cameraPosition) ==>
        r == Ok(false) && cameraPoses == old(cameraPoses)
    {
      if IsPositionOutOfBounds(poi) {
        return Err(PlainException(PoiOutOfBoundsMessage));
      }
      if !IsPositionOutOfBounds(cameraPosition) {
        cameraPoses := cameraPoses + [CameraPose(cameraPosition, poi)];
        return Ok(true);
      }
      return Ok(false);
    }

    method BuildCamPosesFromConfig(cameraPositions: seq<Vec3>, poi: Vec3) returns (r: Result<()>)
      modifies this
      ensures cameraPositions != [] && IsPositionOutOfBounds(poi) ==>
        r == Err(PlainException(PoiOutOfBoundsMessage)) && cameraPoses == old(cameraPoses)
      ensures cameraPositions == [] || !IsPositionOutOfBounds(poi) ==>
        r == Ok(()) && cameraPoses == old(cameraPoses) + AcceptedPoses(room.walls.entity.bbox, cameraPositions, poi)
    {
      ghost var walls := room.walls.entity.bbox;
      for i := 0 to |cameraPositions|
        invariant cameraPoses == old(cameraPoses) + AcceptedPoses(walls, cameraPositions[..i], poi)
        invariant i > 0 ==> !IsPositionOutOfBounds(poi)
      {
        var built := BuildCameraPose(cameraPositions[i], poi);
        if built.Err? {
          return Err(built.error);
        }
        AcceptedPosesStep(walls, cameraPositions, i, poi);
      }
      assert cameraPositions[..|cameraPositions|] == cameraPositions;
      return Ok(());
    }

    /**
     * `sample_circular_camera_poses_table`: `draws[k]` is the k-th
     * `randint(72)`; each attempt draws an angle, places the camera on the
     * circle around the surface center and asks `build_camera_pose`.
     */
    method SampleCircularCameraPosesTable(tableSurface: Surface, numPoses: int, radius: real, height: real,
                                          draws: seq<int>, trig: Trig)
      returns (outcome: SamplingOutcome)
      requires TableDraws(draws)
      modifies this
      ensures var run := Attempts(room.walls.entity.bbox, CircleCandidates(TableAngles(draws), radius, height, tableSurface.entity.center, trig),
                                  0, PoiOf(tableSurface.entity), numPoses);
        outcome == run.outcome && cameraPoses == old(cameraPoses) + run.poses
    {
      var mesh := tableSurface.entity.mesh;
      if mesh == null {
        // Each attempt draws its angle before `compute_poi` fails on the missing mesh.
        if numPoses != 0 && draws != [] {
          return Raised(AttributeError);
        }
        return if numPoses == 0 then Done else DrawsExhausted;
      }
      // the k-th draw d gives the k-th attempt's angle d * 5
      var angles := TableAngles(draws);
      outcome := CircleAttempts(tableSurface.entity.center, mesh, numPoses, radius, height, angles, trig);
    }

    /**
     * `sample_circular_camera_poses_shelf`: `draws[k]` is the k-th
     * `randint(deg_z - 30, deg_z + 30)`, with `deg_z` from the yaw of the
     * shelf's mesh (or of its parent).
     */
    method SampleCircularCameraPosesShelf(shelfOrShelfFloor: ShelfArg, numPoses: int, radius: real, height: real,
                                          draws: seq<int>, trig: Trig)
      returns (outcome: SamplingOutcome)
      requires ShelfDrawsFit(shelfOrShelfFloor, draws, trig)
      modifies this
      ensures shelfOrShelfFloor == FloorList([]) ==> outcome == Raised(IndexError) && cameraPoses == old(cameraPoses)
      ensures shelfOrShelfFloor != FloorList([]) && (ShelfOf(shelfOrShelfFloor).None? || ShelfOf(shelfOrShelfFloor).value.mesh == null) ==>
        outcome == (if numPoses == 0 then Done else Raised(AttributeError)) && cameraPoses == old(cameraPoses)
      ensures ShelfOf(shelfOrShelfFloor).Some? && ShelfOf(shelfOrShelfFloor).value.mesh != null ==>
        var shelf := ShelfOf(shelfOrShelfFloor).value;
        var run := Attempts(room.walls.entity.bbox, CircleCandidates(draws, radius, height, shelf.center, trig),
                            0, Some(shelf.mesh.poi), numPoses);
        outcome == run.outcome && cameraPoses == old(cameraPoses) + run.poses
    {
      var shelf: Entity;
      match shelfOrShelfFloor {
        case ShelfEntity(e) =>
          shelf := e;
        case FloorList(floors) =>
          if floors == [] {
            return Raised(IndexError);
          }
          if !floors[0].ShelfFloor? {
            // the list itself stays the shelf, and has no `mesh_object`
            if numPoses == 0 {
              return Done;
            }
            return Raised(AttributeError);
          }
          shelf := floors[0].shelf;
        case NoShelf =>
          // `None.mesh_object`
          if numPoses == 0 {
            return Done;
          }
          return Raised(AttributeError);
      }
      var mesh := shelf.mesh;
      if mesh == null {
        if numPoses == 0 {
          return Done;
        }
        return Raised(AttributeError);
      }
      outcome := CircleAttempts(shelf.center, mesh, numPoses, radius, height, draws, trig);
    }

    /**
     * The retry loop shared by the table and shelf samplers once the mesh is
     * known: draw, place the camera on the circle, try the pose, count it if
     * it was accepted.
     */
    method CircleAttempts(center: Vec3, mesh: MeshObject, numPoses: int, radius: real, height: real,
                          angles: seq<int>, trig: Trig)
      returns (outcome: SamplingOutcome)
      modifies this
      ensures var run := Attempts(room.walls.entity.bbox, CircleCandidates(angles, radius, height, center, trig),
                                  0, Some(mesh.poi), numPoses);
        outcome == run.outcome && cameraPoses == old(cameraPoses) + run.poses
    {
      ghost var walls := room.walls.entity.bbox;
      ghost var candidates := CircleCandidates(angles, radius, height, center, trig);
      ghost var goal := Attempts(walls, candidates, 0, Some(mesh.poi), numPoses);
      ghost var added: seq<CameraPose> := [];
      var step := 0;
      var k := 0;
      ghost var remaining := numPoses;
      assert added + goal.poses == goal.poses;
      while step != numPoses
        invariant 0 <= k <= |angles|
        invariant remaining == numPoses - step
        invariant cameraPoses == old(cameraPoses) + added
        invariant goal.outcome == Attempts(walls, candidates, k, Some(mesh.poi), remaining).outcome
        invariant goal.poses == added + Attempts(walls, candidates, k, Some(mesh.poi), remaining).poses
        decreases |angles| - k
      {
        if k == |angles| {
          return DrawsExhausted;
        }
        var cameraPosition := Position2DCircle(angles[k] as real, radius, height, center, trig);
        assert candidates[k] == cameraPosition;
        var built := BuildCameraPose(cameraPosition, mesh.poi);
        if built.Err? {
          return Raised(built.error);
        }
        k := k + 1;
        if built.value {
          AppendAssociative(added, [CameraPose(cameraPosition, mesh.poi)],
                            Attempts(walls, candidates, k, Some(mesh.poi), remaining - 1).poses);
          added := added + [CameraPose(cameraPosition, mesh.poi)];
          step := step + 1;
          remaining := remaining - 1;
        }
      }
      return Done;
    }

    /** One entry of the list sampler: the shelf sampler for a shelf floor's shelf, the table sampler otherwise. */
    method SampleSurface(surface: Surface, numPoses: int, radius: real, height: real, draws: seq<int>, trig: Trig)
      returns (outcome: SamplingOutcome)
      requires SurfaceDrawsFit(surface, draws, trig)
      modifies this
      ensures var run := SurfaceRun(room.walls.entity.bbox, surface, numPoses, radius, height, draws, trig);
        outcome == run.outcome && cameraPoses == old(cameraPoses) + run.poses
    {
      if surface.ShelfFloor? {
        outcome := SampleCircularCameraPosesShelf(ShelfEntity(surface.shelf), numPoses, radius, height, draws, trig);
      } else {
        outcome := SampleCircularCameraPosesTable(surface, numPoses, radius, height, draws, trig);
      }
    }

    /**
     * `sample_circular_camera_poses_list`: each entry in order, `draws[i]`
     * being the draws the i-th entry's loop consumes.
     */
    method SampleCircularCameraPosesList(surfaces: seq<Surface>, numPoses: int, radius: real, height: real,
                                         draws: seq<seq<int>>, trig: Trig)
      returns (outcome: SamplingOutcome)
      requires |draws| == |surfaces|
      requires forall i :: 0 <= i < |surfaces| ==> SurfaceDrawsFit(surfaces[i], draws[i], trig)
      modifies this
      ensures ListDraws(surfaces, draws)
      ensures var run := ListRun(room.walls.entity.bbox, surfaces, numPoses, radius, height, draws, trig);
        outcome == run.outcome && cameraPoses == old(cameraPoses) + run.poses
    {
      ghost var walls := room.walls.entity.bbox;
      assert ListDraws(surfaces, draws);
      for i := 0 to |surfaces|
        invariant ListRun(walls, surfaces[..i], numPoses, radius, height, draws[..i], trig).outcome == Done
        invariant cameraPoses == old(cameraPoses) + ListRun(walls, surfaces[..i], numPoses, radius, height, draws[..i], trig).poses
      {
        ghost var before := ListRun(walls, surfaces[..i], numPoses, radius, height, draws[..i], trig);
        ghost var last := SurfaceRun(walls, surfaces[i], numPoses, radius, height, draws[i], trig);
        var o := SampleSurface(surfaces[i], numPoses, radius, height, draws[i], trig);
        AppendAssociative(old(cameraPoses), before.poses, last.poses);
        ListRunStep(walls, surfaces, numPoses, radius, height, draws, trig, i);
        if o != Done {
          ListRunStops(walls, surfaces, numPoses, radius, height, draws, trig, i + 1);
          return o;
        }
      }
      assert surfaces[..|surfaces|] == surfaces && draws[..|draws|] == draws;
      return Done;
    }
  }
  // ---------------------------------------------------------------------
  // `ObjectPoseSampler` (src/suturo_blenderproc/sampler/pose_sampler.py:102-135).

  /** The cursor after `next_surface`: one on, and back to 0 when that reaches the number of surfaces. */
  function Advance(cursor: int, len: nat): int
  {
    if cursor + 1 == len then 0 else cursor + 1
  }

  /** The cursor after `n` calls of `next_surface`. */
  function AdvanceN(cursor: int, len: nat, n: nat): int
    decreases n
  {
    if n == 0 then cursor else AdvanceN(Advance(cursor, len), len, n - 1)
  }

  /** Before the end of the list is reached, each call moves the cursor one place on. */
  lemma {:induction false} AdvanceNNoWrap(cursor: int, len: nat, n: nat)
    requires 0 <= cursor && cursor + n < len
    ensures AdvanceN(cursor, len, n) == cursor + n
    decreases n
  {
    if n > 0 {
      AdvanceNNoWrap(cursor + 1, len, n - 1);
    }
  }

  /** `a + b` calls are `a` calls followed by `b` calls. */
  lemma {:induction false} AdvanceNCompose(cursor: int, len: nat, a: nat, b: nat)
    ensures AdvanceN(cursor, len, a + b) == AdvanceN(AdvanceN(cursor, len, a), len, b)
    decreases a
  {
    if a > 0 {
      AdvanceNCompose(Advance(cursor, len), len, a - 1, b);
    }
  }

  /**
   * On a non-empty list, `len` calls of `next_surface` bring the cursor back
   * to where it started, and no fewer calls do.
   */
  lemma AdvanceCycle(cursor: int, len: nat)
    requires 0 <= cursor < len
    ensures AdvanceN(cursor, len, len) == cursor
    ensures forall n :: 0 < n < len ==> AdvanceN(cursor, len, n) != cursor
  {
    var toEnd := len - 1 - cursor;
    AdvanceNNoWrap(cursor, len, toEnd);
    AdvanceNCompose(cursor, len, toEnd, 1);
    assert AdvanceN(cursor, len, toEnd + 1) == 0;
    AdvanceNCompose(cursor, len, toEnd + 1, cursor);
    AdvanceNNoWrap(0, len, cursor);
    forall n | 0 < n < len
      ensures AdvanceN(cursor, len, n) != cursor
    {
      if n <= toEnd {
        AdvanceNNoWrap(cursor, len, n);
      } else {
        AdvanceNCompose(cursor, len, toEnd + 1, n - toEnd - 1);
        AdvanceNNoWrap(0, len, n - toEnd - 1);
      }
    }
  }

  /** A unit draw scales a difference `d` to a value between 0 (included) and `d` (excluded). */
  lemma ScaleBetween(d: real, u: real)
    requires 0.0 <= u < 1.0
    ensures d > 0.0 ==> 0.0 <= d * u < d
    ensures d < 0.0 ==> d < d * u <= 0.0
    ensures d == 0.0 ==> d * u == 0.0
  {
    if d > 0.0 {
      assert d * (1.0 - u) > 0.0;
    } else if d < 0.0 {
      assert (-d) * (1.0 - u) > 0.0;
      assert (-d) * u >= 0.0;
    }
  }

  /**
   * `np.random.uniform(low, high)` for one coordinate, `u` being the unit
   * draw: `low + (high - low) * u`; when `high < low` the value lies in
   * `(high, low]`.
   */
  function Uniform(low: real, high: real, u: real): (x: real)
    requires 0.0 <= u < 1.0
    ensures low == high ==> x == low
    ensures low < high ==> low <= x < high
    ensures high < low ==> high < x <= low
  {
    var d := high - low;
    ScaleBetween(d, u);
    low + d * u
  }

  /** `ux` lies between `a` and `b`, whichever is larger. */
  predicate Between(x: real, a: real, b: real)
  {
    (a <= b && a <= x <= b) || (b < a && b <= x <= a)
  }

  /**
   * The point `sample_object_pose_uniform` places an object at: x and y
   * uniform over the surface's box shrunk by 0.15 on each side, z at the
   * surface's height.
   */
  function Placement(surface: Surface, ux: real, uy: real, uz: real): (p: Vec3)
    requires 0.0 <= ux < 1.0 && 0.0 <= uy < 1.0 && 0.0 <= uz < 1.0
    ensures p.z == surface.height
    ensures Between(p.x, AxisMin(surface.entity.bbox, 0) + 0.15, AxisMax(surface.entity.bbox, 0) - 0.15)
    ensures Between(p.y, AxisMin(surface.entity.bbox, 1) + 0.15, AxisMax(surface.entity.bbox, 1) - 0.15)
  {
    var bbox := surface.entity.bbox;
    var lower := Vec3(AxisMin(bbox, 0) + 0.15, AxisMin(bbox, 1) + 0.15, surface.height);
    var upper := Vec3(AxisMax(bbox, 0) - 0.15, AxisMax(bbox, 1) - 0.15, surface.height);
    Vec3(Uniform(lower.x, upper.x, ux), Uniform(lower.y, upper.y, uy), Uniform(lower.z, upper.z, uz))
  }

  class ObjectPoseSampler {
    /** The surfaces of the furniture, in order; fixed once the sampler is built. */
    const surfaces: seq<Surface>
    /** `current_surface`: the index of the surface objects are placed on. */
    var currentSurface: int

    /** The cursor is never negative, and points at a surface whenever there is one. */
    predicate Valid()
      reads this
    {
      0 <= currentSurface && (surfaces != [] ==> currentSurface < |surfaces|)
    }

    constructor (furnitures: seq<Furniture>)
      ensures surfaces == SurfacesOf(furnitures) && currentSurface == 0 && Valid()
    {
      var extracted := ExtractSurfacesFromFurnitures(furnitures);
      surfaces := extracted;
      currentSurface := 0;
    }

    function GetLenSurfaces(): nat
    {
      |surfaces|
    }

    /** `surfaces[current_surface]`, an `IndexError` when there are no surfaces. */
    function GetCurrentSurface(): (r: Result<Surface>)
      requires Valid()
      reads this
      ensures r.Ok? <==> surfaces != []
      ensures r.Ok? ==> r.value in surfaces && r.value == surfaces[currentSurface]
      ensures r.Err? ==> r.error == IndexError
    {
      if currentSurface < |surfaces| then Ok(surfaces[currentSurface]) else Err(IndexError)
    }

    /**
     * `next_surface_same_parent`: false at the last surface (it does not wrap
     * round); otherwise whether the meshes of this surface and the next have
     * the same parent. A missing mesh is an `AttributeError`, an empty list
     * an `IndexError`.
     */
    function NextSurfaceSameParent(): (r: Result<bool>)
      requires Valid()
      reads this
      ensures currentSurface == |surfaces| - 1 ==> r == Ok(false)
      ensures r == Ok(true) ==>
        currentSurface + 1 < |surfaces| && surfaces[currentSurface].entity.mesh != null
        && surfaces[currentSurface + 1].entity.mesh != null
        && surfaces[currentSurface].entity.mesh.parent == surfaces[currentSurface + 1].entity.mesh.parent
      ensures r == Ok(false) && currentSurface + 1 < |surfaces| ==>
        surfaces[currentSurface].entity.mesh != null && surfaces[currentSurface + 1].entity.mesh != null
        && surfaces[currentSurface].entity.mesh.parent != surfaces[currentSurface + 1].entity.mesh.parent
      ensures r == Err(IndexError) <==> surfaces == []
      ensures r == Err(AttributeError) <==>
        currentSurface + 1 < |surfaces| &&
        (surfaces[currentSurface].entity.mesh == null || surfaces[currentSurface + 1].entity.mesh == null)
      ensures r.Err? ==> r.error == IndexError || r.error == AttributeError
    {
      if currentSurface == |surfaces| - 1 then Ok(false)
      else if currentSurface + 1 >= |surfaces| then Err(IndexError)
      else
        var here := surfaces[currentSurface].entity.mesh;
        var next := surfaces[currentSurface + 1].entity.mesh;
        if here == null || next == null then Err(AttributeError)
        else Ok(here.parent == next.parent)
    }

    /** When the next surface shares the parent, `next_surface` moves to it, without wrapping round. */
    lemma SameParentIsNextSurface()
      requires Valid() && NextSurfaceSameParent() == Ok(true)
      ensures 0 <= Advance(currentSurface, |surfaces|) < |surfaces|
      ensures Advance(currentSurface, |surfaces|) == currentSurface + 1
    {
    }

    /** `next_surface`. */
    method NextSurface()
      requires Valid()
      modifies this
      ensures Valid()
      ensures currentSurface == Advance(old(currentSurface), |surfaces|)
    {
      currentSurface := currentSurface + 1;
      if currentSurface == GetLenSurfaces() {
        currentSurface := 0;
      }
    }

    /**
     * `sample_object_pose_uniform` as written: `ux`, `uy`, `uz` are the unit
     * draws of `np.random.uniform`. The location is set; the rotation helper is
     * then looked up in `utils.blenderproc_utils`, the module under src/utils,
     * which does not define it, so AttributeError is raised and the rotation
     * is left as it was. The cursor does not move.
     */
    method SampleObjectPoseUniform(obj: MeshObject, ux: real, uy: real, uz: real) returns (res: Result<()>)
      requires Valid()
      requires 0.0 <= ux < 1.0 && 0.0 <= uy < 1.0 && 0.0 <= uz < 1.0
      modifies obj
      ensures surfaces == [] ==> res == Err(IndexError) && unchanged(obj)
      ensures surfaces != [] ==>
        && res == Err(AttributeError)
        && obj.location == Placement(surfaces[currentSurface], ux, uy, uz)
        && obj.rotation == old(obj.rotation)
        && obj.hideRender == old(obj.hideRender)
    {
      var current := GetCurrentSurface();
      if current.Err? {
        return Err(current.error);
      }
      var surface := current.value;
      obj.location := Placement(surface, ux, uy, uz);
      return Err(AttributeError);
    }

    /**
     * `sample_object_pose_uniform` calling the rotation helper of
     * src/suturo_blenderproc/utils/blenderproc_utils.py, as intended: `r` is
     * the yaw draw of `set_random_rotation_euler_zaxis`.
     */
    method SampleObjectPoseUniformRotated(obj: MeshObject, ux: real, uy: real, uz: real, r: real) returns (res: Result<()>)
      requires Valid()
      requires 0.0 <= ux < 1.0 && 0.0 <= uy < 1.0 && 0.0 <= uz < 1.0 && 0.0 <= r < 6.0
      modifies obj
      ensures surfaces == [] ==> res == Err(IndexError) && unchanged(obj)
      ensures surfaces != [] ==>
        && res == Ok(())
        && obj.location == Placement(surfaces[currentSurface], ux, uy, uz)
        && obj.rotation == Vec3(old(obj.rotation.x), old(obj.rotation.y), old(obj.rotation.z) + r)
        && obj.hideRender == old(obj.hideRender)
    {
      var current := GetCurrentSurface();
      if current.Err? {
        return Err(current.error);
      }
      var surface := current.value;
      obj.location := Placement(surface, ux, uy, uz);
      BlenderUtils.SetRandomRotationEulerZaxis(obj, r);
      return Ok(());
    }
  }

  // ---------------------------------------------------------------------
  // `LightPoseSampler` (src/suturo_blenderproc/sampler/pose_sampler.py:138-167).

  /** What `set_light_for_furniture` is handed: a surface, or a piece of furniture. */
  datatype LightTarget =
    | SurfaceTarget(surface: Surface)
    | FurnitureTarget(furniture: Furniture)

  function TargetEntity(t: LightTarget): Entity
  {
    match t
    case SurfaceTarget(s) => s.entity
    case FurnitureTarget(f) => f.entity
  }

  /** The target is a table surface. */
  predicate OnTable(t: LightTarget)
  {
    t.SurfaceTarget? && t.surface.TableSurface?
  }

  /** The target is a shelf floor or a shelf: the light goes in front of it. */
  predicate OnShelf(t: LightTarget)
  {
    (t.SurfaceTarget? && t.surface.ShelfFloor?) || (t.FurnitureTarget? && t.furniture.Shelf?)
  }

  /** The table light hangs 0.6 below the walls' height, straight above the surface center. */
  function TableLightLocation(center: Vec3, wallsHeight: real): (p: Vec3)
    ensures p.x == center.x && p.y == center.y && p.z == wallsHeight - 0.6
  {
    Vec3(center.x, center.y, wallsHeight - 0.6)
  }

  /** The shelf light: 0.8 from the center, at the shelf's `deg_z`, 0.6 below the walls' height. */
  function ShelfLightLocation(center: Vec3, wallsHeight: real, degZ: real, trig: Trig): (p: Vec3)
    ensures p.z == wallsHeight - 0.6
  {
    Position2DCircle(degZ, 0.8, wallsHeight - 0.6, center, trig)
  }

  /** With cos^2 + sin^2 = 1 the shelf light lies at planar distance 0.8 from the center. */
  lemma ShelfLightDistance(center: Vec3, wallsHeight: real, degZ: real, trig: Trig)
    requires var t := trig.radians(NormalizeAngle(degZ));
      trig.cos(t) * trig.cos(t) + trig.sin(t) * trig.sin(t) == 1.0
    ensures var p := ShelfLightLocation(center, wallsHeight, degZ, trig);
      (p.x - center.x) * (p.x - center.x) + (p.y - center.y) * (p.y - center.y) == 0.8 * 0.8
  {
    CirclePointDistance(degZ, 0.8, wallsHeight - 0.6, center, trig);
  }

  class LightPoseSampler {
    const room: Room
    /** `self.lights`: every light created, in order. */
    var lights: seq<Light>

    constructor (room: Room)
      ensures this.room == room && lights == []
    {
      this.room := room;
      lights := [];
    }

    /**
     * `set_light_for_furniture` (`strength` defaults to 50 in the source):
     * a new light on every call; it is placed and powered on a table
     * surface or a shelf, and left at the host's defaults for anything else.
     * A shelf without a mesh raises before the light is recorded.
     */
    method SetLightForFurniture(target: LightTarget, strength: real, trig: Trig) returns (r: Result<()>)
      modifies this
      ensures r.Err? <==> OnShelf(target) && TargetEntity(target).mesh == null
      ensures r.Err? ==> r.error == AttributeError && lights == old(lights)
      ensures r.Ok? ==> |lights| == |old(lights)| + 1 && lights[..|old(lights)|] == old(lights)
      ensures r.Ok? ==> fresh(lights[|lights| - 1]) && !lights[|lights| - 1].deleted
      ensures r.Ok? && OnTable(target) ==>
        lights[|lights| - 1].location == Some(TableLightLocation(TargetEntity(target).center, room.walls.height))
        && lights[|lights| - 1].energy == Some(strength)
      ensures r.Ok? && OnShelf(target) ==>
        lights[|lights| - 1].location ==
          Some(ShelfLightLocation(TargetEntity(target).center, room.walls.height, ShelfDegZ(TargetEntity(target).mesh, trig), trig))
        && lights[|lights| - 1].energy == Some(strength)
      ensures r.Ok? && !OnTable(target) && !OnShelf(target) ==>
        lights[|lights| - 1].location == None && lights[|lights| - 1].energy == None
    {
      var entity := TargetEntity(target);
      var center := entity.center;
      var height := room.walls.height - 0.6;
      var light := new Light();
      if OnTable(target) {
        light.SetLocation(Vec3(center.x, center.y, height));
        light.SetEnergy(strength);
      }
      if OnShelf(target) {
        var mesh := entity.mesh;
        if mesh == null {
          return Err(AttributeError);
        }
        var degZ := ShelfDegZ(mesh, trig);
        var lightsPosition := Position2DCircle(degZ, 0.8, height, center, trig);
        light.SetLocation(lightsPosition);
        light.SetEnergy(strength);
      }
      lights := lights + [light];
      return Ok(());
    }

    /** `delete_lights`: every recorded light is deleted; the list itself is kept. */
    method DeleteLights()
      modifies set i | 0 <= i < |lights| :: lights[i]
      ensures lights == old(lights)
      ensures forall i :: 0 <= i < |lights| ==> lights[i].deleted
      ensures forall i :: 0 <= i < |lights| ==>
        lights[i].location == old(lights[i].location) && lights[i].energy == old(lights[i].energy)
    {
      for k := 0 to |lights|
        invariant forall i :: 0 <= i < k ==> lights[i].deleted
        invariant forall i :: 0 <= i < |lights| ==>
          lights[i].location == old(lights[i].location) && lights[i].energy == old(lights[i].energy)
      {
        lights[k].Delete();
      }
    }
  }
}
