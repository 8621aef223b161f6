/**
 * The scene records of src/suturo_blenderproc/types (entity.py, table.py,
 * shelf.py, wall.py, room.py) and the two host-engine handles the core
 * touches: mesh objects and lights. Host handles are classes, so that two
 * handles are the same object exactly when Python's are; the records are
 * values, built once when the scene is loaded and not changed afterwards.
 */
module SceneTypes {
  import opened Wrappers
  import opened Geometry

  /**
   * A mesh object of the host engine. `name`, `parent` and `poi` are the
   * answers of `get_name()`, `get_parent()` and
   * `bproc.object.compute_poi([mesh])`; the other fields are the state the
   * core changes through the host.
   */
  class MeshObject {
    const name: string
    const parent: MeshObject?
    const poi: Vec3
    var location: Vec3
    var rotation: Vec3        // Euler angles in radians
    var hideRender: bool

    constructor (name: string, parent: MeshObject?, poi: Vec3, location: Vec3, rotation: Vec3, hideRender: bool)
      ensures this.name == name && this.parent == parent && this.poi == poi
      ensures this.location == location && this.rotation == rotation && this.hideRender == hideRender
    {
      this.name := name;
      this.parent := parent;
      this.poi := poi;
      this.location := location;
      this.rotation := rotation;
      this.hideRender := hideRender;
    }

    /** `duplicate()`: a new host object like this one; the host names the copy. */
    method Duplicate(copyName: string) returns (c: MeshObject)
      ensures fresh(c)
      ensures c.name == copyName && c.parent == parent && c.poi == poi
      ensures c.location == location && c.rotation == rotation && c.hideRender == hideRender
      ensures IsCopyOf(c, this)
    {
      c := new MeshObject(copyName, parent, poi, location, rotation, hideRender);
    }
  }

  /** `c` carries the parent, point of interest, pose and render flag of `o`: all a `duplicate()` keeps. */
  predicate IsCopyOf(c: MeshObject, o: MeshObject)
    reads c, o
  {
    c.parent == o.parent && c.poi == o.poi && c.location == o.location
    && c.rotation == o.rotation && c.hideRender == o.hideRender
  }

  /** A light of the host engine; `None` stands for a value never set, i.e. the host's default. */
  class Light {
    var location: Option<Vec3>
    var energy: Option<real>
    var deleted: bool

    /** `bproc.types.Light()`. */
    constructor ()
      ensures location == None && energy == None && !deleted
    {
      location := None;
      energy := None;
      deleted := false;
    }

    method SetLocation(p: Vec3)
      modifies this
      ensures location == Some(p) && energy == old(energy) && deleted == old(deleted)
    {
      location := Some(p);
    }

    method SetEnergy(e: real)
      modifies this
      ensures energy == Some(e) && location == old(location) && deleted == old(deleted)
    {
      energy := Some(e);
    }

    method Delete()
      modifies this
      ensures deleted && location == old(location) && energy == old(energy)
    {
      deleted := true;
    }
  }

  /** entity.py: a center, the eight bounding-box corners and the mesh (None until loaded). */
  datatype Entity = Entity(center: Vec3, bbox: BoundingBox, mesh: MeshObject?)

  /** `Entity()`: zero center, all-zero corners, no mesh. */
  const DefaultEntity: Entity := Entity(Origin, ZeroBox, null)

  /** The table variants of table.py; they only carry dimensions. */
  datatype TableShape =
    | PlainTable
    | RectangularTable(xSize: real, ySize: real, zSize: real)
    | RoundTable(radius: real)
    | OvalTable(semiMajorX: real, semiMajorY: real)

  /**
   * A surface objects are placed on: the top of a table, or one floor of a
   * shelf, which knows the shelf it belongs to.
   */
  datatype Surface =
    | TableSurface(entity: Entity, height: real)
    | ShelfFloor(entity: Entity, height: real, xSize: real, ySize: real, shelf: Entity)

  /** Items handed to the samplers as furniture. */
  datatype Furniture =
    | Table(entity: Entity, shape: TableShape, tableSurface: Surface)
    | Shelf(entity: Entity, shelfFloors: seq<Surface>)
    | OtherItem(entity: Entity)

  /** room.py: the walls, whose bounding box is the room's envelope. */
  datatype Walls = Walls(entity: Entity, xLength: real, yLength: real, height: real)

  datatype Room = Room(entity: Entity, walls: Walls, floor: Entity, baseboard: Entity)

  /** `Room()` (src/suturo_blenderproc/types/room.py:7-11): new walls, floor and baseboard, all defaults. */
  function NewRoom(): (r: Room)
    ensures r.walls.xLength == 0.0 && r.walls.yLength == 0.0 && r.walls.height == 0.0
    ensures r.walls.entity.bbox == ZeroBox && r.walls.entity.mesh == null
    ensures r.floor.mesh == null && r.baseboard.mesh == null && r.entity.mesh == null
  {
    Room(DefaultEntity, Walls(DefaultEntity, 0.0, 0.0, 0.0), DefaultEntity, DefaultEntity)
  }

  /** A default room's envelope is the origin alone. */
  lemma DefaultRoomEnvelope(p: Vec3)
    ensures OutOfBox(NewRoom().walls.entity.bbox, p) <==> p != Origin
  {
    var box := NewRoom().walls.entity.bbox;
    forall axis | 0 <= axis < 3
      ensures AxisMax(box, axis) == 0.0 && AxisMin(box, axis) == 0.0
    {
      assert forall i :: 0 <= i < 8 ==> box[i].Get(axis) == 0.0;
      AxisBounds(box, axis);
    }
    if p != Origin {
      if p.x != 0.0 {
        assert p.Get(0) != 0.0;
      } else if p.y != 0.0 {
        assert p.Get(1) != 0.0;
      } else {
        assert p.Get(2) != 0.0;
      }
    }
  }

  /** The handles that are set, in their order. */
  function NonNull(s: seq<MeshObject?>): (r: seq<MeshObject>)
    ensures |r| <= |s|
    ensures forall i :: 0 <= i < |r| ==> r[i] in s
    ensures forall i :: 0 <= i < |s| && s[i] != null ==> s[i] in r
  {
    if s == [] then []
    else if s[0] == null then NonNull(s[1..])
    else [s[0]] + NonNull(s[1..])
  }

  /** `get_mesh_objects_from_room`: the set meshes of walls, floor and baseboard, in that order. */
  function GetMeshObjectsFromRoom(room: Room): (r: seq<MeshObject>)
    ensures |r| <= 3
    ensures r == (if room.walls.entity.mesh != null then [room.walls.entity.mesh] else [])
              + (if room.floor.mesh != null then [room.floor.mesh] else [])
              + (if room.baseboard.mesh != null then [room.baseboard.mesh] else [])
  {
    var w, f, b := room.walls.entity.mesh, room.floor.mesh, room.baseboard.mesh;
    NonNullCons(b, []);
    NonNullCons(f, [b]);
    NonNullCons(w, [f, b]);
    NonNull([w, f, b])
  }

  lemma NonNullCons(x: MeshObject?, s: seq<MeshObject?>)
    ensures NonNull([x] + s) == (if x != null then [x] else []) + NonNull(s)
  {
    assert ([x] + s)[1..] == s;
  }
}
