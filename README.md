# SUTURO-blenderproc scene-sampling core, in Dafny

SUTURO-blenderproc drives Blender (through BlenderProc) to build synthetic,
annotated training images. It furnishes a room, samples camera, light and
object poses relative to furniture surfaces, splits the objects to place
into batches, and converts the resulting COCO annotations to YOLO label
files. This project models the logic of that pipeline that does not live
inside the engine, and proves properties of it.

- **Object partitioner** (`object_partitions.dfy`). `ObjectPartition` shuffles
  a copy of its objects in place and cuts them to a multiple of K. It then
  splits them with one of three policies: EQUAL, UNIQUE (de-duplication by
  base name, the text before the first `.`) or LESS_PROBABLE (weighted draws
  without replacement, reweighing and renormalising after each draw).
- **Pose samplers** (`pose_sampler.dfy`).
  - `CameraPoseSampler`: the room-envelope bounds test, accept/reject camera
    poses, and the table, shelf and list samplers. Poses are appended to a
    camera-pose log.
  - `ObjectPoseSampler`: the surface cursor and the uniform placement box.
  - `LightPoseSampler`: the list of created lights.
- **Small helpers**.
  - Angle and bounding-box arithmetic (`geometry.dfy`).
  - Mesh-object utilities and object duplication (`blender_utils.dfy`).
  - The room records and mesh filtering (`scene_types.dfy`).
  - COCO→YOLO box conversion, label grouping and category cleaning
    (`yolo_convert.dfy`).
  - The natural-sort key, sorted listing and the renaming map
    (`combine_datasets.dfy`).
  - Elapsed-time formatting (`logger.dfy`).
  - Project path resolution over an abstract file system (`path_utils.dfy`).
- **Support modules**. `strings.dfy` holds the Python string operations the
  code uses, over `seq<char>`. `wrappers.dfy` holds `Option`, `Result` and the
  Python exceptions that can be raised.

## How the model is built

- **Coordinates** are `real`.
- **Random draws** are method parameters, constrained by `requires` to the
  range the code draws from. This covers `np.random.shuffle` swaps,
  `randint`, `uniform`, `random.choice` indices and the argsort order.
- **Loops that retry until they succeed** (`while step != num_poses`)
  consume a finite sequence of draws. When the draws run out before the
  loop would stop, the outcome is `DrawsExhausted`.
- **Trigonometry and degree/radian conversion** are function values in a
  `Trig` record; nothing is assumed about them beyond what a lemma requires.
- **Host objects.**
  - Blender mesh objects and lights are classes (`MeshObject`, `Light`) whose
    fields the code updates in place.
  - The host camera's pose list is the `cameraPoses` field of
    `CameraPoseSampler`.
  - `compute_poi` of a mesh is a constant field of that mesh.
- **The file system** is given as predicates (`present`, `isFile`, `isDir`)
  and a directory listing.
- **Python semantics written out explicitly.**
  - Integer `%` with a negative divisor (`PyMod`).
  - `int()` truncation toward zero (`Trunc`).
  - `//` and `%` on floats (`FloorDiv`, `FloorMod`).
  - String comparison (`LexLess`), `str.replace` (`RemoveAll`) and `str(int)`.
- **Duplicated source functions.** `rename_images` and `rename_labels`
  (src/yolo/combine_datasets.py:43-59) are two near-identical functions that
  differ only in the extension. `RenameImages` and `RenameLabels` mirror that
  duplication, and both call the shared `RenameSorted`, which takes the
  extension as a parameter.

The code never validates `probability_reduction_factor` or the partition
count, and UNIQUE_OBJECTS can leave duplicates in a group (see Findings);
the model keeps both behaviours.

## Model

| member | source | states |
|---|---|---|
| PoseSampler.ExtractSurfacesFromFurnitures | src/suturo_blenderproc/sampler/pose_sampler.py:15-26 | the appending loop produces exactly the flattened surface list: the table surface of each table, every shelf floor of each shelf, in furniture order |
| PoseSampler.SurfacesOfMembers | src/suturo_blenderproc/sampler/pose_sampler.py:15-26 | a surface is extracted iff some furniture item provides it |
| PoseSampler.SurfacesOfAppend | src/suturo_blenderproc/sampler/pose_sampler.py:17-22 | extraction preserves furniture order: the surfaces of a + b are those of a followed by those of b |
| PoseSampler.OtherItemsSkipped | src/suturo_blenderproc/sampler/pose_sampler.py:23-24 | items that are neither tables nor shelves contribute no surface |
| PoseSampler.CameraPoseSampler.constructor | src/suturo_blenderproc/sampler/pose_sampler.py:30-31 | the sampler keeps the room and starts with an empty camera-pose log |
| PoseSampler.CameraPoseSampler.InBoundsIffBetweenCorners | src/suturo_blenderproc/sampler/pose_sampler.py:33-36 | a position is in bounds iff on every axis it lies between the minimum and maximum wall-corner coordinate, boundary included |
| PoseSampler.CameraPoseSampler.WallCornersInBounds | src/suturo_blenderproc/sampler/pose_sampler.py:33-36 | every wall corner is itself in bounds |
| PoseSampler.CameraPoseSampler.BuildCameraPose | src/suturo_blenderproc/sampler/pose_sampler.py:38-48 | an out-of-bounds POI raises the plain Exception before anything is appended; an in-bounds camera appends exactly one pose and returns True; an out-of-bounds camera appends nothing and returns False |
| PoseSampler.CameraPoseSampler.BuildCamPosesFromConfig | src/suturo_blenderproc/sampler/pose_sampler.py:50-52 | poses are appended for exactly the in-bounds positions, in input order; a bad POI raises on the first position and appends nothing |
| PoseSampler.AcceptedPosesMembers | src/suturo_blenderproc/sampler/pose_sampler.py:50-52 | a pose (p, poi) is logged iff p is one of the positions and is in bounds; never more poses than positions |
| PoseSampler.AcceptedPosesAppend | src/suturo_blenderproc/sampler/pose_sampler.py:51-52 | the poses logged for a + b are those for a followed by those for b |
| PoseSampler.AttemptsProperties | src/suturo_blenderproc/sampler/pose_sampler.py:58-64 | the retry loop logs only in-bounds candidates with the given POI; it finishes only after exactly num_poses accepted poses; a missing or out-of-bounds POI raises at the first attempt with nothing logged; running out of draws means fewer poses than asked (or a negative target) |
| PoseSampler.AttemptsAcceptPrefix | src/suturo_blenderproc/sampler/pose_sampler.py:58-64 | with a valid POI, the poses logged are the accepted candidates of some prefix of the draws, in order |
| PoseSampler.TableAngle | src/suturo_blenderproc/sampler/pose_sampler.py:60 | `randint(72) * 5` is a multiple of 5 in [0, 360) |
| PoseSampler.TableAnglesCovered | src/suturo_blenderproc/sampler/pose_sampler.py:60 | every multiple of 5 in [0, 360) is reachable by some draw |
| PoseSampler.TableAngles | src/suturo_blenderproc/sampler/pose_sampler.py:60 | the k-th candidate angle is the angle of the k-th draw |
| PoseSampler.CircleCandidates | src/suturo_blenderproc/sampler/pose_sampler.py:61 | the k-th candidate camera position is the circle position of the k-th angle |
| PoseSampler.CameraPoseSampler.SampleCircularCameraPosesTable | src/suturo_blenderproc/sampler/pose_sampler.py:54-64 | the camera log grows by exactly the poses of the retry loop over table angles around the surface center, aimed at the surface's POI |
| PoseSampler.ShelfWindowBounds | src/suturo_blenderproc/sampler/pose_sampler.py:80-81 | the integer angle drawn lies in the window [deg_z - 30, deg_z + 30) after truncation of its bounds, and the window holds at least 59 integers |
| PoseSampler.CameraPoseSampler.SampleCircularCameraPosesShelf | src/suturo_blenderproc/sampler/pose_sampler.py:66-86 | an empty floor list raises IndexError; a missing shelf or mesh, the default `None` included, raises AttributeError unless no pose is asked; otherwise the log grows by the retry loop's poses around the shelf, using the parent's yaw when there is a parent |
| PoseSampler.CameraPoseSampler.CircleAttempts | src/suturo_blenderproc/sampler/pose_sampler.py:58-64 | the shared retry loop appends exactly the poses of the accept/reject run over the candidate positions |
| PoseSampler.CameraPoseSampler.SampleSurface | src/suturo_blenderproc/sampler/pose_sampler.py:91-98 | shelf floors go to the shelf sampler with their shelf, everything else to the table sampler |
| PoseSampler.SurfaceRunProperties | src/suturo_blenderproc/sampler/pose_sampler.py:91-98 | one surface's run logs only in-bounds poses and, when it finishes, exactly num_poses of them |
| PoseSampler.ListRunStep | src/suturo_blenderproc/sampler/pose_sampler.py:91-98 | the list sampler processes surfaces in order and stops at the first surface whose run does not finish |
| PoseSampler.ListRunStops | src/suturo_blenderproc/sampler/pose_sampler.py:91-98 | once a surface's run fails, later surfaces add nothing |
| PoseSampler.ListRunProperties | src/suturo_blenderproc/sampler/pose_sampler.py:88-99 | all logged poses are in bounds; a finished list run logs exactly len(surfaces)·num_poses poses; a negative num_poses never finishes |
| PoseSampler.CameraPoseSampler.SampleCircularCameraPosesList | src/suturo_blenderproc/sampler/pose_sampler.py:88-99 | the camera log grows by exactly the list run's poses |
| PoseSampler.ObjectPoseSampler.constructor | src/suturo_blenderproc/sampler/pose_sampler.py:103-105 | the surfaces are the extracted surfaces of the furniture and the cursor starts at 0 |
| PoseSampler.ObjectPoseSampler.GetCurrentSurface | src/suturo_blenderproc/sampler/pose_sampler.py:122-123 | returns the surface under the cursor; with no surfaces the lookup raises IndexError |
| PoseSampler.ObjectPoseSampler.NextSurfaceSameParent | src/suturo_blenderproc/sampler/pose_sampler.py:125-130 | False at the last index; otherwise True iff surfaces i and i+1 have the same parent; IndexError with no surfaces; AttributeError when a mesh is missing; the cursor is not moved |
| PoseSampler.ObjectPoseSampler.SameParentIsNextSurface | src/suturo_blenderproc/sampler/pose_sampler.py:125-135 | when the next surface has the same parent, advancing the cursor moves it to i+1 without wrapping |
| PoseSampler.ObjectPoseSampler.NextSurface | src/suturo_blenderproc/sampler/pose_sampler.py:132-135 | the cursor increments and wraps to 0 at the number of surfaces, keeping it a valid index |
| PoseSampler.AdvanceNNoWrap | src/suturo_blenderproc/sampler/pose_sampler.py:132-135 | n steps below the end move the cursor by exactly n |
| PoseSampler.AdvanceNCompose | src/suturo_blenderproc/sampler/pose_sampler.py:132-135 | a + b steps are a steps followed by b steps |
| PoseSampler.AdvanceCycle | src/suturo_blenderproc/sampler/pose_sampler.py:132-135 | len steps return the cursor to where it started, and no fewer positive number of steps does |
| PoseSampler.Uniform | src/suturo_blenderproc/sampler/pose_sampler.py:115 | `uniform(low, high)` lies between its bounds, in either order |
| PoseSampler.Placement | src/suturo_blenderproc/sampler/pose_sampler.py:108-115 | z is exactly the surface height; x and y lie between the corner minimum + 0.15 and the corner maximum − 0.15 |
| PoseSampler.ObjectPoseSampler.SampleObjectPoseUniform | src/suturo_blenderproc/sampler/pose_sampler.py:107-117 | as written: the object is moved to the placement on the current surface, then AttributeError is raised because the rotation helper is missing from the imported module; rotation and render flag are unchanged; with no surfaces IndexError and the object is untouched |
| PoseSampler.ObjectPoseSampler.SampleObjectPoseUniformRotated | src/suturo_blenderproc/sampler/pose_sampler.py:107-117 | as intended: the object is moved to the placement on the current surface and turned by r ∈ [0, 6) about z, the render flag is kept, and the call succeeds; with no surfaces IndexError and the object is untouched |
| PoseSampler.TableLightLocation | src/suturo_blenderproc/sampler/pose_sampler.py:144-149 | a table light sits at (center.x, center.y, walls.height − 0.6) |
| PoseSampler.ShelfLightLocation | src/suturo_blenderproc/sampler/pose_sampler.py:152-158 | a shelf light is at height walls.height − 0.6 |
| PoseSampler.ShelfLightDistance | src/suturo_blenderproc/sampler/pose_sampler.py:157-158 | a shelf light is 0.8 from the surface center in the plane |
| PoseSampler.LightPoseSampler.constructor | src/suturo_blenderproc/sampler/pose_sampler.py:139-141 | the sampler keeps the room and starts with no lights |
| PoseSampler.LightPoseSampler.SetLightForFurniture | src/suturo_blenderproc/sampler/pose_sampler.py:143-163 | every call appends exactly one fresh light, whatever the surface kind; table lights get the table location and energy = strength; shelf lights get the circle location and energy = strength; other surfaces get a light with nothing set; a shelf without a mesh raises AttributeError before appending |
| PoseSampler.LightPoseSampler.DeleteLights | src/suturo_blenderproc/sampler/pose_sampler.py:165-167 | every light is deleted but the list is not cleared |
| SceneTypes.Light.constructor | src/suturo_blenderproc/sampler/pose_sampler.py:146 | a new light has no location or energy set and is not deleted |
| SceneTypes.Light.SetLocation | src/suturo_blenderproc/sampler/pose_sampler.py:149 | sets the location only |
| SceneTypes.Light.SetEnergy | src/suturo_blenderproc/sampler/pose_sampler.py:150 | sets the energy only |
| SceneTypes.Light.Delete | src/suturo_blenderproc/sampler/pose_sampler.py:167 | marks the light deleted, nothing else changes |
| ObjectPartitions.ObjectPartition.constructor | src/suturo_blenderproc/sampler/object_partitions.py:13-16 | stores K and the objects; no partitioning is stored, so `get_partition` returns None |
| ObjectPartitions.ObjectPartition.CreatePartition | src/suturo_blenderproc/sampler/object_partitions.py:18-70 | K = 0 fails at the modulo; K ≤ 1 returns the flat truncated shuffle and stores nothing; EQUAL stores and returns K contiguous groups; UNIQUE stores the as-written de-duplicated groups; LESS_PROBABLE fails for no objects or N mod K ≠ 0, and otherwise stores K groups of N div K that are the successive draws from the pool |
| ObjectPartitions.Shuffle | src/suturo_blenderproc/sampler/object_partitions.py:20-21 | the in-place shuffle of the fresh array is the Fisher–Yates permutation given by the swaps |
| ObjectPartitions.ShuffledPermutes | src/suturo_blenderproc/sampler/object_partitions.py:21 | the shuffle is a permutation of its input |
| ObjectPartitions.ShuffleDownPermutes | src/suturo_blenderproc/sampler/object_partitions.py:21 | every suffix of the shuffle's swaps keeps the elements |
| ObjectPartitions.SwapPermutes | src/suturo_blenderproc/sampler/object_partitions.py:21 | one swap keeps the elements |
| ObjectPartitions.PyMod | src/suturo_blenderproc/sampler/object_partitions.py:23 | Python's `%` takes the sign of the divisor |
| ObjectPartitions.KeptCount | src/suturo_blenderproc/sampler/object_partitions.py:23 | the first N − N mod K objects are kept: a multiple of K within K of N for K > 0, all of them for K < 0 |
| ObjectPartitions.Pool | src/suturo_blenderproc/sampler/object_partitions.py:19-23 | the pool has exactly the kept count |
| ObjectPartitions.PoolFromObjects | src/suturo_blenderproc/sampler/object_partitions.py:19-25 | the pool holds only the caller's objects, and all of them when K = 1 or K < 0 |
| ObjectPartitions.Split | src/suturo_blenderproc/sampler/object_partitions.py:27 | `np.split` gives K groups of equal size |
| ObjectPartitions.SplitProperties | src/suturo_blenderproc/sampler/object_partitions.py:27 | the groups concatenate back to the pool |
| ObjectPartitions.EqualGroupsProperties | src/suturo_blenderproc/sampler/object_partitions.py:23-30 | EQUAL returns K disjoint contiguous groups of N div K whose concatenation is the truncated shuffle, drawn from the caller's objects |
| ObjectPartitions.Keys | src/suturo_blenderproc/sampler/object_partitions.py:34 | each object's base identity is its name up to the first `.` |
| ObjectPartitions.Permute | src/suturo_blenderproc/sampler/object_partitions.py:37-39 | `take_along_axis` with the argsort order picks the objects in that order |
| ObjectPartitions.Runs | src/suturo_blenderproc/sampler/object_partitions.py:38 | `np.unique` counts: one positive count per distinct name, none for an empty row |
| ObjectPartitions.RunsOfDistinct | src/suturo_blenderproc/sampler/object_partitions.py:38 | with no repeated name every count is 1 |
| ObjectPartitions.DeleteSlice | src/suturo_blenderproc/sampler/object_partitions.py:42 | `np.delete` of a slice never lengthens the array |
| ObjectPartitions.UniqueAsWrittenShorter | src/suturo_blenderproc/sampler/object_partitions.py:40-42 | the de-duplicated group is no longer than the group |
| ObjectPartitions.UniqueAsWrittenUnchanged | src/suturo_blenderproc/sampler/object_partitions.py:40-42 | a group with no count above 1 is left as it was, not sorted |
| ObjectPartitions.UniqueAsWrittenStep | src/suturo_blenderproc/sampler/object_partitions.py:40-42 | each repeated identity j replaces the group by the sorted group minus positions j+1..j+c−1, so the last such j wins |
| ObjectPartitions.UniqueGroup | src/suturo_blenderproc/sampler/object_partitions.py:34-42 | the per-group loop computes the as-written de-duplication of the group |
| ObjectPartitions.DistinctGroupUnchanged | src/suturo_blenderproc/sampler/object_partitions.py:36-42 | a group without repeated base identity is returned unchanged |
| ObjectPartitions.PermuteKeepsDistinct | src/suturo_blenderproc/sampler/object_partitions.py:37-39 | sorting distinct names keeps neighbours distinct |
| ObjectPartitions.RunsOfTwoPairs | src/suturo_blenderproc/sampler/object_partitions.py:38 | names x, x, y, y give counts [2, 2] |
| ObjectPartitions.UniqueAsWrittenKeepsDuplicate | src/suturo_blenderproc/sampler/object_partitions.py:40-42 | a group named a, a, b, b comes out with two objects named a |
| ObjectPartitions.UniqueGroups | src/suturo_blenderproc/sampler/object_partitions.py:35-42 | one result group per input group |
| ObjectPartitions.UniqueGroupsShorter | src/suturo_blenderproc/sampler/object_partitions.py:35-42 | every UNIQUE group is no longer than N div K |
| ObjectPartitions.DedupByKey | src/suturo_blenderproc/sampler/object_partitions.py:40-42 | the corrected de-duplication keeps one object per run of equal names, ending with the last name |
| ObjectPartitions.DedupByKeyCorrect | src/suturo_blenderproc/sampler/object_partitions.py:40-42 | on a name-sorted group the corrected de-duplication keeps only group members, no two with the same base identity, and every identity of the group |
| ObjectPartitions.DedupIncreasing | src/suturo_blenderproc/sampler/object_partitions.py:40-42 | the corrected result's names are strictly increasing |
| ObjectPartitions.DedupCovers | src/suturo_blenderproc/sampler/object_partitions.py:40-42 | every base identity of the group survives the corrected de-duplication |
| ObjectPartitions.UniformProbabilities | src/suturo_blenderproc/sampler/object_partitions.py:52 | the reset weights are all 1/n, positive, and sum to 1 |
| ObjectPartitions.SumPositive | src/suturo_blenderproc/sampler/object_partitions.py:67 | positive weights have a positive total |
| ObjectPartitions.SumConstant | src/suturo_blenderproc/sampler/object_partitions.py:52 | n equal weights c sum to n·c |
| ObjectPartitions.Divided | src/suturo_blenderproc/sampler/object_partitions.py:67 | dividing the vector divides each weight |
| ObjectPartitions.SumDivided | src/suturo_blenderproc/sampler/object_partitions.py:67 | dividing the vector divides its total |
| ObjectPartitions.Normalize | src/suturo_blenderproc/sampler/object_partitions.py:67 | renormalised positive weights stay positive and sum to 1 |
| ObjectPartitions.RemoveAt | src/suturo_blenderproc/sampler/object_partitions.py:62-64 | `np.delete` at an index drops that entry and shifts the rest |
| ObjectPartitions.RemoveAtMultiset | src/suturo_blenderproc/sampler/object_partitions.py:62-64 | the deleted entry plus the rest are the original entries |
| ObjectPartitions.Reweigh | src/suturo_blenderproc/sampler/object_partitions.py:59-67 | scaling same-identity weights by a positive factor, deleting the drawn weight and renormalising keeps the vector positive and summing to 1 |
| ObjectPartitions.KeysRemoveAt | src/suturo_blenderproc/sampler/object_partitions.py:62-64 | deleting from objects and from names in lockstep keeps the names matching the objects |
| ObjectPartitions.Remaining | src/suturo_blenderproc/sampler/object_partitions.py:62-64 | after t draws t objects have left the pool |
| ObjectPartitions.Picks | src/suturo_blenderproc/sampler/object_partitions.py:54-58 | t draws pick t objects |
| ObjectPartitions.PicksAndRemaining | src/suturo_blenderproc/sampler/object_partitions.py:54-64 | the picked objects and the remaining ones are together exactly the pool |
| ObjectPartitions.PicksPermute | src/suturo_blenderproc/sampler/object_partitions.py:49-70 | drawing the whole pool picks every pool object exactly once |
| ObjectPartitions.DrawStep | src/suturo_blenderproc/sampler/object_partitions.py:54-64 | one draw is in range of the remaining objects, adds the drawn object to the row, and removes it and its name in lockstep |
| ObjectPartitions.DrawPartition | src/suturo_blenderproc/sampler/object_partitions.py:52-68 | one partition draws `size` objects from the remaining pool, leaves the rest with their names and decrements the counter; the weight vector stays positive and normalised throughout |
| ObjectPartitions.DrawRows | src/suturo_blenderproc/sampler/object_partitions.py:49-68 | the K×(N div K) result is the successive draws from the pool, partition by partition |
| ObjectPartitions.LessProbable | src/suturo_blenderproc/sampler/object_partitions.py:47-70 | no objects divide by zero; IndexError at the first draw when N mod K ≠ 0 and N div K > 0; when 0 < N < K nothing is drawn and K empty groups come back; otherwise K groups of N div K holding the successive draws |
| ObjectPartitions.LessProbableIsPermutation | src/suturo_blenderproc/sampler/object_partitions.py:47-70 | when N mod K = 0, the LESS_PROBABLE groups together contain every object exactly once |
| ObjectPartitions.RowStarts | src/suturo_blenderproc/sampler/object_partitions.py:51-53 | partition i starts after i·size draws |
| Geometry.NormalizeAngle | src/utils/math_utils.py:6-7 | a negative angle gets 360 added exactly once; the result is in [0, 360) for inputs in [−360, 360), and negative only below −360 |
| Geometry.Position2DCircle | src/utils/math_utils.py:5-12 | z is exactly the height; x and y are the center plus radius·(cos, sin) of the normalised angle in radians |
| Geometry.CirclePointDistance | src/utils/math_utils.py:8-11 | given cos² + sin² = 1, the point is at planar distance \|radius\| from the center |
| Geometry.BboxProperties | src/utils/math_utils.py:15-19 | the box is returned unchanged; the height is the maximum corner z and equals some corner's z; the center is the per-axis mean of the eight corners (sum / 8), and so lies between the per-axis minimum and maximum |
| Geometry.AxisBounds | src/utils/math_utils.py:17 | the per-axis maximum and minimum bound every corner and are attained |
| Geometry.AxisSumBounds | src/utils/math_utils.py:18 | the per-axis sum of n corners lies between n·min and n·max |
| Geometry.MeanGet | src/utils/math_utils.py:18 | the mean's coordinate is the per-axis sum over the corner count |
| Geometry.AverageBetween | src/utils/math_utils.py:18 | the per-axis average lies between the per-axis minimum and maximum |
| Geometry.MeanBetween | src/utils/math_utils.py:18 | the mean corner lies between the per-axis minimum and maximum |
| Geometry.InBoxIsBetweenCorners | src/suturo_blenderproc/sampler/pose_sampler.py:33-36 | a point is outside the box iff on some axis it is strictly above the maximum or strictly below the minimum |
| Geometry.CornersInBox | src/suturo_blenderproc/sampler/pose_sampler.py:33-36 | no corner of a box is outside it |
| Geometry.Trunc | src/suturo_blenderproc/sampler/pose_sampler.py:81 | `int()` of a float truncates toward zero |
| BlenderUtils.HideMeshObjects | src/suturo_blenderproc/utils/blenderproc_utils.py:7-9 | every listed object gets hide_render := render; location and rotation are untouched |
| BlenderUtils.SetRandomRotationEulerZaxis | src/suturo_blenderproc/utils/blenderproc_utils.py:17-19 | x and y Euler angles are unchanged and z grows by r ∈ [0, 6); nothing else changes |
| SceneTypes.MeshObject.Duplicate | src/suturo_blenderproc/utils/blenderproc_utils.py:31 | a duplicate is a fresh object with the name the host chose and the original's parent, point of interest, location, rotation and render flag |
| BlenderUtils.Names | src/suturo_blenderproc/utils/blenderproc_utils.py:36 | the names of a list of objects, position by position |
| BlenderUtils.WithCopies | src/suturo_blenderproc/utils/blenderproc_utils.py:30-32 | `range(n − 1)` appends n − 1 names, none when n ≤ 1 |
| BlenderUtils.WithCopiesNamed | src/suturo_blenderproc/utils/blenderproc_utils.py:30-32 | the existing names stay in front, and each new name is the host's name for a copy of the object given the names present when that copy is made, so successive copies of one object can be named differently |
| BlenderUtils.Matching | src/suturo_blenderproc/utils/blenderproc_utils.py:36 | the matches of a key are names containing it as a substring |
| BlenderUtils.MatchingObjects | src/suturo_blenderproc/utils/blenderproc_utils.py:36 | the matched objects are those whose names match, in list order |
| BlenderUtils.AppendCopy | src/suturo_blenderproc/utils/blenderproc_utils.py:31-32 | one fresh copy of the object is appended, named by the host from the names already in the list, and carrying the object's parent, point of interest, pose and render flag |
| BlenderUtils.AppendCopies | src/suturo_blenderproc/utils/blenderproc_utils.py:30-32 | appends v − 1 fresh copies of one object after the existing list, each a copy of that object, with the names WithCopies gives |
| BlenderUtils.AppendCopiesOfEach | src/suturo_blenderproc/utils/blenderproc_utils.py:29-32 | each source in order gets n − 1 appended fresh copies; every appended object is a copy of one of the sources |
| BlenderUtils.CopiesTrace | src/suturo_blenderproc/utils/blenderproc_utils.py:35-40 | copies of earlier copies still carry the state of one of the original objects |
| BlenderUtils.ApplyPerName | src/suturo_blenderproc/utils/blenderproc_utils.py:35-40 | keys are processed in order; matches are recomputed over the current result, copies from earlier keys included, and each match gets v − 1 copies; every appended object is a fresh copy of one of the original objects |
| BlenderUtils.OnlyFirstCopyMatches | src/suturo_blenderproc/utils/blenderproc_utils.py:36 | the key "001" matches `Cup.001` and neither `Cup` nor `Cup.002` |
| BlenderUtils.PartialKeyMatch | src/suturo_blenderproc/utils/blenderproc_utils.py:34-40 | with the host naming copies `Cup.001`, `Cup.002`, the dict {"Cup": 3, "001": 2} on one object `Cup` gives four objects: Cup, Cup.001, Cup.002 and one copy of Cup.001 |
| BlenderUtils.PerNameStepLength | src/suturo_blenderproc/utils/blenderproc_utils.py:35-40 | each key adds (v − 1) copies per object matching it at that point |
| BlenderUtils.DuplicateObjects | src/suturo_blenderproc/utils/blenderproc_utils.py:22-42 | the result begins with the original list in order; its names are those of the integer, per-name or no-duplication rule; everything after the originals is a fresh copy carrying the parent, point of interest, location, rotation and render flag of one of the originals |
| BlenderUtils.CountLength | src/suturo_blenderproc/utils/blenderproc_utils.py:28-32 | an integer n gives len·n objects for n ≥ 1 and the originals alone for n ≤ 1 |
| BlenderUtils.CopyNamesLength | src/suturo_blenderproc/utils/blenderproc_utils.py:29-32 | giving each of the sources its copies adds len·(n − 1) names, none for n ≤ 1 |
| SceneTypes.NewRoom | src/suturo_blenderproc/types/room.py:7-11 | a new room has walls, floor and baseboard with no mesh, and walls of zero length, width and height |
| SceneTypes.DefaultRoomEnvelope | src/suturo_blenderproc/types/room.py:19-24 | the default wall box is all-zero corners, so the only in-bounds point is the origin |
| SceneTypes.NonNull | src/suturo_blenderproc/types/room.py:15 | the filter keeps exactly the non-None meshes |
| SceneTypes.GetMeshObjectsFromRoom | src/suturo_blenderproc/types/room.py:13-16 | the non-None meshes of walls, floor and baseboard, in that order, at most three |
| YoloConvert.ConvertBboxCoco2Yolo | src/scripts/annotations/convert_to_yolo.py:20-40 | width and height are scaled by the image size and the center is the box's top-left plus half its size, scaled; a zero image dimension divides by zero |
| YoloConvert.CocoYoloRoundTrip | src/scripts/annotations/convert_to_yolo.py:32-38 | converting back with x_tl = (x − w/2)·W, y_tl = (y − h/2)·H recovers the COCO box |
| YoloConvert.YoloCocoRoundTrip | src/scripts/annotations/convert_to_yolo.py:32-38 | converting a YOLO box to COCO and back gives the same YOLO box |
| YoloConvert.InsideImageInUnitRange | src/scripts/annotations/convert_to_yolo.py:21-22 | a box inside the image yields all four outputs in [0, 1] |
| YoloConvert.ToLine | src/scripts/annotations/convert_to_yolo.py:55-59 | a label line keeps the category and converts the box for a 640×480 image |
| YoloConvert.ConvertCocoToYolo | src/scripts/annotations/convert_to_yolo.py:45-76 | the loop writes exactly the label files of the grouping scan |
| YoloConvert.ScanConserves | src/scripts/annotations/convert_to_yolo.py:52-76 | the written lines and the buffer together are the lines of the kept annotations, in order; annotations with any other image id are dropped |
| YoloConvert.ScanIndices | src/scripts/annotations/convert_to_yolo.py:61-76 | the counter never goes negative and files are written with increasing indices, each below i + j |
| YoloConvert.WrittenNamesDistinct | src/scripts/annotations/convert_to_yolo.py:62 | no label file is written twice |
| YoloConvert.FileNameInjective | src/scripts/annotations/convert_to_yolo.py:62 | different indices give different file names |
| YoloConvert.BufferNonEmpty | src/scripts/annotations/convert_to_yolo.py:54-73 | once an annotation is kept, the buffer is never empty at the end |
| YoloConvert.LastGroupNeverWritten | src/scripts/annotations/convert_to_yolo.py:52-76 | with any kept annotation, fewer lines are written than kept: the last group is lost |
| YoloConvert.SingleImageWritesNothing | src/scripts/annotations/convert_to_yolo.py:52-76 | annotations of image 0 alone write no file at all |
| YoloConvert.FlushedWritesAllKept | src/scripts/annotations/convert_to_yolo.py:52-76 | the corrected conversion, which writes the last buffer too, writes every kept line, in files of increasing index |
| YoloConvert.CleanCategory | src/scripts/annotations/convert_to_yolo.py:14 | the cleaned name contains no apostrophe and is no longer than the original |
| YoloConvert.CreateListFromCategories | src/scripts/annotations/convert_to_yolo.py:8-16 | one cleaned name per value, in value order, none with an apostrophe |
| YoloConvert.CleanCategoryKeepsPlain | src/scripts/annotations/convert_to_yolo.py:14 | a name with none of the removed patterns is kept as is |
| YoloConvert.CleanCategoryStripsSuturo | src/scripts/annotations/convert_to_yolo.py:14 | a "suturo:" prefix is removed |
| YoloConvert.CleanCategoryStripsSoma | src/scripts/annotations/convert_to_yolo.py:14 | a "soma:" prefix is removed |
| Strings.RemoveAll | src/scripts/annotations/convert_to_yolo.py:14 | `str.replace(pat, "")` never lengthens, leaves a string without the pattern unchanged, and removes every occurrence of a one-character pattern |
| Strings.BaseName | src/suturo_blenderproc/sampler/object_partitions.py:34 | `split('.')[0]` is the prefix before the first `.`, or the whole name |
| CombineDatasets.NaturalSortKey | src/yolo/combine_datasets.py:11-12 | the key has odd length; even positions are lower-cased text pieces, odd positions are integers |
| CombineDatasets.PiecesAlternating | src/yolo/combine_datasets.py:12 | `re.split(r'(\d+)')` alternates digit-free text (possibly empty) and non-empty digit runs, starting and ending with text |
| CombineDatasets.PiecesConcat | src/yolo/combine_datasets.py:12 | the pieces concatenate back to the file name |
| CombineDatasets.KeysAlign | src/yolo/combine_datasets.py:12 | any two keys have the same kind at each position, so comparison never mixes text and integers |
| CombineDatasets.KeyLessAsymmetric | src/yolo/combine_datasets.py:21 | the key order is asymmetric |
| CombineDatasets.KeyOfOneRun | src/yolo/combine_datasets.py:12 | a name with one digit run has key [lower(text), value(digits), lower(rest)] |
| CombineDatasets.NumbersOrderByValue | src/yolo/combine_datasets.py:12 | names that differ only in one number order by its value |
| CombineDatasets.Image2BeforeImage10 | src/yolo/combine_datasets.py:12 | "image2" orders before "image10" under the key, though not as plain strings |
| CombineDatasets.LeadingZerosIgnored | src/yolo/combine_datasets.py:12 | a leading zero in a digit run does not change the key |
| CombineDatasets.PiecesLower | src/yolo/combine_datasets.py:12 | lower-casing a name lower-cases its pieces and keeps their boundaries |
| CombineDatasets.KeyOfLower | src/yolo/combine_datasets.py:12 | a name and its lower-case form have the same key |
| CombineDatasets.CaseIgnored | src/yolo/combine_datasets.py:12 | names that differ only in letter case get equal keys |
| CombineDatasets.FilesOf | src/yolo/combine_datasets.py:20 | the listing filtered to files: every entry that is a file is kept as often as it is listed, and nothing else |
| CombineDatasets.FilesOfMembers | src/yolo/combine_datasets.py:20 | a name is kept iff it is listed and is a file |
| CombineDatasets.Insert | src/yolo/combine_datasets.py:21 | inserting adds exactly one element |
| CombineDatasets.InsertOrdered | src/yolo/combine_datasets.py:21 | inserting into a key-ordered list keeps it key-ordered |
| CombineDatasets.SortedNaturally | src/yolo/combine_datasets.py:21 | sorting is a permutation of the files |
| CombineDatasets.SortedNaturallyOrdered | src/yolo/combine_datasets.py:21 | the sorted files are in key order |
| CombineDatasets.SortFilesNaturally | src/yolo/combine_datasets.py:16-23 | a non-directory raises ValueError; otherwise a permutation of the folder's files |
| CombineDatasets.SortFilesNaturallyOrdered | src/yolo/combine_datasets.py:16-23 | for a directory, the result is key-ordered and holds only files |
| CombineDatasets.RenameEach | src/yolo/combine_datasets.py:47-50 | the loop renames the k-th sorted name to image{i + k} with the extension, in order |
| CombineDatasets.RenameSorted | src/yolo/combine_datasets.py:43-59 | the renaming loop raises for a non-directory, and otherwise renames the k-th file in natural order to image{i + k} with the extension |
| CombineDatasets.RenameImages | src/yolo/combine_datasets.py:43-50 | the k-th file in natural order becomes `image{i + k}.jpg` |
| CombineDatasets.RenameLabels | src/yolo/combine_datasets.py:54-59 | the k-th file in natural order becomes `image{i + k}.txt` |
| CombineDatasets.TargetInjective | src/yolo/combine_datasets.py:48-49 | different numbers give different target names |
| CombineDatasets.RenameTargetsDiffer | src/yolo/combine_datasets.py:47-50 | two different positions are renamed to different targets |
| CombineDatasets.RenameTargetsDistinct | src/yolo/combine_datasets.py:47-50 | no two renames share a target |
| CombineDatasets.RenameSourcesAreFiles | src/yolo/combine_datasets.py:45-50 | every file of the folder is renamed exactly once, and every source is a file of the folder |
| Logger.Logger.constructor | src/utils/logger.py:6-8 | the start time is the clock reading at creation |
| Logger.Logger.LogComponent | src/utils/logger.py:10-17 | the message is built from the time elapsed since the start |
| Logger.FloorDivBounds | src/utils/logger.py:12 | `elapsed // m` is the floor: m·q ≤ elapsed < m·q + m |
| Logger.FloorMod | src/utils/logger.py:13-14 | `elapsed % m` lies in [0, m) and recomposes with the floor quotient |
| Logger.SplitRecomposes | src/utils/logger.py:12-14 | minutes and seconds lie in [0, 59], hours are non-negative for non-negative elapsed time, and h·3600 + m·60 + s = floor(elapsed) |
| Logger.DurationTextParses | src/utils/logger.py:12-15 | the "h:m:s" text splits into three unpadded digit fields that read back to floor(elapsed) seconds |
| PathUtils.Parent | src/utils/path_utils.py:39 | `parent` is a prefix, one component shorter |
| PathUtils.StemSuffix | src/utils/path_utils.py:24-25 | stem and suffix split the name at the last dot |
| PathUtils.SrcBakStem | src/utils/path_utils.py:38 | the stem of "src.bak" is "src" |
| PathUtils.LastDot | src/utils/path_utils.py:24 | the last dot of a name, if any |
| PathUtils.WithYamlNameProperties | src/utils/path_utils.py:25 | `with_suffix(".yaml")` gives suffix ".yaml" and keeps the stem |
| PathUtils.WithYamlSuffix | src/utils/path_utils.py:25 | `with_suffix` raises ValueError for an empty name and otherwise keeps the parent and replaces the suffix |
| PathUtils.JoinPlain | src/utils/path_utils.py:16 | joining a plain name appends one component |
| PathUtils.GetProjectSrcDir | src/utils/path_utils.py:36-41 | the loop returns the nearest ancestor-or-self of cwd whose stem is "src", and never stops when there is none |
| PathUtils.NearestSrcIsNearest | src/utils/path_utils.py:36-41 | the result is a non-empty prefix of cwd whose stem is "src", and no longer prefix has that stem |
| PathUtils.NearestSrcNone | src/utils/path_utils.py:36-41 | there is no result iff no ancestor-or-self has stem "src" |
| PathUtils.SuturoBlenderprocPath | src/utils/path_utils.py:9-12 | the suturo_blenderproc path is the parent of src |
| PathUtils.ProjectRoot | src/utils/path_utils.py:4-6 | the project root is the parent of the suturo_blenderproc path |
| PathUtils.ProjectDirectories | src/utils/path_utils.py:4-12 | root ≤ suturo_blenderproc ≤ src ≤ cwd as prefixes, and src is one component below suturo_blenderproc |
| PathUtils.GetPathId2NameJson | src/utils/path_utils.py:15-19 | returns an existing `id2name.json`; raises "id2name.json doesn't exist" when the data file is missing |
| PathUtils.YamlConfigAt | src/utils/path_utils.py:22-33 | a returned path is an existing file with suffix ".yaml" and the candidate's parent and stem |
| PathUtils.GetPathYamlConfig | src/utils/path_utils.py:22-33 | a returned path is an existing ".yaml" file; the call hangs without a src ancestor |
| PathUtils.YamlConfigMissing | src/utils/path_utils.py:26-32 | with neither file present, an error is raised |
| PathUtils.YamlConfigPlainName | src/utils/path_utils.py:24-27 | a plain name without ".yaml" resolves to data/yaml/<stem>.yaml when that file exists |
| PathUtils.GetPathBlenderScene | src/utils/path_utils.py:51-57 | an existing scene path is returned unchanged; otherwise `<scene>.blend` in the same folder, unchecked; never raises |
| PathUtils.BlendFallback | src/utils/path_utils.py:53-55 | the fallback sits beside the candidate and is named `<scene>.blend` |
| PathUtils.GetPathOutputDir | src/utils/path_utils.py:44-48 | the output directory is `output` under the suturo_blenderproc path, created iff it was absent |

## Left out

- Engine calls are opaque. This covers `bproc.camera.*`, the transformation
  matrix, `compute_poi`, materials and rendering. Their effects are logged
  as state: the pose log, the light fields and the mesh fields.
- `randomize_materials` (src/suturo_blenderproc/utils/blenderproc_utils.py:12-14)
  is a host material call with a random choice; it is not modelled.
- Statistical behaviour is not modelled: shuffle uniformity, the
  distribution of `np.random.choice` under the weights, and the bias of
  LESS_PROBABLE. A draw is any index in range. The weight vector is kept,
  and proved to stay positive and normalised, but does not constrain the
  draws.
- Trigonometry, `rad2deg` and `radians` are arbitrary functions. Float
  rounding is not modelled; `n / K` and `1 / num_objects` are exact reals.
- The UNIQUE argsort order is a parameter: any order that sorts the names,
  since numpy's argsort is not stable.
- ObjectPartitions.ObjectPartition.CreatePartition requires a positive
  reduction factor for LESS_PROBABLE. The code accepts any float, and a
  non-positive one can make `np.random.choice` reject the weights; that
  error path is not modelled.
- ObjectPartitions.ObjectPartition.CreatePartition covers only the three
  enum values. An unknown partition type, which falls through to `None`,
  cannot be expressed.
- The list sampler takes surfaces: table tops and shelf floors. A `Shelf`
  passed in the list, on which `surface.shelf` would raise AttributeError,
  cannot be expressed. The `table_surface` and `ShelfFloor.shelf`
  attributes, which the type files do not define, are modelled as a
  surface variant with a link to its shelf.
- `suturo_blenderproc.types.table.TableSurface`, the annotation of
  `sample_circular_camera_poses_table` (pose_sampler.py:54), is not defined
  in table.py, and the annotation is evaluated when the class is defined.
  The module as written therefore fails on import with AttributeError; the
  model assumes the type exists and models the samplers as they would run.
- PoseSampler.CameraPoseSampler.SampleCircularCameraPosesTable and the
  other retry loops run over a finite sequence of draws. A loop that would
  never stop (a negative target, or every candidate rejected) ends with
  `DrawsExhausted` when the draws run out.
- `print`, `logging` and file writes are left out. `log_component` returns
  its message instead of writing it, and label files are values (index and
  lines).
- The float formatting of label lines is not modelled: `str(list)` of
  floats with brackets and commas removed is represented by the converted
  box itself.
- File-system work is not modelled: `makedirs`, copy and move, the
  train/validation split, `data.yaml`, and the bookkeeping of
  `combine_datasets` (src/yolo/combine_datasets.py:64-136).
- `rename_images` in src/scripts/annotations/convert_to_yolo.py (hard-coded
  directory) is not modelled.
- `os.rename` overwriting an existing target is not modelled; the model
  states the list of renames the loop performs.
- CombineDatasets.SortFilesNaturally does not state the stability of
  `sorted` among names with equal keys; it states permutation and key
  order.
- `isdigit` and `lower` are restricted to ASCII. Python's Unicode digits
  and case mappings are not modelled.
- PathUtils.WithYamlSuffix gives the ValueError for an empty name without
  its message text.
- The walk to `src` that never ends is modelled as `None` from
  `GetProjectSrcDir` and as `Hangs` in the functions built on it.
- The file system is an oracle. A file appearing between the existence
  test and the use is not modelled.
- BlenderUtils.DuplicateObjects takes the host's naming of copies as a
  function of the original's name and the names already in the list.
  Blender's own rule (the lowest unused `.NNN` suffix, counting objects
  outside the list too) is not modelled.
- The render-orchestration scripts, the YAML config loader, `scene_init`
  and the plain data records are not part of this model; the records
  appear only as datatypes.

## Findings

| source | as written | input that shows it | evidently intended | confidence | as-written member | corrected member |
|---|---|---|---|---|---|---|
| src/suturo_blenderproc/sampler/object_partitions.py:40-42 | for each repeated identity, the group is replaced by the sorted group minus positions j+1..j+c−1. Here j is the index among distinct names, not the run's start, and each replacement overwrites the previous one | a group whose names are a, a, b, b: the result is a, a, b | each group keeps one object per base identity, as the comment on the enum member `UNIQUE_OBJECTS` (object_partitions.py:8) says ("partitions in which the same objects never appear") | not executed | ObjectPartitions.UniqueAsWrittenKeepsDuplicate | ObjectPartitions.DedupByKeyCorrect |
| src/suturo_blenderproc/sampler/pose_sampler.py:117 | `utils` is imported at line 12 as src/utils/blenderproc_utils.py, which defines only `hide_mesh_objects`, `randomize_materials` and `build_camera_pose`; the call raises AttributeError after the location has been set | any sampler with at least one surface: the object is moved but not rotated, and the call fails | turn the object about z by a uniform draw in [0, 6), as `set_random_rotation_euler_zaxis` of src/suturo_blenderproc/utils/blenderproc_utils.py:17-19 does | not executed | PoseSampler.ObjectPoseSampler.SampleObjectPoseUniform | PoseSampler.ObjectPoseSampler.SampleObjectPoseUniformRotated |
| src/scripts/annotations/convert_to_yolo.py:52-76 | lines are written only when the next image id arrives, and nothing is flushed after the loop | annotations of image 0 only: no label file is written | every image's buffered lines are written, the last one included | not executed | YoloConvert.LastGroupNeverWritten | YoloConvert.FlushedWritesAllKept |

The partitioner model (`CreatePartition`) keeps the as-written UNIQUE
behaviour, so that the rest of the model describes the code as it runs.
The corrected de-duplication `DedupByKey` is defined beside it, with its
properties proved.
