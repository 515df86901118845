# Sideview Creator core, modelled in Dafny

The Blender add-on `SideviewCreator2.py` prepares six orthographic side views
of a model for an image generator, then puts the generated images back on
the model as textures. Most of the file is Blender glue. This project models
the self-contained logic inside that glue, with host objects replaced by
plain values:

- `SceneBounds` (`scene_bounds.dfy`) models `get_scene_bounding_box`. It
  keeps a running componentwise minimum and maximum over the world-space
  bounding-box corners of every visible mesh. The `+inf`/`-inf` seed becomes
  the `Empty` box. The method's loop is proved equal to a left fold,
  `BoundsOf`. Lemmas then show that the box contains every corner and that
  each of its components is attained by some corner.
- `OrthoRig` (`ortho_rig.dfy`) models the camera table of
  `GenerateCamerasOperator.execute`:
  - `distances = max(max_coords) + 20`;
  - `z_center` is the box's vertical midpoint;
  - `ortho_scale = max_dimension * 1.1`;
  - rotations are given in whole degrees.

  `PlanRig` promises, for every camera, the independent predicate `Placed`:
  - the camera stands at `distances` along its own axis, on its own side
    (the four side cameras at height `z_center`);
  - it looks along its own axis toward the origin side: horizontally, at
    height `z_center`, for the four side cameras, so its line of sight
    passes through the origin only when `z_center` is 0. This is checked
    by rotating the camera's view axis with the table's Euler angles;
  - all six cameras share one orthographic scale.
- `Atlas` (`atlas.dfy`) models `create_collage` and the crop loop of
  `ApplyTexturesOperator.execute`:
  - the 1536x1024 RGBA canvas is an `array2` that is filled in place;
  - the face renders are 512x512 pixel rows;
  - the hard-coded crop table is proved equal to the paste formula;
  - the six cells are proved to tile the canvas;
  - `PackThenUnpack` proves that cropping a packed collage returns each
    render, or a blank tile when that render was missing.
- `OutputIndex` (`output_index.dfy`) models "Next Try" and the atlas
  selection of "Apply Textures":
  - "Next Try" is a method on the scene-properties object. It updates
    `current_output_index` in place.
  - Which `AIGC_OUTPUT_NN.png` files exist is given as a set of indices.
- `LayerCollections` (`layer_collections.dfy`) models
  `get_layer_collection`. It is proved to return the first descendant in
  depth-first pre-order that has the requested name.
- `MaterialBinding` (`material_binding.dfy`) models the per-node matching of
  the pre-made material:
  - a texture node's image is `T_B_` plus the last `_`-separated part of its
    label;
  - a UV Map node takes the first UV map whose name equals its label.
- `Directions` and `Wrappers` hold the six view directions and their names,
  and the `Option`/`Result` values.

The model follows the code as written. In particular:

- No error is raised for an empty scene. The planner goes on with the
  infinite seed.
- No error is raised for an atlas of the wrong size. Pillow's `crop` pads
  with zero pixels outside the image (transparent for an RGBA atlas), so a
  smaller atlas gives partly blank tiles, and a larger one is read from its
  top-left corner.
- A missing render is not an error. Its cell stays blank.
- When "Next Try" finds no candidate, the index is not restored. It stays
  one past its old value (lines 385 and 405-407).
- The wrap-around scan covers `1 .. old` and includes the old index itself.
- Because failures keep incrementing the index, it can pass 10. After that,
  the wrap-around scan can pick a file numbered above 10, such as
  `AIGC_OUTPUT_11.png` (`CyclingExamples`).
- When "Apply Textures" is called with `output_index <= 0` and no candidate
  exists, `collage_path` is never bound. Python then raises an error at line
  448. The model returns `Err(NoCandidate)` for this case.

The planner takes its distance from `max_coords` alone. So a camera on the
negative side of an axis stands the full 20 beyond the box's near face
exactly when the box reaches no further below the origin than its largest
maximum coordinate reaches above it (`NegativeCamerasClearCentredBox`). `NegativeCameraOffCentreBox` gives a box
for which the -X camera stands on the wrong side of the model.

## Model

| member | source | states |
|---|---|---|
| SceneBounds.SceneBoundingBox | SideviewCreator2.py:24-35 | The nested loop's result is the fold `BoundsOf` over the world corners of the mesh objects, in visiting order. It is `Empty` (the infinite seed) exactly when no mesh contributed a corner. |
| SceneBounds.BoundsOf | SideviewCreator2.py:25-33 | The accumulated box stays at the empty seed exactly when there are no points. |
| SceneBounds.BoundsContainAll | SideviewCreator2.py:28-33 | Every point that was folded in lies componentwise within [min, max]. |
| SceneBounds.BoundsAttained | SideviewCreator2.py:32-33 | Each component of min and of max is that component of some point, so the box is the tightest one. |
| SceneBounds.BoundsOrdered | SideviewCreator2.py:32-33 | Once any point was seen, min <= max on every axis. |
| SceneBounds.MeshCornersContained | SideviewCreator2.py:28-33 | Every world corner of every mesh object lies within the box the scan returns. |
| Directions.Label | SideviewCreator2.py:89-96 | The direction suffixes `X` .. `-Z` are one or two characters long and contain no underscore. |
| Directions.OrderIsEnumeration | SideviewCreator2.py:89-96 | The order X, Y, Z, -X, -Y, -Z lists each of the six directions exactly once, with distinct labels. |
| OrthoRig.Max3 | SideviewCreator2.py:84-86 | Python's `max` over a vector is at least each component and equal to one of them. |
| OrthoRig.PlanRig | SideviewCreator2.py:83-96 | Exactly six cameras, in the order X, Y, Z, -X, -Y, -Z. Each is named `Camera_<d>` and stands at ±`distances` on its own axis, with `distances = max(max_coords) + 20`. The other horizontal coordinate is 0. The X/Y cameras are at `z_center`; the Z cameras have x = y = 0. Each looks along its own axis toward the origin side (horizontally, at height `z_center`, for the X/Y cameras). All share `ortho_scale = max_dimension * 1.1`. |
| OrthoRig.CameraFor | SideviewCreator2.py:84-95 | One row of the camera table: the camera named `Camera_<d>`, at ±`distances` on its own axis, 0 on the other horizontal axis, at `z_center` for the X/Y cameras, with `ortho_scale = max_dimension * 1.1` (`Positioned`, stated without the table). |
| OrthoRig.CameraForPlaced | SideviewCreator2.py:89-96 | Every row of the camera table satisfies the placement predicate `Placed` for its direction. |
| OrthoRig.RotationLooksAlongAxis | SideviewCreator2.py:90-95 | Each hard-coded Euler rotation, applied in X, Y, Z order, turns the camera's view axis (-Z) into minus the unit vector of its direction, so the camera looks along its own axis toward the opposite side. |
| OrthoRig.UpOfRotation | SideviewCreator2.py:90-95 | The four side rotations give the image "up" as world +Z. The top camera's up is +Y and the bottom camera's is -Y. |
| OrthoRig.SideCamerasUpright | SideviewCreator2.py:113-118 | For the planned rig, every side camera's image is upright (+Z up), and the Z cameras have ±Y up. |
| OrthoRig.PositiveCamerasClearBox | SideviewCreator2.py:84-92 | A camera on the positive side of an axis stands at least 20 beyond the box's far face on that axis. |
| OrthoRig.NegativeCamerasClearCentredBox | SideviewCreator2.py:84-95 | A camera on the negative side stands at least 20 beyond the box's near face exactly when `-min[axis] <= max(max_coords)`. |
| OrthoRig.NegativeCameraOffCentreBox | SideviewCreator2.py:84-93 | For a box spanning x in [-100, -50], any -X camera positioned as the rig positions it (as `PlanRig` and `CameraFor` do) stands at x = -21, beyond the box's maximum x. |
| OrthoRig.OrthoScaleCoversBox | SideviewCreator2.py:85-86 | For a non-degenerate box, the shared ortho scale is at least every box dimension. |
| Atlas.OrdersFollowDirections | SideviewCreator2.py:260 | `image_order[i]` is `Camera_<d>` and `sub_texture_order[i]` is `T_B_<d>` for the same direction d (see line 484), so paste order and crop order agree. |
| Atlas.CropTableIsPasteFormula | SideviewCreator2.py:485 | The hard-coded crop position i equals the paste origin `((i % 3) * 512, (i // 3) * 512)` (lines 266-267). |
| Atlas.CellIndex | SideviewCreator2.py:256-267 | Every pixel of the 1536x1024 canvas lies in one of the six 512x512 cells. |
| Atlas.CellIndexUnique | SideviewCreator2.py:266-267 | A pixel of cell i lies inside the canvas and in no other cell. The cells are pairwise disjoint and tile the canvas exactly. |
| Atlas.PackedCell | SideviewCreator2.py:258-269 | Cell i of the collage holds image i pixel for pixel. When image i is missing, the cell is blank. No other image reaches the cell. |
| Atlas.Paste | SideviewCreator2.py:269 | Pasting a 512x512 render overwrites exactly its rectangle of the canvas and leaves every other pixel as it was. |
| Atlas.CreateCollage | SideviewCreator2.py:255-270 | The canvas is fresh and 1536x1024. Every pixel equals the pixel of the image whose cell contains it, or blank when that image was not rendered. Missing images raise no error. |
| Atlas.Crop | SideviewCreator2.py:491 | A crop is always 512x512. It copies atlas pixels and yields blank outside the atlas. |
| Atlas.CropSubTextures | SideviewCreator2.py:484-492 | The result has exactly the six keys `T_B_X` .. `T_B_-Z`. Each is bound to the tile at its crop-table position, whatever the atlas size. |
| Atlas.CropOfPackedCell | SideviewCreator2.py:484-491 | Cropping crop position i of a packed collage gives back image i, or a blank tile if image i was missing. |
| Atlas.PackThenUnpack | SideviewCreator2.py:255-272 | Packing, then cropping: `T_B_<d>` equals the render of `Camera_<d>`, or a blank tile if that render was missing. With all six renders present, the round trip is lossless. |
| OutputIndex.NextCandidate | SideviewCreator2.py:385-403 | The index cycling moves to exists and lies either after the old index up to 10 or in `1 .. old`. There is none exactly when no file in either range exists. |
| OutputIndex.FirstExisting | SideviewCreator2.py:389-394 | The forward scan returns the smallest existing index in its range. It finds nothing exactly when no index in the range exists. |
| OutputIndex.SideviewCreatorProps.constructor | SideviewCreator2.py:295-310 | The properties start with no assets folder and `current_output_index` 0. |
| OutputIndex.SideviewCreatorProps.NextTry | SideviewCreator2.py:376-407 | Without an assets folder, nothing changes and the operator cancels. Otherwise the index becomes the next candidate and the operator finishes. If there is no candidate, it cancels and the index stays at old + 1. The index stays >= 0, and a finished try leaves it on an existing index of at least 1, which "Apply Textures" opens directly. |
| OutputIndex.SelectCollage | SideviewCreator2.py:432-450 | A positive `output_index` is used if its file exists; otherwise the result is an error naming it. For an index <= 0, the smallest existing index in 1..10 is used, and the result is an error exactly when none exists. |
| OutputIndex.NextCandidateIsSmallest | SideviewCreator2.py:385-403 | The next index is the smallest existing index in [old + 1, 10]. Failing that, it is the smallest in [1, old], including old itself. There is none exactly when both ranges are free of files. |
| OutputIndex.NextCandidateInRange | SideviewCreator2.py:385-403 | From an index >= 0, success lands on an existing index in 1..max(10, old). Failure happens exactly when no file exists in that range. |
| OutputIndex.CyclingExamples | SideviewCreator2.py:385-403 | From 3 with files {5, 9}, the result is 5. From 9 with {2, 5}, it wraps to 2. From 11 with {11}, it takes 11. With no files, it fails. |
| OutputIndex.SelectAfterNextTry | SideviewCreator2.py:433-436 | Running the "Apply Textures" selection on the index "Next Try" settled on returns `Ok` of exactly that index. |
| LayerCollections.SearchLayers | SideviewCreator2.py:48-56 | Any layer collection the search returns has the requested name. |
| LayerCollections.SearchIsFirstInPreOrder | SideviewCreator2.py:48-56 | The recursive search returns the first node of the forest, in depth-first pre-order, that has the requested name. |
| LayerCollections.GetLayerCollection | SideviewCreator2.py:48-56 | A returned layer collection bears the requested name and is a descendant of the root, not the root itself. |
| LayerCollections.GetLayerCollectionSpec | SideviewCreator2.py:48-56 | `get_layer_collection` returns the first descendant in pre-order with the name. It returns None exactly when no descendant has that name. |
| MaterialBinding.LastSegment | SideviewCreator2.py:522 | `split('_')[-1]` is the suffix after the last underscore, or the whole string when there is none. It contains no underscore. |
| MaterialBinding.LastSegmentAfterUnderscore | SideviewCreator2.py:522 | The last segment of `p + "_" + s` is `s` whenever `s` has no underscore. |
| MaterialBinding.TextureNameOfDirectionLabel | SideviewCreator2.py:520-523 | A texture node labelled `<anything>_<d>` is bound to image `T_B_<d>`, the sub-texture the crop loop saved for direction d. |
| MaterialBinding.FindUvMap | SideviewCreator2.py:510-511 | The lookup returns the position of the first UV map named like the node's label. It returns None exactly when no UV map has that name. |
| MaterialBinding.BindUvMapNodes | SideviewCreator2.py:507-515 | Each UV Map node is bound to its label's UV map when the mesh has one and left as it was otherwise: it keeps the UV map the shared material already had. A mismatch does not stop the other nodes. |
| MaterialBinding.TextureImageNameShape | SideviewCreator2.py:522 | The image name is `T_B_` followed by an underscore-free suffix of the label. That suffix is either the whole label or starts right after an underscore. |
| MaterialBinding.BindImageNodes | SideviewCreator2.py:518-529 | Each Image Texture node gets the image its label names when that file exists. Otherwise it is skipped, and the other nodes are still bound. |

## Left out

- Operator, panel and property registration, and the `register`/`unregister`
  lifecycle (lines 556-587): Blender UI glue.
- The checks that cancel camera generation when a six-camera rig already
  exists or the selection still has materials or UVs (lines 66-81,
  38-45): host scene queries.
- Removing and creating the camera objects, the "Orthogonal Cameras"
  collection and active-collection switching, and the render resolution
  (lines 98-125): host scene-graph changes. `PlanRig` gives the values those
  cameras receive.
- Rendering, Freestyle and compositor setup (lines 157-175, 200-207, 229),
  and the temporary files (lines 232-247): I/O against the renderer and
  the filesystem.
- Installing Pillow with `pip` (lines 187-198, 558-567): a foreign call.
- PNG encoding and decoding, `Image.open`, `save` and file paths, including
  `{:02}` name formatting: files are in-memory pixel arrays, and file
  existence is a set of indices or names.
- UV projection from the camera view, appending the pre-made material from
  the `.blend` library, and clearing material slots and UV layers
  (lines 141-155, 335-369, 454-481, 497-504): host scene-graph changes.
- The world transform `matrix_world @` (line 31): corners arrive already in
  world space.
- `radians(...)` and IEEE-754 floating point: coordinates are exact reals,
  1.1 is exact, and rotations are whole degrees.
- Planning for an empty scene, where infinite seeds become NaN and infinite
  camera values: not modelled. `PlanRig` takes the corners of a `Box`.
- Pasting a render that is not 512x512, or that needs a mode conversion:
  `create_collage` is modelled for the 512x512 RGBA renders the add-on
  configures (lines 124-125).
- Image modes: every image, the atlas opened at line 452 included, is
  treated as RGBA. An RGB atlas, which Pillow pads with opaque black and
  crops into RGB tiles, is not modelled.
- Determinism of the rig plan is not a separate lemma: `PlanRig` is a
  function, so equal boxes give equal rigs by construction.
- The operators' report messages, and the call from "Next Try" into
  "Apply Textures" as one step (lines 410-412): the model gives the chosen
  index and the finished/cancelled status, and `SelectAfterNextTry` states
  what the selection then does with that index.
- NextCandidateInRange: bounds the chosen index by 10 only while the old
  index is at most 10. Past 10, the code's own wrap-around scan reaches up
  to the old index.
