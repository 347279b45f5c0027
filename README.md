# Car-part annotation pipeline, modelled in Dafny

This project models the part of the Blender annotation tool for ShapeNet car
models that can be stated without the editor. It covers three files of the
repository.

- **Automatic annotation** (`automatic_annotation/automatic_annotation.py`).
  A hand-annotated "cluster center" model gives one axis-aligned box per part:
  the per-axis minimum and maximum of the part mesh's vertices.
  Each box is padded in place according to the part name. Every vertex of
  an unannotated model is then assigned to each part whose padded box
  contains it, with inclusive bounds on all three axes. Parts with no vertex
  are dropped.
- **Export utilities** (`export_tools/utils.py`).
  - The hinge point and rotation axis of each part: the vertex nearest in
    L1 distance to a reference point built from the part's median, minimum
    and maximum coordinates, converted to engine coordinates (x, -z, y).
  - The per-model metadata document these entries form.
  - The `usemtl`/`newmtl` material-name prefixing.
  - The relative-texture-path test.
  - The "has a face line" test.
- **Annotation bookkeeping** (`annotation_tools/annotate.py`).
  - The two annotation tables as sequences of records: saving merges,
    de-duplicates and sorts; removing filters; lookup selects by part.
  - The hide toggle over the objects of a part.
  - The `str2bool` flag parser.

Modules, one per file:

- `Wrappers`: `Option` and `Result`.
- `Geometry`: points, boxes, min/max, bounding box, L1 distance.
- `Text`: the Python string operations the source relies on (`in`, slicing,
  `split(' ')`, `replace`, `lower`).
- `AutoAnnotation`, `ExportUtils`, `Annotate`: the three source files.

How the source's state is represented:

- The stored box corners are two `array<real>` fields of class
  `AutoAnnotation.PartBox`, padded in place by `Pad`.
- The material pass rewrites an `array<string>` of lines in place.
- The scene objects of the hide toggle are instances of class
  `Annotate.SceneObject` with mutable `hidden`/`selected` flags, which stand
  for the editor's `hide`/`select`.
- Everything else is a function over values.

Inputs supplied by the caller, not computed by the model:

- Files that may be missing are `Option`s or keys absent from a map.
- Python exceptions are `Err` values named after the exception.
- Whether a model is a pickup is a `bool` parameter.
- `np.median` is a function parameter `median: seq<real> -> real`.

Where the specification and the code differ, the model follows the code:

- The specification speaks of padded boxes as values. The code pads the
  stored numpy arrays in place (automatic_annotation.py:62-82). It rebuilds
  them for every model (148-156), so `SaveOutParts` is a method over
  `PartBox` objects that states both the padded state and the
  classification.
- The specification calls any door name outside right/left a configuration
  error. In the code, the trunk is recognised by equality in `add_metadata`
  (utils.py:148, 151). In the padding it is recognised by substring
  (automatic_annotation.py:78). The model keeps both tests as written.

## Model

| member | source | states |
|---|---|---|
| AutoAnnotation.GetVertexLines | automatic_annotation/automatic_annotation.py:29-36 | the loop keeps exactly the lines whose first two characters are "v ", in file order (as `VertexLines`) |
| AutoAnnotation.VertexLinesMembers | automatic_annotation/automatic_annotation.py:33-35 | a line is kept iff it is one of the file's lines and starts with "v " |
| AutoAnnotation.VertexLinesConcat | automatic_annotation/automatic_annotation.py:33-35 | the filter works line by line: filtering a concatenation filters each part, so file order is kept |
| Geometry.BoundingBox | automatic_annotation/automatic_annotation.py:153-155 | a box exists iff the part mesh has a vertex; it contains every vertex and is enclosed by every box that contains them all (componentwise min and max) |
| Geometry.Min | export_tools/utils.py:143-145 | `np.min` of a non-empty column: an element of it, at most every element |
| Geometry.Max | export_tools/utils.py:142-144 | `np.max` of a non-empty column: an element of it, at least every element |
| AutoAnnotation.ExtractBoxesSpec | automatic_annotation/automatic_annotation.py:148-156 | box extraction fails (numpy ValueError) iff some listed part's file exists but has no vertex; otherwise there is exactly one box per listed part whose file exists, in the order of `parts` (as `Present`), each the bounding box of its file |
| AutoAnnotation.Present | automatic_annotation/automatic_annotation.py:148-151 | the parts kept by the dictionary loop are exactly the listed parts whose file exists |
| AutoAnnotation.HandVerticesInside | automatic_annotation/automatic_annotation.py:153-156 | every vertex of a part's hand-annotated mesh lies in its own box, unpadded and padded |
| AutoAnnotation.BuildPartBoxes | automatic_annotation/automatic_annotation.py:148-156 | the loop allocates one fresh pair of corner arrays per part with a file, with the same boxes and the same error as `ExtractBoxes` |
| AutoAnnotation.ExtractAt | automatic_annotation/automatic_annotation.py:150-156 | one iteration: a part without a file adds nothing, an empty file makes the whole extraction fail, otherwise one more box in fresh arrays, as `ExtractBoxes` of one more part |
| AutoAnnotation.PartBox.constructor | automatic_annotation/automatic_annotation.py:154-156 | the stored corners are two fresh three-element arrays holding the box |
| AutoAnnotation.PartBox.Pad | automatic_annotation/automatic_annotation.py:62-82 | the in-place `+=`/`-=` steps leave the corners equal to `Padded(part, old box)` |
| AutoAnnotation.PartBox.PadRightArrays | automatic_annotation/automatic_annotation.py:64-70 | the six updates of the "right" branch give `PadRight` of the old box |
| AutoAnnotation.PartBox.PadLeftArrays | automatic_annotation/automatic_annotation.py:71-77 | the six updates of the "left" branch give `PadLeft` of the old box |
| AutoAnnotation.PartBox.PadTrunkArrays | automatic_annotation/automatic_annotation.py:78-82 | the four updates of the "trunk" branch give `PadTrunk` of the old box |
| AutoAnnotation.PaddingGrows | automatic_annotation/automatic_annotation.py:64-82 | for every part name the padded box encloses the original box |
| AutoAnnotation.PaddingAmounts | automatic_annotation/automatic_annotation.py:64-82 | each corner moves by exactly the sum of the amounts of the keywords the name contains ("right", "left", "trunk"; the trunk never moves x) |
| AutoAnnotation.PaddingNeutral | automatic_annotation/automatic_annotation.py:64-82 | a name with none of the three keywords leaves the box unchanged |
| AutoAnnotation.DoorPaddingMirror | automatic_annotation/automatic_annotation.py:64-77 | right and left padding mirror each other in x (1 outward, 0.02 inward) and agree in y and z |
| AutoAnnotation.FrontLeftKeywords | automatic_annotation/automatic_annotation.py:64-78 | "front_left" matches only the "left" test |
| AutoAnnotation.FrontLeftExample | automatic_annotation/automatic_annotation.py:71-77 | the unit box padded as "front_left" is [(-1, -0.02, -0.01), (1.02, 1.02, 1.01)]; (-0.5, .5, .5) is inside it and (-1.5, .5, .5) is not |
| AutoAnnotation.Members | automatic_annotation/automatic_annotation.py:89-90 | index k is selected iff vertex k lies in the box on all three axes, bounds inclusive; the indices increase strictly |
| AutoAnnotation.InBoundsIndices | automatic_annotation/automatic_annotation.py:85-90 | the vertex loop selects exactly `Members` of the box |
| AutoAnnotation.ClassifyGroups | automatic_annotation/automatic_annotation.py:89-94 | a group is produced iff some box has a non-empty member list, and the group holds exactly that list under the box's part |
| AutoAnnotation.ClassifyConcat | automatic_annotation/automatic_annotation.py:58-94 | parts are classified independently and in order: classifying a concatenation of boxes concatenates the groups |
| AutoAnnotation.SaveOutParts | automatic_annotation/automatic_annotation.py:58-94 | with no target vertex and at least one box, the first box is padded and stacking raises ValueError, the other boxes untouched; otherwise every stored box ends padded for its part and the groups are the classification of the vertices by the padded boxes |
| AutoAnnotation.PadAt | automatic_annotation/automatic_annotation.py:59-82 | padding one entry in place pads its box and leaves every other entry's box as it was |
| AutoAnnotation.ClassifyHasGroup | automatic_annotation/automatic_annotation.py:89-94 | an entry whose padded box holds some vertex gets the group of exactly its members |
| AutoAnnotation.AnnotateModel | automatic_annotation/automatic_annotation.py:148-158 | extracting the boxes and then saving out the parts gives `AutoAnnotate(parts, hand, vertices)`, including the ValueError of an empty target mesh |
| AutoAnnotation.AutoAnnotateSpec | automatic_annotation/automatic_annotation.py:148-158 | every group belongs to a part with a non-empty file and lists exactly the vertices in that part's padded box; every such part with at least one vertex inside yields a group |
| AutoAnnotation.AutoAnnotateFails | automatic_annotation/automatic_annotation.py:148-158 | propagation raises iff a present hand-annotated file has no vertex, or the target mesh has no vertex while some part's file is present |
| ExportUtils.IsRelative | export_tools/utils.py:22-29 | false when either dataset root occurs in the path; otherwise true iff the path starts with "./" |
| ExportUtils.DatasetPathNotRelative | export_tools/utils.py:23-26 | a path containing a dataset root anywhere is never relative |
| ExportUtils.RenameAsWrittenBreaksTag | export_tools/utils.py:46-48 | as written, on "tag tag" the replace-all also rewrites the tag, so the line no longer starts with the tag |
| ExportUtils.RenameKeepsTag | export_tools/utils.py:46-48 | the intended rename turns "tag tag" into "tag model_tag" |
| ExportUtils.RenameMaterialSpec | export_tools/utils.py:43-48 | the intended rename keeps the first word, the line shape and the terminating newline (present iff it was); it leaves other lines alone and raises IndexError on a tag line with no name; it leaves a name that already contains the model id alone; otherwise the name n becomes model_n and the rest of the line is unchanged |
| ExportUtils.RenamedShape | export_tools/utils.py:46-48 | a renamed line is the tag, a space, then "model_" prefixed to the old remainder, and ends in a newline iff the old line did |
| ExportUtils.RenameMaterialIdempotent | export_tools/utils.py:46-48 | renaming an already renamed line changes nothing |
| ExportUtils.NamedLineKept | export_tools/utils.py:46-47 | a tag line whose name already contains the model id is left as it is |
| ExportUtils.AsWrittenReplaces | export_tools/utils.py:46-48 | as written, a tag line whose name lacks the model id has every occurrence of the name replaced |
| ExportUtils.CorrectMaterialNames | export_tools/utils.py:41-51 | the material pass with the intended rename: exactly `MapLines` of `RenameMaterial` over the old lines; it succeeds iff that succeeds, and then the array holds the renamed lines |
| ExportUtils.RewriteLines | export_tools/utils.py:42-48 | the in-place line loop for any line rewrite: it succeeds iff `MapLines` of the rewrite over the old lines does, and then the array holds exactly the rewritten lines |
| ExportUtils.CorrectMaterialNamesAsWritten | export_tools/utils.py:69-75 | the material pass as the source runs it: exactly `MapLines` of `RenameMaterialAsWritten` over the old lines |
| ExportUtils.MaterialPassesDiffer | export_tools/utils.py:42-48 | on the file holding "tag tag", the pass as written yields "model_tag model_tag" and the intended pass "tag model_tag" |
| ExportUtils.RewriteLineAt | export_tools/utils.py:42-48 | one iteration rewrites line i in place, extends the rewritten prefix by one, and leaves the later lines alone; a failing line makes the whole file fail |
| ExportUtils.MapLinesPrefixErr | export_tools/utils.py:42-48 | once a line raises, the pass over the whole file raises |
| ExportUtils.MapLinesSpec | export_tools/utils.py:42-48 | a line-by-line pass succeeds iff every line succeeds, and then line i of the result is the rewrite of line i |
| ExportUtils.RenameLinesSpec | export_tools/utils.py:42-48 | the material pass over a file succeeds iff every line renames, and then each line holds its renamed form |
| ExportUtils.HasFace | export_tools/utils.py:175-181 | the scan answers true iff some line's first space-separated word is exactly "f" |
| ExportUtils.FaceLineWords | export_tools/utils.py:178-179 | "w rest" is a face line iff w is "f" |
| ExportUtils.EngineRoundTrip | export_tools/utils.py:164-169 | the editor-to-engine conversion (x, -z, y) and its inverse undo each other |
| ExportUtils.ArgMinL1 | export_tools/utils.py:149-157 | an index of the vertices with minimal L1 distance to the reference, and the first such (`np.argmin`) |
| ExportUtils.L1Zero | export_tools/utils.py:149 | an L1 distance is never negative, and zero only between equal points |
| ExportUtils.ArgMinAtReference | export_tools/utils.py:149-157 | when the reference point is itself a vertex, its first occurrence is chosen |
| ExportUtils.ReferenceSpec | export_tools/utils.py:142-157 | reference x is the median x and z is the minimum z; y is the maximum for an ordinary trunk, the minimum for a pickup trunk, the median otherwise |
| ExportUtils.PartMetadataSpec | export_tools/utils.py:137-169 | no entry iff the file has no vertex or the part is the body; ValueError iff a non-empty part is neither trunk, body, right nor left; an entry's hinge is the engine form of the first L1-nearest vertex |
| ExportUtils.RotationSpec | export_tools/utils.py:148-163 | trunk: (1,0,0), or (-1,0,0) for a pickup; otherwise (0,0,-1) when the name contains "right" (checked first), (0,0,1) when it contains "left" |
| ExportUtils.TrunkReference | export_tools/utils.py:142-149 | for the example trunk the reference point is (0, 5, -3) |
| ExportUtils.TrunkExample | export_tools/utils.py:148-169 | the example trunk with (0, 5, -3) at the top gets hinge (0, 3, 5) and rotation (1, 0, 0) |
| ExportUtils.RightDoorExample | export_tools/utils.py:156-169 | a "back_right" part whose chosen vertex is (2, 1, -4) gets hinge (2, 4, 1) and rotation (0, 0, -1) |
| ExportUtils.Outcomes | export_tools/utils.py:129-169 | one contribution per part file, in file order, each the part's metadata outcome |
| ExportUtils.AddMetadata | export_tools/utils.py:128-169 | the part-file loop builds exactly `MetadataDoc`, stopping at the first exception |
| ExportUtils.AddContribution | export_tools/utils.py:137-169 | one iteration: an exception makes the whole document raise it, no entry keeps the document, an entry is stored under its part, as `Collect` of one more file |
| ExportUtils.CollectPrefixErr | export_tools/utils.py:128-169 | once a prefix of the part files raises, the whole document raises the same error |
| ExportUtils.CollectOk | export_tools/utils.py:137-169 | the document is built iff no contribution raises |
| ExportUtils.CollectKeys | export_tools/utils.py:164-169 | the document's keys are exactly the parts that receive some entry |
| ExportUtils.CollectValues | export_tools/utils.py:164-169 | each value is an entry its part receives, with no later entry for that part |
| ExportUtils.MetadataDocSpec | export_tools/utils.py:128-169 | a model's document exists iff no part file raises; it never holds the body; its keys and values are the parts' last entries |
| Annotate.Str2Bool | annotation_tools/annotate.py:445-453 | a bool passes through; a string gives true iff its lower-case form is yes/true/t/y/1, false iff it is no/false/f/n/0, and ArgumentTypeError otherwise |
| Annotate.Str2BoolIgnoresCase | annotation_tools/annotate.py:448-450 | a word and its lower-case form parse alike |
| Annotate.Str2BoolRoundTrip | annotation_tools/annotate.py:448-451 | `str(b)` parses back to b |
| Annotate.RecordOrder | annotation_tools/annotate.py:176 | the (part_type, key) sort order is irreflexive, transitive and total |
| Annotate.SortedUnique | annotation_tools/annotate.py:175-176 | two de-duplicated sorted tables with the same rows are equal |
| Annotate.Insert | annotation_tools/annotate.py:175-176 | inserting a row into a sorted de-duplicated table keeps it sorted and de-duplicated and adds exactly that row |
| Annotate.SortedDistinct | annotation_tools/annotate.py:175-176 | drop_duplicates then sort_values: strictly sorted, with exactly the rows given |
| Annotate.Save | annotation_tools/annotate.py:172-177 | KeyError iff there is no file and the selection is empty; otherwise strictly sorted, holding exactly the rows on file and the selected rows |
| Annotate.VertexRows | annotation_tools/annotate.py:165-171 | one row (part, vertex index) per selected vertex, in selection order |
| Annotate.ObjectRows | annotation_tools/annotate.py:71-76 | one row (part, object name) per selected object, in selection order |
| Annotate.SaveIdempotent | annotation_tools/annotate.py:172-177 | saving the same selection twice leaves the table as after the first save |
| Annotate.SaveCommutes | annotation_tools/annotate.py:172-177 | two selections saved in either order give the same table |
| Annotate.Prune | annotation_tools/annotate.py:246 | a row survives iff it is not of the given part with a key in the selection |
| Annotate.PruneConcat | annotation_tools/annotate.py:246 | the filter works row by row, so survivors keep table order |
| Annotate.PruneSorted | annotation_tools/annotate.py:246 | pruning a sorted table leaves it sorted |
| Annotate.RemoveVertices | annotation_tools/annotate.py:241-247 | a missing table stays missing; otherwise exactly the selected vertex rows of the part are removed |
| Annotate.RemoveObjects | annotation_tools/annotate.py:86-90 | a missing table raises; otherwise exactly the selected object rows of the part are removed |
| Annotate.IndexKeys | annotation_tools/annotate.py:246 | the selection's vertex indices as keys |
| Annotate.NameKeys | annotation_tools/annotate.py:89 | the selection's object names as keys |
| Annotate.SaveThenRemove | annotation_tools/annotate.py:172-177 | removing a selection right after saving it for the same part gives the table the removal alone gives |
| Annotate.KeysOf | annotation_tools/annotate.py:253 | the keys of a part's rows, exactly those rows |
| Annotate.KeysOfConcat | annotation_tools/annotate.py:253 | selection by part keeps table order |
| Annotate.KeysOfSorted | annotation_tools/annotate.py:253 | from a sorted table a part's keys come out strictly increasing |
| Annotate.GetVerts | annotation_tools/annotate.py:250-255 | a missing file raises; otherwise one index per row of the part, in table order, and exactly the part's indices |
| Annotate.GetVertsAfterSave | annotation_tools/annotate.py:250-255 | after a save, the part's vertices are the earlier ones plus the selected ones, strictly increasing |
| Annotate.ObjectNames | annotation_tools/annotate.py:98 | the object names listed for a part, exactly those of its rows |
| Annotate.SceneObject.constructor | annotation_tools/annotate.py:101-105 | an object with the given hide and select flags |
| Annotate.ToggleHide | annotation_tools/annotate.py:93-105 | no table: nothing changes; an unknown name: KeyError before any change; otherwise all listed objects are hidden iff one was visible, all end selected, and nothing else changes |
| Annotate.ScanListed | annotation_tools/annotate.py:98-101 | the first pass succeeds iff every listed name is a scene object, and then decides to hide iff some listed object is visible |
| Annotate.MarkListed | annotation_tools/annotate.py:102-104 | the second pass gives every listed object the decided visibility and selects it; no other object changes |

## Left out

- Every editor (`bpy`) call: importing and exporting meshes, vertex groups,
  mesh separation and its `try`/`except`, modes, panels, operators and key
  maps. The classification hands its groups back instead of creating vertex
  groups.
- File reading and writing: globbing, CSV and JSON serialisation, deleting
  faceless models, writing the renamed lines back. Files are sequences of
  lines or records. A missing file is `None` or an absent map key.
- `float()` parsing of OBJ coordinates and floating-point rounding.
  Coordinates are exact `real`s.
- `np.median`, including its averaging on even lengths, is a parameter.
- The pickup classification (`cluster_on_text` and the hard-coded model id)
  is a `bool` parameter.
- The part name derived from a file name (utils.py:131) and the model id
  derived from a path (utils.py:40, 62) are parameters.
- Texture-image path handling in the MTL files (utils.py:77-101): guessing
  paths on disk, copying images, the `exit()` when none exists. It depends
  on the file system.
- Hostname-based path selection (`get_paths`, `get_file_locations`) and the
  argparse wiring around `str2bool`.
- Annotate.Str2Bool: `lower()` is modelled on ASCII letters only; other
  characters keep their case.
- Annotate.RecordOrder: strings are ordered by code point, as Python does.
  Pandas' sort algorithm is not modelled. With duplicates removed, only the
  order matters.
- Annotate.ToggleHide: in the editor, object names are unique. The map may
  send two names to one object, and the contract still holds then.
- ExportUtils.CorrectMaterialNames: when a line raises, the contract says
  nothing about the lines already rewritten in the array. The source never
  writes such a file back. This pass runs the corrected rename; the pass as
  the source runs it is `CorrectMaterialNamesAsWritten` (see Findings).
- ExportUtils.RenameMaterialSpec, ExportUtils.RenameMaterialIdempotent:
  these state the corrected rename (see Findings) and assume a model id with
  no space or newline, which holds for ShapeNet ids. The as-written rename
  is `RenameMaterialAsWritten`.
- `create_ply_files`, `check_texture_paths`, `export_to_ue.py` and
  `save_annotations_to_obj_files.py` are not part of this model.

## Findings

| source | as written | input that shows it | evidently intended | confidence | as-written member | corrected member |
|---|---|---|---|---|---|---|
| export_tools/utils.py:48, 75 | `l.replace(words[1], model_name + "_" + words[1])` replaces every occurrence of the material name in the line, including any inside the tag | the line `usemtl usemtl` with model id `m1` becomes `m1_usemtl m1_usemtl`: the tag is gone, so the line no longer selects a material | prefix only the second word: `usemtl m1_usemtl` | not executed | ExportUtils.RenameAsWrittenBreaksTag | ExportUtils.RenameKeepsTag |
