# f3b exporter core in Dafny

This project models the bookkeeping core of the Blender to f3b exporter,
`src/f3b_export.py`. That core decides what gets written into the f3b
document and how it is laid out. The model covers five parts:

- **The identity and dirty-flag registry** (`ExportCfg`):
  - `id_of` hands out `str(hash(v))` for a scene entity.
  - `need_update` returns an entity's previous flag and stores the new one.
    The flag is "dirty" for an entity never seen before.
- **The flat relation graph:**
  - `add_relation_raw` only ever appends a `(ref1, ref2)` pair.
  - The per-kind exporter loops decide when it is called:
    - tobjects and their custom properties;
    - lights, speakers and skeletons;
    - actions;
    - geometries.
- **Splitting a mesh by material in `export_meshes`:**
  - one output mesh per face material index;
  - its strided vertex and index arrays.
- **The keyframe sampler** (`Sampler`, `equals_mat4`):
  - run-length compression of held poses;
  - the Z-up to Y-up axis swap of `_store`.
- **The rigid-body collision-group bitmask.**

Blender, protobuf and mathutils are not modelled. Their values come in as
plain Dafny values:
- the scene objects;
- the evaluated mesh and the per-material vertex data from
  `extract_meshdata`;
- the sampled matrices;
- `decompose`.

Scene entities are integers, standing for their Python `hash`. Identities
are the decimal strings of those integers, and this is proved injective.

Files:
- `registry.dfy`: module `Registry`, covering entities, identity strings
  and `ExportCfg`.
- `seqs.dfy`: module `Seqs`, with first-appearance dedup.
- `wrappers.dfy`: `Option` and `Result`.
- `meshes.dfy`: module `Meshes`, the partition and the array assembly.
- `physics.dfy`: module `Physics`, the collision mask.
- `sampler.dfy`: module `Animation`.
- `scene.dfy`: module `Scene`, the scene as values plus the
  custom-property filter.
- `document.dfy`: module `Document`, the output document and
  `add_relation_raw`.
- `exporters.dfy`: module `Exporters`, the exporter loops.

Each imperative loop of the source is a Dafny method. The method is proved
equal to a reference function. Lemmas about those functions state what the
exporter promises:
- dedup of shared data;
- relations independent of dedup;
- array lengths;
- compression behaviour;
- bit layout.

Four behaviours of the code are easy to miss, and the model keeps them:

- **Parent relations of tobjects are conditional.** In `export_all_tobjects`
  the parent relation and the custom-params relation are added only inside
  the `need_update` branch (src/f3b_export.py:143-162), so an object seen
  before gets neither. The mesh→object and material relations of
  `export_all_geometries` are likewise added only when the mesh datum is new
  (464-475). Lights, speakers, skeletons and actions add theirs in every
  case.
- **A bad mesh aborts the export.** `export_meshes` catches nothing, so
  three cases raise an exception that ends the export:
  - a material index whose extracted vertex list is empty (`verts[0]`);
  - a ninth UV layer (`texcoords_ids[8]`);
  - a vertex with a color while `colors` was never bound in this call, with
    tangents while `tangents` was never bound, with more texcoords than this
    material's texcoord arrays, or with fewer tangents than texcoords or
    more texcoords than the `tangents` list holds.

  `Meshes.Place` models these as `Failure`, and
  `Exporters.ExportAllGeometries` stops at the first one.
- **`colors` and `tangents` outlive one material.** They are locals of
  `export_meshes` that are rebound only when a material's first vertex has
  the channel (578-580, 593-594); `texcoords` is reset for every material
  (575). A later material whose first vertex has no color, but whose other
  vertices do, extends the color array of the earlier mesh that last bound
  `colors` (604-605); tangents behave the same way (608-610). `Meshes.Place`
  threads these bindings from one material to the next.
- **A held pose at the end of a clip is not flushed.** If a clip ends while
  a pose is held, the pending time is never stored (1101-1104). The model
  keeps this (`Animation.HeldPoseStoresNothing`). A target held for frames
  0-9 that jumps at frame 10 and holds to 19 therefore gives three
  keyframes: 0, 9 (with the first pose) and 10.

## Model

| member | source | states |
|---|---|---|
| Registry.StrInjective | src/f3b_export.py:55-57 | two hash values with the same `str` are equal, so `_k_of` never maps two entities to one key |
| Registry.KeyOfInjective | src/f3b_export.py:55-67 | two entities with the same key or `id_of` identity are the same entity |
| Registry.MeshIdInjective | src/f3b_export.py:557 | an output mesh id `id_of(src_mesh)+"_"+str(idx)` determines both the evaluated mesh and the material index |
| Registry.IdentityFormsDisjoint | src/f3b_export.py:557 | entity ids, mesh ids and `"params_"` ids never coincide |
| Registry.ExportCfg.constructor | src/f3b_export.py:45-53 | a new registry has empty `_ids` and `_modified` and keeps the selection option |
| Registry.ExportCfg.IdOf | src/f3b_export.py:59-67 | returns `str(hash(v))` whether memoised or not; the memo gains exactly that entry, and every memo entry stays equal to its key |
| Registry.ExportCfg.NeedUpdate | src/f3b_export.py:69-73 | returns true for a never-seen key, otherwise the stored flag; stores the new `modified` value for that key and changes nothing else |
| Registry.NeedUpdateTwice | src/f3b_export.py:69-73 | a second default `need_update` on the same entity returns false |
| Registry.AfterQueriesStoresFalse | src/f3b_export.py:69-73 | after a run of default queries every queried key is stored clean, and other keys keep their flag |
| Registry.FirstQueryOnly | src/f3b_export.py:69-73 | from a clean registry, a query in a run answers true iff its key is unseen and not queried earlier in the run |
| Registry.SelectedAreFirstSeen | src/f3b_export.py:69-73 | from a clean registry, the keys answered true are the unseen keys, each once, in first-query order |
| Seqs.DedupKeepsFirstAppearanceOrder | src/f3b_export.py:550-553 | dedup keeps elements in the order of their first occurrence, which is the insertion order of `dstMap` |
| Meshes.PartitionByMaterial | src/f3b_export.py:550-553 | the material indices of `dstMap` are the distinct face indices in first-appearance order; every face index is included and nothing else |
| Meshes.ExtendUvArrays | src/f3b_export.py:606-610 | one vertex appends its i-th texcoord to texcoord array i and its i-th tangent to the i-th entry of the `tangents` list; it raises iff it has more texcoords than arrays, or tangents while `tangents` is unbound, shorter than its texcoords or shorter than the list it needs |
| Meshes.AppendVertex | src/f3b_export.py:601-610 | a vertex raises iff it has a color while `colors` was never bound or its UV channels overrun the arrays or the `tangents` list; otherwise every column is extended by exactly that vertex's contribution |
| Meshes.AppendVertices | src/f3b_export.py:601-610 | the vertex loop raises iff some vertex raises; otherwise it yields every column over all vertices, for the bound `tangents` list's length |
| Meshes.BuildUvArrays | src/f3b_export.py:583-591 | one texcoord array per layer, each followed by its tangent array when the first vertex has tangents |
| Meshes.AssembleMesh | src/f3b_export.py:559-616 | one turn of the material loop equals the reference `Place`: its three failure cases, the new mesh, the rebinding of `colors` and `tangents`, and the values it appends to an earlier mesh's arrays through a stale binding |
| Meshes.BuildMeshes | src/f3b_export.py:550-616 | partition, then fill each material's mesh in order with `colors` and `tangents` carried from one material to the next, starting unbound; the first failure aborts |
| Meshes.ExportMeshes | src/f3b_export.py:548-621 | the output meshes are those of the reference run; `id_of(src_mesh)` is memoised only if some face exists |
| Meshes.AssembleAllFollowsOrder | src/f3b_export.py:555-558 | mesh i answers the i-th material index, with id `id_of(src_mesh)+"_"+str(idx)`, name `data.name+"_"+str(idx)`, index step 3 and the extracted indexes copied unchanged |
| Meshes.PlaceHeader | src/f3b_export.py:555-600 | one turn adds exactly one mesh with the id, name and material index it was set up with, index step 3 and the extracted index list; earlier meshes keep everything but their array values |
| Meshes.OneMeshPerMaterial | src/f3b_export.py:548-558 | exactly one output mesh per distinct face material index, none for an unused index, none when there are no faces |
| Meshes.MeshesInFirstAppearanceOrder | src/f3b_export.py:550-557 | output meshes follow the first face of each material, and no two share an id |
| Meshes.UniformPlaces | src/f3b_export.py:575-610 | vertex data whose vertices all carry the first vertex's channels, with at most eight UV layers, never raises, whatever earlier materials left bound |
| Meshes.UvArraysMembers | src/f3b_export.py:583-591 | every UV array created is the texcoord array or the tangent array of one layer below the layer count |
| Meshes.UniformColumns | src/f3b_export.py:601-610 | on uniform data, positions and normals get 3 values per vertex, texcoords 2 per layer and tangents 4 per layer, and colors get the first vertex's color width per vertex |
| Meshes.UniformArraysAgree | src/f3b_export.py:564-610 | on uniform data every vertex array of the new mesh holds exactly `step` values per vertex |
| Meshes.UniformKeepsEarlierMeshes | src/f3b_export.py:601-610 | on uniform data a material appends nothing to an earlier mesh, which stays exactly as it was |
| Meshes.UniformRunArraysAgree | src/f3b_export.py:555-610 | when every material's data is uniform, every array of every mesh of the run holds `step` values per vertex of its own material |
| Meshes.UniformMeshesAgree | src/f3b_export.py:548-610 | the same for the output meshes of a geometry, each checked against the vertex data of its material index |
| Meshes.PlaceBindsArrays | src/f3b_export.py:578-596 | after one turn `colors` still names a color array and entry i of `tangents` the tangent array of layer i, of the newest mesh that bound it |
| Meshes.BindingsNameArrays | src/f3b_export.py:555-610 | throughout a run every binding names an existing array of its own kind |
| Meshes.StaleColorsExtendEarlierMesh | src/f3b_export.py:593-605 | a material whose first vertex has no color appends its vertices' colors to the earlier mesh's color array that `colors` still names, and its own mesh has no color array |
| Meshes.StaleTangentsExtendEarlierMesh | src/f3b_export.py:578-610 | a material whose first vertex has no tangents appends its vertices' layer-i tangents to the earlier mesh's tangent array that entry i of `tangents` still names |
| Physics.CollisionGroup | src/f3b_export.py:301-310 | the loop computes the mask of the checkboxes, which fits in as many bits as there are groups |
| Physics.BitOrHighBit | src/f3b_export.py:306 | or-ing `1 << i` into a mask below `2^i` adds `2^i` |
| Physics.EncodeSnoc | src/f3b_export.py:304-307 | group i contributes exactly bit i |
| Physics.EncodeBound | src/f3b_export.py:301-310 | no bit at or above the number of groups is set |
| Physics.DecodeEncode | src/f3b_export.py:301-310 | bit i of the mask is set iff group i is on |
| Physics.EncodeInjective | src/f3b_export.py:301-310 | two checkbox rows of one length with the same mask are equal |
| Animation.EqualsMat4 | src/f3b_export.py:1153-1158 | answers true iff no cell of the two 4x4 matrices differs by more than the tolerance |
| Animation.Rebase | src/f3b_export.py:1138-1151 | the stored keyframe reads back as exactly the time and transform it was made from, so the axis swap loses nothing |
| Animation.RebaseUnrebase | src/f3b_export.py:1138-1151 | every keyframe is the swap of exactly one time and transform |
| Animation.Step | src/f3b_export.py:1121-1136 | a pending equal time always has a previous matrix to be stored with |
| Animation.Sampler.constructor | src/f3b_export.py:1109-1119 | a new sampler has no previous matrix, no pending time and empty lists |
| Animation.Sampler.Store | src/f3b_export.py:1138-1151 | appends one entry to each of the eleven parallel lists, keeping them equal in length, which is one swapped keyframe |
| Animation.Sampler.Capture | src/f3b_export.py:1121-1136 | one capture moves the sampler's state exactly as the reference step |
| Animation.SampleClip | src/f3b_export.py:1101-1104 | capturing a sequence of samples gives the reference run; nothing is flushed at the end |
| Animation.CaptureFrame | src/f3b_export.py:1102-1104 | in one frame every sampler captures its own matrix, and the samplers do not disturb each other |
| Animation.CaptureFrames | src/f3b_export.py:1101-1104 | over the frame loop every sampler ends as if it had run alone over its own samples |
| Animation.StepStoresIff | src/f3b_export.py:1129-1136 | a capture stores a keyframe iff there is no previous matrix or the new one moved past 1e-6; it ends with the keyframe for t, preceded by the pending time stored with the previous matrix, and earlier keyframes are untouched; otherwise only the pending time becomes t |
| Animation.RunAppendOnly | src/f3b_export.py:1121-1151 | capturing never changes or removes a stored keyframe |
| Animation.HeldPoseStoresNothing | src/f3b_export.py:1135-1136 | while the pose stays within tolerance nothing is stored and the pending time follows the latest sample; a clip ending in such a run leaves it unstored |
| Animation.PoseChangeFlushesHeldRun | src/f3b_export.py:1129-1134 | when a held run ends, its last time is stored with the matrix the run began with, followed by the new pose |
| Animation.RunKeepsOrder | src/f3b_export.py:1121-1136 | for samples in increasing time order, stored keyframe times strictly increase and a pending time is later than all of them |
| Animation.FreshRunOrdered | src/f3b_export.py:1101-1104 | from a new sampler, keyframe times strictly increase |
| Animation.RunFromSamples | src/f3b_export.py:1121-1151 | every stored keyframe is the time of one sample with the matrix of the same or an earlier sample |
| Animation.StepFromSamples | src/f3b_export.py:1121-1151 | one capture keeps every stored keyframe, the previous matrix and the pending time traceable to the samples seen, the pending time never before the previous matrix's sample |
| Scene.KeptProps | src/f3b_export.py:1162 | no kept key starts with `_` or `cycles` |
| Scene.KeptPropsMembers | src/f3b_export.py:1162 | a property is kept iff it is present and its key is not reserved |
| Scene.KeptPropsIdempotent | src/f3b_export.py:1162 | filtering an already filtered list changes nothing |
| Document.Data.AddRelationRaw | src/f3b_export.py:508-518 | appends exactly one `(ref1, ref2)` pair at the end and leaves earlier pairs unchanged |
| Exporters.QueryModified | src/f3b_export.py:69-73 | the flags after an exporter's queries are those of the registry's query run |
| Exporters.QueryItems | src/f3b_export.py:69-73 | an exporter emits exactly the entities whose query answered true, in call order |
| Exporters.QueryFirstSeen | src/f3b_export.py:69-73 | from a clean registry, the emitted entities are the unseen ones in first-query order |
| Exporters.QueryOnce | src/f3b_export.py:69-73 | from a clean registry no entity is emitted twice, and every unseen queried entity is emitted |
| Exporters.ShareIsQuery | src/f3b_export.py:493-502 | the lights, skeleton and action loops query the used data and add one relation per use, whatever the answer |
| Exporters.ShareOnce | src/f3b_export.py:493-502 | from a clean registry a shared-data loop writes each entity at most once, writes every entity the registry had not seen, and still adds the relation of every step, in order |
| Exporters.ExportAllLights | src/f3b_export.py:493-502 | flags, new light entries and relations are exactly those of the reference run over the rendered lamps |
| Exporters.LightsSharedOnce | src/f3b_export.py:493-502 | from a clean registry each light datum is written at most once, every unseen datum of a rendered lamp is written, and every rendered lamp gets its `(id(light), id(obj))` relation |
| Exporters.ExportAllSkeletons | src/f3b_export.py:999-1008 | flags, new skeleton entries and `(id(obj), id(armature))` relations are exactly those of the reference run over all armature objects |
| Exporters.ArmaturesAllRelated | src/f3b_export.py:999-1008 | every armature object, hidden ones included, is related to its armature datum |
| Exporters.ExportTrackActions | src/f3b_export.py:1050-1064 | the strip loop: strips without an action are skipped; each action is queried and always related to the object |
| Exporters.ExportAllActions | src/f3b_export.py:1042-1066 | the nested loops over objects, tracks and strips equal the reference run over all strip actions |
| Exporters.ActionsSharedOnce | src/f3b_export.py:1042-1066 | from a clean registry each action is written at most once, every unseen action is written, and every strip's action is related to its object, hidden objects included |
| Exporters.CustomParamsIff | src/f3b_export.py:1161-1165 | a custom-params entry is added iff some key is not reserved; its id is `"params_"+id(obj)` and it holds exactly the unreserved properties |
| Exporters.ExportObjCustomProperties | src/f3b_export.py:1161-1184 | adds that entry and its one relation to the node, or nothing at all |
| Exporters.ExportAllTObjects | src/f3b_export.py:138-164 | flags, tobjects, params and relations are exactly those of the reference; relations come only with a new object |
| Exporters.ExportTObject | src/f3b_export.py:143-162 | for one rendered object: a new object is written with its parent relation and custom params; a seen one only has its flag cleared |
| Exporters.TObjectsIsQuery | src/f3b_export.py:138-164 | the tobject loop queries the rendered objects, so from a clean registry each is written once |
| Exporters.TObjectRelationsExplained | src/f3b_export.py:156-162 | every relation added is the parent or custom-params relation of a written object |
| Exporters.ExportAudio | src/f3b_export.py:315-332 | fails on a missing sound (`src.name` at 316 raises before the query); otherwise queries the sound once and changes no other flag; I/O failures of the extraction or copy are not modelled |
| Exporters.ExportAllSpeakers | src/f3b_export.py:351-368 | succeeds exactly when the reference does; then flags, speaker entries and relations are exactly those of the reference, including the sound query for a new speaker |
| Exporters.SpeakersFailOnlyWithoutSound | src/f3b_export.py:351-368 | the speaker loop aborts only at a rendered speaker without a sound |
| Exporters.SpeakersAsShare | src/f3b_export.py:351-368 | when no speaker's sound is also a speaker datum, a completed speaker loop follows the shared-data pattern: each datum is written once and every rendered speaker is related |
| Exporters.RelateMeshUsers | src/f3b_export.py:468-472 | relates the mesh to every scene object whose data is the datum |
| Exporters.RelateMeshes | src/f3b_export.py:466-475 | for each output mesh, its users and then its material relation when `0 <= idx < len(material_slots)` |
| Exporters.ExportAllGeometries | src/f3b_export.py:458-477 | the loop returns the reference's failure, or else ends with the reference's flags, meshes and relations |
| Exporters.GeometriesIsQuery | src/f3b_export.py:464 | on success the loop queries the data of rendered mesh objects with polygons, so a shared mesh datum is converted once |
| Exporters.UserRelationsIff | src/f3b_export.py:468-472 | a mesh is related exactly to the scene objects, rendered or not, that use its datum |

## Left out

- Blender and protobuf access are replaced by input values:
  - `to_mesh`;
  - the triangulate and armature modifier toggling;
  - `extract_meshdata` and the `cnv_*` helpers;
  - `scene.frame_set`;
  - the current-action swap in `export_all_actions`;
  - the pose-bone matrix products in `capture`;
  - `decompose`;
  - `to_time`.
- The other exporters are not part of this model:
  - emitters, collision planes and force fields;
  - materials, `export_material` and the node walk;
  - textures and DDS conversion;
  - the light, skeleton-bone and rigid-body field mapping beyond the collision mask;
  - the rigid-body relation;
  - the operator UI.
- `export_audio` is modelled only through its failure on a missing sound
  and its registry query. The file extraction and copy are I/O.
- Transform and property values are copied as given. Names and logging
  (`info`, `print`) are not modelled.
- Dict order of `dstMap`: `meshes.add()` runs in the partition loop (553),
  so the output meshes come in first-appearance order under any dict order.
  Two loops follow `dstMap.items()`, though: the fill loop of
  `export_meshes` (555), and the relation loop of `export_all_geometries`
  (466), which iterates the `dstMap` that `export_meshes` returns (621).
  The model assumes Python 3.6+ insertion order for both, that is,
  first-appearance order. Under Python 3.5 and earlier (Blender 2.7x) a
  dict iterates in hash-slot order instead, ascending for small
  non-negative integer keys. That changes which earlier mesh a stale
  `colors` or `tangents` binding names, and the order of the user and
  material relations that `Exporters.RelateMeshes` and
  `Exporters.ExportAllGeometries` append.
- `Animation.EqualsMat4`: matrix cells, translations and the tolerance are
  `real`. The source uses floats, so the subtraction at 1156 rounds, and a
  NaN difference counts as equal at 1157, because both comparisons with
  the tolerance are false for NaN.
- Mesh lengths are not checked:
  - the lengths of `p`, `n`, `c`, texcoord and tangent vectors are
    unconstrained, and their lengths are proved only for uniform data;
  - index values are not checked against the vertex count.
- `Exporters.ExportAllLights`: for `_ids` only states that the memo grows
  and stays consistent. The exact entries added are not listed, because
  every identity equals its key whatever the memo holds.
- `Exporters.ExportAllSkeletons`: same `_ids` weakening.
- `Exporters.ExportTrackActions`: same `_ids` weakening.
- `Exporters.ExportAllActions`: same `_ids` weakening.
- `Exporters.ExportObjCustomProperties`: same `_ids` weakening.
- `Exporters.ExportAllTObjects`: same `_ids` weakening.
- `Exporters.ExportAllSpeakers`: same `_ids` weakening. After an abort the
  document and flags are not specified: the exception leaves the export
  half-written.
- `Exporters.RelateMeshUsers`: same `_ids` weakening.
- `Exporters.RelateMeshes`: same `_ids` weakening.
- `Exporters.ExportAllGeometries`: same `_ids` weakening. After a failure
  the document and flags are not specified: the exception abandons the
  export half-written.
- `Exporters.SpeakersAsShare`: assumes no speaker's sound is also a speaker
  datum, and says nothing about a loop that aborted.
- `Exporters.TObjectsIsQuery`: from a registry that `export_all_collisionplane`
  has already queried, collision objects count as seen and are not written
  again.
