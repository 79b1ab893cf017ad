/** Splitting an evaluated mesh by material and laying out its vertex and
    index arrays (`export_meshes`, src/f3b_export.py:548-616). The evaluated,
    triangulated mesh and the per-material vertex data that the unseen
    `extract_meshdata` returns are inputs. The locals `colors` and `tangents`
    outlive one material: a later material extends the arrays an earlier one
    bound when its own first vertex lacks the channel. */
module Meshes {
  import opened Wrappers
  import opened Seqs
  import opened Registry

  /** One vertex as `extract_meshdata` returns it: position `p`, normal `n`,
      color `c` (empty when the mesh has none), one texcoord per UV layer
      (`tx`) and one tangent per UV layer (`tg`, empty when not computed). */
  datatype Vertex = Vertex(p: seq<real>, n: seq<real>, c: seq<real>, tx: seq<seq<real>>, tg: seq<seq<real>>)

  datatype Skin = Skin(boneCount: seq<int>, boneIndex: seq<int>, boneWeight: seq<real>)

  /** Result of `extract_meshdata` for one material index. */
  datatype MeshData = MeshData(verts: seq<Vertex>, indexes: seq<int>, hasSkin: bool, skin: Skin)

  /** Semantic tag of a vertex array; `Texcoord(i)` and `Tangent(i)` are the
      (i+1)-th entries of the eight texcoord and eight tangent ids. */
  datatype Attrib = Position | Normal | Color | Texcoord(layer: nat) | Tangent(layer: nat)

  datatype FloatArray = FloatArray(attrib: Attrib, step: nat, values: seq<real>)

  /** An output mesh; its primitive is always a triangle list. */
  datatype OutMesh = OutMesh(
    id: string,
    name: string,
    materialIndex: int,
    vertexArrays: seq<FloatArray>,
    indexStep: nat,
    indexes: seq<int>,
    skin: Option<Skin>)

  /** How building one output mesh can fail; each is a Python exception that
      aborts the export: `verts[0]` on no vertices, `texcoords_ids[8]` on a
      ninth UV layer, or a vertex with a color or tangent while `colors` or
      `tangents` was never bound, or an index past a list. */
  datatype MeshError = EmptyVertexList | TooManyUvLayers | InconsistentChannels

  /** Number of texcoord ids the format offers. */
  const TexcoordIds: nat := 8

  /** `min(9, len(verts[0].tx))`: how many texcoord arrays the code creates. */
  function TexcoordArrays(v0: Vertex): nat
  {
    if |v0.tx| < 9 then |v0.tx| else 9
  }

  datatype Channel = PositionCh | NormalCh | ColorCh | TexcoordCh(j: nat) | TangentCh(j: nat)

  /** What one vertex appends to the array of a channel. */
  function Contribution(v: Vertex, ch: Channel): seq<real>
  {
    match ch
    case PositionCh => v.p
    case NormalCh => v.n
    case ColorCh => v.c
    case TexcoordCh(j) => if j < |v.tx| then v.tx[j] else []
    case TangentCh(j) => if j < |v.tx| && j < |v.tg| then v.tg[j] else []
  }

  /** The values of a channel's array: every vertex's contribution, in order. */
  function Column(verts: seq<Vertex>, ch: Channel): seq<real>
  {
    if |verts| == 0 then []
    else Column(verts[..|verts| - 1], ch) + Contribution(verts[|verts| - 1], ch)
  }

  lemma ColumnSnoc(verts: seq<Vertex>, k: nat, ch: Channel)
    requires k < |verts|
    ensures Column(verts[..k + 1], ch) == Column(verts[..k], ch) + Contribution(verts[k], ch)
  {
    assert verts[..k + 1][..k] == verts[..k];
  }


  /** Does the vertex loop raise on `v`? `nTex` texcoord arrays were made for
      this material; `colorsBound` and `tangentsBound` say whether the locals
      `colors` and `tangents` name anything yet, and `nTan` is the length of
      the `tangents` list. */
  predicate VertexCrashes(v: Vertex, nTex: nat, colorsBound: bool, tangentsBound: bool, nTan: nat)
  {
    || (|v.c| > 0 && !colorsBound)
    || |v.tx| > nTex
    || (|v.tx| > 0 && |v.tg| > 0 && (!tangentsBound || |v.tg| < |v.tx| || nTan < |v.tx|))
  }

  /** Does the vertex loop raise on some vertex of `verts`? */
  predicate SomeVertexCrashes(verts: seq<Vertex>, nTex: nat, colorsBound: bool, tangentsBound: bool, nTan: nat)
  {
    |verts| > 0 &&
    (|| SomeVertexCrashes(verts[..|verts| - 1], nTex, colorsBound, tangentsBound, nTan)
     || VertexCrashes(verts[|verts| - 1], nTex, colorsBound, tangentsBound, nTan))
  }

  lemma {:induction false} SomeVertexCrashesIff(verts: seq<Vertex>, nTex: nat, colorsBound: bool, tangentsBound: bool, nTan: nat)
    ensures SomeVertexCrashes(verts, nTex, colorsBound, tangentsBound, nTan) <==>
      exists q :: 0 <= q < |verts| && VertexCrashes(verts[q], nTex, colorsBound, tangentsBound, nTan)
  {
    if |verts| > 0 {
      var n := |verts| - 1;
      SomeVertexCrashesIff(verts[..n], nTex, colorsBound, tangentsBound, nTan);
      if exists q :: 0 <= q < |verts| && VertexCrashes(verts[q], nTex, colorsBound, tangentsBound, nTan) {
        var q :| 0 <= q < |verts| && VertexCrashes(verts[q], nTex, colorsBound, tangentsBound, nTan);
        if q < n {
          assert verts[..n][q] == verts[q];
        }
      }
      if SomeVertexCrashes(verts[..n], nTex, colorsBound, tangentsBound, nTan) {
        var q :| 0 <= q < n && VertexCrashes(verts[..n][q], nTex, colorsBound, tangentsBound, nTan);
        assert verts[..n][q] == verts[q];
      }
    }
  }

  /** The values the vertex loop appends, per array it extends. */
  datatype Columns = Columns(
    positions: seq<real>,
    normals: seq<real>,
    colors: seq<real>,
    texcoords: seq<seq<real>>,
    tangents: seq<seq<real>>)

  /** Reference definition of what the vertex loop appends for a vertex list:
      every channel's column, for `nTex` texcoord and `nTan` tangent arrays. */
  function ColumnsOf(verts: seq<Vertex>, nTex: nat, nTan: nat): (cols: Columns)
    ensures |cols.texcoords| == nTex
    ensures |cols.tangents| == nTan
  {
    Columns(Column(verts, PositionCh), Column(verts, NormalCh), Column(verts, ColorCh),
            seq(nTex, j requires 0 <= j => Column(verts, TexcoordCh(j))),
            seq(nTan, j requires 0 <= j => Column(verts, TangentCh(j))))
  }

  /** The appended values after one more vertex. */
  function Extend(cols: Columns, v: Vertex, nTex: nat, nTan: nat): Columns
    requires |cols.texcoords| == nTex && |cols.tangents| == nTan
  {
    Columns(cols.positions + v.p, cols.normals + v.n, cols.colors + v.c,
            seq(nTex, j requires 0 <= j < nTex => cols.texcoords[j] + Contribution(v, TexcoordCh(j))),
            seq(nTan, j requires 0 <= j < nTan => cols.tangents[j] + Contribution(v, TangentCh(j))))
  }

  lemma ColumnsOfSnoc(verts: seq<Vertex>, k: nat, nTex: nat, nTan: nat)
    requires k < |verts|
    ensures ColumnsOf(verts[..k + 1], nTex, nTan) == Extend(ColumnsOf(verts[..k], nTex, nTan), verts[k], nTex, nTan)
  {
    assert verts[..k + 1][..k] == verts[..k];
  }

  /** The texcoord (and, when present, tangent) arrays in creation order:
      texcoord i, then tangent i, for each layer i < n. */
  function UvArrays(cols: Columns, n: nat, hasTangents: bool): seq<FloatArray>
    requires n <= |cols.texcoords|
    requires hasTangents ==> n <= |cols.tangents|
  {
    if n == 0 then []
    else
      UvArrays(cols, n - 1, hasTangents)
      + [FloatArray(Texcoord(n - 1), 2, cols.texcoords[n - 1])]
      + (if hasTangents then [FloatArray(Tangent(n - 1), 4, cols.tangents[n - 1])] else [])
  }

  /** All vertex arrays of one output mesh, in the order the code adds them. */
  function VertexArrays(cols: Columns, nTex: nat, hasColors: bool, hasTangents: bool): seq<FloatArray>
    requires nTex <= |cols.texcoords|
    requires hasTangents ==> nTex <= |cols.tangents|
  {
    [FloatArray(Position, 3, cols.positions), FloatArray(Normal, 3, cols.normals)]
    + UvArrays(cols, nTex, hasTangents)
    + (if hasColors then [FloatArray(Color, 4, cols.colors)] else [])
  }

  /** The `index`-th vertex array of the `mesh`-th output mesh of one call. */
  datatype Slot = Slot(mesh: nat, index: nat)

  /** What the locals `colors` (593-596) and `tangents` (578-591) name. Each
      is rebound only for a material whose first vertex has the channel, so
      a later material without it still names an earlier mesh's arrays. */
  datatype Bindings = Bindings(colors: Option<Slot>, tangents: Option<seq<Slot>>)

  /** The output meshes of one call so far and the bindings they leave. */
  datatype Built = Built(meshes: seq<OutMesh>, bound: Bindings)

  /** Where the color array goes: after positions, normals and the UV arrays. */
  function ColorSlot(nTex: nat, hasTangents: bool): nat
  {
    2 + (if hasTangents then 2 * nTex else nTex)
  }

  /** The bindings once mesh `cur`'s arrays are set up (578-596). */
  function Rebind(b: Bindings, cur: nat, v0: Vertex, nTex: nat): Bindings
  {
    Bindings(
      if |v0.c| > 0 then Some(Slot(cur, ColorSlot(nTex, |v0.tg| > 0))) else b.colors,
      if |v0.tg| > 0 then Some(seq(nTex, i requires 0 <= i => Slot(cur, 3 + 2 * i))) else b.tangents)
  }

  /** Length of the `tangents` list; 0 while it is unbound. */
  function TangentCount(b: Bindings): nat
  {
    if b.tangents.Some? then |b.tangents.value| else 0
  }

  /** A mesh with the values of its arrays dropped: all the vertex loop leaves alone. */
  function Frame(o: OutMesh): OutMesh
  {
    o.(vertexArrays := seq(|o.vertexArrays|, j requires 0 <= j < |o.vertexArrays| => o.vertexArrays[j].(values := [])))
  }

  predicate SameFrames(ms: seq<OutMesh>, ms': seq<OutMesh>)
  {
    |ms'| == |ms| && forall i :: 0 <= i < |ms| ==> Frame(ms'[i]) == Frame(ms[i])
  }

  /** `floats.values.extend` on the array slot `s` names; a slot naming no
      array (which `BindingsNameArrays` rules out) changes nothing. */
  function Deposit(ms: seq<OutMesh>, s: Slot, values: seq<real>): (r: seq<OutMesh>)
    ensures SameFrames(ms, r)
  {
    if s.mesh < |ms| && s.index < |ms[s.mesh].vertexArrays| then
      var o := ms[s.mesh];
      var a := o.vertexArrays[s.index];
      var o' := o.(vertexArrays := o.vertexArrays[s.index := a.(values := a.values + values)]);
      assert Frame(o') == Frame(o);
      ms[s.mesh := o']
    else ms
  }

  /** `values[i]` appended to the array `slots[i]` names, for every i. */
  function DepositLayers(ms: seq<OutMesh>, slots: seq<Slot>, values: seq<seq<real>>): (r: seq<OutMesh>)
    requires |slots| == |values|
    ensures SameFrames(ms, r)
  {
    if |slots| == 0 then ms
    else
      var n := |slots| - 1;
      Deposit(DepositLayers(ms, slots[..n], values[..n]), slots[n], values[n])
  }

  /** The earlier meshes after a material's vertex loop: a color or tangent
      whose channel the material's first vertex lacks extends the array an
      earlier material left `colors` or `tangents` naming (604-605, 608-610). */
  function Carry(ms: seq<OutMesh>, b: Bindings, hasColors: bool, hasTangents: bool, cols: Columns): (r: seq<OutMesh>)
    requires b.tangents.Some? && !hasTangents ==> |cols.tangents| == |b.tangents.value|
    ensures SameFrames(ms, r)
  {
    var withColors := if !hasColors && b.colors.Some? then Deposit(ms, b.colors.value, cols.colors) else ms;
    if !hasTangents && b.tangents.Some? then DepositLayers(withColors, b.tangents.value, cols.tangents) else withColors
  }

  /** Reference definition of one turn of the per-material loop (555-616):
      set up the new mesh's arrays from the first vertex, rebind `colors` and
      `tangents` if it has those channels, then run the vertex loop, which
      may raise or extend an earlier mesh's arrays. */
  function Place(b: Built, id: string, name: string, idx: int, m: MeshData): Result<Built, MeshError>
  {
    if |m.verts| == 0 then Failure(EmptyVertexList)
    else
      var v0 := m.verts[0];
      var nTex := TexcoordArrays(v0);
      if nTex > TexcoordIds then Failure(TooManyUvLayers)
      else
        var bound := Rebind(b.bound, |b.meshes|, v0, nTex);
        var nTan := TangentCount(bound);
        if SomeVertexCrashes(m.verts, nTex, bound.colors.Some?, bound.tangents.Some?, nTan)
        then Failure(InconsistentChannels)
        else
          var hasColors, hasTangents := |v0.c| > 0, |v0.tg| > 0;
          var cols := ColumnsOf(m.verts, nTex, nTan);
          var mesh := OutMesh(id, name, idx, VertexArrays(cols, nTex, hasColors, hasTangents),
                              3, m.indexes, if m.hasSkin then Some(m.skin) else None);
          Success(Built(Carry(b.meshes, b.bound, hasColors, hasTangents, cols) + [mesh], bound))
  }

  /** The UV part of the vertex loop (606-610) for one vertex: append its i-th
      texcoord to texcoord array i and, if it has tangents, its i-th tangent
      to the i-th array of the `tangents` list, for every layer it carries. */
  method ExtendUvArrays(v: Vertex, nTex: nat, tangentsBound: bool, texcoords: seq<seq<real>>, tangents: seq<seq<real>>)
    returns (ok: bool, texcoords': seq<seq<real>>, tangents': seq<seq<real>>)
    requires |texcoords| == nTex
    ensures ok <==> !(|v.tx| > nTex || (|v.tx| > 0 && |v.tg| > 0 && (!tangentsBound || |v.tg| < |v.tx| || |tangents| < |v.tx|)))
    ensures ok ==> |texcoords'| == nTex && |tangents'| == |tangents|
    ensures ok ==> forall j :: 0 <= j < nTex ==> texcoords'[j] == texcoords[j] + Contribution(v, TexcoordCh(j))
    ensures ok ==> forall j :: 0 <= j < |tangents| ==> tangents'[j] == tangents[j] + Contribution(v, TangentCh(j))
  {
    texcoords', tangents' := texcoords, tangents;
    var i := 0;
    while i < |v.tx|
      invariant 0 <= i <= |v.tx| && i <= nTex
      invariant |texcoords'| == nTex && |tangents'| == |tangents|
      invariant forall j :: 0 <= j < nTex ==> texcoords'[j] == texcoords[j] + (if j < i then v.tx[j] else [])
      invariant forall j :: 0 <= j < |tangents| ==>
        tangents'[j] == tangents[j] + (if j < i && j < |v.tg| then v.tg[j] else [])
      invariant |v.tg| > 0 && i > 0 ==> tangentsBound && i <= |v.tg| && i <= |tangents|
    {
      if i >= nTex {
        return false, texcoords', tangents';
      }
      texcoords' := texcoords'[i := texcoords'[i] + v.tx[i]];
      if |v.tg| > 0 {
        if !tangentsBound || i >= |tangents| || i >= |v.tg| {
          return false, texcoords', tangents';
        }
        tangents' := tangents'[i := tangents'[i] + v.tg[i]];
      }
      i := i + 1;
    }
    ok := true;
  }

  /** One turn of the vertex loop (601-610): extend the arrays with `v`, or
      fail where Python would raise. */
  method AppendVertex(v: Vertex, nTex: nat, colorsBound: bool, tangentsBound: bool, cols: Columns)
    returns (r: Option<Columns>)
    requires |cols.texcoords| == nTex
    ensures r.None? <==> VertexCrashes(v, nTex, colorsBound, tangentsBound, |cols.tangents|)
    ensures r.Some? ==> r.value == Extend(cols, v, nTex, |cols.tangents|)
  {
    var colors := cols.colors;
    if |v.c| > 0 {
      if !colorsBound {
        return None;
      }
      colors := colors + v.c;
    }
    var texcoords, tangents := cols.texcoords, cols.tangents;
    if |v.tx| > 0 {
      var ok;
      ok, texcoords, tangents := ExtendUvArrays(v, nTex, tangentsBound, texcoords, tangents);
      if !ok {
        return None;
      }
    }
    var e := Extend(cols, v, nTex, |cols.tangents|);
    assert texcoords == e.texcoords by {
      forall j | 0 <= j < nTex ensures texcoords[j] == e.texcoords[j] {}
    }
    assert tangents == e.tangents by {
      forall j | 0 <= j < |cols.tangents| ensures tangents[j] == e.tangents[j] {}
    }
    r := Some(Columns(cols.positions + v.p, cols.normals + v.n, colors, texcoords, tangents));
  }

  /** The vertex loop of `export_meshes` (601-610): extend the arrays vertex
      by vertex, stopping at the first vertex with a channel that no array is
      bound to or that overruns a list. */
  method AppendVertices(verts: seq<Vertex>, nTex: nat, colorsBound: bool, tangentsBound: bool, nTan: nat)
    returns (r: Option<Columns>)
    ensures r.None? <==> exists q :: 0 <= q < |verts| && VertexCrashes(verts[q], nTex, colorsBound, tangentsBound, nTan)
    ensures r.Some? ==> r.value == ColumnsOf(verts, nTex, nTan)
  {
    var cols := Columns([], [], [], seq(nTex, _ => []), seq(nTan, _ => []));
    assert verts[..0] == [];
    assert cols == ColumnsOf(verts[..0], nTex, nTan);
    var k := 0;
    while k < |verts|
      invariant 0 <= k <= |verts|
      invariant cols == ColumnsOf(verts[..k], nTex, nTan)
      invariant forall q :: 0 <= q < k ==> !VertexCrashes(verts[q], nTex, colorsBound, tangentsBound, nTan)
    {
      var next := AppendVertex(verts[k], nTex, colorsBound, tangentsBound, cols);
      if next.None? {
        assert VertexCrashes(verts[k], nTex, colorsBound, tangentsBound, nTan);
        return None;
      }
      ColumnsOfSnoc(verts, k, nTex, nTan);
      cols := next.value;
      k := k + 1;
    }
    assert verts[..k] == verts;
    return Some(cols);
  }

  /** The texcoord and tangent arrays (583-591), layer by layer. */
  method BuildUvArrays(cols: Columns, nTex: nat, hasTangents: bool) returns (uv: seq<FloatArray>)
    requires nTex <= |cols.texcoords|
    requires hasTangents ==> nTex <= |cols.tangents|
    ensures uv == UvArrays(cols, nTex, hasTangents)
  {
    uv := [];
    for i := 0 to nTex
      invariant uv == UvArrays(cols, i, hasTangents)
    {
      uv := uv + [FloatArray(Texcoord(i), 2, cols.texcoords[i])];
      if hasTangents {
        uv := uv + [FloatArray(Tangent(i), 4, cols.tangents[i])];
      }
    }
  }

  /** The body of the per-material loop of `export_meshes` (555-616): set up
      the new mesh's arrays from the first vertex, rebind `colors` and
      `tangents`, then run the vertex loop over the bound arrays. */
  method AssembleMesh(b: Built, id: string, name: string, idx: int, m: MeshData) returns (r: Result<Built, MeshError>)
    ensures r == Place(b, id, name, idx, m)
  {
    var verts := m.verts;
    if |verts| == 0 {
      return Failure(EmptyVertexList);
    }
    var v0 := verts[0];
    var hasTangents := |v0.tg| > 0;
    var hasColors := |v0.c| > 0;
    var nTex := TexcoordArrays(v0);
    if nTex > TexcoordIds {
      return Failure(TooManyUvLayers);
    }
    var bound := Rebind(b.bound, |b.meshes|, v0, nTex);
    var filled := AppendVertices(verts, nTex, bound.colors.Some?, bound.tangents.Some?, TangentCount(bound));
    SomeVertexCrashesIff(verts, nTex, bound.colors.Some?, bound.tangents.Some?, TangentCount(bound));
    if filled.None? {
      return Failure(InconsistentChannels);
    }
    var cols := filled.value;
    var uv := BuildUvArrays(cols, nTex, hasTangents);
    var arrays := [FloatArray(Position, 3, cols.positions), FloatArray(Normal, 3, cols.normals)] + uv;
    if hasColors {
      arrays := arrays + [FloatArray(Color, 4, cols.colors)];
    }
    assert arrays == VertexArrays(cols, nTex, hasColors, hasTangents);
    var skin := if m.hasSkin then Some(m.skin) else None;
    var earlier := Carry(b.meshes, b.bound, hasColors, hasTangents, cols);
    r := Success(Built(earlier + [OutMesh(id, name, idx, arrays, 3, m.indexes, skin)], bound));
  }

  /** Lines 548-553: one output slot per distinct face material index, keyed
      in order of first appearance (the keys of `dstMap`). */
  method PartitionByMaterial(faces: seq<int>) returns (order: seq<int>)
    ensures order == Dedup(faces)
    ensures Distinct(order)
    ensures forall i :: 0 <= i < |faces| ==> faces[i] in order
    ensures forall i :: 0 <= i < |order| ==> order[i] in faces
  {
    order := [];
    for k := 0 to |faces|
      invariant order == Dedup(faces[..k])
    {
      assert faces[..k + 1][..k] == faces[..k];
      if faces[k] !in order {
        order := order + [faces[k]];
      }
    }
    assert faces[..|faces|] == faces;
  }

  /** No array bound yet: the state at the start of `export_meshes`. */
  const Unbound := Bindings(None, None)

  /** Reference definition: the output meshes for material indices `order`,
      filled in that order with the bindings carried from one material to
      the next; the first failure aborts. */
  function AssembleAll(srcId: string, dataName: string, order: seq<int>, extract: int -> MeshData)
    : Result<Built, MeshError>
  {
    if |order| == 0 then Success(Built([], Unbound))
    else
      var n := |order| - 1;
      match AssembleAll(srcId, dataName, order[..n], extract)
      case Failure(e) => Failure(e)
      case Success(b) =>
        var idx := order[n];
        Place(b, srcId + "_" + Str(idx), dataName + "_" + Str(idx), idx, extract(idx))
  }

  lemma {:induction false} AssembleAllFailurePersists(srcId: string, dataName: string, order: seq<int>, extract: int -> MeshData, i: nat)
    requires i <= |order| && AssembleAll(srcId, dataName, order[..i], extract).Failure?
    ensures AssembleAll(srcId, dataName, order, extract) == AssembleAll(srcId, dataName, order[..i], extract)
  {
    if i < |order| {
      var n := |order| - 1;
      assert order[..n][..i] == order[..i];
      AssembleAllFailurePersists(srcId, dataName, order[..n], extract, i);
    } else {
      assert order[..i] == order;
    }
  }

  /** The output meshes of a run, or its failure. */
  function MeshesBuilt(r: Result<Built, MeshError>): Result<seq<OutMesh>, MeshError>
  {
    match r
    case Success(b) => Success(b.meshes)
    case Failure(e) => Failure(e)
  }

  /** The mesh-building part of `export_meshes` once the identity of the
      evaluated mesh is known: partition, then fill each output mesh in turn,
      carrying `colors` and `tangents` from one material to the next. */
  method BuildMeshes(srcId: string, dataName: string, faces: seq<int>, extract: int -> MeshData)
    returns (r: Result<seq<OutMesh>, MeshError>)
    ensures r == MeshesBuilt(AssembleAll(srcId, dataName, Dedup(faces), extract))
  {
    var order := PartitionByMaterial(faces);
    var built := Built([], Unbound);
    for i := 0 to |order|
      invariant AssembleAll(srcId, dataName, order[..i], extract) == Success(built)
    {
      var idx := order[i];
      var next := AssembleMesh(built, srcId + "_" + Str(idx), dataName + "_" + Str(idx), idx, extract(idx));
      assert order[..i + 1][..i] == order[..i];
      if next.Failure? {
        AssembleAllFailurePersists(srcId, dataName, order, extract, i + 1);
        return Failure(next.error);
      }
      built := next.value;
    }
    assert order[..|order|] == order;
    r := Success(built.meshes);
  }

  /** A mesh object as `export_meshes` sees it after `to_mesh`: the evaluated
      (triangulated) mesh's identity, the name of the object's mesh datum, the
      material index of each face, and `extract_meshdata` per material index. */
  datatype Geometry = Geometry(evaluated: Entity, dataName: string, faces: seq<int>, extract: int -> MeshData)

  /** The output meshes `export_meshes` produces for a geometry. */
  function MeshesOf(g: Geometry): Result<seq<OutMesh>, MeshError>
  {
    MeshesBuilt(AssembleAll(KeyOf(g.evaluated), g.dataName, Dedup(g.faces), g.extract))
  }

  /** `export_meshes` (548-621) without the modifier juggling around `to_mesh`. */
  method ExportMeshes(g: Geometry, cfg: ExportCfg) returns (r: Result<seq<OutMesh>, MeshError>)
    requires cfg.Valid()
    modifies cfg`ids
    ensures cfg.Valid()
    ensures cfg.ids == if g.faces == [] then old(cfg.ids) else old(cfg.ids)[KeyOf(g.evaluated) := KeyOf(g.evaluated)]
    ensures r == MeshesOf(g)
  {
    // `id_of(src_mesh)` is only reached for a material index some face uses.
    var srcId := KeyOf(g.evaluated);
    if g.faces != [] {
      srcId := cfg.IdOf(g.evaluated);
    }
    r := BuildMeshes(srcId, g.dataName, g.faces, g.extract);
  }

  /** One turn adds exactly one mesh, with the id, name and material index it
      was set up with (555-558), index step 3 and the extracted index list
      (600); earlier meshes keep everything but the values of their arrays. */
  lemma PlaceHeader(b: Built, id: string, name: string, idx: int, m: MeshData, r: Built)
    requires Place(b, id, name, idx, m) == Success(r)
    ensures |r.meshes| == |b.meshes| + 1
    ensures SameFrames(b.meshes, r.meshes[..|b.meshes|])
    ensures var mesh := r.meshes[|b.meshes|];
      mesh.id == id && mesh.name == name && mesh.materialIndex == idx && mesh.indexStep == 3 && mesh.indexes == m.indexes
  {
  }

  /** Mesh `o` is the one set up for material index `idx` (555-558, 600). */
  predicate HeaderOf(o: OutMesh, src: Entity, dataName: string, idx: int, extract: int -> MeshData)
  {
    && o.materialIndex == idx
    && o.id == MeshId(src, idx)
    && o.name == dataName + "_" + Str(idx)
    && o.indexStep == 3
    && o.indexes == extract(idx).indexes
  }

  /** Each output mesh answers one material index of `order`, in order, and
      is named and identified after it. */
  lemma {:induction false} AssembleAllFollowsOrder(src: Entity, dataName: string, order: seq<int>, extract: int -> MeshData, b: Built)
    requires AssembleAll(KeyOf(src), dataName, order, extract) == Success(b)
    ensures |b.meshes| == |order|
    ensures forall i :: 0 <= i < |b.meshes| ==> HeaderOf(b.meshes[i], src, dataName, order[i], extract)
  {
    if |order| > 0 {
      var n := |order| - 1;
      var idx := order[n];
      var p := AssembleAllLast(KeyOf(src), dataName, order, extract, b);
      AssembleAllFollowsOrder(src, dataName, order[..n], extract, p);
      PlaceFollowsOrder(src, dataName, order, extract, p, b);
    }
  }

  /** The step of `AssembleAllFollowsOrder`: one more turn keeps every header. */
  lemma PlaceFollowsOrder(src: Entity, dataName: string, order: seq<int>, extract: int -> MeshData, p: Built, b: Built)
    requires |order| > 0 && |p.meshes| == |order| - 1
    requires forall i :: 0 <= i < |p.meshes| ==> HeaderOf(p.meshes[i], src, dataName, order[..|order| - 1][i], extract)
    requires var idx := order[|order| - 1];
      Place(p, KeyOf(src) + "_" + Str(idx), dataName + "_" + Str(idx), idx, extract(idx)) == Success(b)
    ensures |b.meshes| == |order|
    ensures forall i :: 0 <= i < |b.meshes| ==> HeaderOf(b.meshes[i], src, dataName, order[i], extract)
  {
    var idx := order[|order| - 1];
    PlaceHeader(p, KeyOf(src) + "_" + Str(idx), dataName + "_" + Str(idx), idx, extract(idx), b);
    HeadersSnoc(src, dataName, order, extract, p.meshes, b.meshes);
  }

  /** The run's meshes carry their materials' headers once the earlier meshes
      did, kept their frames, and the new mesh carries the last header. */
  lemma HeadersSnoc(src: Entity, dataName: string, order: seq<int>, extract: int -> MeshData, ps: seq<OutMesh>, bs: seq<OutMesh>)
    requires |order| > 0 && |ps| == |order| - 1 && |bs| == |order|
    requires SameFrames(ps, bs[..|ps|])
    requires forall i :: 0 <= i < |ps| ==> HeaderOf(ps[i], src, dataName, order[..|ps|][i], extract)
    requires var idx := order[|ps|]; var o := bs[|ps|];
      o.id == KeyOf(src) + "_" + Str(idx) && o.name == dataName + "_" + Str(idx) &&
      o.materialIndex == idx && o.indexStep == 3 && o.indexes == extract(idx).indexes
    ensures forall i :: 0 <= i < |bs| ==> HeaderOf(bs[i], src, dataName, order[i], extract)
  {
    forall i | 0 <= i < |bs| ensures HeaderOf(bs[i], src, dataName, order[i], extract) {
      if i < |ps| {
        assert bs[..|ps|][i] == bs[i];
        assert Frame(bs[i]) == Frame(ps[i]);
        assert order[..|ps|][i] == order[i];
      }
    }
  }

  /** `export_meshes` creates exactly one output mesh per distinct face
      material index (and none for an index no face uses); a mesh without
      faces gives none. */
  lemma OneMeshPerMaterial(g: Geometry, ms: seq<OutMesh>)
    requires MeshesOf(g) == Success(ms)
    ensures |ms| == |Dedup(g.faces)|
    ensures forall i :: 0 <= i < |g.faces| ==> exists j :: 0 <= j < |ms| && ms[j].materialIndex == g.faces[i]
    ensures forall j :: 0 <= j < |ms| ==> ms[j].materialIndex in g.faces
    ensures forall i, j :: 0 <= i < j < |ms| ==> ms[i].materialIndex != ms[j].materialIndex
    ensures g.faces == [] ==> ms == []
  {
    MeshesOfFollowFaces(g, ms);
    MaterialsPartition(g.faces, ms);
  }

  /** The output meshes of a geometry carry the headers of its distinct face
      material indices, in first-appearance order. */
  lemma MeshesOfFollowFaces(g: Geometry, ms: seq<OutMesh>)
    requires MeshesOf(g) == Success(ms)
    ensures |ms| == |Dedup(g.faces)|
    ensures forall i :: 0 <= i < |ms| ==> HeaderOf(ms[i], g.evaluated, g.dataName, Dedup(g.faces)[i], g.extract)
  {
    var order := Dedup(g.faces);
    var b := AssembleAll(KeyOf(g.evaluated), g.dataName, order, g.extract).value;
    AssembleAllFollowsOrder(g.evaluated, g.dataName, order, g.extract, b);
  }

  /** Meshes answering the distinct face indices one each cover every face
      index, and nothing else, once. */
  lemma MaterialsPartition(faces: seq<int>, ms: seq<OutMesh>)
    requires |ms| == |Dedup(faces)|
    requires forall i :: 0 <= i < |ms| ==> ms[i].materialIndex == Dedup(faces)[i]
    ensures forall i :: 0 <= i < |faces| ==> exists j :: 0 <= j < |ms| && ms[j].materialIndex == faces[i]
    ensures forall j :: 0 <= j < |ms| ==> ms[j].materialIndex in faces
    ensures forall i, j :: 0 <= i < j < |ms| ==> ms[i].materialIndex != ms[j].materialIndex
    ensures faces == [] ==> ms == []
  {
    var order := Dedup(faces);
    forall i | 0 <= i < |faces|
      ensures exists j :: 0 <= j < |ms| && ms[j].materialIndex == faces[i]
    {
      var j :| 0 <= j < |order| && order[j] == faces[i];
      assert ms[j].materialIndex == faces[i];
    }
  }

  /** The output meshes come in order of the first face using each material
      index, and no two share an identity. */
  lemma MeshesInFirstAppearanceOrder(g: Geometry, ms: seq<OutMesh>)
    requires MeshesOf(g) == Success(ms)
    ensures forall j :: 0 <= j < |ms| ==> ms[j].materialIndex in g.faces
    ensures forall i, j :: 0 <= i < j < |ms| ==>
      FirstIndex(g.faces, ms[i].materialIndex) < FirstIndex(g.faces, ms[j].materialIndex)
    ensures forall i, j :: 0 <= i < j < |ms| ==> ms[i].id != ms[j].id
  {
    var order := Dedup(g.faces);
    var b := AssembleAll(KeyOf(g.evaluated), g.dataName, order, g.extract).value;
    AssembleAllFollowsOrder(g.evaluated, g.dataName, order, g.extract, b);
    assert b.meshes == ms;
    DedupKeepsFirstAppearanceOrder(g.faces);
    forall j | 0 <= j < |ms| ensures ms[j].materialIndex in g.faces {
      assert ms[j].materialIndex == order[j];
    }
    forall i, j | 0 <= i < j < |ms|
      ensures FirstIndex(g.faces, ms[i].materialIndex) < FirstIndex(g.faces, ms[j].materialIndex)
    {
      assert ms[i].materialIndex == order[i] && ms[j].materialIndex == order[j];
    }
    forall i, j | 0 <= i < j < |ms| ensures ms[i].id != ms[j].id {
      if ms[i].id == ms[j].id {
        MeshIdInjective(g.evaluated, order[i], g.evaluated, order[j]);
      }
    }
  }

  lemma {:induction false} ColumnLength(verts: seq<Vertex>, ch: Channel, w: nat)
    requires forall q :: 0 <= q < |verts| ==> |Contribution(verts[q], ch)| == w
    ensures |Column(verts, ch)| == w * |verts|
  {
    if |verts| > 0 {
      ColumnLength(verts[..|verts| - 1], ch, w);
    }
  }

  /** The vertex data `extract_meshdata` is expected to deliver: at least one
      vertex, 3-float positions and normals, and every vertex carrying the
      same channels as the first, with 4-float colors, 2-float texcoords and
      4-float tangents (one tangent per UV layer). */
  predicate Uniform(m: MeshData)
  {
    && |m.verts| > 0
    && forall q :: 0 <= q < |m.verts| ==>
      var v := m.verts[q];
      && |v.p| == 3 && |v.n| == 3
      && |v.c| == |m.verts[0].c| && (|v.c| == 0 || |v.c| == 4)
      && |v.tx| == |m.verts[0].tx|
      && (|v.tg| == 0 || |v.tg| == |v.tx|) && |v.tg| == |m.verts[0].tg|
      && (forall j :: 0 <= j < |v.tx| ==> |v.tx[j]| == 2)
      && (forall j :: 0 <= j < |v.tg| ==> |v.tg[j]| == 4)
  }

  /** Uniform vertex data with at most eight UV layers never makes the code
      raise, whatever earlier materials left bound. */
  lemma UniformPlaces(b: Built, id: string, name: string, idx: int, m: MeshData)
    requires Uniform(m) && |m.verts[0].tx| <= TexcoordIds
    ensures Place(b, id, name, idx, m).Success?
  {
    var v0 := m.verts[0];
    var nTex := TexcoordArrays(v0);
    var bound := Rebind(b.bound, |b.meshes|, v0, nTex);
    forall q | 0 <= q < |m.verts|
      ensures !VertexCrashes(m.verts[q], nTex, bound.colors.Some?, bound.tangents.Some?, TangentCount(bound))
    {
    }
    SomeVertexCrashesIff(m.verts, nTex, bound.colors.Some?, bound.tangents.Some?, TangentCount(bound));
  }

  /** `a` is the texcoord array, or the tangent array, of layer `j`. */
  predicate UvArrayOf(cols: Columns, j: nat, hasTangents: bool, a: FloatArray)
    requires j < |cols.texcoords| && (hasTangents ==> j < |cols.tangents|)
  {
    || a == FloatArray(Texcoord(j), 2, cols.texcoords[j])
    || (hasTangents && a == FloatArray(Tangent(j), 4, cols.tangents[j]))
  }

  lemma {:induction false} UvArraysMembers(cols: Columns, n: nat, hasTangents: bool, a: FloatArray)
    requires n <= |cols.texcoords| && (hasTangents ==> n <= |cols.tangents|)
    requires a in UvArrays(cols, n, hasTangents)
    ensures exists j :: 0 <= j < n && UvArrayOf(cols, j, hasTangents, a)
  {
    if n > 0 {
      var prev := UvArrays(cols, n - 1, hasTangents);
      if a in prev {
        UvArraysMembers(cols, n - 1, hasTangents, a);
      } else {
        assert UvArrayOf(cols, n - 1, hasTangents, a);
      }
    }
  }

  /** Column lengths of uniform vertex data: a fixed width per vertex, and
      nothing at all in a channel the first vertex lacks. */
  lemma UniformColumns(m: MeshData, nTex: nat, nTan: nat)
    requires Uniform(m) && nTex == |m.verts[0].tx|
    ensures var cols := ColumnsOf(m.verts, nTex, nTan);
      && |cols.positions| == 3 * |m.verts|
      && |cols.normals| == 3 * |m.verts|
      && |cols.colors| == |m.verts[0].c| * |m.verts|
      && (forall j :: 0 <= j < nTex ==> |cols.texcoords[j]| == 2 * |m.verts|)
      && (forall j :: 0 <= j < nTan ==>
            |cols.tangents[j]| == if |m.verts[0].tg| > 0 && j < nTex then 4 * |m.verts| else 0)
  {
    ColumnLength(m.verts, PositionCh, 3);
    ColumnLength(m.verts, NormalCh, 3);
    ColumnLength(m.verts, ColorCh, |m.verts[0].c|);
    forall j | 0 <= j < nTex ensures |Column(m.verts, TexcoordCh(j))| == 2 * |m.verts| {
      ColumnLength(m.verts, TexcoordCh(j), 2);
    }
    forall j | 0 <= j < nTan
      ensures |Column(m.verts, TangentCh(j))| == if |m.verts[0].tg| > 0 && j < nTex then 4 * |m.verts| else 0
    {
      if |m.verts[0].tg| > 0 && j < nTex {
        ColumnLength(m.verts, TangentCh(j), 4);
      } else {
        ColumnLength(m.verts, TangentCh(j), 0);
      }
    }
  }

  /** Vertex-array consistency: on uniform data every array of the new mesh
      holds `step` values per vertex (3 for positions and normals, 2 per
      texcoord layer, 4 per tangent layer and for colors), so all arrays
      describe the same number of vertices. */
  lemma UniformArraysAgree(b: Built, id: string, name: string, idx: int, m: MeshData, r: Built)
    requires Uniform(m) && Place(b, id, name, idx, m) == Success(r)
    ensures |r.meshes| == |b.meshes| + 1
    ensures forall a :: a in r.meshes[|b.meshes|].vertexArrays ==> |a.values| == a.step * |m.verts|
  {
    var v0 := m.verts[0];
    var nTex := TexcoordArrays(v0);
    var ht := |v0.tg| > 0;
    var nTan := TangentCount(Rebind(b.bound, |b.meshes|, v0, nTex));
    var cols := ColumnsOf(m.verts, nTex, nTan);
    assert r.meshes[|b.meshes|].vertexArrays == VertexArrays(cols, nTex, |v0.c| > 0, ht);
    UniformColumns(m, nTex, nTan);
    var uv := UvArrays(cols, nTex, ht);
    forall a | a in r.meshes[|b.meshes|].vertexArrays ensures |a.values| == a.step * |m.verts| {
      if a in uv {
        UvArraysMembers(cols, nTex, ht, a);
      }
    }
  }

  lemma DepositNothing(ms: seq<OutMesh>, s: Slot)
    ensures Deposit(ms, s, []) == ms
  {
    if s.mesh < |ms| && s.index < |ms[s.mesh].vertexArrays| {
      var o := ms[s.mesh];
      var a := o.vertexArrays[s.index];
      assert a.(values := a.values + []) == a;
      assert o.vertexArrays[s.index := a] == o.vertexArrays;
      assert ms[s.mesh := o] == ms;
    }
  }

  lemma {:induction false} DepositLayersNothing(ms: seq<OutMesh>, slots: seq<Slot>, values: seq<seq<real>>)
    requires |slots| == |values| && forall i :: 0 <= i < |values| ==> values[i] == []
    ensures DepositLayers(ms, slots, values) == ms
  {
    if |slots| > 0 {
      var n := |slots| - 1;
      DepositLayersNothing(ms, slots[..n], values[..n]);
      DepositNothing(ms, slots[n]);
    }
  }

  /** On uniform data a material sends nothing to an earlier mesh: the
      meshes built before it are left exactly as they were. */
  lemma UniformKeepsEarlierMeshes(b: Built, id: string, name: string, idx: int, m: MeshData, r: Built)
    requires Uniform(m) && Place(b, id, name, idx, m) == Success(r)
    ensures |r.meshes| == |b.meshes| + 1
    ensures r.meshes[..|b.meshes|] == b.meshes
  {
    var v0 := m.verts[0];
    var nTex := TexcoordArrays(v0);
    var hc, ht := |v0.c| > 0, |v0.tg| > 0;
    var nTan := TangentCount(Rebind(b.bound, |b.meshes|, v0, nTex));
    var cols := ColumnsOf(m.verts, nTex, nTan);
    UniformColumns(m, nTex, nTan);
    var withColors := if !hc && b.bound.colors.Some? then Deposit(b.meshes, b.bound.colors.value, cols.colors) else b.meshes;
    if !hc && b.bound.colors.Some? {
      DepositNothing(b.meshes, b.bound.colors.value);
    }
    if !ht && b.bound.tangents.Some? {
      DepositLayersNothing(withColors, b.bound.tangents.value, cols.tangents);
    }
    assert Carry(b.meshes, b.bound, hc, ht, cols) == b.meshes;
    assert r.meshes == b.meshes + [r.meshes[|b.meshes|]];
  }

  /** Every array of `o` holds `step` values per vertex of `m`. */
  predicate MeshAgrees(o: OutMesh, m: MeshData)
  {
    forall a :: a in o.vertexArrays ==> |a.values| == a.step * |m.verts|
  }

  /** One uniform turn: earlier meshes unchanged and the new one agreeing. */
  lemma UniformPlaceAgrees(b: Built, id: string, name: string, idx: int, m: MeshData, r: Built)
    requires Uniform(m) && Place(b, id, name, idx, m) == Success(r)
    ensures |r.meshes| == |b.meshes| + 1
    ensures forall k :: 0 <= k < |b.meshes| ==> r.meshes[k] == b.meshes[k]
    ensures MeshAgrees(r.meshes[|b.meshes|], m)
  {
    UniformKeepsEarlierMeshes(b, id, name, idx, m, r);
    UniformArraysAgree(b, id, name, idx, m, r);
    forall k | 0 <= k < |b.meshes| ensures r.meshes[k] == b.meshes[k] {
      assert r.meshes[..|b.meshes|][k] == r.meshes[k];
    }
  }

  /** When every material's vertex data is uniform, every array of every
      mesh a run builds holds `step` values per vertex of its own material. */
  lemma {:induction false} UniformRunArraysAgree(srcId: string, dataName: string, order: seq<int>, extract: int -> MeshData, b: Built)
    requires AssembleAll(srcId, dataName, order, extract) == Success(b)
    requires forall i :: 0 <= i < |order| ==> Uniform(extract(order[i]))
    ensures |b.meshes| == |order|
    ensures forall k :: 0 <= k < |b.meshes| ==> MeshAgrees(b.meshes[k], extract(order[k]))
  {
    if |order| > 0 {
      var n := |order| - 1;
      var idx := order[n];
      var p := AssembleAllLast(srcId, dataName, order, extract, b);
      forall i | 0 <= i < n ensures Uniform(extract(order[..n][i])) {
        assert order[..n][i] == order[i];
      }
      UniformRunArraysAgree(srcId, dataName, order[..n], extract, p);
      UniformPlaceAgrees(p, srcId + "_" + Str(idx), dataName + "_" + Str(idx), idx, extract(idx), b);
      AgreesSnoc(p.meshes, b.meshes, order, extract);
    }
  }

  /** A successful run is a successful run of all but the last material
      followed by one turn for the last. */
  lemma AssembleAllLast(srcId: string, dataName: string, order: seq<int>, extract: int -> MeshData, b: Built)
    returns (p: Built)
    requires |order| > 0 && AssembleAll(srcId, dataName, order, extract) == Success(b)
    ensures AssembleAll(srcId, dataName, order[..|order| - 1], extract) == Success(p)
    ensures var idx := order[|order| - 1];
      Place(p, srcId + "_" + Str(idx), dataName + "_" + Str(idx), idx, extract(idx)) == Success(b)
  {
    p := AssembleAll(srcId, dataName, order[..|order| - 1], extract).value;
  }

  /** The run's meshes agree with their materials once the earlier meshes did
      and were kept, and the new mesh agrees with the last material. */
  lemma AgreesSnoc(ps: seq<OutMesh>, bs: seq<OutMesh>, order: seq<int>, extract: int -> MeshData)
    requires |order| > 0 && |ps| == |order| - 1 && |bs| == |order|
    requires forall k :: 0 <= k < |ps| ==> MeshAgrees(ps[k], extract(order[..|ps|][k]))
    requires forall k :: 0 <= k < |ps| ==> bs[k] == ps[k]
    requires MeshAgrees(bs[|ps|], extract(order[|ps|]))
    ensures forall k :: 0 <= k < |bs| ==> MeshAgrees(bs[k], extract(order[k]))
  {
    forall k | 0 <= k < |bs| ensures MeshAgrees(bs[k], extract(order[k])) {
      if k < |ps| {
        assert order[..|ps|][k] == order[k];
        assert bs[k] == ps[k];
      }
    }
  }

  /** For a geometry whose per-material data is uniform, every array of every
      output mesh holds `step` values per vertex of its material. */
  lemma UniformMeshesAgree(g: Geometry, ms: seq<OutMesh>)
    requires MeshesOf(g) == Success(ms)
    requires forall i :: 0 <= i < |g.faces| ==> Uniform(g.extract(g.faces[i]))
    ensures forall k :: 0 <= k < |ms| ==> MeshAgrees(ms[k], g.extract(ms[k].materialIndex))
  {
    var order := Dedup(g.faces);
    var b := AssembleAll(KeyOf(g.evaluated), g.dataName, order, g.extract).value;
    assert b.meshes == ms;
    forall i | 0 <= i < |order| ensures Uniform(g.extract(order[i])) {
      var f :| 0 <= f < |g.faces| && g.faces[f] == order[i];
    }
    UniformRunArraysAgree(KeyOf(g.evaluated), g.dataName, order, g.extract, b);
    AssembleAllFollowsOrder(g.evaluated, g.dataName, order, g.extract, b);
    forall k | 0 <= k < |ms| ensures MeshAgrees(ms[k], g.extract(ms[k].materialIndex)) {
      assert ms[k].materialIndex == order[k];
    }
  }

  /** Does slot `s` name an existing array? */
  predicate Exists(ms: seq<OutMesh>, s: Slot)
  {
    s.mesh < |ms| && s.index < |ms[s.mesh].vertexArrays|
  }

  /** Does slot `s` name an existing array tagged `at`? */
  predicate Names(ms: seq<OutMesh>, s: Slot, at: Attrib)
  {
    Exists(ms, s) && ms[s.mesh].vertexArrays[s.index].attrib == at
  }

  /** The values of the array slot `s` names (none if it names nothing). */
  function ValuesAt(ms: seq<OutMesh>, s: Slot): seq<real>
  {
    if Exists(ms, s) then ms[s.mesh].vertexArrays[s.index].values else []
  }

  lemma SlotKept(ms: seq<OutMesh>, ms': seq<OutMesh>, s: Slot)
    requires SameFrames(ms, ms') && Exists(ms, s)
    ensures Exists(ms', s)
    ensures ms'[s.mesh].vertexArrays[s.index].attrib == ms[s.mesh].vertexArrays[s.index].attrib
  {
    assert Frame(ms'[s.mesh]) == Frame(ms[s.mesh]);
    assert Frame(ms'[s.mesh]).vertexArrays[s.index] == Frame(ms[s.mesh]).vertexArrays[s.index];
  }

  lemma DepositAt(ms: seq<OutMesh>, t: Slot, values: seq<real>, s: Slot)
    ensures ValuesAt(Deposit(ms, t, values), s) == if t == s && Exists(ms, s) then ValuesAt(ms, s) + values else ValuesAt(ms, s)
  {
  }

  lemma {:induction false} DepositLayersElsewhere(ms: seq<OutMesh>, slots: seq<Slot>, values: seq<seq<real>>, s: Slot)
    requires |slots| == |values|
    requires forall i :: 0 <= i < |slots| ==> slots[i] != s
    ensures ValuesAt(DepositLayers(ms, slots, values), s) == ValuesAt(ms, s)
  {
    if |slots| > 0 {
      var n := |slots| - 1;
      DepositLayersElsewhere(ms, slots[..n], values[..n], s);
      DepositAt(DepositLayers(ms, slots[..n], values[..n]), slots[n], values[n], s);
    }
  }

  lemma {:induction false} DepositLayersAt(ms: seq<OutMesh>, slots: seq<Slot>, values: seq<seq<real>>, i: nat)
    requires |slots| == |values| && i < |slots| && Exists(ms, slots[i])
    requires forall j :: 0 <= j < |slots| && j != i ==> slots[j] != slots[i]
    ensures ValuesAt(DepositLayers(ms, slots, values), slots[i]) == ValuesAt(ms, slots[i]) + values[i]
  {
    var n := |slots| - 1;
    var prev := DepositLayers(ms, slots[..n], values[..n]);
    assert forall j :: 0 <= j < n ==> slots[..n][j] == slots[j];
    if i < n {
      assert slots[..n][i] == slots[i] && values[..n][i] == values[i];
      DepositLayersAt(ms, slots[..n], values[..n], i);
      DepositAt(prev, slots[n], values[n], slots[i]);
    } else {
      DepositLayersElsewhere(ms, slots[..n], values[..n], slots[i]);
      SlotKept(ms, prev, slots[i]);
      DepositAt(prev, slots[n], values[n], slots[i]);
    }
  }

  /** Every binding names an existing array of the right kind: `colors` a
      color array, entry i of `tangents` the tangent array of layer i. */
  predicate BoundToArrays(b: Built)
  {
    && (b.bound.colors.Some? ==> Names(b.meshes, b.bound.colors.value, Color))
    && (b.bound.tangents.Some? ==>
          forall i :: 0 <= i < |b.bound.tangents.value| ==> Names(b.meshes, b.bound.tangents.value[i], Tangent(i)))
  }

  lemma {:induction false} UvArraysLength(cols: Columns, n: nat, hasTangents: bool)
    requires n <= |cols.texcoords| && (hasTangents ==> n <= |cols.tangents|)
    ensures |UvArrays(cols, n, hasTangents)| == if hasTangents then 2 * n else n
  {
    if n > 0 {
      UvArraysLength(cols, n - 1, hasTangents);
    }
  }

  lemma {:induction false} UvArraysAt(cols: Columns, n: nat, i: nat)
    requires n <= |cols.texcoords| && n <= |cols.tangents| && i < n
    ensures |UvArrays(cols, n, true)| == 2 * n
    ensures UvArrays(cols, n, true)[2 * i + 1] == FloatArray(Tangent(i), 4, cols.tangents[i])
  {
    UvArraysLength(cols, n, true);
    UvArraysLength(cols, n - 1, true);
    if i < n - 1 {
      UvArraysAt(cols, n - 1, i);
    }
  }

  /** What a successful turn builds: the earlier meshes after `Carry`, then
      the new mesh laid out from its first vertex, with the bindings rebound. */
  lemma PlaceParts(b: Built, id: string, name: string, idx: int, m: MeshData, r: Built)
    requires Place(b, id, name, idx, m) == Success(r)
    ensures |m.verts| > 0 && TexcoordArrays(m.verts[0]) <= TexcoordIds
    ensures r.bound == Rebind(b.bound, |b.meshes|, m.verts[0], TexcoordArrays(m.verts[0]))
    ensures var v0 := m.verts[0];
      var nTex := TexcoordArrays(v0);
      var cols := ColumnsOf(m.verts, nTex, TangentCount(r.bound));
      r.meshes == Carry(b.meshes, b.bound, |v0.c| > 0, |v0.tg| > 0, cols)
                  + [OutMesh(id, name, idx, VertexArrays(cols, nTex, |v0.c| > 0, |v0.tg| > 0),
                             3, m.indexes, if m.hasSkin then Some(m.skin) else None)]
  {
  }

  /** Appending a mesh laid out from `v0` after `Carry` keeps `colors` naming
      a color array: the new mesh's own when `v0` has a color, else the same
      array of an earlier mesh as before. */
  lemma CarryBindsColors(ms: seq<OutMesh>, b: Bindings, v0: Vertex, nTex: nat, cols: Columns, mesh: OutMesh)
    requires BoundToArrays(Built(ms, b))
    requires |cols.texcoords| == nTex && |cols.tangents| == TangentCount(Rebind(b, |ms|, v0, nTex))
    requires mesh.vertexArrays == VertexArrays(cols, nTex, |v0.c| > 0, |v0.tg| > 0)
    ensures var r := Rebind(b, |ms|, v0, nTex);
      r.colors.Some? ==> Names(Carry(ms, b, |v0.c| > 0, |v0.tg| > 0, cols) + [mesh], r.colors.value, Color)
  {
    var hc, ht := |v0.c| > 0, |v0.tg| > 0;
    var earlier := Carry(ms, b, hc, ht, cols);
    var out := earlier + [mesh];
    if hc {
      UvArraysLength(cols, nTex, ht);
      assert Names(out, Slot(|ms|, ColorSlot(nTex, ht)), Color);
    } else if b.colors.Some? {
      SlotKept(ms, earlier, b.colors.value);
      assert Names(out, b.colors.value, Color);
    }
  }

  /** Likewise entry i of `tangents` keeps naming a tangent array of layer i. */
  lemma CarryBindsTangents(ms: seq<OutMesh>, b: Bindings, v0: Vertex, nTex: nat, cols: Columns, mesh: OutMesh)
    requires BoundToArrays(Built(ms, b))
    requires |cols.texcoords| == nTex && |cols.tangents| == TangentCount(Rebind(b, |ms|, v0, nTex))
    requires mesh.vertexArrays == VertexArrays(cols, nTex, |v0.c| > 0, |v0.tg| > 0)
    ensures var r := Rebind(b, |ms|, v0, nTex);
      r.tangents.Some? ==> forall i :: 0 <= i < |r.tangents.value| ==>
        Names(Carry(ms, b, |v0.c| > 0, |v0.tg| > 0, cols) + [mesh], r.tangents.value[i], Tangent(i))
  {
    var hc, ht := |v0.c| > 0, |v0.tg| > 0;
    var earlier := Carry(ms, b, hc, ht, cols);
    if ht {
      forall i | 0 <= i < nTex ensures Names(earlier + [mesh], Slot(|ms|, 3 + 2 * i), Tangent(i)) {
        NewMeshNamesTangent(earlier, mesh, cols, nTex, hc, i);
      }
    } else if b.tangents.Some? {
      var ts := b.tangents.value;
      forall i | 0 <= i < |ts| ensures Names(earlier + [mesh], ts[i], Tangent(i)) {
        KeptAfterAppend(ms, earlier, mesh, ts[i], Tangent(i));
      }
    }
  }

  /** The new mesh's tangent array of layer i sits at index 3 + 2i. */
  lemma NewMeshNamesTangent(earlier: seq<OutMesh>, mesh: OutMesh, cols: Columns, nTex: nat, hasColors: bool, i: nat)
    requires nTex <= |cols.texcoords| && nTex <= |cols.tangents| && i < nTex
    requires mesh.vertexArrays == VertexArrays(cols, nTex, hasColors, true)
    ensures Names(earlier + [mesh], Slot(|earlier|, 3 + 2 * i), Tangent(i))
  {
    UvArraysAt(cols, nTex, i);
    assert (earlier + [mesh])[|earlier|] == mesh;
    assert mesh.vertexArrays[3 + 2 * i] == UvArrays(cols, nTex, true)[2 * i + 1];
  }

  /** An array an earlier mesh holds is still there, of the same kind, once
      the earlier meshes have been extended and a mesh appended. */
  lemma KeptAfterAppend(ms: seq<OutMesh>, earlier: seq<OutMesh>, mesh: OutMesh, s: Slot, at: Attrib)
    requires SameFrames(ms, earlier) && Names(ms, s, at)
    ensures Names(earlier + [mesh], s, at)
  {
    SlotKept(ms, earlier, s);
    assert (earlier + [mesh])[s.mesh] == earlier[s.mesh];
  }

  /** One turn of the loop keeps every binding naming an array of its kind. */
  lemma PlaceBindsArrays(b: Built, id: string, name: string, idx: int, m: MeshData, r: Built)
    requires BoundToArrays(b) && Place(b, id, name, idx, m) == Success(r)
    ensures BoundToArrays(r)
  {
    PlaceParts(b, id, name, idx, m, r);
    var v0 := m.verts[0];
    var nTex := TexcoordArrays(v0);
    var cols := ColumnsOf(m.verts, nTex, TangentCount(r.bound));
    CarryBindsColors(b.meshes, b.bound, v0, nTex, cols, r.meshes[|b.meshes|]);
    CarryBindsTangents(b.meshes, b.bound, v0, nTex, cols, r.meshes[|b.meshes|]);
    assert r.meshes == Carry(b.meshes, b.bound, |v0.c| > 0, |v0.tg| > 0, cols) + [r.meshes[|b.meshes|]];
  }

  /** Whatever a run leaves bound names an existing array of the right kind,
      so a later material's stale `extend` lands on an earlier mesh's color
      array, or on its tangent array of the same layer. */
  lemma {:induction false} BindingsNameArrays(srcId: string, dataName: string, order: seq<int>, extract: int -> MeshData, b: Built)
    requires AssembleAll(srcId, dataName, order, extract) == Success(b)
    ensures BoundToArrays(b)
  {
    if |order| > 0 {
      var n := |order| - 1;
      var idx := order[n];
      var p := AssembleAllLast(srcId, dataName, order, extract, b);
      BindingsNameArrays(srcId, dataName, order[..n], extract, p);
      PlaceBindsArrays(p, srcId + "_" + Str(idx), dataName + "_" + Str(idx), idx, extract(idx), b);
    }
  }

  /** A material whose first vertex has no color still sends its vertices'
      colors to the array `colors` names, an earlier mesh's color array
      (604-605); its own mesh gets no color array. */
  lemma StaleColorsExtendEarlierMesh(b: Built, id: string, name: string, idx: int, m: MeshData, r: Built)
    requires BoundToArrays(b) && Place(b, id, name, idx, m) == Success(r)
    requires |m.verts| > 0 && |m.verts[0].c| == 0 && b.bound.colors.Some?
    ensures |r.meshes| == |b.meshes| + 1 && r.bound.colors == b.bound.colors
    ensures var s := b.bound.colors.value;
      && Names(b.meshes, s, Color) && Names(r.meshes, s, Color)
      && ValuesAt(r.meshes, s) == ValuesAt(b.meshes, s) + Column(m.verts, ColorCh)
    ensures forall a :: a in r.meshes[|b.meshes|].vertexArrays ==> a.attrib != Color
  {
    var v0 := m.verts[0];
    var nTex := TexcoordArrays(v0);
    var ht := |v0.tg| > 0;
    var bound := Rebind(b.bound, |b.meshes|, v0, nTex);
    var cols := ColumnsOf(m.verts, nTex, TangentCount(bound));
    var s := b.bound.colors.value;
    var withColors := Deposit(b.meshes, s, cols.colors);
    DepositAt(b.meshes, s, cols.colors, s);
    var earlier := Carry(b.meshes, b.bound, false, ht, cols);
    if !ht && b.bound.tangents.Some? {
      var ts := b.bound.tangents.value;
      forall i | 0 <= i < |ts| ensures ts[i] != s {
        assert Names(b.meshes, ts[i], Tangent(i));
      }
      DepositLayersElsewhere(withColors, ts, cols.tangents, s);
    }
    assert ValuesAt(earlier, s) == ValuesAt(b.meshes, s) + cols.colors;
    SlotKept(b.meshes, earlier, s);
    var mesh := r.meshes[|b.meshes|];
    assert r.meshes == earlier + [mesh];
    assert ValuesAt(r.meshes, s) == ValuesAt(earlier, s);
    assert mesh.vertexArrays == VertexArrays(cols, nTex, false, ht);
    forall a | a in mesh.vertexArrays ensures a.attrib != Color {
      if a in UvArrays(cols, nTex, ht) {
        UvArraysMembers(cols, nTex, ht, a);
      }
    }
  }

  /** Likewise for tangents (608-610): a material whose first vertex has no
      tangents sends its vertices' tangent of layer i to the i-th array of
      the `tangents` list an earlier material left bound. */
  lemma StaleTangentsExtendEarlierMesh(b: Built, id: string, name: string, idx: int, m: MeshData, r: Built, i: nat)
    requires BoundToArrays(b) && Place(b, id, name, idx, m) == Success(r)
    requires |m.verts| > 0 && |m.verts[0].tg| == 0 && b.bound.tangents.Some? && i < |b.bound.tangents.value|
    ensures |r.meshes| == |b.meshes| + 1 && r.bound.tangents == b.bound.tangents
    ensures var s := b.bound.tangents.value[i];
      && Names(b.meshes, s, Tangent(i)) && Names(r.meshes, s, Tangent(i))
      && ValuesAt(r.meshes, s) == ValuesAt(b.meshes, s) + Column(m.verts, TangentCh(i))
  {
    var v0 := m.verts[0];
    var nTex := TexcoordArrays(v0);
    var hc := |v0.c| > 0;
    var bound := Rebind(b.bound, |b.meshes|, v0, nTex);
    var cols := ColumnsOf(m.verts, nTex, TangentCount(bound));
    var ts := b.bound.tangents.value;
    var s := ts[i];
    var withColors := if !hc && b.bound.colors.Some? then Deposit(b.meshes, b.bound.colors.value, cols.colors) else b.meshes;
    if !hc && b.bound.colors.Some? {
      DepositAt(b.meshes, b.bound.colors.value, cols.colors, s);
    }
    assert ValuesAt(withColors, s) == ValuesAt(b.meshes, s);
    forall j | 0 <= j < |ts| ensures Names(withColors, ts[j], Tangent(j)) {
      SlotKept(b.meshes, withColors, ts[j]);
    }
    DepositLayersAt(withColors, ts, cols.tangents, i);
    var earlier := Carry(b.meshes, b.bound, hc, false, cols);
    SlotKept(b.meshes, earlier, s);
    var mesh := r.meshes[|b.meshes|];
    assert r.meshes == earlier + [mesh];
    assert ValuesAt(r.meshes, s) == ValuesAt(earlier, s);
  }
}
