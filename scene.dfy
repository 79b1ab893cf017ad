/** The part of a Blender scene the exporters read, as plain values. */
module Scene {
  import opened Wrappers
  import opened Registry
  import opened Meshes

  /** `obj.type`, for the types the modelled exporters dispatch on. */
  datatype Kind = MeshObject | Lamp | Speaker | Armature | OtherKind

  /** A custom property value, by the Python type `export_obj_customproperties`
      dispatches on; `Unsupported` is any other type (the param then only
      gets its name). */
  datatype PropValue =
    | BoolValue(b: bool)
    | StringValue(s: string)
    | FloatValue(f: real)
    | IntValue(i: int)
    | VectorValue(x: real, y: real, z: real)
    | QuaternionValue(w: real, qx: real, qy: real, qz: real)
    | Unsupported

  /** One custom property: its key and its value. */
  datatype Prop = Prop(key: string, value: PropValue)

  /** One NLA track: its name and the action of each strip, if any. */
  datatype Track = Track(name: string, strips: seq<Option<Entity>>)

  /** One entry of `scene.objects`: the object, its data block (`obj.data`;
      for a speaker its `sound` is listed apart, `None` when the speaker has
      no sound), and the attributes the exporters read. `animation` is
      `None` when the object has no animation data. */
  datatype SceneObject = SceneObject(
    obj: Entity,
    kind: Kind,
    hideRender: bool,
    selected: bool,
    parent: Option<Entity>,
    data: Entity,
    props: seq<Prop>,
    materialSlots: seq<Entity>,
    polygonCount: nat,
    geometry: Geometry,
    sound: Option<Entity>,
    animation: Option<seq<Track>>)

  /** The guard at the top of most exporter loops: hidden from rendering, or
      not selected while exporting the selection only. */
  predicate Skipped(o: SceneObject, exportSelection: bool)
  {
    o.hideRender || (exportSelection && !o.selected)
  }

  predicate StartsWith(s: string, prefix: string)
  {
    |prefix| <= |s| && s[..|prefix|] == prefix
  }

  /** Keys Blender and its add-ons reserve: never exported. */
  predicate Reserved(key: string)
  {
    StartsWith(key, "_") || StartsWith(key, "cycles")
  }

  /** The property filter of `export_obj_customproperties`: the properties
      whose key is not reserved, in their original order. */
  function KeptProps(props: seq<Prop>): (kept: seq<Prop>)
    ensures |kept| <= |props|
    ensures forall i :: 0 <= i < |kept| ==> !Reserved(kept[i].key)
  {
    if props == [] then []
    else
      var n := |props| - 1;
      KeptProps(props[..n]) + (if Reserved(props[n].key) then [] else [props[n]])
  }

  /** A property is kept exactly when it is in the list and its key is not
      reserved. */
  lemma {:induction false} KeptPropsMembers(props: seq<Prop>, p: Prop)
    ensures p in KeptProps(props) <==> p in props && !Reserved(p.key)
  {
    if props != [] {
      var n := |props| - 1;
      KeptPropsMembers(props[..n], p);
      assert props == props[..n] + [props[n]];
    }
  }

  /** Keeping is a filter: a property list keeps its order. */
  lemma {:induction false} KeptPropsIdempotent(props: seq<Prop>)
    ensures KeptProps(KeptProps(props)) == KeptProps(props)
  {
    if props != [] {
      var n := |props| - 1;
      KeptPropsIdempotent(props[..n]);
      var k := KeptProps(props[..n]);
      if !Reserved(props[n].key) {
        var kk := k + [props[n]];
        assert kk[..|kk| - 1] == k;
        assert KeptProps(props) == kk;
        assert KeptProps(kk) == KeptProps(kk[..|kk| - 1]) + [props[n]];
      } else {
        assert k + [] == k;
        assert KeptProps(props) == k;
      }
    }
  }
}
