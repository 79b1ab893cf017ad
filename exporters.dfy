/** The per-kind exporter loops of `export` and the relations they emit.
    Every loop walks `scene.objects` in order, asks `need_update` whether an
    entity still has to be written, and appends relation pairs through
    `add_relation_raw`. */
module Exporters {
  import opened Wrappers
  import opened Seqs
  import opened Registry
  import opened Meshes
  import opened Scene
  import opened Document

  /** The registry side of an exporter loop: the dirty flags, and the
      entities emitted so far into the loop's collection. */
  datatype Queried = Queried(modified: map<string, bool>, items: seq<Entity>)

  /** Reference definition of a run of default `need_update(e)` calls that
      each emit `e` when the answer is true. */
  function Query(start: Queried, es: seq<Entity>): Queried
  {
    if es == [] then start
    else QueryStep(Query(start, es[..|es| - 1]), es[|es| - 1])
  }

  /** One default `need_update(e)` that emits `e` when it answers true. */
  function QueryStep(prev: Queried, e: Entity): Queried
  {
    var k := KeyOf(e);
    Queried(prev.modified[k := false], if Dirty(prev.modified, k) then prev.items + [e] else prev.items)
  }

  lemma QuerySnoc(start: Queried, es: seq<Entity>, e: Entity)
    ensures Query(start, es + [e]) == QueryStep(Query(start, es), e)
  {
    assert (es + [e])[..|es|] == es;
  }

  function KeysOf(es: seq<Entity>): (ks: seq<string>)
    ensures |ks| == |es| && forall i :: 0 <= i < |es| ==> ks[i] == KeyOf(es[i])
  {
    seq(|es|, i requires 0 <= i < |es| => KeyOf(es[i]))
  }

  /** Such a run leaves the flags as the registry's query run on the keys
      leaves them, ... */
  lemma {:induction false} QueryModified(start: Queried, es: seq<Entity>)
    ensures Query(start, es).modified == AfterQueries(start.modified, KeysOf(es))
  {
    if es != [] {
      var n := |es| - 1;
      QueryModified(start, es[..n]);
      assert KeysOf(es)[..n] == KeysOf(es[..n]);
    }
  }

  /** ... and emits the entities whose query answered true, in call order. */
  lemma {:induction false} QueryItems(start: Queried, es: seq<Entity>)
    ensures KeysOf(Query(start, es).items) ==
      KeysOf(start.items) + Select(KeysOf(es), Results(start.modified, KeysOf(es)))
  {
    var keys := KeysOf(es);
    if es == [] {
      assert KeysOf(start.items) + [] == KeysOf(start.items);
    } else {
      var n := |es| - 1;
      var prev := Query(start, es[..n]);
      QueryItems(start, es[..n]);
      QueryModified(start, es[..n]);
      assert keys[..n] == KeysOf(es[..n]);
      var answers := Results(start.modified, keys);
      assert answers[..n] == Results(start.modified, keys[..n]);
      assert answers[n] == Dirty(prev.modified, keys[n]);
      var added := if answers[n] then [es[n]] else [];
      assert Query(start, es).items == prev.items + added by {
        if !answers[n] {
          assert prev.items + added == prev.items;
        }
      }
      assert KeysOf(prev.items + added) == KeysOf(prev.items) + KeysOf(added);
      assert Select(keys, answers) == Select(keys[..n], answers[..n]) + KeysOf(added);
    }
  }

  /** From a clean registry, the keys of the emitted entities are the keys
      the registry has never seen, each once, in order of first query. */
  lemma QueryFirstSeen(flags: map<string, bool>, es: seq<Entity>)
    requires Clean(flags)
    ensures KeysOf(Query(Queried(flags, []), es).items) == Dedup(Unseen(flags, KeysOf(es)))
  {
    var keys := KeysOf(es);
    QueryItems(Queried(flags, []), es);
    SelectedAreFirstSeen(flags, keys);
    assert KeysOf([]) + Select(keys, Results(flags, keys)) == Select(keys, Results(flags, keys));
  }

  /** From a clean registry an entity is emitted at most once, however often
      it is queried, and an entity the registry has never seen is always
      emitted. */
  lemma QueryOnce(flags: map<string, bool>, es: seq<Entity>)
    requires Clean(flags)
    ensures var items := Query(Queried(flags, []), es).items;
      && (forall i, j :: 0 <= i < j < |items| ==> items[i] != items[j])
      && (forall i :: 0 <= i < |es| && KeyOf(es[i]) !in flags ==> es[i] in items)
  {
    var items := Query(Queried(flags, []), es).items;
    var keys := KeysOf(es);
    var u := Unseen(flags, keys);
    QueryFirstSeen(flags, es);
    var ks := KeysOf(items);
    assert Distinct(ks);
    forall i, j | 0 <= i < j < |items| ensures items[i] != items[j] {
      assert ks[i] != ks[j];
    }
    forall i | 0 <= i < |es| && KeyOf(es[i]) !in flags ensures es[i] in items {
      assert keys[i] in u;
      var w :| 0 <= w < |u| && u[w] == keys[i];
      assert u[w] in ks;
      var j :| 0 <= j < |ks| && ks[j] == keys[i];
      KeyOfInjective(items[j], es[i]);
    }
  }

  /** What a shared-data exporter loop has produced so far: the dirty flags,
      the entities emitted into its collection and the relation list. */
  datatype Emission = Emission(modified: map<string, bool>, items: seq<Entity>, relations: seq<Relation>)

  /** One step of the shared-data pattern: a default `need_update(e)` that
      emits `e` when it answers true, then relation `rel` in every case. */
  datatype Use = Use(e: Entity, rel: Relation)

  /** One such step. */
  function ShareStep(prev: Emission, u: Use): Emission
  {
    var k := KeyOf(u.e);
    Emission(prev.modified[k := false],
             if Dirty(prev.modified, k) then prev.items + [u.e] else prev.items,
             prev.relations + [u.rel])
  }

  /** Reference definition of a run of such steps. */
  function Share(start: Emission, uses: seq<Use>): Emission
  {
    if uses == [] then start
    else ShareStep(Share(start, uses[..|uses| - 1]), uses[|uses| - 1])
  }

  lemma ShareSnoc(start: Emission, uses: seq<Use>, u: Use)
    ensures Share(start, uses + [u]) == ShareStep(Share(start, uses), u)
  {
    assert (uses + [u])[..|uses|] == uses;
  }

  /** Running two batches of steps is running their concatenation. */
  lemma {:induction false} ShareAppend(start: Emission, a: seq<Use>, b: seq<Use>)
    ensures Share(start, a + b) == Share(Share(start, a), b)
  {
    if b == [] {
      assert a + b == a;
    } else {
      var n := |b| - 1;
      ShareAppend(start, a, b[..n]);
      assert a + b == (a + b[..n]) + [b[n]];
      calc {
        Share(start, a + b);
        Share(start, (a + b[..n]) + [b[n]]);
        { ShareSnoc(start, a + b[..n], b[n]); }
        ShareStep(Share(start, a + b[..n]), b[n]);
        ShareStep(Share(Share(start, a), b[..n]), b[n]);
        { ShareSnoc(Share(start, a), b[..n], b[n]); }
        Share(Share(start, a), b[..n] + [b[n]]);
        { assert b[..n] + [b[n]] == b; }
        Share(Share(start, a), b);
      }
    }
  }

  function UseEntities(uses: seq<Use>): (es: seq<Entity>)
    ensures |es| == |uses| && forall i :: 0 <= i < |uses| ==> es[i] == uses[i].e
  {
    seq(|uses|, i requires 0 <= i < |uses| => uses[i].e)
  }

  function UseRelations(uses: seq<Use>): (rs: seq<Relation>)
    ensures |rs| == |uses| && forall i :: 0 <= i < |uses| ==> rs[i] == uses[i].rel
  {
    seq(|uses|, i requires 0 <= i < |uses| => uses[i].rel)
  }

  /** The shared-data pattern is a query run over the used entities that
      adds one relation per step, whatever the query answers. */
  lemma {:induction false} ShareIsQuery(start: Emission, uses: seq<Use>)
    ensures Queried(Share(start, uses).modified, Share(start, uses).items) ==
      Query(Queried(start.modified, start.items), UseEntities(uses))
    ensures Share(start, uses).relations == start.relations + UseRelations(uses)
  {
    if uses == [] {
      assert start.relations + [] == start.relations;
    } else {
      var n := |uses| - 1;
      var prev := Share(start, uses[..n]);
      ShareIsQuery(start, uses[..n]);
      assert UseEntities(uses) == UseEntities(uses[..n]) + [uses[n].e];
      QuerySnoc(Queried(start.modified, start.items), UseEntities(uses[..n]), uses[n].e);
      assert Share(start, uses) == ShareStep(prev, uses[n]);
      ShareStepIsQueryStep(prev, uses[n]);
      assert UseRelations(uses) == UseRelations(uses[..n]) + [uses[n].rel];
    }
  }

  lemma ShareStepIsQueryStep(prev: Emission, u: Use)
    ensures var next := ShareStep(prev, u);
      Queried(next.modified, next.items) == QueryStep(Queried(prev.modified, prev.items), u.e)
      && next.relations == prev.relations + [u.rel]
  {
  }

  /** From a clean registry a shared-data loop writes each entity at most
      once, writes every entity the registry had not seen, and still emits
      the relation of every step, in order. */
  lemma ShareOnce(flags: map<string, bool>, uses: seq<Use>)
    requires Clean(flags)
    ensures var s := Share(Emission(flags, [], []), uses);
      && (forall i, j :: 0 <= i < j < |s.items| ==> s.items[i] != s.items[j])
      && (forall u :: u in uses && KeyOf(u.e) !in flags ==> u.e in s.items)
      && s.relations == UseRelations(uses)
      && forall u :: u in uses ==> u.rel in s.relations
  {
    var s := Share(Emission(flags, [], []), uses);
    ShareIsQuery(Emission(flags, [], []), uses);
    var es := UseEntities(uses);
    assert s.items == Query(Queried(flags, []), es).items;
    QueryOnce(flags, es);
    forall u | u in uses && KeyOf(u.e) !in flags ensures u.e in s.items {
      var j :| 0 <= j < |uses| && uses[j] == u;
      assert es[j] == u.e;
    }
    var rs := UseRelations(uses);
    assert s.relations == rs;
    forall u | u in uses ensures u.rel in rs {
      var j :| 0 <= j < |uses| && uses[j] == u;
      assert rs[j] == u.rel;
    }
  }

  // ---------------------------------------------------------------- lights

  /** The steps of `export_all_lights`: every rendered lamp queries its light
      datum and relates it to the lamp object. */
  function LampUses(scene: seq<SceneObject>, exportSelection: bool): seq<Use>
  {
    if scene == [] then []
    else
      var n := |scene| - 1;
      var o := scene[n];
      var prev := LampUses(scene[..n], exportSelection);
      if Skipped(o, exportSelection) || o.kind != Lamp then prev
      else prev + [Use(o.data, Relation(KeyOf(o.data), KeyOf(o.obj)))]
  }

  /** `export_all_lights` (493-502); what `export_light` writes into the new
      entry is not modelled. */
  method ExportAllLights(scene: seq<SceneObject>, data: Data, cfg: ExportCfg)
    requires cfg.Valid()
    modifies data`lights, data`relations, cfg`ids, cfg`modified
    ensures cfg.Valid() && old(cfg.ids).Keys <= cfg.ids.Keys
    ensures Emission(cfg.modified, data.lights, data.relations) ==
      Share(Emission(old(cfg.modified), old(data.lights), old(data.relations)), LampUses(scene, cfg.exportSelection))
  {
    ghost var start := Emission(cfg.modified, data.lights, data.relations);
    for k := 0 to |scene|
      invariant cfg.Valid() && old(cfg.ids).Keys <= cfg.ids.Keys
      invariant Emission(cfg.modified, data.lights, data.relations) ==
        Share(start, LampUses(scene[..k], cfg.exportSelection))
    {
      var o := scene[k];
      assert scene[..k + 1][..k] == scene[..k];
      if o.hideRender || (cfg.exportSelection && !o.selected) {
        continue;
      }
      if o.kind == Lamp {
        ShareSnoc(start, LampUses(scene[..k], cfg.exportSelection), Use(o.data, Relation(KeyOf(o.data), KeyOf(o.obj))));
        var dirty := cfg.NeedUpdate(o.data);
        if dirty {
          data.lights := data.lights + [o.data];
        }
        var ref1 := cfg.IdOf(o.data);
        var ref2 := cfg.IdOf(o.obj);
        data.AddRelationRaw(ref1, ref2);
      }
    }
    assert scene[..|scene|] == scene;
  }

  /** Lamps sharing one light datum: from a clean registry the datum is
      written exactly once if the registry had not seen it, and every
      rendered lamp is related to it. */
  lemma LightsSharedOnce(flags: map<string, bool>, scene: seq<SceneObject>, exportSelection: bool)
    requires Clean(flags)
    ensures var s := Share(Emission(flags, [], []), LampUses(scene, exportSelection));
      && (forall i, j :: 0 <= i < j < |s.items| ==> s.items[i] != s.items[j])
      && (forall i :: (0 <= i < |scene| && !Skipped(scene[i], exportSelection) && scene[i].kind == Lamp &&
                      KeyOf(scene[i].data) !in flags) ==> scene[i].data in s.items)
      && |s.relations| == |LampUses(scene, exportSelection)|
      && forall i :: 0 <= i < |scene| && !Skipped(scene[i], exportSelection) && scene[i].kind == Lamp ==>
           Relation(KeyOf(scene[i].data), KeyOf(scene[i].obj)) in s.relations
  {
    var uses := LampUses(scene, exportSelection);
    ShareOnce(flags, uses);
    forall i | 0 <= i < |scene| && !Skipped(scene[i], exportSelection) && scene[i].kind == Lamp
      ensures Use(scene[i].data, Relation(KeyOf(scene[i].data), KeyOf(scene[i].obj))) in uses
    {
      LampUsesCover(scene, exportSelection, i);
    }
  }

  lemma {:induction false} LampUsesCover(scene: seq<SceneObject>, exportSelection: bool, i: nat)
    requires i < |scene| && !Skipped(scene[i], exportSelection) && scene[i].kind == Lamp
    ensures Use(scene[i].data, Relation(KeyOf(scene[i].data), KeyOf(scene[i].obj))) in LampUses(scene, exportSelection)
  {
    var n := |scene| - 1;
    if i < n {
      assert scene[..n][i] == scene[i];
      LampUsesCover(scene[..n], exportSelection, i);
    }
  }

  // ------------------------------------------------------------- skeletons

  /** The steps of `export_all_skeletons`: every armature object, rendered
      or not, queries its armature datum and relates the object to it. */
  function ArmatureUses(scene: seq<SceneObject>): seq<Use>
  {
    if scene == [] then []
    else
      var n := |scene| - 1;
      var o := scene[n];
      var prev := ArmatureUses(scene[..n]);
      if o.kind != Armature then prev
      else prev + [Use(o.data, Relation(KeyOf(o.obj), KeyOf(o.data)))]
  }

  /** `export_all_skeletons` (999-1008); the bones `export_skeleton` writes
      are not modelled. */
  method ExportAllSkeletons(scene: seq<SceneObject>, data: Data, cfg: ExportCfg)
    requires cfg.Valid()
    modifies data`skeletons, data`relations, cfg`ids, cfg`modified
    ensures cfg.Valid() && old(cfg.ids).Keys <= cfg.ids.Keys
    ensures Emission(cfg.modified, data.skeletons, data.relations) ==
      Share(Emission(old(cfg.modified), old(data.skeletons), old(data.relations)), ArmatureUses(scene))
  {
    ghost var start := Emission(cfg.modified, data.skeletons, data.relations);
    for k := 0 to |scene|
      invariant cfg.Valid() && old(cfg.ids).Keys <= cfg.ids.Keys
      invariant Emission(cfg.modified, data.skeletons, data.relations) == Share(start, ArmatureUses(scene[..k]))
    {
      var o := scene[k];
      assert scene[..k + 1][..k] == scene[..k];
      if o.kind == Armature {
        ShareSnoc(start, ArmatureUses(scene[..k]), Use(o.data, Relation(KeyOf(o.obj), KeyOf(o.data))));
        var dirty := cfg.NeedUpdate(o.data);
        if dirty {
          data.skeletons := data.skeletons + [o.data];
        }
        var ref1 := cfg.IdOf(o.obj);
        var ref2 := cfg.IdOf(o.data);
        data.AddRelationRaw(ref1, ref2);
      }
    }
    assert scene[..|scene|] == scene;
  }

  /** Every armature object is related to its armature datum, hidden ones
      included: the skeleton loop has no render or selection guard. */
  lemma {:induction false} ArmaturesAllRelated(scene: seq<SceneObject>, i: nat)
    requires i < |scene| && scene[i].kind == Armature
    ensures Use(scene[i].data, Relation(KeyOf(scene[i].obj), KeyOf(scene[i].data))) in ArmatureUses(scene)
  {
    var n := |scene| - 1;
    if i < n {
      assert scene[..n][i] == scene[i];
      ArmaturesAllRelated(scene[..n], i);
    }
  }

  // --------------------------------------------------------------- actions

  /** The steps for the strips of one NLA track of object `obj`: strips
      without an action are passed over. */
  function StripUses(obj: Entity, strips: seq<Option<Entity>>): seq<Use>
  {
    if strips == [] then []
    else
      var n := |strips| - 1;
      var prev := StripUses(obj, strips[..n]);
      match strips[n]
      case None => prev
      case Some(action) => prev + [Use(action, Relation(KeyOf(action), KeyOf(obj)))]
  }

  function TrackUses(obj: Entity, tracks: seq<Track>): seq<Use>
  {
    if tracks == [] then []
    else
      var n := |tracks| - 1;
      TrackUses(obj, tracks[..n]) + StripUses(obj, tracks[n].strips)
  }

  /** The steps of `export_all_actions`: every object with animation data,
      rendered or not, every track, every strip with an action. */
  function ActionUses(scene: seq<SceneObject>): seq<Use>
  {
    if scene == [] then []
    else
      var n := |scene| - 1;
      var o := scene[n];
      var prev := ActionUses(scene[..n]);
      match o.animation
      case None => prev
      case Some(tracks) => prev + TrackUses(o.obj, tracks)
  }

  /** The strip loop of one track. */
  method ExportTrackActions(obj: Entity, strips: seq<Option<Entity>>, data: Data, cfg: ExportCfg)
    requires cfg.Valid()
    modifies data`animations, data`relations, cfg`ids, cfg`modified
    ensures cfg.Valid() && old(cfg.ids).Keys <= cfg.ids.Keys
    ensures Emission(cfg.modified, data.animations, data.relations) ==
      Share(Emission(old(cfg.modified), old(data.animations), old(data.relations)), StripUses(obj, strips))
  {
    ghost var start := Emission(cfg.modified, data.animations, data.relations);
    for s := 0 to |strips|
      invariant cfg.Valid() && old(cfg.ids).Keys <= cfg.ids.Keys
      invariant Emission(cfg.modified, data.animations, data.relations) == Share(start, StripUses(obj, strips[..s]))
    {
      assert strips[..s + 1][..s] == strips[..s];
      if strips[s].None? {
        continue;
      }
      var action := strips[s].value;
      ShareSnoc(start, StripUses(obj, strips[..s]), Use(action, Relation(KeyOf(action), KeyOf(obj))));
      var dirty := cfg.NeedUpdate(action);
      if dirty {
        data.animations := data.animations + [action];
      }
      var ref1 := cfg.IdOf(action);
      var ref2 := cfg.IdOf(obj);
      data.AddRelationRaw(ref1, ref2);
    }
    assert strips[..|strips|] == strips;
  }

  /** `export_all_actions` (1042-1066); the sampling `export_obj_action` does
      for a new action is modelled by `Animation`, and the frame and
      current-action juggling around it is not modelled. */
  method ExportAllActions(scene: seq<SceneObject>, data: Data, cfg: ExportCfg)
    requires cfg.Valid()
    modifies data`animations, data`relations, cfg`ids, cfg`modified
    ensures cfg.Valid() && old(cfg.ids).Keys <= cfg.ids.Keys
    ensures Emission(cfg.modified, data.animations, data.relations) ==
      Share(Emission(old(cfg.modified), old(data.animations), old(data.relations)), ActionUses(scene))
  {
    ghost var start := Emission(cfg.modified, data.animations, data.relations);
    for k := 0 to |scene|
      invariant cfg.Valid() && old(cfg.ids).Keys <= cfg.ids.Keys
      invariant Emission(cfg.modified, data.animations, data.relations) == Share(start, ActionUses(scene[..k]))
    {
      var o := scene[k];
      assert scene[..k + 1][..k] == scene[..k];
      if o.animation.Some? {
        var tracks := o.animation.value;
        ghost var base := Share(start, ActionUses(scene[..k]));
        for t := 0 to |tracks|
          invariant cfg.Valid() && old(cfg.ids).Keys <= cfg.ids.Keys
          invariant Emission(cfg.modified, data.animations, data.relations) == Share(base, TrackUses(o.obj, tracks[..t]))
        {
          assert tracks[..t + 1][..t] == tracks[..t];
          ExportTrackActions(o.obj, tracks[t].strips, data, cfg);
          ShareAppend(base, TrackUses(o.obj, tracks[..t]), StripUses(o.obj, tracks[t].strips));
        }
        assert tracks[..|tracks|] == tracks;
        ShareAppend(start, ActionUses(scene[..k]), TrackUses(o.obj, tracks));
      }
    }
    assert scene[..|scene|] == scene;
  }

  /** Some NLA strip of object `o` holds `action`. */
  ghost predicate HasStripAction(o: SceneObject, action: Entity)
  {
    o.animation.Some? &&
    exists t, k :: 0 <= t < |o.animation.value| && 0 <= k < |o.animation.value[t].strips| &&
      o.animation.value[t].strips[k] == Some(action)
  }

  /** Actions shared by several strips or objects: from a clean registry
      each action is written at most once, every action the registry had not
      seen is written, and every strip's action is related to its object,
      hidden objects included. */
  lemma ActionsSharedOnce(flags: map<string, bool>, scene: seq<SceneObject>)
    requires Clean(flags)
    ensures var s := Share(Emission(flags, [], []), ActionUses(scene));
      && (forall i, j :: 0 <= i < j < |s.items| ==> s.items[i] != s.items[j])
      && forall i, action :: 0 <= i < |scene| && HasStripAction(scene[i], action) ==>
           && Relation(KeyOf(action), KeyOf(scene[i].obj)) in s.relations
           && (KeyOf(action) !in flags ==> action in s.items)
  {
    var uses := ActionUses(scene);
    ShareOnce(flags, uses);
    forall i, action | 0 <= i < |scene| && HasStripAction(scene[i], action)
      ensures Use(action, Relation(KeyOf(action), KeyOf(scene[i].obj))) in uses
    {
      var tracks := scene[i].animation.value;
      var t, k :| 0 <= t < |tracks| && 0 <= k < |tracks[t].strips| && tracks[t].strips[k] == Some(action);
      var u := Use(action, Relation(KeyOf(action), KeyOf(scene[i].obj)));
      StripUsesCover(scene[i].obj, tracks[t].strips, k);
      TrackUsesCover(scene[i].obj, tracks, t, u);
      ActionUsesCover(scene, i, u);
    }
  }

  lemma {:induction false} StripUsesCover(obj: Entity, strips: seq<Option<Entity>>, k: nat)
    requires k < |strips| && strips[k].Some?
    ensures Use(strips[k].value, Relation(KeyOf(strips[k].value), KeyOf(obj))) in StripUses(obj, strips)
  {
    var n := |strips| - 1;
    if k < n {
      assert strips[..n][k] == strips[k];
      StripUsesCover(obj, strips[..n], k);
    }
  }

  lemma {:induction false} TrackUsesCover(obj: Entity, tracks: seq<Track>, t: nat, u: Use)
    requires t < |tracks| && u in StripUses(obj, tracks[t].strips)
    ensures u in TrackUses(obj, tracks)
  {
    var n := |tracks| - 1;
    assert TrackUses(obj, tracks) == TrackUses(obj, tracks[..n]) + StripUses(obj, tracks[n].strips);
    if t < n {
      assert tracks[..n][t] == tracks[t];
      TrackUsesCover(obj, tracks[..n], t, u);
    }
  }

  lemma {:induction false} ActionUsesCover(scene: seq<SceneObject>, i: nat, u: Use)
    requires i < |scene| && scene[i].animation.Some? && u in TrackUses(scene[i].obj, scene[i].animation.value)
    ensures u in ActionUses(scene)
  {
    var n := |scene| - 1;
    var prev := ActionUses(scene[..n]);
    if i < n {
      assert scene[..n][i] == scene[i];
      ActionUsesCover(scene[..n], i, u);
      assert u in prev;
      assert ActionUses(scene) == prev || ActionUses(scene) == prev + TrackUses(scene[n].obj, scene[n].animation.value);
    } else {
      assert ActionUses(scene) == prev + TrackUses(scene[n].obj, scene[n].animation.value);
    }
  }

  // ------------------------------------------------------ custom properties

  /** The `custom_params` entry `export_obj_customproperties` adds for an
      object: one param per kept property, and none at all when no key
      survives the filter. */
  function CustomParamsOf(o: SceneObject): Option<CustomParams>
  {
    var kept := KeptProps(o.props);
    if kept == [] then None else Some(CustomParams(ParamsId(o.obj), kept))
  }

  /** An entry is added exactly when some key is not reserved; it is named
      after the object and holds exactly its unreserved properties. */
  lemma CustomParamsIff(o: SceneObject)
    ensures CustomParamsOf(o).Some? <==> exists i :: 0 <= i < |o.props| && !Reserved(o.props[i].key)
    ensures CustomParamsOf(o).Some? ==>
      && CustomParamsOf(o).value.id == ParamsId(o.obj)
      && forall p :: p in CustomParamsOf(o).value.params <==> p in o.props && !Reserved(p.key)
  {
    var kept := KeptProps(o.props);
    forall p ensures p in kept <==> p in o.props && !Reserved(p.key) {
      KeptPropsMembers(o.props, p);
    }
    if exists i :: 0 <= i < |o.props| && !Reserved(o.props[i].key) {
      var i :| 0 <= i < |o.props| && !Reserved(o.props[i].key);
      assert o.props[i] in kept;
    }
    if kept != [] {
      assert kept[0] in o.props;
      var i :| 0 <= i < |o.props| && o.props[i] == kept[0];
      assert !Reserved(o.props[i].key);
    }
  }

  /** `export_obj_customproperties` (1161-1184) for a node whose id is `nodeId`. */
  method ExportObjCustomProperties(o: SceneObject, nodeId: string, data: Data, cfg: ExportCfg)
    requires cfg.Valid()
    modifies data`customParams, data`relations, cfg`ids
    ensures cfg.Valid() && old(cfg.ids).Keys <= cfg.ids.Keys
    ensures CustomParamsOf(o).None? ==>
      data.customParams == old(data.customParams) && data.relations == old(data.relations)
    ensures CustomParamsOf(o).Some? ==>
      && data.customParams == old(data.customParams) + [CustomParamsOf(o).value]
      && data.relations == old(data.relations) + [Relation(CustomParamsOf(o).value.id, nodeId)]
  {
    var keys := KeptProps(o.props);
    if |keys| > 0 {
      var id := cfg.IdOf(o.obj);
      var params: seq<Prop> := [];
      for i := 0 to |keys|
        invariant params == keys[..i]
      {
        params := params + [Prop(keys[i].key, keys[i].value)];
      }
      assert params == keys;
      data.customParams := data.customParams + [CustomParams("params_" + id, params)];
      data.AddRelationRaw("params_" + id, nodeId);
    }
  }

  // -------------------------------------------------------------- tobjects

  /** What `export_all_tobjects` has produced so far. */
  datatype ObjectsOut = ObjectsOut(
    modified: map<string, bool>,
    tobjects: seq<Entity>,
    params: seq<CustomParams>,
    relations: seq<Relation>)

  /** The relations added for a newly written object: to its parent first,
      then from its custom params entry. */
  function ObjectRelations(o: SceneObject): seq<Relation>
  {
    (if o.parent.Some? then [Relation(KeyOf(o.parent.value), KeyOf(o.obj))] else [])
    + (match CustomParamsOf(o)
       case None => []
       case Some(cp) => [Relation(cp.id, KeyOf(o.obj))])
  }

  function ObjectParams(o: SceneObject): seq<CustomParams>
  {
    match CustomParamsOf(o)
    case None => []
    case Some(cp) => [cp]
  }

  /** Reference definition of `export_all_tobjects` (138-164): a rendered
      object is written, and its relations added, only when its query
      answers true. */
  function TObjects(start: ObjectsOut, scene: seq<SceneObject>, exportSelection: bool): ObjectsOut
  {
    if scene == [] then start
    else
      var n := |scene| - 1;
      var o := scene[n];
      var prev := TObjects(start, scene[..n], exportSelection);
      if Skipped(o, exportSelection) then prev else TObjectStep(prev, o)
  }

  /** The step of one rendered object. */
  function TObjectStep(prev: ObjectsOut, o: SceneObject): ObjectsOut
  {
    var k := KeyOf(o.obj);
    if Dirty(prev.modified, k) then
      ObjectsOut(prev.modified[k := false], prev.tobjects + [o.obj],
                 prev.params + ObjectParams(o), prev.relations + ObjectRelations(o))
    else prev.(modified := prev.modified[k := false])
  }

  /** `export_all_tobjects`; the transform written into each entry is not
      modelled. */
  method ExportAllTObjects(scene: seq<SceneObject>, data: Data, cfg: ExportCfg)
    requires cfg.Valid()
    modifies data`tobjects, data`customParams, data`relations, cfg`ids, cfg`modified
    ensures cfg.Valid() && old(cfg.ids).Keys <= cfg.ids.Keys
    ensures ObjectsOut(cfg.modified, data.tobjects, data.customParams, data.relations) ==
      TObjects(ObjectsOut(old(cfg.modified), old(data.tobjects), old(data.customParams), old(data.relations)),
               scene, cfg.exportSelection)
  {
    ghost var start := ObjectsOut(cfg.modified, data.tobjects, data.customParams, data.relations);
    for k := 0 to |scene|
      invariant cfg.Valid() && old(cfg.ids).Keys <= cfg.ids.Keys
      invariant ObjectsOut(cfg.modified, data.tobjects, data.customParams, data.relations) ==
        TObjects(start, scene[..k], cfg.exportSelection)
    {
      var o := scene[k];
      assert scene[..k + 1][..k] == scene[..k];
      if o.hideRender || (cfg.exportSelection && !o.selected) {
        continue;
      }
      ExportTObject(o, data, cfg);
    }
    assert scene[..|scene|] == scene;
  }

  /** The body of the loop of `export_all_tobjects` for a rendered object. */
  method ExportTObject(o: SceneObject, data: Data, cfg: ExportCfg)
    requires cfg.Valid()
    modifies data`tobjects, data`customParams, data`relations, cfg`ids, cfg`modified
    ensures cfg.Valid() && old(cfg.ids).Keys <= cfg.ids.Keys
    ensures ObjectsOut(cfg.modified, data.tobjects, data.customParams, data.relations) ==
      TObjectStep(ObjectsOut(old(cfg.modified), old(data.tobjects), old(data.customParams), old(data.relations)), o)
  {
    var dirty := cfg.NeedUpdate(o.obj);
    if dirty {
      data.tobjects := data.tobjects + [o.obj];
      var id := cfg.IdOf(o.obj);
      if o.parent.Some? {
        var ref1 := cfg.IdOf(o.parent.value);
        var ref2 := cfg.IdOf(o.obj);
        data.AddRelationRaw(ref1, ref2);
      }
      ghost var withParent := data.relations;
      assert withParent == old(data.relations) + (if o.parent.Some? then [Relation(KeyOf(o.parent.value), KeyOf(o.obj))] else []);
      ExportObjCustomProperties(o, id, data, cfg);
      assert data.relations == old(data.relations) + ObjectRelations(o);
    }
  }

  /** The rendered objects, in scene order. */
  function RenderedObjects(scene: seq<SceneObject>, exportSelection: bool): seq<Entity>
  {
    if scene == [] then []
    else
      var n := |scene| - 1;
      var prev := RenderedObjects(scene[..n], exportSelection);
      if Skipped(scene[n], exportSelection) then prev else prev + [scene[n].obj]
  }

  /** The registry side of `export_all_tobjects` is a query run over the
      rendered objects; with `QueryOnce`, from a clean registry every
      rendered object is written exactly once. */
  lemma {:induction false} TObjectsIsQuery(start: ObjectsOut, scene: seq<SceneObject>, exportSelection: bool)
    ensures Queried(TObjects(start, scene, exportSelection).modified, TObjects(start, scene, exportSelection).tobjects)
      == Query(Queried(start.modified, start.tobjects), RenderedObjects(scene, exportSelection))
  {
    if scene != [] {
      var n := |scene| - 1;
      TObjectsIsQuery(start, scene[..n], exportSelection);
      if !Skipped(scene[n], exportSelection) {
        var es := RenderedObjects(scene, exportSelection);
        assert es[..|es| - 1] == RenderedObjects(scene[..n], exportSelection);
      }
    }
  }

  /** Every relation `export_all_tobjects` adds belongs to a written object:
      it is that object's parent relation or its custom params relation. */
  predicate RelationsExplained(out: ObjectsOut, scene: seq<SceneObject>)
  {
    forall r :: r in out.relations ==>
      exists i :: 0 <= i < |scene| && scene[i].obj in out.tobjects && r in ObjectRelations(scene[i])
  }

  lemma {:induction false} TObjectRelationsExplained(flags: map<string, bool>, scene: seq<SceneObject>, exportSelection: bool)
    ensures RelationsExplained(TObjects(ObjectsOut(flags, [], [], []), scene, exportSelection), scene)
  {
    if scene != [] {
      var n := |scene| - 1;
      var start := ObjectsOut(flags, [], [], []);
      var prev := TObjects(start, scene[..n], exportSelection);
      var out := TObjects(start, scene, exportSelection);
      TObjectRelationsExplained(flags, scene[..n], exportSelection);
      assert forall e :: e in prev.tobjects ==> e in out.tobjects;
      forall r | r in out.relations
        ensures exists i :: 0 <= i < |scene| && scene[i].obj in out.tobjects && r in ObjectRelations(scene[i])
      {
        if r in prev.relations {
          var i :| 0 <= i < n && scene[..n][i].obj in prev.tobjects && r in ObjectRelations(scene[..n][i]);
          assert scene[..n][i] == scene[i];
        } else {
          assert scene[n].obj in out.tobjects && r in ObjectRelations(scene[n]);
        }
      }
    }
  }

  // -------------------------------------------------------------- speakers

  /** `export_audio` as far as the registry sees it: it reads `src.name`
      first (316), which raises when the speaker has no sound, then makes
      one default query of the sound (332); the file it then extracts or
      copies is not modelled. */
  method ExportAudio(sound: Option<Entity>, cfg: ExportCfg) returns (ok: bool)
    modifies cfg`modified
    ensures ok <==> sound.Some?
    ensures cfg.modified == if ok then old(cfg.modified)[KeyOf(sound.value) := false] else old(cfg.modified)
  {
    if sound.None? {
      return false;
    }
    var dirty := cfg.NeedUpdate(sound.value);
    ok := true;
  }

  /** Reference definition of `export_all_speakers` (351-368): a rendered
      speaker queries its speaker datum; a new datum is written and its
      sound queried in turn; the datum is related to the object in every
      case. `None` is the export aborted by a new speaker without a sound. */
  function Speakers(start: Emission, scene: seq<SceneObject>, exportSelection: bool): Option<Emission>
  {
    if scene == [] then Some(start)
    else
      var n := |scene| - 1;
      match Speakers(start, scene[..n], exportSelection)
      case None => None
      case Some(prev) =>
        if Skipped(scene[n], exportSelection) || scene[n].kind != Speaker then Some(prev)
        else SpeakerStep(prev, scene[n])
  }

  /** The step of one rendered speaker object. */
  function SpeakerStep(prev: Emission, o: SceneObject): Option<Emission>
  {
    var k := KeyOf(o.data);
    var rels := prev.relations + [Relation(k, KeyOf(o.obj))];
    if !Dirty(prev.modified, k) then Some(Emission(prev.modified[k := false], prev.items, rels))
    else match o.sound
      case None => None
      case Some(sound) => Some(Emission(prev.modified[k := false][KeyOf(sound) := false], prev.items + [o.data], rels))
  }

  lemma {:induction false} SpeakersFailurePersists(start: Emission, scene: seq<SceneObject>, exportSelection: bool, i: nat)
    requires i <= |scene| && Speakers(start, scene[..i], exportSelection).None?
    ensures Speakers(start, scene, exportSelection).None?
  {
    if i < |scene| {
      var n := |scene| - 1;
      assert scene[..n][..i] == scene[..i];
      SpeakersFailurePersists(start, scene[..n], exportSelection, i);
    } else {
      assert scene[..i] == scene;
    }
  }

  /** `export_all_speakers`; `ok` is false when a new speaker without a sound
      aborted the export, which leaves the document half-written. */
  method ExportAllSpeakers(scene: seq<SceneObject>, data: Data, cfg: ExportCfg) returns (ok: bool)
    requires cfg.Valid()
    modifies data`speakers, data`relations, cfg`ids, cfg`modified
    ensures cfg.Valid() && old(cfg.ids).Keys <= cfg.ids.Keys
    ensures var r := Speakers(Emission(old(cfg.modified), old(data.speakers), old(data.relations)), scene, cfg.exportSelection);
      && (ok <==> r.Some?)
      && (ok ==> Emission(cfg.modified, data.speakers, data.relations) == r.value)
  {
    ghost var start := Emission(cfg.modified, data.speakers, data.relations);
    for k := 0 to |scene|
      invariant cfg.Valid() && old(cfg.ids).Keys <= cfg.ids.Keys
      invariant Speakers(start, scene[..k], cfg.exportSelection) == Some(Emission(cfg.modified, data.speakers, data.relations))
    {
      var o := scene[k];
      assert scene[..k + 1][..k] == scene[..k];
      if o.hideRender || (cfg.exportSelection && !o.selected) {
        continue;
      }
      if o.kind == Speaker {
        var dirty := cfg.NeedUpdate(o.data);
        if dirty {
          data.speakers := data.speakers + [o.data];
          var id := cfg.IdOf(o.data);
          var audio := ExportAudio(o.sound, cfg);
          if !audio {
            SpeakersFailurePersists(start, scene, cfg.exportSelection, k + 1);
            return false;
          }
        }
        var ref1 := cfg.IdOf(o.data);
        var ref2 := cfg.IdOf(o.obj);
        data.AddRelationRaw(ref1, ref2);
      }
    }
    assert scene[..|scene|] == scene;
    ok := true;
  }

  /** The loop aborts only at a rendered speaker without a sound, and never
      when every rendered speaker has one. */
  lemma {:induction false} SpeakersFailOnlyWithoutSound(start: Emission, scene: seq<SceneObject>, exportSelection: bool)
    ensures Speakers(start, scene, exportSelection).None? ==>
      exists i :: 0 <= i < |scene| && !Skipped(scene[i], exportSelection) && scene[i].kind == Speaker && scene[i].sound.None?
  {
    if scene != [] {
      var n := |scene| - 1;
      var head := scene[..n];
      SpeakersFailOnlyWithoutSound(start, head, exportSelection);
      if Speakers(start, head, exportSelection).None? {
        var i :| 0 <= i < |head| && !Skipped(head[i], exportSelection) && head[i].kind == Speaker && head[i].sound.None?;
        assert scene[i] == head[i];
      }
    }
  }

  /** The speaker steps seen as the shared-data pattern. */
  function SpeakerUses(scene: seq<SceneObject>, exportSelection: bool): seq<Use>
  {
    if scene == [] then []
    else
      var n := |scene| - 1;
      var o := scene[n];
      var prev := SpeakerUses(scene[..n], exportSelection);
      if Skipped(o, exportSelection) || o.kind != Speaker then prev
      else prev + [Use(o.data, Relation(KeyOf(o.data), KeyOf(o.obj)))]
  }

  /** The keys of the speakers' sounds. */
  function SoundKeys(scene: seq<SceneObject>): set<string>
  {
    set i | 0 <= i < |scene| && scene[i].kind == Speaker && scene[i].sound.Some? :: KeyOf(scene[i].sound.value)
  }

  /** Two flag maps that agree on every key outside `except`. */
  ghost predicate AgreeOutside(m1: map<string, bool>, m2: map<string, bool>, except: set<string>)
  {
    forall k :: k !in except ==> (k in m1 <==> k in m2) && (k in m1 ==> m1[k] == m2[k])
  }

  /** As long as no speaker's sound is also a speaker datum, the extra sound
      queries change nothing about which speakers are written or related:
      a loop that completes is the shared-data pattern, so shared speaker
      data are written once (`QueryOnce`, through `ShareIsQuery`). */
  lemma {:induction false} SpeakersAsShare(start: Emission, scene: seq<SceneObject>, exportSelection: bool)
    requires forall i, j :: 0 <= i < |scene| && 0 <= j < |scene| && scene[i].kind == Speaker && scene[j].kind == Speaker ==>
      scene[j].sound != Some(scene[i].data)
    ensures var a := Speakers(start, scene, exportSelection);
      var b := Share(start, SpeakerUses(scene, exportSelection));
      a.Some? ==>
        && a.value.items == b.items && a.value.relations == b.relations
        && AgreeOutside(a.value.modified, b.modified, SoundKeys(scene))
  {
    if scene != [] {
      var n := |scene| - 1;
      var o := scene[n];
      var head := scene[..n];
      forall i, j | 0 <= i < |head| && 0 <= j < |head| && head[i].kind == Speaker && head[j].kind == Speaker
        ensures head[j].sound != Some(head[i].data)
      {
        assert head[i] == scene[i] && head[j] == scene[j];
      }
      SpeakersAsShare(start, head, exportSelection);
      assert SoundKeys(head) <= SoundKeys(scene) by {
        forall k | k in SoundKeys(head) ensures k in SoundKeys(scene) {
          var i :| 0 <= i < |head| && head[i].kind == Speaker && head[i].sound.Some? && k == KeyOf(head[i].sound.value);
          assert head[i] == scene[i];
        }
      }
      if Speakers(start, scene, exportSelection).Some? && !(Skipped(o, exportSelection) || o.kind != Speaker) {
        var k := KeyOf(o.data);
        assert k !in SoundKeys(scene) by {
          if k in SoundKeys(scene) {
            var j :| 0 <= j < |scene| && scene[j].kind == Speaker && scene[j].sound.Some? && k == KeyOf(scene[j].sound.value);
            KeyOfInjective(o.data, scene[j].sound.value);
          }
        }
        assert o.sound.Some? ==> KeyOf(o.sound.value) in SoundKeys(scene);
        ShareSnoc(start, SpeakerUses(head, exportSelection), Use(o.data, Relation(k, KeyOf(o.obj))));
        SpeakerStepAsShare(Speakers(start, head, exportSelection).value, Share(start, SpeakerUses(head, exportSelection)),
                           o, SoundKeys(scene));
      }
    }
  }

  /** The sound query of a new speaker only touches a sound key. */
  lemma SpeakerStepAsShare(a: Emission, b: Emission, o: SceneObject, except: set<string>)
    requires a.items == b.items && a.relations == b.relations && AgreeOutside(a.modified, b.modified, except)
    requires KeyOf(o.data) !in except && (o.sound.Some? ==> KeyOf(o.sound.value) in except)
    ensures var a2 := SpeakerStep(a, o);
      var b2 := ShareStep(b, Use(o.data, Relation(KeyOf(o.data), KeyOf(o.obj))));
      a2.Some? ==>
        && a2.value.items == b2.items && a2.value.relations == b2.relations
        && AgreeOutside(a2.value.modified, b2.modified, except)
  {
  }

  // ------------------------------------------------------------ geometries

  /** One relation from mesh `meshId` to every scene object, rendered or
      not, whose data block is `datum`: objects sharing a mesh datum share
      its output meshes. */
  function UserRelations(scene: seq<SceneObject>, datum: Entity, meshId: string): seq<Relation>
  {
    if scene == [] then []
    else
      var n := |scene| - 1;
      var prev := UserRelations(scene[..n], datum, meshId);
      if scene[n].data == datum then prev + [Relation(meshId, KeyOf(scene[n].obj))] else prev
  }

  /** The material relation of an output mesh, only for an index inside the
      object's material slots. */
  function MaterialRelations(slots: seq<Entity>, m: OutMesh): seq<Relation>
  {
    if -1 < m.materialIndex < |slots| then [Relation(KeyOf(slots[m.materialIndex]), m.id)] else []
  }

  /** The relations added for the output meshes `ms` of object `o`, mesh by
      mesh: its users, then its material. */
  function MeshRelations(scene: seq<SceneObject>, o: SceneObject, ms: seq<OutMesh>): seq<Relation>
  {
    if ms == [] then []
    else
      var n := |ms| - 1;
      MeshRelations(scene, o, ms[..n]) + UserRelations(scene, o.data, ms[n].id) + MaterialRelations(o.materialSlots, ms[n])
  }

  /** What `export_all_geometries` has produced so far; `exported` lists the
      mesh data written, which the document itself does not record. */
  datatype GeometriesOut = GeometriesOut(
    modified: map<string, bool>,
    exported: seq<Entity>,
    meshes: seq<OutMesh>,
    relations: seq<Relation>)

  /** Reference definition of `export_all_geometries` (458-477) over the
      first objects `objs` of `scene`: a rendered mesh object with polygons
      queries its mesh datum (an object without polygons does not even
      query it); a new datum's output meshes are appended and related; a
      failure while building them aborts the export. */
  function Geometries(start: GeometriesOut, scene: seq<SceneObject>, objs: seq<SceneObject>, exportSelection: bool)
    : Result<GeometriesOut, MeshError>
  {
    if objs == [] then Success(start)
    else
      var n := |objs| - 1;
      var o := objs[n];
      match Geometries(start, scene, objs[..n], exportSelection)
      case Failure(e) => Failure(e)
      case Success(prev) =>
        if Skipped(o, exportSelection) || o.kind != MeshObject || o.polygonCount == 0 then Success(prev)
        else
          var k := KeyOf(o.data);
          if !Dirty(prev.modified, k) then Success(prev.(modified := prev.modified[k := false]))
          else
            match MeshesOf(o.geometry)
            case Failure(e) => Failure(e)
            case Success(ms) =>
              Success(GeometriesOut(prev.modified[k := false], prev.exported + [o.data],
                                    prev.meshes + ms, prev.relations + MeshRelations(scene, o, ms)))
  }

  /** The inner loop over `scene.objects` for one output mesh. */
  method RelateMeshUsers(scene: seq<SceneObject>, datum: Entity, meshId: string, data: Data, cfg: ExportCfg)
    requires cfg.Valid()
    modifies data`relations, cfg`ids
    ensures cfg.Valid() && old(cfg.ids).Keys <= cfg.ids.Keys
    ensures data.relations == old(data.relations) + UserRelations(scene, datum, meshId)
  {
    for j := 0 to |scene|
      invariant cfg.Valid() && old(cfg.ids).Keys <= cfg.ids.Keys
      invariant data.relations == old(data.relations) + UserRelations(scene[..j], datum, meshId)
    {
      assert scene[..j + 1][..j] == scene[..j];
      if scene[j].data == datum {
        var ref2 := cfg.IdOf(scene[j].obj);
        data.AddRelationRaw(meshId, ref2);
      }
    }
    assert scene[..|scene|] == scene;
  }

  /** The loop over the output meshes of one object. */
  method RelateMeshes(scene: seq<SceneObject>, o: SceneObject, ms: seq<OutMesh>, data: Data, cfg: ExportCfg)
    requires cfg.Valid()
    modifies data`relations, cfg`ids
    ensures cfg.Valid() && old(cfg.ids).Keys <= cfg.ids.Keys
    ensures data.relations == old(data.relations) + MeshRelations(scene, o, ms)
  {
    for i := 0 to |ms|
      invariant cfg.Valid() && old(cfg.ids).Keys <= cfg.ids.Keys
      invariant data.relations == old(data.relations) + MeshRelations(scene, o, ms[..i])
    {
      assert ms[..i + 1][..i] == ms[..i];
      var mesh := ms[i];
      ghost var before := data.relations;
      RelateMeshUsers(scene, o.data, mesh.id, data, cfg);
      ghost var users := data.relations;
      if -1 < mesh.materialIndex < |o.materialSlots| {
        var ref1 := cfg.IdOf(o.materialSlots[mesh.materialIndex]);
        data.AddRelationRaw(ref1, mesh.id);
      }
      assert data.relations == users + MaterialRelations(o.materialSlots, mesh);
      assert MeshRelations(scene, o, ms[..i + 1]) ==
        MeshRelations(scene, o, ms[..i]) + UserRelations(scene, o.data, mesh.id) + MaterialRelations(o.materialSlots, mesh);
    }
    assert ms[..|ms|] == ms;
  }

  /** `export_all_geometries`; `err` is the failure that aborts the export,
      after which the document is not specified. */
  method ExportAllGeometries(scene: seq<SceneObject>, data: Data, cfg: ExportCfg) returns (err: Option<MeshError>)
    requires cfg.Valid()
    modifies data`meshes, data`relations, cfg`ids, cfg`modified
    ensures cfg.Valid() && old(cfg.ids).Keys <= cfg.ids.Keys
    ensures var r := Geometries(GeometriesOut(old(cfg.modified), [], old(data.meshes), old(data.relations)),
                                scene, scene, cfg.exportSelection);
      && (r.Failure? <==> err.Some?)
      && (r.Failure? ==> err == Some(r.error))
      && (r.Success? ==>
            cfg.modified == r.value.modified && data.meshes == r.value.meshes && data.relations == r.value.relations)
  {
    ghost var start := GeometriesOut(cfg.modified, [], data.meshes, data.relations);
    ghost var exported: seq<Entity> := [];
    for k := 0 to |scene|
      invariant cfg.Valid() && old(cfg.ids).Keys <= cfg.ids.Keys
      invariant Geometries(start, scene, scene[..k], cfg.exportSelection) ==
        Success(GeometriesOut(cfg.modified, exported, data.meshes, data.relations))
    {
      var o := scene[k];
      assert scene[..k + 1][..k] == scene[..k];
      if o.hideRender || (cfg.exportSelection && !o.selected) {
        continue;
      }
      if o.kind == MeshObject {
        if o.polygonCount != 0 {
          var dirty := cfg.NeedUpdate(o.data);
          if dirty {
            var r := ExportMeshes(o.geometry, cfg);
            if r.Failure? {
              GeometriesFailurePersists(start, scene, cfg.exportSelection, k + 1);
              return Some(r.error);
            }
            data.meshes := data.meshes + r.value;
            exported := exported + [o.data];
            RelateMeshes(scene, o, r.value, data, cfg);
          }
        }
      }
    }
    assert scene[..|scene|] == scene;
    return None;
  }

  /** A failure on the first `i` objects is the failure of the whole loop. */
  lemma {:induction false} GeometriesFailurePersists(start: GeometriesOut, scene: seq<SceneObject>, exportSelection: bool, i: nat)
    requires i <= |scene| && Geometries(start, scene, scene[..i], exportSelection).Failure?
    ensures Geometries(start, scene, scene, exportSelection) == Geometries(start, scene, scene[..i], exportSelection)
  {
    GeometriesPrefixFailure(start, scene, scene, exportSelection, i);
    assert scene[..|scene|] == scene;
  }

  lemma {:induction false} GeometriesPrefixFailure(start: GeometriesOut, scene: seq<SceneObject>, objs: seq<SceneObject>, exportSelection: bool, i: nat)
    requires i <= |objs| && Geometries(start, scene, objs[..i], exportSelection).Failure?
    ensures Geometries(start, scene, objs, exportSelection) == Geometries(start, scene, objs[..i], exportSelection)
  {
    if i < |objs| {
      var n := |objs| - 1;
      assert objs[..n][..i] == objs[..i];
      GeometriesPrefixFailure(start, scene, objs[..n], exportSelection, i);
    } else {
      assert objs[..i] == objs;
    }
  }

  /** The mesh data the geometry loop queries: those of the rendered mesh
      objects with polygons, in scene order. */
  function QueriedMeshData(objs: seq<SceneObject>, exportSelection: bool): seq<Entity>
  {
    if objs == [] then []
    else
      var n := |objs| - 1;
      var o := objs[n];
      var prev := QueriedMeshData(objs[..n], exportSelection);
      if Skipped(o, exportSelection) || o.kind != MeshObject || o.polygonCount == 0 then prev
      else prev + [o.data]
  }

  /** When the loop succeeds, its registry side is a query run over those
      data; with `QueryOnce`, from a clean registry a mesh datum shared by
      several objects is turned into output meshes only once. */
  lemma {:induction false} GeometriesIsQuery(start: GeometriesOut, scene: seq<SceneObject>, objs: seq<SceneObject>, exportSelection: bool)
    requires Geometries(start, scene, objs, exportSelection).Success?
    ensures var out := Geometries(start, scene, objs, exportSelection).value;
      Queried(out.modified, out.exported) ==
        Query(Queried(start.modified, start.exported), QueriedMeshData(objs, exportSelection))
  {
    if objs != [] {
      var n := |objs| - 1;
      var o := objs[n];
      assert Geometries(start, scene, objs[..n], exportSelection).Success?;
      GeometriesIsQuery(start, scene, objs[..n], exportSelection);
      if !(Skipped(o, exportSelection) || o.kind != MeshObject || o.polygonCount == 0) {
        var before := Geometries(start, scene, objs[..n], exportSelection).value;
        assert QueriedMeshData(objs, exportSelection) == QueriedMeshData(objs[..n], exportSelection) + [o.data];
        QuerySnoc(Queried(start.modified, start.exported), QueriedMeshData(objs[..n], exportSelection), o.data);
        if Dirty(before.modified, KeyOf(o.data)) {
          assert MeshesOf(o.geometry).Success?;
        }
      }
    }
  }

  /** An output mesh is related to exactly the scene objects that use its
      mesh datum, hidden and unselected ones included. */
  lemma {:induction false} UserRelationsIff(scene: seq<SceneObject>, datum: Entity, meshId: string, r: Relation)
    ensures r in UserRelations(scene, datum, meshId) <==>
      exists i :: 0 <= i < |scene| && scene[i].data == datum && r == Relation(meshId, KeyOf(scene[i].obj))
  {
    if scene != [] {
      var n := |scene| - 1;
      UserRelationsIff(scene[..n], datum, meshId, r);
      if exists i :: 0 <= i < n && scene[i].data == datum && r == Relation(meshId, KeyOf(scene[i].obj)) {
        var i :| 0 <= i < n && scene[i].data == datum && r == Relation(meshId, KeyOf(scene[i].obj));
        assert scene[..n][i] == scene[i];
      }
      if exists i :: 0 <= i < n && scene[..n][i].data == datum && r == Relation(meshId, KeyOf(scene[..n][i].obj)) {
        var i :| 0 <= i < n && scene[..n][i].data == datum && r == Relation(meshId, KeyOf(scene[..n][i].obj));
        assert scene[..n][i] == scene[i];
      }
    }
  }
}
