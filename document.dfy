/** The exported document (`f3b.datas_pb2.Data`), restricted to the
    collections the modelled exporters append to. */
module Document {
  import opened Registry
  import opened Meshes
  import opened Scene

  /** A flat relation pair; the document holds no other hierarchy. */
  datatype Relation = Relation(ref1: string, ref2: string)

  /** A `custom_params` entry: its id and one param per kept property. */
  datatype CustomParams = CustomParams(id: string, params: seq<Prop>)

  /** The document under construction. Entity collections record the source
      entity each entry was exported from; the entries' other fields come
      from code this model leaves out. */
  class Data {
    var relations: seq<Relation>
    var tobjects: seq<Entity>
    var speakers: seq<Entity>
    var meshes: seq<OutMesh>
    var lights: seq<Entity>
    var skeletons: seq<Entity>
    var animations: seq<Entity>
    var customParams: seq<CustomParams>

    constructor ()
      ensures relations == [] && tobjects == [] && speakers == [] && meshes == []
      ensures lights == [] && skeletons == [] && animations == [] && customParams == []
    {
      relations, tobjects, speakers, meshes := [], [], [], [];
      lights, skeletons, animations, customParams := [], [], [], [];
    }

    /** `add_relation_raw`: append one `(ref1, ref2)` pair, leave the earlier
        ones as they are. */
    method AddRelationRaw(ref1: string, ref2: string)
      modifies this`relations
      ensures relations == old(relations) + [Relation(ref1, ref2)]
    {
      relations := relations + [Relation(ref1, ref2)];
    }
  }
}
