/** The identity / dirty-flag registry of one export run (`ExportCfg` in
    src/f3b_export.py). Every exporter asks it for the string identity of a
    scene entity and whether that entity still has to be written. */
module Registry {
  import opened Seqs

  /** A scene entity, known by its runtime identity: the value Python's
      `hash(v)` gives for it. Distinct live entities have distinct values. */
  type Entity = int

  function DigitChar(d: int): (c: char)
    requires 0 <= d < 10
    ensures '0' <= c <= '9'
  {
    ('0' as int + d) as char
  }

  /** Decimal notation of a natural number, as Python's `str` writes it. */
  function Decimal(n: nat): (s: string)
    ensures |s| >= 1
    ensures forall i :: 0 <= i < |s| ==> '0' <= s[i] <= '9'
    ensures n < 10 <==> |s| == 1
  {
    if n < 10 then [DigitChar(n)] else Decimal(n / 10) + [DigitChar(n % 10)]
  }

  /** Python's `str` on an integer. */
  function Str(i: int): (s: string)
    ensures |s| >= 1
    ensures forall j :: 0 <= j < |s| ==> s[j] == '-' || '0' <= s[j] <= '9'
  {
    if i < 0 then "-" + Decimal(-i) else Decimal(i)
  }

  /** `str(hash(v))`: the key `_k_of` computes and the identity `id_of` hands out. */
  function KeyOf(e: Entity): string
  {
    Str(e)
  }

  /** Identity of the output mesh built for material index `idx` of the
      evaluated mesh `src`: `id_of(src_mesh) + "_" + str(material_index)`. */
  function MeshId(src: Entity, idx: int): string
  {
    KeyOf(src) + "_" + Str(idx)
  }

  /** Identity of the custom-property block of entity `e`: `"params_" + id_of(e)`. */
  function ParamsId(e: Entity): string
  {
    "params_" + KeyOf(e)
  }

  lemma {:induction false} DecimalInjective(a: nat, b: nat)
    requires Decimal(a) == Decimal(b)
    ensures a == b
  {
    if a >= 10 && b >= 10 {
      var sa, sb := Decimal(a), Decimal(b);
      assert sa[|sa| - 1] == DigitChar(a % 10) && sb[|sb| - 1] == DigitChar(b % 10);
      assert sa[..|sa| - 1] == Decimal(a / 10) && sb[..|sb| - 1] == Decimal(b / 10);
      DecimalInjective(a / 10, b / 10);
    }
  }

  /** Two entities never share an identity (a collision would merge two
      exported entities into one). */
  lemma StrInjective(a: int, b: int)
    requires Str(a) == Str(b)
    ensures a == b
  {
    var s := Str(a);
    assert s[0] == '-' <==> a < 0;
    assert s[0] == '-' <==> b < 0;
    if a < 0 {
      assert Decimal(-a) == s[1..] == Decimal(-b);
      DecimalInjective(-a, -b);
    } else {
      DecimalInjective(a, b);
    }
  }

  lemma KeyOfInjective(a: Entity, b: Entity)
    requires KeyOf(a) == KeyOf(b)
    ensures a == b
  {
    StrInjective(a, b);
  }

  /** Mesh identities determine their evaluated mesh and material index: the
      identity digits never contain the separator `_`. */
  lemma MeshIdInjective(a: Entity, i: int, b: Entity, j: int)
    requires MeshId(a, i) == MeshId(b, j)
    ensures a == b && i == j
  {
    var s, t := KeyOf(a), KeyOf(b);
    var m := MeshId(a, i);
    assert m[|s|] == '_' && m[|t|] == '_';
    assert |s| == |t|;
    assert s == m[..|s|] == t;
    assert Str(i) == m[|s| + 1..] == Str(j);
    KeyOfInjective(a, b);
    StrInjective(i, j);
  }

  /** The three identity forms never collide with each other. */
  lemma IdentityFormsDisjoint(e: Entity, m: Entity, i: int, q: Entity)
    ensures MeshId(m, i) != KeyOf(e)
    ensures ParamsId(q) != KeyOf(e)
    ensures ParamsId(q) != MeshId(m, i)
  {
    var k := KeyOf(m);
    assert MeshId(m, i)[|k|] == '_';
    assert ParamsId(q)[0] == 'p';
    assert MeshId(m, i)[0] == k[0];
  }

  /** Does the flag map ask for (re)export of key `k`?  True for a key never
      seen, otherwise the flag stored by the previous query. */
  predicate Dirty(flags: map<string, bool>, k: string)
  {
    k !in flags || flags[k]
  }

  /** No stored flag asks for re-export: the state reached when every query so
      far used the default `modified=False`, as all callers in this file do. */
  predicate Clean(flags: map<string, bool>)
  {
    forall k :: k in flags ==> !flags[k]
  }

  /** The flag map after a run of default `need_update` calls on `keys`, in order. */
  function AfterQueries(flags: map<string, bool>, keys: seq<string>): map<string, bool>
  {
    if |keys| == 0 then flags
    else AfterQueries(flags, keys[..|keys| - 1])[keys[|keys| - 1] := false]
  }

  /** What each call of that run returns. */
  function Results(flags: map<string, bool>, keys: seq<string>): (r: seq<bool>)
    ensures |r| == |keys|
  {
    if |keys| == 0 then []
    else
      var p := keys[..|keys| - 1];
      Results(flags, p) + [Dirty(AfterQueries(flags, p), keys[|keys| - 1])]
  }

  /** The keys whose query returned true, in call order. */
  function Select(keys: seq<string>, answers: seq<bool>): (r: seq<string>)
    requires |answers| == |keys|
    ensures forall i :: 0 <= i < |r| ==> r[i] in keys
  {
    if |keys| == 0 then []
    else
      var n := |keys| - 1;
      Select(keys[..n], answers[..n]) + (if answers[n] then [keys[n]] else [])
  }

  /** The keys the flag map has never seen. */
  function Unseen(flags: map<string, bool>, keys: seq<string>): (r: seq<string>)
    ensures forall k :: k in r <==> k in keys && k !in flags
  {
    if |keys| == 0 then []
    else
      var n := |keys| - 1;
      assert keys == keys[..n] + [keys[n]];
      Unseen(flags, keys[..n]) + (if keys[n] in flags then [] else [keys[n]])
  }

  /** After the run every queried key is stored as clean and nothing else moved. */
  lemma {:induction false} AfterQueriesStoresFalse(flags: map<string, bool>, keys: seq<string>)
    ensures forall k :: k in AfterQueries(flags, keys) <==> k in flags || k in keys
    ensures forall k :: k in keys ==> !AfterQueries(flags, keys)[k]
    ensures forall k :: k in flags && k !in keys ==> AfterQueries(flags, keys)[k] == flags[k]
  {
    if |keys| > 0 {
      var n := |keys| - 1;
      AfterQueriesStoresFalse(flags, keys[..n]);
      assert keys == keys[..n] + [keys[n]];
    }
  }

  /** From a clean state, a default `need_update` returns true exactly at the
      first query of a key the registry has never seen: a second query of the
      same entity always answers false. */
  lemma {:induction false} FirstQueryOnly(flags: map<string, bool>, keys: seq<string>)
    requires Clean(flags)
    ensures forall i :: 0 <= i < |keys| ==>
      (Results(flags, keys)[i] <==> keys[i] !in flags && keys[i] !in keys[..i])
  {
    if |keys| > 0 {
      var n := |keys| - 1;
      var p := keys[..n];
      FirstQueryOnly(flags, p);
      AfterQueriesStoresFalse(flags, p);
      var r := Results(flags, keys);
      assert r == Results(flags, p) + [Dirty(AfterQueries(flags, p), keys[n])];
      forall i | 0 <= i < |keys|
        ensures Results(flags, keys)[i] <==> keys[i] !in flags && keys[i] !in keys[..i]
      {
        if i < n {
          assert r[i] == Results(flags, p)[i];
          assert keys[..i] == p[..i];
        } else {
          assert keys[..i] == p;
        }
      }
    }
  }

  /** The entities a run of default queries lets through, from a clean state,
      are the never-seen keys, each once, in order of first appearance. */
  lemma {:induction false} SelectedAreFirstSeen(flags: map<string, bool>, keys: seq<string>)
    requires Clean(flags)
    ensures Select(keys, Results(flags, keys)) == Dedup(Unseen(flags, keys))
  {
    if |keys| > 0 {
      var n := |keys| - 1;
      var p, k := keys[..n], keys[n];
      var r := Results(flags, keys);
      SelectedAreFirstSeen(flags, p);
      AfterQueriesStoresFalse(flags, p);
      assert r[..n] == Results(flags, p);
      assert r[n] <==> k !in flags && k !in p;
      assert Select(keys, r) == Select(p, r[..n]) + (if r[n] then [k] else []);
      var u := Unseen(flags, p);
      if k !in flags {
        assert Unseen(flags, keys) == u + [k];
        DedupSnoc(u, k);
      } else {
        assert Unseen(flags, keys) == u;
      }
    }
  }

  class ExportCfg {
    var ids: map<string, string>
    var modified: map<string, bool>
    const exportSelection: bool

    /** Every memoised identity is the key it is stored under. */
    ghost predicate Valid()
      reads this
    {
      forall k :: k in ids ==> ids[k] == k
    }

    constructor (exportSelection: bool)
      ensures Valid()
      ensures ids == map[] && modified == map[]
      ensures this.exportSelection == exportSelection
    {
      ids := map[];
      modified := map[];
      this.exportSelection := exportSelection;
    }

    /** `id_of`: the memoised identity of `v`; always `str(hash(v))`, whether
        or not it was asked for before. */
    method IdOf(v: Entity) returns (id: string)
      requires Valid()
      modifies this`ids
      ensures Valid()
      ensures id == KeyOf(v)
      ensures ids == old(ids)[KeyOf(v) := KeyOf(v)]
    {
      var k := KeyOf(v);
      if k in ids {
        id := ids[k];
      } else {
        id := KeyOf(v);
        ids := ids[k := id];
      }
    }

    /** `need_update`: returns the flag stored for `v` (true when `v` was
        never seen) and replaces it with `isModified`. */
    method NeedUpdate(v: Entity, isModified: bool := false) returns (dirty: bool)
      modifies this`modified
      ensures dirty == Dirty(old(modified), KeyOf(v))
      ensures dirty <== KeyOf(v) !in old(modified)
      ensures modified == old(modified)[KeyOf(v) := isModified]
    {
      var k := KeyOf(v);
      dirty := (k !in modified) || modified[k];
      modified := modified[k := isModified];
    }
  }

  /** A second default `need_update` on the same entity reports it as clean. */
  method NeedUpdateTwice(cfg: ExportCfg, v: Entity) returns (first: bool, second: bool)
    modifies cfg
    ensures first == Dirty(old(cfg.modified), KeyOf(v))
    ensures !second
    ensures cfg.modified == old(cfg.modified)[KeyOf(v) := false]
  {
    first := cfg.NeedUpdate(v);
    second := cfg.NeedUpdate(v);
  }
}
