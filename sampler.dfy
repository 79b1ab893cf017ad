/** Keyframe sampling of one animation clip: `Sampler.capture` compares each
    sampled matrix with the last stored one and only stores a keyframe when
    the pose moved, run-length compressing held poses. */
module Animation {
  import opened Wrappers

  /** A 4x4 transform matrix, row by row. */
  type Mat4 = seq<seq<real>>

  predicate IsMat4(m: Mat4)
  {
    |m| == 4 && forall i :: 0 <= i < 4 ==> |m[i]| == 4
  }

  /** The per-cell tolerance `capture` passes to `equals_mat4`. */
  const Tolerance: real := 0.000001

  /** No cell of `m0` differs from the same cell of `m1` by more than `tol`. */
  predicate Close(m0: Mat4, m1: Mat4, tol: real)
    requires IsMat4(m0) && IsMat4(m1)
  {
    forall i, j :: 0 <= i < 4 && 0 <= j < 4 ==> -tol <= m0[i][j] - m1[i][j] <= tol
  }

  /** `equals_mat4`: cell-by-cell scan that answers false at the first cell
      off by more than the tolerance. */
  method EqualsMat4(m0: Mat4, m1: Mat4, tol: real) returns (eq: bool)
    requires IsMat4(m0) && IsMat4(m1)
    ensures eq <==> Close(m0, m1, tol)
  {
    for i := 0 to 4
      invariant forall i', j :: 0 <= i' < i && 0 <= j < 4 ==> -tol <= m0[i'][j] - m1[i'][j] <= tol
    {
      for j := 0 to 4
        invariant forall j' :: 0 <= j' < j ==> -tol <= m0[i][j'] - m1[i][j'] <= tol
      {
        var d := m0[i][j] - m1[i][j];
        if d > tol || d < -tol {
          return false;
        }
      }
    }
    return true;
  }

  datatype Vec3 = Vec3(x: real, y: real, z: real)
  datatype Quat = Quat(w: real, x: real, y: real, z: real)

  /** What `decompose` yields: translation, rotation, scale. */
  datatype TRS = TRS(loc: Vec3, rot: Quat, sca: Vec3)

  /** One keyframe: a time and one entry of each of the ten value lists. */
  datatype Key = Key(at: int,
                     translationX: real, translationY: real, translationZ: real,
                     scaleX: real, scaleY: real, scaleZ: real,
                     rotationW: real, rotationX: real, rotationY: real, rotationZ: real)

  /** The Z-up to Y-up conversion of `_store`, read back. */
  function Unrebase(k: Key): (r: (int, TRS))
  {
    (k.at, TRS(Vec3(k.translationX, -k.translationZ, k.translationY),
               Quat(k.rotationW, k.rotationX, -k.rotationZ, k.rotationY),
               Vec3(k.scaleX, k.scaleZ, k.scaleY)))
  }

  /** The keyframe `_store` writes for time `t`: Y and Z swapped, with the
      new Z negated for translation and rotation; the swap loses nothing. */
  function Rebase(t: int, trs: TRS): (k: Key)
    ensures Unrebase(k) == (t, trs)
  {
    Key(t, trs.loc.x, trs.loc.z, -trs.loc.y,
        trs.sca.x, trs.sca.z, trs.sca.y,
        trs.rot.w, trs.rot.x, trs.rot.z, -trs.rot.y)
  }

  /** Every keyframe is the conversion of exactly one (time, transform). */
  lemma RebaseUnrebase(k: Key)
    ensures Rebase(Unrebase(k).0, Unrebase(k).1) == k
  {
  }

  /** The state of one sampler, as a value. */
  datatype Phase = Phase(previous: Option<Mat4>, lastEquals: Option<int>, keys: seq<Key>)

  /** A pending equal time always has a stored matrix to go with it. */
  predicate WellFormed(ph: Phase)
  {
    && (ph.previous.Some? ==> IsMat4(ph.previous.value))
    && (ph.lastEquals.Some? ==> ph.previous.Some?)
  }

  /** Reference definition of one `capture(t)` with sampled matrix `m`. */
  function Step(decompose: Mat4 -> TRS, ph: Phase, t: int, m: Mat4): (r: Phase)
    requires WellFormed(ph) && IsMat4(m)
    ensures WellFormed(r)
  {
    if ph.previous.None? || !Close(m, ph.previous.value, Tolerance) then
      var flushed :=
        if ph.lastEquals.Some? then ph.keys + [Rebase(ph.lastEquals.value, decompose(ph.previous.value))]
        else ph.keys;
      Phase(Some(m), None, flushed + [Rebase(t, decompose(m))])
    else
      Phase(ph.previous, Some(t), ph.keys)
  }

  /** One sample: the time and the matrix of the target at that frame. */
  datatype Sample = Sample(t: int, m: Mat4)

  predicate AllMat4(samples: seq<Sample>)
  {
    forall i :: 0 <= i < |samples| ==> IsMat4(samples[i].m)
  }

  /** `capture` applied to each sample in turn. */
  function Run(decompose: Mat4 -> TRS, ph: Phase, samples: seq<Sample>): (r: Phase)
    requires WellFormed(ph) && AllMat4(samples)
    ensures WellFormed(r)
  {
    if samples == [] then ph
    else
      var n := |samples| - 1;
      Step(decompose, Run(decompose, ph, samples[..n]), samples[n].t, samples[n].m)
  }

  /** A fresh sampler: nothing stored, nothing pending. */
  const Initial := Phase(None, None, [])

  /** The `sampled_transform` message of a clip: eleven lists in parallel,
      entry `i` of each belonging to keyframe `i`. */
  datatype SampledTransform = SampledTransform(
    at: seq<int>,
    translationX: seq<real>, translationY: seq<real>, translationZ: seq<real>,
    scaleX: seq<real>, scaleY: seq<real>, scaleZ: seq<real>,
    rotationW: seq<real>, rotationX: seq<real>, rotationY: seq<real>, rotationZ: seq<real>)
  {
    predicate Parallel()
    {
      && |translationX| == |at| && |translationY| == |at| && |translationZ| == |at|
      && |scaleX| == |at| && |scaleY| == |at| && |scaleZ| == |at|
      && |rotationW| == |at| && |rotationX| == |at| && |rotationY| == |at| && |rotationZ| == |at|
    }

    /** The keyframes, row `i` reading entry `i` of each list. */
    function Rows(): (ks: seq<Key>)
      requires Parallel()
      ensures |ks| == |at|
    {
      seq(|at|, i requires 0 <= i < |at| =>
        Key(at[i], translationX[i], translationY[i], translationZ[i], scaleX[i], scaleY[i], scaleZ[i],
            rotationW[i], rotationX[i], rotationY[i], rotationZ[i]))
    }
  }

  const NoKeys := SampledTransform([], [], [], [], [], [], [], [], [], [], [])

  /** Appending one entry to every list appends one keyframe. */
  lemma RowsSnoc(st: SampledTransform, k: Key)
    requires st.Parallel()
    ensures var next := SampledTransform(
        st.at + [k.at],
        st.translationX + [k.translationX], st.translationY + [k.translationY], st.translationZ + [k.translationZ],
        st.scaleX + [k.scaleX], st.scaleY + [k.scaleY], st.scaleZ + [k.scaleZ],
        st.rotationW + [k.rotationW], st.rotationX + [k.rotationX], st.rotationY + [k.rotationY], st.rotationZ + [k.rotationZ]);
      next.Parallel() && next.Rows() == st.Rows() + [k]
  {
  }

  class Sampler {
    /** `mat4.decompose()`, a mathutils routine this model does not open. */
    const decompose: Mat4 -> TRS
    /** Index of the pose bone sampled, or none for the object itself. */
    const boneIndex: Option<nat>
    var previous: Option<Mat4>
    var lastEquals: Option<int>
    /** The clip's `sampled_transform`. */
    var clip: SampledTransform

    /** The value lists run in parallel, and the state is well formed. */
    predicate Valid()
      reads this
    {
      clip.Parallel() && WellFormed(Phase(previous, lastEquals, []))
    }

    /** The stored keyframes, one per index of the parallel lists. */
    function Keys(): (ks: seq<Key>)
      requires Valid()
      reads this
      ensures |ks| == |clip.at|
    {
      clip.Rows()
    }

    function State(): (ph: Phase)
      requires Valid()
      reads this
      ensures WellFormed(ph)
    {
      Phase(previous, lastEquals, Keys())
    }

    constructor(decompose: Mat4 -> TRS, boneIndex: Option<nat>)
      ensures Valid() && State() == Initial
      ensures this.decompose == decompose && this.boneIndex == boneIndex
    {
      this.decompose := decompose;
      this.boneIndex := boneIndex;
      previous, lastEquals := None, None;
      clip := NoKeys;
    }

    /** `_store`: one entry on every list, with the axis swap of `Rebase`. */
    method Store(t: int, m: Mat4)
      requires Valid()
      modifies this
      ensures Valid()
      ensures previous == old(previous) && lastEquals == old(lastEquals)
      ensures Keys() == old(Keys()) + [Rebase(t, decompose(m))]
    {
      var trs := decompose(m);
      RowsSnoc(clip, Rebase(t, trs));
      clip := clip.(
        at := clip.at + [t],
        translationX := clip.translationX + [trs.loc.x],
        translationY := clip.translationY + [trs.loc.z],
        translationZ := clip.translationZ + [-trs.loc.y],
        scaleX := clip.scaleX + [trs.sca.x],
        scaleY := clip.scaleY + [trs.sca.z],
        scaleZ := clip.scaleZ + [trs.sca.y],
        rotationW := clip.rotationW + [trs.rot.w],
        rotationX := clip.rotationX + [trs.rot.x],
        rotationY := clip.rotationY + [trs.rot.z],
        rotationZ := clip.rotationZ + [-trs.rot.y]);
    }

    /** `capture(t)`, with the sampled matrix passed in. */
    method Capture(t: int, m: Mat4)
      requires Valid() && IsMat4(m)
      modifies this
      ensures Valid()
      ensures State() == Step(decompose, old(State()), t, m)
    {
      var moved := true;
      if previous.Some? {
        var eq := EqualsMat4(m, previous.value, Tolerance);
        moved := !eq;
      }
      if moved {
        if lastEquals.Some? {
          Store(lastEquals.value, previous.value);
          lastEquals := None;
        }
        previous := Some(m);
        Store(t, m);
      } else {
        lastEquals := Some(t);
      }
    }
  }

  /** The frame loop of `export_obj_action` for one sampler: capture every
      sample in order; whatever equal run is pending at the end stays unstored. */
  method SampleClip(s: Sampler, samples: seq<Sample>)
    requires s.Valid() && AllMat4(samples)
    modifies s
    ensures s.Valid()
    ensures s.State() == Run(s.decompose, old(s.State()), samples)
  {
    for k := 0 to |samples|
      invariant s.Valid()
      invariant s.State() == Run(s.decompose, old(s.State()), samples[..k])
    {
      assert samples[..k + 1][..k] == samples[..k];
      s.Capture(samples[k].t, samples[k].m);
    }
    assert samples[..|samples|] == samples;
  }

  /** No sampler appears twice: each owns its own clip. */
  predicate Distinct(samplers: seq<Sampler>)
  {
    forall i, j :: 0 <= i < j < |samplers| ==> samplers[i] != samplers[j]
  }

  /** The matrices of one frame, one per sampler, all 4x4. */
  predicate FrameFits(samplers: seq<Sampler>, mats: seq<Mat4>)
  {
    |mats| == |samplers| && forall k :: 0 <= k < |mats| ==> IsMat4(mats[k])
  }

  /** The body of the frame loop of `export_obj_action`: every sampler
      captures the frame's time, each with its own matrix. */
  method CaptureFrame(samplers: seq<Sampler>, t: int, mats: seq<Mat4>)
    requires Distinct(samplers) && FrameFits(samplers, mats)
    requires forall k :: 0 <= k < |samplers| ==> samplers[k].Valid()
    modifies set s | s in samplers
    ensures forall k :: 0 <= k < |samplers| ==>
      samplers[k].Valid() && samplers[k].State() == Step(samplers[k].decompose, old(samplers[k].State()), t, mats[k])
  {
    for j := 0 to |samplers|
      invariant forall k :: 0 <= k < |samplers| ==> samplers[k].Valid()
      invariant forall k :: 0 <= k < j ==>
        samplers[k].State() == Step(samplers[k].decompose, old(samplers[k].State()), t, mats[k])
      invariant forall k :: j <= k < |samplers| ==> samplers[k].State() == old(samplers[k].State())
    {
      samplers[j].Capture(t, mats[j]);
    }
  }

  /** One sampled frame: its time and the matrix of every sampler's target. */
  datatype Frame = Frame(t: int, mats: seq<Mat4>)

  /** What sampler `k` sees over the frames. */
  function SamplesOf(frames: seq<Frame>, k: nat): (samples: seq<Sample>)
    requires forall f :: 0 <= f < |frames| ==> k < |frames[f].mats|
    ensures |samples| == |frames|
  {
    seq(|frames|, f requires 0 <= f < |frames| => Sample(frames[f].t, frames[f].mats[k]))
  }

  lemma SamplesOfSnoc(frames: seq<Frame>, f: nat, k: nat)
    requires f < |frames| && forall g :: 0 <= g < |frames| ==> k < |frames[g].mats|
    ensures SamplesOf(frames[..f + 1], k) == SamplesOf(frames[..f], k) + [Sample(frames[f].t, frames[f].mats[k])]
  {
  }

  /** The frame loop of `export_obj_action` (1101-1104): frame by frame,
      every sampler captures; each ends exactly as if it had run alone over
      its own samples, and nothing is flushed after the last frame. */
  method CaptureFrames(samplers: seq<Sampler>, frames: seq<Frame>)
    requires Distinct(samplers)
    requires forall f :: 0 <= f < |frames| ==> |frames[f].mats| == |samplers| && FrameFits(samplers, frames[f].mats)
    requires forall k :: 0 <= k < |samplers| ==> samplers[k].Valid()
    modifies set s | s in samplers
    ensures forall k :: 0 <= k < |samplers| ==>
      && AllMat4(SamplesOf(frames, k))
      && samplers[k].Valid()
      && samplers[k].State() == Run(samplers[k].decompose, old(samplers[k].State()), SamplesOf(frames, k))
  {
    for f := 0 to |frames|
      invariant forall k :: 0 <= k < |samplers| ==>
        && AllMat4(SamplesOf(frames[..f], k))
        && samplers[k].Valid()
        && samplers[k].State() == Run(samplers[k].decompose, old(samplers[k].State()), SamplesOf(frames[..f], k))
    {
      CaptureFrame(samplers, frames[f].t, frames[f].mats);
      forall k | 0 <= k < |samplers|
        ensures SamplesOf(frames[..f + 1], k) == SamplesOf(frames[..f], k) + [Sample(frames[f].t, frames[f].mats[k])]
      {
        SamplesOfSnoc(frames, f, k);
      }
    }
    assert frames[..|frames|] == frames;
  }

  /** One `capture` stores at least one keyframe exactly when there is no
      previous matrix or the new one moved past the tolerance; it then ends
      with the keyframe for `t`, preceded by the pending equal time (kept
      with the previous matrix) if there was one. Stored keyframes are never
      changed. */
  lemma StepStoresIff(decompose: Mat4 -> TRS, ph: Phase, t: int, m: Mat4)
    requires WellFormed(ph) && IsMat4(m)
    ensures var r := Step(decompose, ph, t, m);
      && r.keys[..|ph.keys|] == ph.keys
      && (|r.keys| > |ph.keys| <==> ph.previous.None? || !Close(m, ph.previous.value, Tolerance))
      && (|r.keys| > |ph.keys| ==>
            && r.keys[|r.keys| - 1] == Rebase(t, decompose(m))
            && |r.keys| == |ph.keys| + (if ph.lastEquals.Some? then 2 else 1)
            && (ph.lastEquals.Some? ==>
                  r.keys[|ph.keys|] == Rebase(ph.lastEquals.value, decompose(ph.previous.value))))
      && (|r.keys| == |ph.keys| ==> r.lastEquals == Some(t) && r.previous == ph.previous)
  {
    var r := Step(decompose, ph, t, m);
    if |r.keys| > |ph.keys| {
      assert r.keys[..|ph.keys|] == ph.keys;
    }
  }

  /** Capturing only keeps appending: earlier keyframes stay as they were. */
  lemma {:induction false} RunAppendOnly(decompose: Mat4 -> TRS, ph: Phase, samples: seq<Sample>)
    requires WellFormed(ph) && AllMat4(samples)
    ensures |Run(decompose, ph, samples).keys| >= |ph.keys|
    ensures Run(decompose, ph, samples).keys[..|ph.keys|] == ph.keys
  {
    if samples != [] {
      var n := |samples| - 1;
      var mid := Run(decompose, ph, samples[..n]);
      RunAppendOnly(decompose, ph, samples[..n]);
      StepStoresIff(decompose, mid, samples[n].t, samples[n].m);
      var r := Step(decompose, mid, samples[n].t, samples[n].m);
      assert r.keys[..|ph.keys|] == r.keys[..|mid.keys|][..|ph.keys|];
    }
  }

  /** While the pose stays within the tolerance of the stored matrix nothing
      is stored: only the pending time moves to the latest sample. A clip
      that ends in such a run leaves that time unstored. */
  lemma {:induction false} HeldPoseStoresNothing(decompose: Mat4 -> TRS, ph: Phase, samples: seq<Sample>)
    requires WellFormed(ph) && AllMat4(samples) && ph.previous.Some?
    requires forall i :: 0 <= i < |samples| ==> Close(samples[i].m, ph.previous.value, Tolerance)
    ensures Run(decompose, ph, samples).previous == ph.previous
    ensures Run(decompose, ph, samples).keys == ph.keys
    ensures Run(decompose, ph, samples).lastEquals ==
      if samples == [] then ph.lastEquals else Some(samples[|samples| - 1].t)
  {
    if samples != [] {
      HeldPoseStoresNothing(decompose, ph, samples[..|samples| - 1]);
    }
  }

  /** When the pose finally moves, the last time of the held run is stored
      with the matrix the run started from, then the new pose. */
  lemma PoseChangeFlushesHeldRun(decompose: Mat4 -> TRS, ph: Phase, held: seq<Sample>, s: Sample)
    requires WellFormed(ph) && AllMat4(held) && IsMat4(s.m) && ph.previous.Some? && held != []
    requires forall i :: 0 <= i < |held| ==> Close(held[i].m, ph.previous.value, Tolerance)
    requires !Close(s.m, ph.previous.value, Tolerance)
    ensures AllMat4(held + [s])
    ensures Run(decompose, ph, held + [s]) ==
      Phase(Some(s.m), None,
            ph.keys + [Rebase(held[|held| - 1].t, decompose(ph.previous.value)), Rebase(s.t, decompose(s.m))])
  {
    var all := held + [s];
    assert all[..|held|] == held;
    HeldPoseStoresNothing(decompose, ph, held);
  }

  /** The keyframe times of a phase increase, a pending time comes after
      them all, and a previous matrix has been stored. */
  predicate Ordered(ph: Phase)
  {
    && (ph.previous.Some? ==> |ph.keys| > 0)
    && (forall i, j :: 0 <= i < j < |ph.keys| ==> ph.keys[i].at < ph.keys[j].at)
    && (ph.lastEquals.Some? ==> |ph.keys| > 0 && ph.keys[|ph.keys| - 1].at < ph.lastEquals.value)
  }

  /** Every time the phase holds (stored or pending) is earlier than `t`. */
  predicate Before(ph: Phase, t: int)
  {
    && (forall i :: 0 <= i < |ph.keys| ==> ph.keys[i].at < t)
    && (ph.lastEquals.Some? ==> ph.lastEquals.value < t)
  }

  predicate IncreasingTimes(samples: seq<Sample>)
  {
    forall i, j :: 0 <= i < j < |samples| ==> samples[i].t < samples[j].t
  }

  lemma StepKeepsOrder(decompose: Mat4 -> TRS, ph: Phase, t: int, m: Mat4, later: int)
    requires WellFormed(ph) && IsMat4(m) && Ordered(ph) && Before(ph, t) && t < later
    ensures Ordered(Step(decompose, ph, t, m)) && Before(Step(decompose, ph, t, m), later)
  {
  }

  /** Sampling frames in increasing time order stores keyframes in strictly
      increasing time order, whatever the poses. */
  lemma {:induction false} RunKeepsOrder(decompose: Mat4 -> TRS, ph: Phase, samples: seq<Sample>, later: int)
    requires WellFormed(ph) && AllMat4(samples) && Ordered(ph) && IncreasingTimes(samples)
    requires samples != [] ==> Before(ph, samples[0].t) && samples[|samples| - 1].t < later
    requires samples == [] ==> Before(ph, later)
    ensures Ordered(Run(decompose, ph, samples)) && Before(Run(decompose, ph, samples), later)
  {
    if samples != [] {
      var n := |samples| - 1;
      var head := samples[..n];
      if n == 0 {
        StepKeepsOrder(decompose, ph, samples[n].t, samples[n].m, later);
      } else {
        RunKeepsOrder(decompose, ph, head, samples[n].t);
        StepKeepsOrder(decompose, Run(decompose, ph, head), samples[n].t, samples[n].m, later);
      }
    }
  }

  /** Stored keyframes increase strictly in time from a fresh sampler. */
  lemma FreshRunOrdered(decompose: Mat4 -> TRS, samples: seq<Sample>)
    requires AllMat4(samples) && IncreasingTimes(samples)
    ensures forall i, j :: 0 <= i < j < |Run(decompose, Initial, samples).keys| ==>
      Run(decompose, Initial, samples).keys[i].at < Run(decompose, Initial, samples).keys[j].at
  {
    var later := if samples == [] then 0 else samples[|samples| - 1].t + 1;
    RunKeepsOrder(decompose, Initial, samples, later);
  }

  /** Everything a fresh sampler holds comes from the samples: each keyframe
      is the time of one sample with the matrix of the same or an earlier
      sample, the previous matrix is a sampled one and a pending time is a
      sampled time. */
  predicate FromSamples(decompose: Mat4 -> TRS, ph: Phase, samples: seq<Sample>)
  {
    && (forall k :: 0 <= k < |ph.keys| ==>
          exists i, j :: 0 <= j <= i < |samples| && ph.keys[k] == Rebase(samples[i].t, decompose(samples[j].m)))
    && (ph.previous.Some? ==> exists j :: 0 <= j < |samples| && ph.previous.value == samples[j].m)
    && (ph.lastEquals.Some? ==>
          exists i, j :: 0 <= j <= i < |samples| && ph.lastEquals.value == samples[i].t && ph.previous == Some(samples[j].m))
  }

  /** One capture keeps every keyframe traceable to the samples seen. */
  lemma StepFromSamples(decompose: Mat4 -> TRS, mid: Phase, head: seq<Sample>, s: Sample)
    requires WellFormed(mid) && IsMat4(s.m) && FromSamples(decompose, mid, head)
    ensures FromSamples(decompose, Step(decompose, mid, s.t, s.m), head + [s])
  {
    var samples := head + [s];
    var n := |head|;
    var r := Step(decompose, mid, s.t, s.m);
    assert samples[n] == s;
    forall k | 0 <= k < |r.keys|
      ensures exists i, j :: 0 <= j <= i < |samples| && r.keys[k] == Rebase(samples[i].t, decompose(samples[j].m))
    {
      StepKeyFromSamples(decompose, mid, head, s, k);
    }
    if r.previous.Some? {
      if r.previous == mid.previous {
        var j :| 0 <= j < |head| && mid.previous.value == head[j].m;
        assert samples[j] == head[j];
      } else {
        assert r.previous.value == samples[n].m;
      }
    }
    if r.lastEquals.Some? {
      var j :| 0 <= j < |head| && mid.previous.value == head[j].m;
      assert samples[j] == head[j];
      assert r.lastEquals.value == samples[n].t && r.previous == Some(samples[j].m);
    }
  }

  lemma StepKeyFromSamples(decompose: Mat4 -> TRS, mid: Phase, head: seq<Sample>, s: Sample, k: nat)
    requires WellFormed(mid) && IsMat4(s.m) && FromSamples(decompose, mid, head)
    requires k < |Step(decompose, mid, s.t, s.m).keys|
    ensures var samples := head + [s];
      exists i, j :: 0 <= j <= i < |samples| &&
        Step(decompose, mid, s.t, s.m).keys[k] == Rebase(samples[i].t, decompose(samples[j].m))
  {
    var samples := head + [s];
    var n := |head|;
    var r := Step(decompose, mid, s.t, s.m);
    if k < |mid.keys| {
      assert r.keys[k] == mid.keys[k];
      var i, j :| 0 <= j <= i < |head| && mid.keys[k] == Rebase(head[i].t, decompose(head[j].m));
      assert samples[i] == head[i] && samples[j] == head[j];
    } else if k == |r.keys| - 1 {
      assert samples[n] == s;
      assert r.keys[k] == Rebase(samples[n].t, decompose(samples[n].m));
    } else {
      var i, j :| 0 <= j <= i < |head| && mid.lastEquals.value == head[i].t && mid.previous == Some(head[j].m);
      assert samples[i] == head[i] && samples[j] == head[j];
      assert r.keys[k] == Rebase(samples[i].t, decompose(samples[j].m));
    }
  }

  /** Every stored keyframe pairs the time of one sample with the matrix of
      the same or an earlier sample; nothing is made up. */
  lemma {:induction false} RunFromSamples(decompose: Mat4 -> TRS, samples: seq<Sample>)
    requires AllMat4(samples)
    ensures FromSamples(decompose, Run(decompose, Initial, samples), samples)
  {
    if samples != [] {
      var n := |samples| - 1;
      var head := samples[..n];
      RunFromSamples(decompose, head);
      StepFromSamples(decompose, Run(decompose, Initial, head), head, samples[n]);
      assert head + [samples[n]] == samples;
    }
  }
}
