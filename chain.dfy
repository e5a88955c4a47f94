/**
 * What the track engine's signal chain computes, as values. A unit (a loaded
 * plugin) is a kernel from the contents of its input channels to its output
 * samples; the engine runs the synth, then each occupied effect slot in order,
 * feeding every effect the first two output channels of the unit before it
 * (or silence), and hands the last unit's first two outputs to the driver.
 */
module Chain {
  import opened Scalars
  import opened Opt

  type Sample = Float32
  type Channel = seq<Sample>

  /**
   * A unit's `process(nframes, ins, outs)`: the sample written to output
   * channel `j` at frame `k`, given the input channels (each `nframes` long)
   * and `nframes`.
   */
  type Kernel = (seq<Channel>, nat, nat, nat) -> Sample

  datatype UnitModel = UnitModel(inputs: nat, outputs: nat, kernel: Kernel)

  /** The two channels the engine passes from unit to unit and to the driver. */
  datatype Stereo = Stereo(left: Channel, right: Channel)

  /** A unit in a slot, with what its input channels hold before the engine runs. */
  datatype Stage = Stage(unit: UnitModel, resting: seq<Channel>)

  /** `std::fill(p, p + n, 0)`. */
  function Silence(n: nat): (r: Channel)
    ensures |r| == n && forall k :: 0 <= k < n ==> r[k] == Zero
  {
    seq(n, _ => Zero)
  }

  /** The output channels of one `process` call over `n` frames. */
  function Render(u: UnitModel, ins: seq<Channel>, n: nat): (r: seq<Channel>)
    ensures |r| == u.outputs
    ensures forall j :: 0 <= j < |r| ==> |r[j]| == n
    ensures forall j, k :: 0 <= j < |r| && 0 <= k < n ==> r[j][k] == u.kernel(ins, n, j, k)
  {
    seq(u.outputs, j requires 0 <= j => seq(n, k requires 0 <= k => u.kernel(ins, n, j, k)))
  }

  /** A unit the engine can feed and read: two or more outputs, and its input channels present. */
  predicate Playable(st: Stage, n: nat) {
    st.unit.outputs >= 2 && |st.resting| == st.unit.inputs &&
    forall c :: 0 <= c < |st.resting| ==> |st.resting[c]| == n
  }

  /** An effect the engine can feed: also two or more inputs. */
  predicate Insertable(st: Stage, n: nat) {
    Playable(st, n) && st.unit.inputs >= 2
  }

  /** Channels 0 and 1 of a unit's outputs. */
  function StereoOf(chs: seq<Channel>): Stereo
    requires |chs| >= 2
  {
    Stereo(chs[0], chs[1])
  }

  function Quiet(n: nat): Stereo {
    Stereo(Silence(n), Silence(n))
  }

  /** The final source's two channels, or silence when no unit ran. */
  function Final(last: Option<Stereo>, n: nat): Stereo {
    if last.None? then Quiet(n) else last.value
  }

  /**
   * What an effect's input channels hold when it runs: channels 0 and 1 from
   * the source, or silence when there is none, and the others as they were.
   */
  function Feed(st: Stage, src: Option<Stereo>, n: nat): (r: seq<Channel>)
    requires |st.resting| >= 2
    ensures |r| == |st.resting| && r[2..] == st.resting[2..]
    ensures src.None? ==> r[0] == Silence(n) && r[1] == Silence(n)
    ensures src.Some? ==> r[0] == src.value.left && r[1] == src.value.right
  {
    var s := Final(src, n);
    [s.left, s.right] + st.resting[2..]
  }

  /** Every occupied slot holds an effect the engine can feed. */
  predicate Slots(effects: seq<Option<Stage>>, n: nat) {
    forall i :: 0 <= i < |effects| && effects[i].Some? ==> Insertable(effects[i].value, n)
  }

  /** The synth's first two outputs, or nothing when the slot is empty. */
  function Start(synth: Option<Stage>, n: nat): Option<Stereo>
    requires synth.Some? ==> Playable(synth.value, n)
  {
    if synth.None? then None else Some(StereoOf(Render(synth.value.unit, synth.value.resting, n)))
  }

  /** One effect slot: an empty slot passes the source on, an occupied one replaces it. */
  function Step(src: Option<Stereo>, slot: Option<Stage>, n: nat): Option<Stereo>
    requires slot.Some? ==> Insertable(slot.value, n)
  {
    if slot.None? then src
    else Some(StereoOf(Render(slot.value.unit, Feed(slot.value, src, n), n)))
  }

  /** The source after the effect slots, taken in order. */
  function Walk(src: Option<Stereo>, effects: seq<Option<Stage>>, n: nat): Option<Stereo>
    requires Slots(effects, n)
  {
    if effects == [] then src
    else Step(Walk(src, effects[..|effects| - 1], n), effects[|effects| - 1], n)
  }

  /** What the engine writes to the two driver outputs. */
  function Output(synth: Option<Stage>, effects: seq<Option<Stage>>, n: nat): Stereo
    requires synth.Some? ==> Playable(synth.value, n)
    requires Slots(effects, n)
  {
    Final(Walk(Start(synth, n), effects, n), n)
  }

  // ---------------------------------------------------------------------
  // Properties

  lemma WalkSnoc(src: Option<Stereo>, effects: seq<Option<Stage>>, slot: Option<Stage>, n: nat)
    requires Slots(effects, n) && (slot.Some? ==> Insertable(slot.value, n))
    ensures Slots(effects + [slot], n)
    ensures Walk(src, effects + [slot], n) == Step(Walk(src, effects, n), slot, n)
  {
    var e := effects + [slot];
    assert e[..|effects|] == effects;
    assert e[|effects|] == slot;
  }

  /** The source only ever comes from an occupied slot: no units, no source. */
  lemma {:induction false} WalkAllEmpty(src: Option<Stereo>, effects: seq<Option<Stage>>, n: nat)
    requires forall i :: 0 <= i < |effects| ==> effects[i].None?
    ensures Walk(src, effects, n) == src
    decreases |effects|
  {
    if effects != [] {
      WalkAllEmpty(src, effects[..|effects| - 1], n);
    }
  }

  /** With no synth and every effect slot empty, both outputs are silent. */
  lemma EmptyChainSilent(effects: seq<Option<Stage>>, n: nat)
    requires forall i :: 0 <= i < |effects| ==> effects[i].None?
    ensures Output(None, effects, n) == Stereo(Silence(n), Silence(n))
  {
    WalkAllEmpty(None, effects, n);
  }

  /** With every effect slot empty, the outputs are the synth's first two channels. */
  lemma SynthOnly(synth: Stage, effects: seq<Option<Stage>>, n: nat)
    requires Playable(synth, n)
    requires forall i :: 0 <= i < |effects| ==> effects[i].None?
    ensures Output(Some(synth), effects, n) == StereoOf(Render(synth.unit, synth.resting, n))
  {
    WalkAllEmpty(Start(Some(synth), n), effects, n);
  }

  /** The occupied slots, in order. */
  function Occupied(effects: seq<Option<Stage>>): (r: seq<Option<Stage>>)
    ensures forall i :: 0 <= i < |r| ==> r[i].Some?
  {
    if effects == [] then []
    else
      var last := effects[|effects| - 1];
      Occupied(effects[..|effects| - 1]) + (if last.Some? then [last] else [])
  }

  lemma {:induction false} OccupiedSlots(effects: seq<Option<Stage>>, n: nat)
    requires Slots(effects, n)
    ensures Slots(Occupied(effects), n)
    decreases |effects|
  {
    if effects != [] {
      var init := effects[..|effects| - 1];
      var slot := effects[|effects| - 1];
      OccupiedSlots(init, n);
      if slot.Some? {
        WalkSnoc(None, Occupied(init), slot, n);
      } else {
        assert Occupied(effects) == Occupied(init);
      }
    }
  }

  /** Empty slots are skipped: the chain computes the same as its occupied slots alone. */
  lemma {:induction false} SkipEmptySlots(src: Option<Stereo>, effects: seq<Option<Stage>>, n: nat)
    requires Slots(effects, n)
    ensures Slots(Occupied(effects), n)
    ensures Walk(src, effects, n) == Walk(src, Occupied(effects), n)
    decreases |effects|
  {
    if effects != [] {
      var init := effects[..|effects| - 1];
      var slot := effects[|effects| - 1];
      SkipEmptySlots(src, init, n);
      OccupiedSlots(init, n);
      OccupiedSlots(effects, n);
      if slot.Some? {
        WalkSnoc(src, Occupied(init), slot, n);
      } else {
        assert Occupied(effects) == Occupied(init);
      }
    }
  }

  /**
   * The outputs are the last occupied effect's first two channels, fed by
   * the chain before it: nothing after the last occupied slot matters.
   */
  lemma LastOccupiedDecides(synth: Option<Stage>, effects: seq<Option<Stage>>, k: nat, n: nat)
    requires synth.Some? ==> Playable(synth.value, n)
    requires Slots(effects, n)
    requires k < |effects| && effects[k].Some?
    requires forall i :: k < i < |effects| ==> effects[i].None?
    ensures Slots(effects[..k], n)
    ensures Output(synth, effects, n)
         == StereoOf(Render(effects[k].value.unit, Feed(effects[k].value, Walk(Start(synth, n), effects[..k], n), n), n))
  {
    var src := Start(synth, n);
    WalkSplit(src, effects, k + 1, n);
    WalkAllEmpty(Walk(src, effects[..k + 1], n), effects[k + 1..], n);
    WalkSnoc(src, effects[..k], effects[k], n);
    assert effects[..k + 1] == effects[..k] + [effects[k]];
  }

  /** Walking a chain is walking its first `m` slots, then the rest. */
  lemma {:induction false} WalkSplit(src: Option<Stereo>, effects: seq<Option<Stage>>, m: nat, n: nat)
    requires Slots(effects, n) && m <= |effects|
    ensures Slots(effects[..m], n) && Slots(effects[m..], n)
    ensures Walk(src, effects, n) == Walk(Walk(src, effects[..m], n), effects[m..], n)
    decreases |effects|
  {
    if m < |effects| {
      var init := effects[..|effects| - 1];
      WalkSplit(src, init, m, n);
      assert init[..m] == effects[..m];
      assert effects[m..] == init[m..] + [effects[|effects| - 1]];
      WalkSnoc(Walk(src, effects[..m], n), init[m..], effects[|effects| - 1], n);
    } else {
      assert effects[..m] == effects;
    }
  }
}
