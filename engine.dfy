/**
 * The host's track engine (host/src/engine.h, host/src/engine.cpp): one synth
 * slot and four effect slots, each holding a `trackitem` that owns a loaded
 * plugin and the sample regions of its input and output channels.
 *
 * A plugin is a `Unit`: its channel counts, the kernel its `process` computes
 * (see `Chain.Kernel`) and the log of the lifecycle and MIDI calls it has
 * received. The spin lock is given sequential semantics: every method here
 * runs as one atomic step, so a `process` sees the slots either before or
 * after a `set_synth`/`set_effect`.
 */
module Engine {
  import opened Scalars
  import opened Opt
  import opened Chain

  /** A call the engine makes on a plugin that the plugin can observe. */
  datatype Call = Reference | Activate | Deactivate | Release | MidiEvent(event: seq<byte>)

  /** A loaded plugin as the host sees it through `plum::iplugin`. */
  class Unit {
    const inputs: nat
    const outputs: nat
    const kernel: Kernel
    var calls: seq<Call>

    constructor (inputs: nat, outputs: nat, kernel: Kernel)
      ensures this.inputs == inputs && this.outputs == outputs && this.kernel == kernel
      ensures calls == []
    {
      this.inputs := inputs;
      this.outputs := outputs;
      this.kernel := kernel;
      calls := [];
    }

    function Model(): UnitModel {
      UnitModel(inputs, outputs, kernel)
    }

    /** One call into the plugin. */
    method Receive(c: Call)
      modifies this
      ensures calls == old(calls) + [c]
    {
      calls := calls + [c];
    }
  }

  /**
   * `trackitem::allocate_io`: the offsets of the input and output channel
   * regions in one buffer of `size` samples, `bufferSize` samples per channel,
   * inputs first.
   */
  method AllocateIo(ni: nat, no: nat, bufferSize: nat) returns (ins: seq<nat>, outs: seq<nat>, size: nat)
    ensures size == bufferSize * (ni + no)
    ensures |ins| == ni && forall i :: 0 <= i < ni ==> ins[i] == i * bufferSize
    ensures |outs| == no && forall j :: 0 <= j < no ==> outs[j] == (ni + j) * bufferSize
  {
    ins := seq(ni, _ => 0);
    outs := seq(no, _ => 0);
    size := bufferSize * (ni + no);
    var i := 0;
    var k := 0;
    while i < ni
      invariant i <= ni && |ins| == ni && k == i * bufferSize
      invariant forall c :: 0 <= c < i ==> ins[c] == c * bufferSize
    {
      ins := ins[i := k];
      i, k := i + 1, k + bufferSize;
    }
    i := 0;
    while i < no
      invariant i <= no && |outs| == no && k == (ni + i) * bufferSize
      invariant forall c :: 0 <= c < i ==> outs[c] == (ni + c) * bufferSize
    {
      outs := outs[i := k];
      i, k := i + 1, k + bufferSize;
    }
  }

  /**
   * The channel regions `AllocateIo` lays out, `bufferSize` samples from
   * `c * bufferSize` for channel `c` (inputs, then outputs), do not overlap
   * and lie inside the buffer: an earlier region ends where a later one may
   * at the earliest begin, and the last one ends by the buffer's size.
   */
  lemma {:induction false} RegionsDisjoint(ni: nat, no: nat, bufferSize: nat, a: nat, b: nat)
    requires a < b < ni + no
    ensures a * bufferSize + bufferSize <= b * bufferSize
    ensures b * bufferSize + bufferSize <= bufferSize * (ni + no)
  {
    assert a * bufferSize + bufferSize == (a + 1) * bufferSize;
    assert b * bufferSize + bufferSize == (b + 1) * bufferSize;
    MulMonotone(a + 1, b, bufferSize);
    MulMonotone(b + 1, ni + no, bufferSize);
  }

  lemma MulMonotone(x: nat, y: nat, k: nat)
    requires x <= y
    ensures x * k <= y * k
  {
    assert y * k == x * k + (y - x) * k;
  }

  /** `b` is `a` with `mid` written over its first `|mid|` samples. */
  lemma Splice(a: seq<Sample>, b: seq<Sample>, mid: seq<Sample>)
    requires |a| == |b| && |mid| <= |a|
    requires forall k :: 0 <= k < |b| ==> b[k] == if k < |mid| then mid[k] else a[k]
    ensures b == mid + a[|mid|..]
  {
    var c := mid + a[|mid|..];
    forall k | 0 <= k < |b|
      ensures b[k] == c[k]
    {
      if k >= |mid| {
        assert c[k] == a[k];
      }
    }
  }

  /** `std::fill(dst, dst + n, 0)` on a driver buffer. */
  method FillZero(dst: array<Sample>, n: nat)
    requires n <= dst.Length
    modifies dst
    ensures dst[..] == Silence(n) + old(dst[n..])
  {
    ghost var before := dst[..];
    forall k | 0 <= k < n {
      dst[k] := Zero;
    }
    Splice(before, dst[..], Silence(n));
  }

  /**
   * A slot's `trackitem`: a plugin and the buffer its channels live in.
   *
   * The source keeps one vector of `buffersize * (ni + no)` floats and points
   * `ins[c]` and `outs[j]` at consecutive `buffersize`-sample regions of it
   * (`AllocateIo`). The model keeps those regions as the elements of
   * `buffers`: input channel `c` is `buffers[c]`, output channel `j` is
   * `buffers[|ins| + j]`, each `buffersize` samples long.
   */
  class TrackItem {
    const plugin: Unit
    const buffersize: nat
    const ins: seq<nat>
    const outs: seq<nat>
    const buffers: array<Channel>

    /** One region per channel of the plugin, each `buffersize` samples long. */
    ghost predicate Valid()
      reads buffers
    {
      |ins| == plugin.inputs && |outs| == plugin.outputs &&
      buffers.Length == |ins| + |outs| &&
      forall c :: 0 <= c < buffers.Length ==> |buffers[c]| == buffersize
    }

    /**
     * `trackitem::trackitem`: references the plugin, allocates its channel
     * regions (a resized vector is zero-filled), then activates it.
     */
    constructor (p: Unit, bufferSize: uint32)
      modifies p
      ensures plugin == p && buffersize == bufferSize && Valid() && fresh(buffers)
      ensures forall c :: 0 <= c < buffers.Length ==> buffers[c] == Silence(bufferSize)
      ensures forall c :: 0 <= c < |ins| ==> ins[c] == c * bufferSize
      ensures forall j :: 0 <= j < |outs| ==> outs[j] == (|ins| + j) * bufferSize
      ensures p.calls == old(p.calls) + [Reference, Activate]
    {
      plugin := p;
      p.Receive(Reference);
      var i, o, size := AllocateIo(p.inputs, p.outputs, bufferSize);
      buffersize := bufferSize;
      ins := i;
      outs := o;
      buffers := new Channel[p.inputs + p.outputs](_ => Silence(bufferSize));
      new;
      p.Receive(Activate);
    }

    /** `trackitem::~trackitem`: deactivates, then releases the plugin. */
    method Destroy()
      modifies plugin
      ensures plugin.calls == old(plugin.calls) + [Deactivate, Release]
    {
      plugin.Receive(Deactivate);
      plugin.Receive(Release);
    }

    /** The first `n` frames of each input channel. */
    function Inputs(n: nat): (r: seq<Channel>)
      requires Valid() && n <= buffersize
      reads buffers
      ensures |r| == |ins| && forall c :: 0 <= c < |r| ==> r[c] == buffers[c][..n]
    {
      var b := buffers[..];
      seq(|ins|, c requires 0 <= c < |ins| => b[c][..n])
    }

    /** The first `n` frames of output channel `j`. */
    function Out(j: nat, n: nat): (r: Channel)
      requires Valid() && n <= buffersize && j < |outs|
      reads buffers
      ensures |r| == n
    {
      buffers[|ins| + j][..n]
    }

    /** The first `n` frames of each output channel. */
    function Outputs(n: nat): (r: seq<Channel>)
      requires Valid() && n <= buffersize
      reads buffers
      ensures |r| == |outs| && forall j :: 0 <= j < |r| ==> r[j] == Out(j, n)
    {
      var b := buffers[..];
      seq(|outs|, j requires 0 <= j < |outs| => b[|ins| + j][..n])
    }

    /** The unit in its slot, with what its input channels hold now. */
    function AsStage(n: nat): (r: Stage)
      requires Valid() && n <= buffersize
      reads buffers
      ensures plugin.outputs >= 2 ==> Playable(r, n)
    {
      Stage(plugin.Model(), Inputs(n))
    }

    /**
     * `trackitem::process`: the plugin renders `n` frames from its input
     * channels into its output channels; the inputs, and every frame past
     * `n`, are left as they were.
     */
    method Process(n: nat)
      requires Valid() && n <= buffersize
      modifies buffers
      ensures Valid()
      ensures Outputs(n) == Render(plugin.Model(), old(Inputs(n)), n)
      ensures Inputs(n) == old(Inputs(n))
      ensures forall c :: 0 <= c < buffers.Length ==> buffers[c][n..] == old(buffers[c][n..])
    {
      var rendered := Render(plugin.Model(), Inputs(n), n);
      forall j | 0 <= j < |outs| {
        buffers[|ins| + j] := rendered[j] + buffers[|ins| + j][n..];
      }
      assert forall j :: 0 <= j < |outs| ==> Outputs(n)[j] == rendered[j];
    }

    /** `std::fill(target[c], target[c] + n, 0)` on input channel `c`. */
    method Clear(c: nat, n: nat)
      requires Valid() && c < |ins| && n <= buffersize
      modifies buffers
      ensures Valid()
      ensures buffers[c] == Silence(n) + old(buffers[c][n..])
      ensures forall i :: 0 <= i < buffers.Length && i != c ==> buffers[i] == old(buffers[i])
    {
      buffers[c] := Silence(n) + buffers[c][n..];
    }

    /** `trackitem::copy(n, index, target[c])`: output `index` into `target`'s input channel `c`. */
    method CopyInto(n: nat, index: nat, target: TrackItem, c: nat)
      requires Valid() && n <= buffersize && index < |outs|
      requires target.Valid() && n <= target.buffersize && c < |target.ins| && target.buffers != buffers
      modifies target.buffers
      ensures target.Valid()
      ensures target.buffers[c] == Out(index, n) + old(target.buffers[c][n..])
      ensures forall i :: 0 <= i < target.buffers.Length && i != c ==> target.buffers[i] == old(target.buffers[i])
    {
      target.buffers[c] := buffers[|ins| + index][..n] + target.buffers[c][n..];
    }

    /** `trackitem::copy(n, index, dst)`: output `index` into a driver buffer. */
    method CopyOut(n: nat, index: nat, dst: array<Sample>)
      requires Valid() && n <= buffersize && index < |outs| && n <= dst.Length
      modifies dst
      ensures dst[..] == Out(index, n) + old(dst[n..])
    {
      ghost var before := dst[..];
      forall k | 0 <= k < n {
        dst[k] := buffers[|ins| + index][k];
      }
      Splice(before, dst[..], Out(index, n));
    }
  }

  /** What a slot's unit last left in its first two output channels, or nothing for no unit. */
  function Emitted(item: TrackItem?, n: nat): (r: Option<Stereo>)
    requires item != null ==> item.Valid() && n <= item.buffersize && |item.outs| >= 2
    reads if item != null then {item.buffers} else {}
    ensures r.Some? <==> item != null
    ensures r.Some? ==> |r.value.left| == n && |r.value.right| == n
  {
    if item == null then None else Some(Stereo(item.Out(0, n), item.Out(1, n)))
  }

  /** A slot's unit as a chain stage, with what its inputs hold now. */
  ghost function StageOf(item: TrackItem?, n: nat): (r: Option<Stage>)
    requires item != null ==> item.Valid() && n <= item.buffersize
    reads if item != null then {item.buffers} else {}
    ensures r.Some? <==> item != null
  {
    if item == null then None else Some(item.AsStage(n))
  }

  /**
   * The three branches of `track_engine::process` that fill an effect's
   * first two input channels: zeros when there is no source, else a copy of
   * the source's first two outputs.
   */
  method FeedInputs(source: TrackItem?, target: TrackItem, n: nat)
    requires target.Valid() && n <= target.buffersize && |target.ins| >= 2
    requires source != null ==> source.Valid() && n <= source.buffersize && |source.outs| >= 2
    requires source != null ==> source.buffers != target.buffers
    modifies target.buffers
    ensures target.Valid()
    ensures target.Inputs(n) == Feed(old(target.AsStage(n)), old(Emitted(source, n)), n)
    ensures forall c :: 0 <= c < target.buffers.Length ==> target.buffers[c][n..] == old(target.buffers[c][n..])
  {
    if source == null {
      target.Clear(0, n);
      target.Clear(1, n);
    } else {
      source.CopyInto(n, 0, target, 0);
      source.CopyInto(n, 1, target, 1);
    }
    assert forall c :: 2 <= c < |target.ins| ==> target.Inputs(n)[c] == old(target.Inputs(n))[c];
  }

  /** The last branch of `track_engine::process`: the source's two channels, or zeros, to the driver. */
  method Emit(source: TrackItem?, outL: array<Sample>, outR: array<Sample>, n: nat)
    requires source != null ==> source.Valid() && n <= source.buffersize && |source.outs| >= 2
    requires outL != outR && n <= outL.Length && n <= outR.Length
    modifies outL, outR
    ensures outL[..] == old(Final(Emitted(source, n), n)).left + old(outL[n..])
    ensures outR[..] == old(Final(Emitted(source, n), n)).right + old(outR[n..])
  {
    if source == null {
      FillZero(outL, n);
      FillZero(outR, n);
    } else {
      source.CopyOut(n, 0, outL);
      source.CopyOut(n, 1, outR);
    }
  }

  /** The synth's turn in `track_engine::process`: its outputs start the chain. */
  method RunSynth(item: TrackItem, n: nat)
    requires item.Valid() && n <= item.buffersize && |item.outs| >= 2
    modifies item.buffers
    ensures item.Valid()
    ensures Emitted(item, n) == Start(old(StageOf(item, n)), n)
  {
    item.Process(n);
  }

  /** An occupied effect slot's turn: fed by the source, it replaces the source. */
  method RunEffect(source: TrackItem?, target: TrackItem, n: nat)
    requires target.Valid() && n <= target.buffersize && |target.ins| >= 2 && |target.outs| >= 2
    requires source != null ==> source.Valid() && n <= source.buffersize && |source.outs| >= 2
    requires source != null ==> source.buffers != target.buffers
    modifies target.buffers
    ensures target.Valid()
    ensures Emitted(target, n) == Step(old(Emitted(source, n)), old(StageOf(target, n)), n)
  {
    FeedInputs(source, target, n);
    target.Process(n);
  }

  /** The buffer an occupied slot owns. */
  ghost function Held(item: TrackItem?): set<array<Channel>> {
    if item == null then {} else {item.buffers}
  }

  /** `track_engine`: the slots and the buffer size new `trackitem`s are sized for. */
  class TrackEngine {
    var bufferSize: uint32
    var sampleRate: uint32
    var synth: TrackItem?
    var effects: seq<TrackItem?>
    /** Whether `reset` has run, so that `bufferSize` holds a value. */
    ghost var configured: bool

    /** Four effect slots; every slot's item laid out, and no two slots share a buffer. */
    ghost predicate Valid()
      reads this, Buffers()
    {
      |effects| == 4 &&
      (synth != null ==> synth.Valid()) &&
      (forall i :: 0 <= i < |effects| && effects[i] != null ==> effects[i].Valid()) &&
      (forall i :: 0 <= i < |effects| && effects[i] != null && synth != null ==> effects[i].buffers != synth.buffers) &&
      (forall i, j :: 0 <= i < j < |effects| && effects[i] != null && effects[j] != null ==>
         effects[i].buffers != effects[j].buffers)
    }

    /** The buffers of all occupied slots. */
    ghost function Buffers(): set<object>
      reads this
    {
      Held(synth) + EffectBuffers()
    }

    /** The buffers of the occupied effect slots (there are always four). */
    ghost function EffectBuffers(): set<object>
      reads this
    {
      if |effects| != 4 then {} else Held(effects[0]) + Held(effects[1]) + Held(effects[2]) + Held(effects[3])
    }

    /**
     * The engine as constructed: no synth and four empty effect slots.
     * `m_buffersize` has no initialiser; `configured` records that.
     */
    constructor ()
      ensures Valid() && !configured
      ensures synth == null && effects == [null, null, null, null]
    {
      bufferSize := 0;
      sampleRate := 0;
      synth := null;
      effects := [null, null, null, null];
      configured := false;
    }

    /** `track_engine::max_effects`: the number of effect slots. */
    method MaxEffects() returns (count: uint32)
      requires Valid()
      ensures count == |effects| == 4
    {
      count := |effects|;
    }

    /** `track_engine::reset`: records the driver's buffer size and sample rate. */
    method Reset(size: uint32, rate: uint32)
      modifies this
      ensures bufferSize == size && sampleRate == rate && configured
      ensures synth == old(synth) && effects == old(effects)
    {
      bufferSize := size;
      sampleRate := rate;
      configured := true;
    }

    /**
     * `track_engine::set_synth`: a new `trackitem` for `s` (none for null)
     * takes the synth slot; the displaced item is then destroyed.
     */
    method SetSynth(s: Unit?)
      requires Valid() && configured
      modifies this, s, if synth != null then {synth.plugin} else {}
      ensures Valid() && configured
      ensures bufferSize == old(bufferSize) && sampleRate == old(sampleRate) && effects == old(effects)
      ensures s == null ==> synth == null
      ensures s != null ==> synth != null && fresh(synth) && synth.plugin == s && synth.buffersize == bufferSize
      ensures s != null && (old(synth) == null || old(synth).plugin != s) ==>
        s.calls == old(s.calls) + [Reference, Activate]
      ensures old(synth) != null && old(synth).plugin != s ==>
        old(synth).plugin.calls == old(synth.plugin.calls) + [Deactivate, Release]
      ensures s != null && old(synth) != null && old(synth).plugin == s ==>
        s.calls == old(s.calls) + [Reference, Activate, Deactivate, Release]
    {
      var previous := synth;
      var item: TrackItem? := null;
      if s != null {
        item := new TrackItem(s, bufferSize);
      }
      synth := item;
      if previous != null {
        previous.Destroy();
      }
    }

    /**
     * `track_engine::set_effect`: a new `trackitem` for `e` (none for null)
     * takes effect slot `index`; the displaced item is then destroyed.
     */
    method SetEffect(e: Unit?, index: nat)
      requires Valid() && configured && index < |effects|
      modifies this, e, if effects[index] != null then {effects[index].plugin} else {}
      ensures Valid() && configured
      ensures bufferSize == old(bufferSize) && sampleRate == old(sampleRate) && synth == old(synth)
      ensures |effects| == |old(effects)| && forall i :: 0 <= i < |effects| && i != index ==> effects[i] == old(effects[i])
      ensures e == null ==> effects[index] == null
      ensures e != null ==>
        effects[index] != null && fresh(effects[index]) && effects[index].plugin == e &&
        effects[index].buffersize == bufferSize
      ensures e != null && (old(effects[index]) == null || old(effects[index]).plugin != e) ==>
        e.calls == old(e.calls) + [Reference, Activate]
      ensures old(effects[index]) != null && old(effects[index]).plugin != e ==>
        old(effects[index]).plugin.calls == old(effects[index].plugin.calls) + [Deactivate, Release]
      ensures e != null && old(effects[index]) != null && old(effects[index]).plugin == e ==>
        e.calls == old(e.calls) + [Reference, Activate, Deactivate, Release]
    {
      var previous := effects[index];
      var item: TrackItem? := null;
      if e != null {
        item := new TrackItem(e, bufferSize);
      }
      effects := effects[index := item];
      if previous != null {
        previous.Destroy();
      }
    }

    /** `track_engine::midi`: the event goes to the synth's plugin, if there is a synth. */
    method Midi(event: seq<byte>)
      requires Valid()
      modifies if synth != null then {synth.plugin} else {}
      ensures synth != null ==> synth.plugin.calls == old(synth.plugin.calls) + [MidiEvent(event)]
    {
      if synth != null {
        synth.plugin.Receive(MidiEvent(event));
      }
    }

    /**
     * The slot shapes `process` relies on for `n` frames: the synth has two
     * outputs, every effect two inputs and two outputs, every item room for
     * `n` frames per channel.
     */
    ghost predicate Ready(n: nat)
      reads this
    {
      (synth != null ==> |synth.outs| >= 2 && n <= synth.buffersize) &&
      forall i :: 0 <= i < |effects| && effects[i] != null ==>
        |effects[i].ins| >= 2 && |effects[i].outs| >= 2 && n <= effects[i].buffersize
    }

    /** The synth slot as a chain stage, its inputs as they are now. */
    ghost function SynthStage(n: nat): (r: Option<Stage>)
      requires Valid() && Ready(n)
      reads this, Buffers()
      ensures r == StageOf(synth, n)
      ensures r.Some? ==> Playable(r.value, n)
    {
      StageOf(synth, n)
    }

    /** The effect slots as chain stages, their inputs as they are now. */
    ghost function EffectStages(n: nat): (r: seq<Option<Stage>>)
      requires Valid() && Ready(n)
      reads this, Buffers()
      ensures |r| == |effects| && Slots(r, n)
      ensures forall i :: 0 <= i < |r| ==> r[i] == StageOf(effects[i], n)
    {
      [StageOf(effects[0], n), StageOf(effects[1], n), StageOf(effects[2], n), StageOf(effects[3], n)]
    }

    /** The item `source` names: none for -2, the synth for -1, else effect `source`. */
    function SourceItem(source: int): TrackItem?
      requires -2 <= source < |effects|
      reads this
    {
      if source == -2 then null else if source == -1 then synth else effects[source]
    }

    /** Slot `i`'s buffer is among the effect buffers. */
    lemma HeldByEffects(i: nat)
      requires |effects| == 4 && i < 4
      ensures Held(effects[i]) <= EffectBuffers()
    {
      assert i == 0 || i == 1 || i == 2 || i == 3;
    }

    /** The item a source index names can feed an effect, and its buffer is a slot's. */
    lemma SourceReady(n: nat, source: int)
      requires Valid() && Ready(n) && -2 <= source < |effects|
      ensures var item := SourceItem(source);
        item != null ==> item.Valid() && n <= item.buffersize && |item.outs| >= 2 && item.buffers in Buffers()
    {
      HeldByEffects(if source < 0 then 0 else source);
    }

    /**
     * Where `track_engine::process` stands before effect slot `i`: `last`
     * names the current source, which holds the chain walked from `start`
     * over the slots before `i`; slots from `i` on are as they were.
     */
    ghost predicate Progress(n: nat, i: nat, last: int, start: Option<Stereo>, stages: seq<Option<Stage>>)
      requires Valid() && Ready(n)
      reads this, Buffers()
    {
      i <= |effects| && -2 <= last < i && (last >= 0 ==> effects[last] != null) &&
      |stages| == |effects| && Slots(stages, n) &&
      (forall j :: i <= j < |effects| ==> StageOf(effects[j], n) == stages[j]) &&
      Slots(stages[..i], n) && Walk(start, stages[..i], n) == Emitted(SourceItem(last), n)
    }

    /**
     * Effect slot `i`'s turn in `track_engine::process`: an occupied slot is
     * fed by `source` and becomes the source; an empty one is skipped.
     */
    method Turn(n: nat, i: nat, source: int, ghost start: Option<Stereo>, ghost stages: seq<Option<Stage>>)
      returns (next: int)
      requires Valid() && Ready(n) && i < |effects| && Progress(n, i, source, start, stages)
      modifies Held(effects[i])
      ensures Valid() && next == if effects[i] != null then i else source
      ensures Progress(n, i + 1, next, start, stages)
    {
      assert stages[..i + 1] == stages[..i] + [stages[i]];
      WalkSnoc(start, stages[..i], stages[i], n);
      next := source;
      if effects[i] != null {
        RunSlot(n, i, source, start, stages);
        next := i;
      }
    }

    /** An occupied effect slot's turn: fed by `source`, it becomes the source. */
    method RunSlot(n: nat, i: nat, source: int, ghost start: Option<Stereo>, ghost stages: seq<Option<Stage>>)
      requires Valid() && Ready(n) && i < |effects| && effects[i] != null && Progress(n, i, source, start, stages)
      requires Slots(stages[..i + 1], n) && Walk(start, stages[..i + 1], n) == Step(Walk(start, stages[..i], n), stages[i], n)
      modifies effects[i].buffers
      ensures Valid() && Progress(n, i + 1, i, start, stages)
    {
      RunEffect(SourceItem(source), effects[i], n);
    }

    /**
     * The synth's turn in `track_engine::process`: the synth, if any, renders
     * and becomes the source (-1); otherwise there is no source (-2).
     */
    method SynthTurn(n: nat, ghost stages: seq<Option<Stage>>) returns (source: int, ghost start: Option<Stereo>)
      requires Valid() && Ready(n) && stages == EffectStages(n)
      modifies Held(synth)
      ensures Valid() && source == (if synth != null then -1 else -2)
      ensures start == Start(old(SynthStage(n)), n)
      ensures Progress(n, 0, source, start, stages)
    {
      start := Start(SynthStage(n), n);
      source := -2;
      if synth != null {
        RunSynth(synth, n);
        source := -1;
      }
      assert stages[..0] == [];
    }

    /**
     * The effect slots' turns, in order, starting from `source` (-2 for no
     * source, -1 for the synth): returns the slot that becomes the final
     * source, having made it the chain's walk from `start`.
     */
    method RunEffects(n: nat, source: int, ghost start: Option<Stereo>, ghost stages: seq<Option<Stage>>)
      returns (last: int)
      requires Valid() && Ready(n) && source < 0 && Progress(n, 0, source, start, stages)
      modifies EffectBuffers()
      ensures Valid() && (last < 0 ==> last == source)
      ensures Progress(n, |effects|, last, start, stages)
    {
      last := source;
      var i := 0;
      while i < |effects|
        invariant Valid() && i <= |effects| && (last < 0 ==> last == source)
        invariant Progress(n, i, last, start, stages)
      {
        HeldByEffects(i);
        last := Turn(n, i, last, start, stages);
        i := i + 1;
      }
    }

    /**
     * The units' turns in `track_engine::process`: the synth, then every
     * effect slot in order. Returns the final source (-2 for none, -1 for the
     * synth, else an effect slot), whose first two outputs now hold the
     * chain's walk over the slots as they were when the call began.
     */
    method RunChain(n: nat) returns (source: int)
      requires Valid() && Ready(n)
      modifies Buffers()
      ensures Valid() && -2 <= source < |effects|
      ensures var item := SourceItem(source);
        item != null ==> item.Valid() && n <= item.buffersize && |item.outs| >= 2
      ensures Emitted(SourceItem(source), n) == old(Walk(Start(SynthStage(n), n), EffectStages(n), n))
    {
      ghost var stages := EffectStages(n);
      ghost var start;
      source, start := SynthTurn(n, stages);
      source := RunEffects(n, source, start, stages);
      assert stages[..|effects|] == stages;
      SourceReady(n, source);
    }

    /**
     * `track_engine::process`: runs the synth, then every occupied effect
     * slot in order, each fed by the previous unit (or zeros), and writes
     * the last unit's first two outputs (or zeros) to the first `n` samples
     * of the driver's `outL` and `outR` — exactly the chain's `Output` for the slots as they
     * were when the call began.
     */
    method Process(n: nat, outL: array<Sample>, outR: array<Sample>)
      requires Valid() && Ready(n)
      requires outL != outR && n <= outL.Length && n <= outR.Length
      requires outL !in Buffers() && outR !in Buffers()
      modifies Buffers(), outL, outR
      ensures Valid()
      ensures outL[..] == old(Output(SynthStage(n), EffectStages(n), n)).left + old(outL[n..])
      ensures outR[..] == old(Output(SynthStage(n), EffectStages(n), n)).right + old(outR[n..])
    {
      var source := RunChain(n);
      Emit(SourceItem(source), outL, outR, n);
    }
  }
}
