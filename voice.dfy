/**
 * The demo synth's presets and voices (plugin/src/demo-synth/voice.h).
 *
 * A preset is a name, six parameter values and the parameter table that
 * declares their ranges. A voice is the bookkeeping the allocator reads: its
 * note, whether its key is held, and its last measured level; the sound it
 * renders is not modelled, only the level its rendering leaves behind.
 */
module Voice {
  import opened Scalars
  import opened Pool

  /** `dsynth_param_id`: the parameters, in table order. */
  const Osctype := 0
  const Pwm := 1
  const Attack := 2
  const Decay := 3
  const Sustain := 4
  const ReleaseTime := 5
  const ParamCount := 6

  datatype ParamKind = IntegerParam | FloatParam

  /** `plum_param_def` without its display formatter: kind, range and name. */
  datatype ParamDef = ParamDef(kind: ParamKind, min: Float32, max: Float32, name: string)

  /** `preset_t`: the parameter table it points at, its values and its name. */
  class Preset {
    var defs: seq<ParamDef>
    var data: seq<Float32>
    var name: seq<byte>

    /** `data` holds one value per parameter. */
    ghost predicate Valid()
      reads this
    {
      |data| == ParamCount
    }

    /** Defined: also points at a full parameter table, as `set` needs. */
    ghost predicate Defined()
      reads this
    {
      Valid() && |defs| == ParamCount
    }

    /**
     * A `preset_t` before `define`. The source leaves its table pointer and
     * values unset; here they are an empty table and zeros. Every preset is
     * defined or cloned into before anything reads it.
     */
    constructor ()
      ensures Valid() && defs == [] && name == []
      ensures forall i :: 0 <= i < ParamCount ==> data[i] == Zero
    {
      defs := [];
      data := [Zero, Zero, Zero, Zero, Zero, Zero];
      name := [];
    }

    /** `preset_t::define`: table, name and every value as given, none clamped. */
    method Define(x: seq<ParamDef>, y: seq<Float32>, z: seq<byte>)
      requires Valid() && |y| == ParamCount
      modifies this
      ensures Valid() && defs == x && name == z && data == y
    {
      defs := x;
      name := z;
      for i := 0 to ParamCount
        invariant Valid() && defs == x && name == z
        invariant data[..i] == y[..i]
      {
        data := data[i := y[i]];
      }
    }

    /** `preset_t::get`. */
    function Get(index: nat): Float32
      requires Valid() && index < ParamCount
      reads this
    {
      data[index]
    }

    /**
     * `preset_t::set`: stores `v` clamped to the declared range; nothing else
     * changes. The stored value always lies in the range, and a value already
     * in range is stored as its own numeric value.
     */
    method Set(index: nat, v: Float32)
      requires Defined() && index < ParamCount
      modifies this
      ensures Defined() && defs == old(defs) && name == old(name)
      ensures data == old(data)[index := Clamp(v, defs[index].min, defs[index].max)]
      ensures IsRange(defs[index].min, defs[index].max) ==> Within(Get(index), defs[index].min, defs[index].max)
      ensures IsRange(defs[index].min, defs[index].max) && Within(v, defs[index].min, defs[index].max) ==>
        Key(Get(index)) == Key(v)
    {
      var p := defs[index];
      var w := StdMin(p.max, v);
      w := StdMax(p.min, w);
      data := data[index := w];
    }

    /** A plain store of `data[index] = v`, as the storage loaders do. */
    method Store(index: nat, v: Float32)
      requires Valid() && index < ParamCount
      modifies this
      ensures Valid() && defs == old(defs) && name == old(name) && data == old(data)[index := v]
    {
      data := data[index := v];
    }

    /** `preset_t::clone(np)`: `np` gets this preset's table, name and every value exactly. */
    method CloneInto(np: Preset)
      requires Valid() && np.Valid()
      modifies np
      ensures np.Valid() && np.defs == old(defs) && np.name == old(name) && np.data == old(data)
    {
      np.defs := defs;
      np.name := name;
      for i := 0 to ParamCount
        invariant np.Valid() && np.defs == old(defs) && np.name == old(name)
        invariant np.data[..i] == old(data)[..i] && np.data[i..] == old(np.data)[i..]
        invariant np != this ==> data == old(data)
      {
        np.data := np.data[i := data[i]];
      }
    }
  }

  /** `demo::voice`, as far as the allocator sees it. */
  class Voice {
    var note: int
    var held: bool
    var level: Float32

    /** A new voice: not held, level 0. The source leaves `m_note` unset; nothing reads it before `start`. */
    constructor ()
      ensures !held && level == Zero
    {
      note := 0;
      held := false;
      level := Zero;
    }

    function State(): VoiceState
      reads this
    {
      VoiceState(note, held, level)
    }

    /** `voice::start`: records the note and holds the voice; the level is untouched. */
    method Start(n: int)
      modifies this
      ensures State() == Started(old(State()), n)
    {
      note := n;
      held := true;
    }

    /** `voice::release`: the voice is no longer held; note and level are untouched. */
    method Release()
      modifies this
      ensures State() == Released(old(State()))
    {
      held := false;
    }

    /** `voice::is_held`. */
    function IsHeld(): (r: bool)
      reads this
      ensures r == State().held
    {
      held
    }

    /** `voice::is_free`: silent and released; a held voice is never free. */
    function IsFree(): (r: bool)
      reads this
      ensures r <==> Free(State())
      ensures held ==> !r
      ensures r ==> !IsNaN(level) && Key(level) < Key(Silent)
    {
      Less(level, Silent) && !held
    }

    /** `voice::midi_note`. */
    function MidiNote(): (r: int)
      reads this
      ensures r == State().note
    {
      note
    }

    /**
     * `voice::process`, as far as the allocator sees it: the mean absolute
     * sample value it measured over the block becomes the level.
     */
    method Process(measured: Float32)
      modifies this
      ensures State() == old(State()).(level := measured)
    {
      level := measured;
    }
  }
}
