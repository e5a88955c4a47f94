/**
 * The demo synth plugin (plugin/src/demo-synth/synth.h, synth.cpp): a bank of
 * six presets, the live copy of the selected one that the voices read, eight
 * voices, the parameter interface, the MIDI dispatch and the storage blobs.
 *
 * The bank and the voice pool never change size, so they are `const`
 * sequences of distinct objects; `live` is the object `m_preset` points at,
 * replaced by a fresh clone each time a preset is selected.
 */
module Synth {
  import opened Scalars
  import opened Opt
  import opened Codec
  import opened Pool
  import opened Voice
  import PF = PresetFormat

  const BankSize := 6
  const VoiceCount := 8

  // ---------------------------------------------------------------------
  // Constants of the plugin

  const F001 := F32(0x3C23_D70A)   // 0.01f
  const F099 := F32(0x3F7D_70A4)   // 0.99f
  const F010 := F32(0x3DCC_CCCD)   // 0.1f
  const F025 := F32(0x3E80_0000)   // 0.25f
  const F035 := F32(0x3EB3_3333)   // 0.35f
  const F050 := F32(0x3F00_0000)   // 0.5f
  const F075 := F32(0x3F40_0000)   // 0.75f
  const F200 := F32(0x4000_0000)   // 2.0f

  /** `m_defs`: kind, range and name of each parameter, in `dsynth_param_id` order. */
  const Table: seq<ParamDef> := [
    ParamDef(IntegerParam, Zero, One, "osctype"),
    ParamDef(FloatParam, F001, F099, "pwm"),
    ParamDef(FloatParam, F001, F200, "attack"),
    ParamDef(FloatParam, F001, F200, "decay"),
    ParamDef(FloatParam, F001, One, "sustain"),
    ParamDef(FloatParam, F001, F200, "release")
  ]

  /** Every declared range is a range: both bounds are numbers, the lower one first. */
  lemma TableRanges()
    ensures |Table| == ParamCount
    ensures forall i :: 0 <= i < |Table| ==> IsRange(Table[i].min, Table[i].max)
  {
  }

  /** "Square 1" to "Square 4", "Sawtooth 1" and "Sawtooth 2", as ASCII bytes. */
  function SquareName(digit: byte): seq<byte> {
    [0x53, 0x71, 0x75, 0x61, 0x72, 0x65, 0x20, digit]
  }

  function SawtoothName(digit: byte): seq<byte> {
    [0x53, 0x61, 0x77, 0x74, 0x6F, 0x6F, 0x74, 0x68, 0x20, digit]
  }

  /** The bank the constructor defines: four square presets, then two sawtooth presets. */
  const Factory: seq<PF.Entry> := [
    PF.Entry(SquareName(0x31), [Zero, F010, F025, F025, F050, F200]),
    PF.Entry(SquareName(0x32), [Zero, F035, F025, F025, F050, F200]),
    PF.Entry(SquareName(0x33), [Zero, F050, F025, F025, F050, F200]),
    PF.Entry(SquareName(0x34), [Zero, F075, F025, F025, F050, F200]),
    PF.Entry(SawtoothName(0x31), [One, F010, F025, F025, F050, F200]),
    PF.Entry(SawtoothName(0x32), [One, F010, F010, F025, F050, One])
  ]

  /** Every factory value lies in its parameter's declared range. */
  lemma FactoryInRange()
    ensures |Factory| == BankSize
    ensures forall k, i :: 0 <= k < |Factory| && 0 <= i < ParamCount ==>
      |Factory[k].values| == ParamCount && Within(Factory[k].values[i], Table[i].min, Table[i].max)
  {
  }

  // ---------------------------------------------------------------------
  // Interfaces

  /** The interfaces `as` hands out. */
  datatype Facet = PluginFacet | StorageFacet

  /**
   * `DSynth::as`: the object and plugin ids give the plugin interface, the
   * storage id the storage interface, any other id nothing. The three ids
   * come from the plugin API's header and are parameters here.
   */
  function As(ifid: string, objectId: string, pluginId: string, storageId: string): (r: Option<Facet>)
    ensures r == Some(PluginFacet) <==> ifid == objectId || ifid == pluginId
    ensures r == Some(StorageFacet) <==> ifid != objectId && ifid != pluginId && ifid == storageId
    ensures r.None? <==> ifid != objectId && ifid != pluginId && ifid != storageId
  {
    if ifid == objectId then Some(PluginFacet)
    else if ifid == pluginId then Some(PluginFacet)
    else if ifid == storageId then Some(StorageFacet)
    else None
  }

  // ---------------------------------------------------------------------
  // Names as C strings

  /**
   * What survives of `s` when it passes through a `const char *`, as
   * `std::string::c_str()` handed to a constructor or assigned to a
   * `std::string` does: the bytes before the first 0 byte.
   */
  function CString(s: seq<byte>): (r: seq<byte>)
    ensures |r| <= |s| && r == s[..|r|] && 0 !in r
    ensures |r| < |s| ==> s[|r|] == 0
  {
    if s == [] || s[0] == 0 then [] else [s[0]] + CString(s[1..])
  }

  /** A name without a 0 byte passes through unchanged; passing it twice changes nothing more. */
  lemma CStringKeeps(s: seq<byte>)
    ensures 0 !in s <==> CString(s) == s
    ensures CString(CString(s)) == CString(s)
  {
    var r := CString(s);
    assert s[..|s|] == s && r[..|r|] == r;
  }

  // ---------------------------------------------------------------------
  // MIDI

  /** `*data & 0xF0`: the status byte without its channel. */
  function Command(status: byte): (r: byte)
    ensures r % 0x10 == 0 && r <= status < r + 0x10
  {
    status - status % 0x10
  }

  /** What a MIDI message in the source's reading of it needs: the bytes `midi_event` reads. */
  predicate Readable(data: seq<byte>) {
    |data| >= 1 &&
    (Command(data[0]) == 0x90 ==> |data| >= 3) &&
    (Command(data[0]) == 0x80 ==> |data| >= 2)
  }

  /**
   * What `midi_event` does to the voices: a note on of any velocity (zero
   * included) starts a voice, a note off releases one, anything else is
   * ignored.
   */
  function Dispatch(vs: seq<VoiceState>, data: seq<byte>): (r: seq<VoiceState>)
    requires Readable(data)
    ensures Command(data[0]) == 0x90 ==> r == Pool.NoteOn(vs, data[1])
    ensures Command(data[0]) == 0x80 ==> r == Pool.NoteOff(vs, data[1])
    ensures Command(data[0]) != 0x90 && Command(data[0]) != 0x80 ==> r == vs
  {
    match Command(data[0])
    case 0x90 => Pool.NoteOn(vs, data[1])
    case 0x80 => Pool.NoteOff(vs, data[1])
    case _ => vs
  }

  /** A note on of velocity zero starts a voice, as any other velocity does. */
  lemma ZeroVelocityStarts(vs: seq<VoiceState>, channel: byte, note: byte)
    requires channel < 0x10 && FirstFree(vs).Some?
    ensures Readable([0x90 + channel, note, 0])
    ensures HeldCount(Dispatch(vs, [0x90 + channel, note, 0])) == HeldCount(vs) + 1
  {
    NoteOnHoldsOneMore(vs, note);
  }

  // ---------------------------------------------------------------------
  // Processing, as far as the allocator sees it

  /**
   * `DSynth::process` on the voice states: a voice that is not free renders
   * and measures the level in `levels`; a free voice is skipped.
   */
  function Processed(vs: seq<VoiceState>, levels: seq<Float32>): (r: seq<VoiceState>)
    requires |levels| == |vs|
    ensures |r| == |vs|
  {
    seq(|vs|, i requires 0 <= i < |vs| => if Free(vs[i]) then vs[i] else vs[i].(level := levels[i]))
  }

  /**
   * Processing keeps every free voice free and every note and held flag as it
   * was; a voice not free is free afterwards exactly when it is released and
   * measured silent.
   */
  lemma ProcessedVoices(vs: seq<VoiceState>, levels: seq<Float32>, i: nat)
    requires |levels| == |vs| && i < |vs|
    ensures Processed(vs, levels)[i].note == vs[i].note && Processed(vs, levels)[i].held == vs[i].held
    ensures Free(vs[i]) ==> Processed(vs, levels)[i] == vs[i]
    ensures !Free(vs[i]) ==> (Free(Processed(vs, levels)[i]) <==> !vs[i].held && Less(levels[i], Silent))
  {
  }

  /** Processing never changes how many voices are held. */
  lemma {:induction false} ProcessedHeld(vs: seq<VoiceState>, levels: seq<Float32>)
    requires |levels| == |vs|
    ensures HeldCount(Processed(vs, levels)) == HeldCount(vs)
    decreases |vs|
  {
    if vs != [] {
      var n := |vs| - 1;
      assert Processed(vs, levels)[..n] == Processed(vs[..n], levels[..n]);
      ProcessedHeld(vs[..n], levels[..n]);
    }
  }

  // ---------------------------------------------------------------------
  // Reading the storage blobs with a cursor

  /** A `read_string` whose result is dropped, then the version check, all with `rd`'s `read_uint32`. */
  method ReadField(rd: Reader, buffer: seq<byte>, pos: nat) returns (r: PF.Load<nat>)
    requires PF.Field(rd, buffer, pos) != PF.Undefined
    ensures r == PF.Field(rd, buffer, pos)
  {
    PF.SkipStringTakes(rd, buffer, pos);
    var s, p := ReadString(rd, pos, buffer);
    var vmaj, q := ReadUint32By(rd, p, buffer);
    var vmin, n := ReadUint32By(rd, q, buffer);
    if vmaj != 1 || vmin != 0 {
      return PF.Rejected;
    }
    return PF.Loaded(n);
  }

  /** The header reads both loaders start with: where the cursor is after the kind string. */
  method ReadHeader(rd: Reader, buffer: seq<byte>) returns (r: PF.Load<nat>)
    requires PF.Header(rd, buffer) != PF.Undefined
    ensures r == PF.Header(rd, buffer)
  {
    var f := ReadField(rd, buffer, 0);
    if f.Rejected? {
      return PF.Rejected;
    }
    var g := ReadField(rd, buffer, f.value);
    if g.Rejected? {
      return PF.Rejected;
    }
    PF.SkipStringTakes(rd, buffer, g.value);
    var s, p := ReadString(rd, g.value, buffer);
    return PF.Loaded(p);
  }

  /** `m_voice.resize(8)`: eight new voices, none held, all at level 0. */
  method NewVoices() returns (vs: seq<Voice>)
    ensures |vs| == VoiceCount
    ensures forall i, j :: 0 <= i < j < VoiceCount ==> vs[i] != vs[j]
    ensures forall i :: 0 <= i < VoiceCount ==> fresh(vs[i]) && !vs[i].held && vs[i].level == Zero
  {
    vs := [];
    for k := 0 to VoiceCount
      invariant |vs| == k
      invariant forall i, j :: 0 <= i < j < k ==> vs[i] != vs[j]
      invariant forall i :: 0 <= i < k ==> fresh(vs[i]) && !vs[i].held && vs[i].level == Zero
    {
      var v := new Voice();
      vs := vs + [v];
    }
  }

  /** One `m_bank[k].define(m_defs, ...)` of the constructor. */
  method NewPreset(e: PF.Entry) returns (p: Preset)
    requires |e.values| == ParamCount
    ensures fresh(p) && p.Defined() && p.defs == Table && p.name == e.name && p.data == e.values
  {
    p := new Preset();
    p.Define(Table, e.values, e.name);
  }

  /** The constructor's six `define` calls: the factory bank, in distinct new presets. */
  method NewBank() returns (ps: seq<Preset>)
    ensures |ps| == BankSize
    ensures forall i, j :: 0 <= i < j < BankSize ==> ps[i] != ps[j]
    ensures forall i :: 0 <= i < BankSize ==>
      fresh(ps[i]) && ps[i].Defined() && ps[i].defs == Table &&
      ps[i].name == Factory[i].name && ps[i].data == Factory[i].values
  {
    var b0 := NewPreset(Factory[0]);
    var b1 := NewPreset(Factory[1]);
    var b2 := NewPreset(Factory[2]);
    var b3 := NewPreset(Factory[3]);
    var b4 := NewPreset(Factory[4]);
    var b5 := NewPreset(Factory[5]);
    ps := [b0, b1, b2, b3, b4, b5];
  }

  /** The header both writers emit: the two named versions, then the kind string. */
  method WriteHeader(kind: seq<byte>, buffer: ByteVector)
    modifies buffer
    ensures buffer.bytes == old(buffer.bytes) + PF.HeaderBytes(kind)
  {
    AppendString(PF.Magic, buffer);
    AppendUint32(1, buffer);
    AppendUint32(0, buffer);
    AppendString(PF.SynthId, buffer);
    AppendUint32(1, buffer);
    AppendUint32(0, buffer);
    AppendString(kind, buffer);
  }

  /** The writers' entry: `append_string` of the name, then `append_float32` of each value. */
  method WriteEntry(name: seq<byte>, values: seq<Float32>, buffer: ByteVector)
    modifies buffer
    ensures buffer.bytes == old(buffer.bytes) + PF.EntryBytes(PF.Entry(name, values))
  {
    AppendString(name, buffer);
    ghost var start := buffer.bytes;
    for i := 0 to |values|
      invariant buffer.bytes == start + PF.FloatsBytes(values[..i])
    {
      AppendFloat32(values[i], buffer);
      PF.FloatsBytesSnoc(values[..i], values[i]);
      assert values[..i + 1] == values[..i] + [values[i]];
    }
    assert values[..|values|] == values;
  }

  /** Loading entry `j` of `es` over a bank whose first `j` entries are already loaded. */
  lemma Splice(es: seq<PF.Entry>, bank: seq<PF.Entry>, j: nat)
    requires j < |es| <= |bank|
    ensures (es[..j] + bank[j..])[j := es[j]] == es[..j + 1] + bank[j + 1..]
  {
  }

  /** The body of `get_preset_data`, on the preset's name and values. */
  method WritePreset(e: PF.Entry) returns (blob: seq<byte>)
    ensures blob == PF.PresetBytes(e)
  {
    var buffer := new ByteVector();
    WriteHeader(PF.PresetKind, buffer);
    ghost var header := buffer.bytes;
    WriteEntry(e.name, e.values, buffer);
    blob := buffer.bytes;
    assert header == PF.HeaderBytes(PF.PresetKind) && blob == header + PF.EntryBytes(e);
  }

  /**
   * A preset blob of a full entry loads back as it under each reader whose
   * limit its name fits; under the source's reader a name of exactly 65536
   * bytes loads as its first 256.
   */
  lemma PresetBlobLoads(e: PF.Entry)
    requires |e.values| == ParamCount
    ensures Fits(Intended, |e.name|) ==> PF.ParsePreset(Intended, PF.PresetBytes(e)) == PF.Loaded(e)
    ensures Fits(AsWritten, |e.name|) ==> PF.ParsePreset(AsWritten, PF.PresetBytes(e)) == PF.Loaded(e)
    ensures |e.name| == 0x1_0000 ==>
      PF.ParsePreset(AsWritten, PF.PresetBytes(e)).Loaded? &&
      PF.ParsePreset(AsWritten, PF.PresetBytes(e)).value.name == e.name[..0x100]
  {
    assert PF.PresetBytes(e) + [] == PF.PresetBytes(e);
    if Fits(Intended, |e.name|) {
      PF.PresetRoundTrip(Intended, e, []);
    }
    if Fits(AsWritten, |e.name|) {
      PF.PresetRoundTrip(AsWritten, e, []);
    }
    if |e.name| == 0x1_0000 {
      PF.AsWrittenTruncatesName(e, []);
    }
  }

  /** The loop of `get_bank_data`: every entry, in order. */
  method WriteEntries(es: seq<PF.Entry>, buffer: ByteVector)
    modifies buffer
    ensures buffer.bytes == old(buffer.bytes) + PF.EntriesBytes(es)
  {
    ghost var start := buffer.bytes;
    for j := 0 to |es|
      invariant buffer.bytes == start + PF.EntriesBytes(es[..j])
    {
      WriteEntry(es[j].name, es[j].values, buffer);
      PF.EntriesBytesSnoc(es[..j], es[j]);
      assert es[..j + 1] == es[..j] + [es[j]];
    }
    assert es[..|es|] == es;
  }

  /** The body of `get_bank_data`, on the bank's names and values. */
  method WriteBank(es: seq<PF.Entry>) returns (blob: seq<byte>)
    requires |es| < 0x1_0000_0000
    ensures blob == PF.BankBytes(es)
  {
    var buffer := new ByteVector();
    WriteHeader(PF.BankKind, buffer);
    ghost var header := buffer.bytes;
    AppendUint32(|es|, buffer);
    ghost var counted := buffer.bytes;
    WriteEntries(es, buffer);
    blob := buffer.bytes;
    assert header == PF.HeaderBytes(PF.BankKind) && counted == header + Uint32Bytes(|es|);
    assert blob == counted + PF.EntriesBytes(es);
  }

  /** A bank blob of six full entries loads back as them under each reader whose limit all the names fit. */
  lemma BankBlobLoads(rd: Reader, es: seq<PF.Entry>)
    requires |es| == BankSize && forall i :: 0 <= i < |es| ==> |es[i].values| == ParamCount
    ensures (forall i :: 0 <= i < |es| ==> Fits(rd, |es[i].name|)) ==>
      PF.ParseBank(rd, PF.BankBytes(es)) == PF.Loaded(es)
  {
    assert PF.BankBytes(es) + [] == PF.BankBytes(es);
    if forall i :: 0 <= i < |es| ==> Fits(rd, |es[i].name|) {
      PF.BankRoundTrip(rd, es, []);
    }
  }

  // ---------------------------------------------------------------------
  // The plugin

  /** `demo::DSynth`. */
  class DSynth {
    const bank: seq<Preset>
    const voices: seq<Voice>
    var current: nat
    var live: Preset

    /** Everything but the agreement of the live copy with the selected preset. */
    ghost predicate Shape()
      reads this, bank, live
    {
      |bank| == BankSize && |voices| == VoiceCount &&
      (forall i, j :: 0 <= i < j < |bank| ==> bank[i] != bank[j]) &&
      (forall i, j :: 0 <= i < j < |voices| ==> voices[i] != voices[j]) &&
      (forall i :: 0 <= i < |bank| ==> bank[i].Defined() && bank[i].defs == Table) &&
      current < BankSize && live !in bank && live.Defined() && live.defs == Table
    }

    /** The voices play what the selected preset holds. */
    ghost predicate Valid()
      reads this, bank, live
    {
      Shape() && live.data == bank[current].data
    }

    /** The bank as stored entries: each preset's name and values. */
    function Entries(): (r: seq<PF.Entry>)
      reads this, bank
      ensures |r| == |bank|
      ensures forall i :: 0 <= i < |bank| ==> r[i] == PF.Entry(bank[i].name, bank[i].data)
    {
      seq(|bank|, i reads bank requires 0 <= i < |bank| => PF.Entry(bank[i].name, bank[i].data))
    }

    /** The voice pool as the allocator sees it. */
    function Voices(): (r: seq<VoiceState>)
      reads this, voices
      ensures |r| == |voices|
      ensures forall i :: 0 <= i < |voices| ==> r[i] == voices[i].State()
    {
      seq(|voices|, i reads voices requires 0 <= i < |voices| => voices[i].State())
    }

    /**
     * `DSynth::DSynth`: eight new voices, the factory bank, and preset 0
     * selected.
     */
    constructor ()
      ensures Valid() && current == 0 && Entries() == Factory
      ensures live.name == Factory[0].name && live.data == Factory[0].values
      ensures forall i :: 0 <= i < VoiceCount ==> Free(Voices()[i]) && Voices()[i].level == Zero
    {
      var vs := NewVoices();
      var ps := NewBank();
      var np := new Preset();
      ps[0].CloneInto(np);
      voices := vs;
      bank := ps;
      current := 0;
      live := np;
      assert Less(Zero, Silent);
    }

    /** `count_presets`: the size of the bank. */
    function CountPresets(): (r: nat)
      requires Valid()
      reads this, bank, live
      ensures r == |bank| == |Entries()|
    {
      BankSize
    }

    /** `get_selected_preset`. */
    function GetSelectedPreset(): (r: nat)
      requires Valid()
      reads this, bank, live
      ensures r < |Entries()| && r == current
    {
      current
    }

    /**
     * `set_selected_preset`: the index becomes current and the voices get a
     * fresh copy of that preset; the bank and the voices do not change.
     */
    method SetSelectedPreset(index: nat)
      requires Shape() && index < BankSize
      modifies this
      ensures Valid() && current == index && fresh(live)
      ensures live.name == bank[index].name && live.data == bank[index].data
      ensures Entries() == old(Entries()) && Voices() == old(Voices())
    {
      current := index;
      var np := new Preset();
      bank[index].CloneInto(np);
      live := np;
    }

    /**
     * `get_preset_name`: the stored name as the `const char *` that
     * `c_str()` gives, so a name holding a 0 byte (which a loaded blob can
     * store) is cut at its first 0.
     */
    function GetPresetName(index: nat): (r: seq<byte>)
      requires Valid() && index < BankSize
      reads this, bank, live
      ensures r == CString(Entries()[index].name)
      ensures 0 !in Entries()[index].name ==> r == Entries()[index].name
    {
      CStringKeeps(bank[index].name);
      CString(bank[index].name)
    }

    /**
     * `set_preset_name`: renames one preset of the bank to the text of
     * `name`, which reaches the `std::string` as a `const char *` and so
     * stops at its first 0 byte; the values, the other presets and the live
     * copy are untouched, so renaming the selected preset does not rename the
     * live copy. The new name is what `get_preset_name` then returns.
     */
    method SetPresetName(index: nat, name: seq<byte>)
      requires Valid() && index < BankSize
      modifies bank[index]
      ensures Valid()
      ensures Entries() == old(Entries())[index := PF.Entry(CString(name), old(Entries())[index].values)]
      ensures live.name == old(live.name)
      ensures GetPresetName(index) == CString(name)
    {
      bank[index].name := CString(name);
      CStringKeeps(name);
    }

    /** `count_parameters`: the size of the parameter table. */
    function CountParameters(): (r: nat)
      reads this, bank, live
      requires Valid()
      ensures r == |Table| == |live.data| == |bank[current].data|
    {
      ParamCount
    }

    /** `get_parameter`: the selected preset's value, which is also what the voices play. */
    function GetParameter(index: nat): (r: Float32)
      requires Valid() && index < ParamCount
      reads this, bank, live
      ensures r == Entries()[current].values[index] && r == live.data[index]
    {
      bank[current].Get(index)
    }

    /**
     * `set_parameter`: clamps the value to its declared range and stores it in
     * both the selected preset and the live copy; every other value and every
     * name stays as it was.
     */
    method SetParameter(index: nat, value: Float32)
      requires Valid() && index < ParamCount
      modifies bank[current], live
      ensures Valid() && current == old(current)
      ensures Entries() == old(Entries())[current :=
        PF.Entry(old(Entries())[current].name,
                 old(Entries())[current].values[index := Clamp(value, Table[index].min, Table[index].max)])]
      ensures live.name == old(live.name)
      ensures Within(GetParameter(index), Table[index].min, Table[index].max)
      ensures Within(value, Table[index].min, Table[index].max) ==> Key(GetParameter(index)) == Key(value)
    {
      TableRanges();
      bank[current].Set(index, value);
      live.Set(index, value);
    }

    /** `std::find_if(..., is_free)` over the pool. */
    method FindFree() returns (r: Option<nat>)
      requires Valid()
      ensures r == FirstFree(Voices())
    {
      var i := 0;
      while i < |voices|
        invariant i <= |voices|
        invariant forall k :: 0 <= k < i ==> !Free(Voices()[k])
      {
        if voices[i].IsFree() {
          return Some(i);
        }
        i := i + 1;
      }
      return None;
    }

    /** `std::find_if(..., is_held && midi_note == number)` over the pool. */
    method FindPlaying(number: int) returns (r: Option<nat>)
      requires Valid()
      ensures r == FirstPlaying(Voices(), number)
    {
      var i := 0;
      while i < |voices|
        invariant i <= |voices|
        invariant forall k :: 0 <= k < i ==> !Plays(Voices()[k], number)
      {
        if voices[i].IsHeld() && voices[i].MidiNote() == number {
          return Some(i);
        }
        i := i + 1;
      }
      return None;
    }

    /** `note_on`: the first free voice starts on the note; no voice is stolen. */
    method NoteOn(number: int)
      requires Valid()
      modifies voices
      ensures Valid() && Voices() == Pool.NoteOn(old(Voices()), number)
    {
      var it := FindFree();
      if it.Some? {
        voices[it.value].Start(number);
      }
    }

    /** `note_off`: the first voice held on the note is released. */
    method NoteOff(number: int)
      requires Valid()
      modifies voices
      ensures Valid() && Voices() == Pool.NoteOff(old(Voices()), number)
    {
      var it := FindPlaying(number);
      if it.Some? {
        voices[it.value].Release();
      }
    }

    /** `midi_event`: dispatch on the command nibble of the status byte. */
    method MidiEvent(data: seq<byte>)
      requires Valid() && Readable(data)
      modifies voices
      ensures Valid() && Voices() == Dispatch(old(Voices()), data)
    {
      var command := Command(data[0]);
      if command == 0x90 {
        if data[2] > 0 {
          NoteOn(data[1]);
        } else {
          NoteOn(data[1]);
        }
      } else if command == 0x80 {
        NoteOff(data[1]);
      }
    }

    /**
     * `process`, as far as the allocator sees it: each voice that is not
     * free renders the block and measures `levels[i]`.
     */
    method Process(levels: seq<Float32>)
      requires Valid() && |levels| == VoiceCount
      modifies voices
      ensures Valid() && Voices() == Processed(old(Voices()), levels)
    {
      for k := 0 to VoiceCount
        invariant forall i :: 0 <= i < k ==> Voices()[i] == Processed(old(Voices()), levels)[i]
        invariant forall i :: k <= i < VoiceCount ==> Voices()[i] == old(Voices())[i]
      {
        if !voices[k].IsFree() {
          voices[k].Process(levels[k]);
        }
      }
    }

    // -------------------------------------------------------------------
    // Storage

    /** `get_preset_data`: the header with kind "preset", then the selected preset. */
    method GetPresetData() returns (blob: seq<byte>)
      requires Valid()
      ensures blob == PF.PresetBytes(Entries()[current])
      ensures Fits(Intended, |Entries()[current].name|) ==>
        PF.ParsePreset(Intended, blob) == PF.Loaded(Entries()[current])
      ensures Fits(AsWritten, |Entries()[current].name|) ==>
        PF.ParsePreset(AsWritten, blob) == PF.Loaded(Entries()[current])
      ensures |Entries()[current].name| == 0x1_0000 ==>
        PF.ParsePreset(AsWritten, blob).Loaded? &&
        PF.ParsePreset(AsWritten, blob).value.name == Entries()[current].name[..0x100]
    {
      blob := WritePreset(Entries()[current]);
      PresetBlobLoads(Entries()[current]);
    }

    /** `get_bank_data`: the header with kind "bank", the count, then every preset in order. */
    method GetBankData() returns (blob: seq<byte>)
      requires Valid()
      ensures blob == PF.BankBytes(Entries())
      ensures (forall i :: 0 <= i < BankSize ==> Fits(Intended, |Entries()[i].name|)) ==>
        PF.ParseBank(Intended, blob) == PF.Loaded(Entries())
      ensures (forall i :: 0 <= i < BankSize ==> Fits(AsWritten, |Entries()[i].name|)) ==>
        PF.ParseBank(AsWritten, blob) == PF.Loaded(Entries())
    {
      blob := WriteBank(Entries());
      BankBlobLoads(Intended, Entries());
      BankBlobLoads(AsWritten, Entries());
    }

    /** The body of `set_preset_data` and of each turn of `set_bank_data`: one entry into `bank[index]`. */
    method LoadEntry(rd: Reader, index: nat, buffer: seq<byte>, pos: nat) returns (next: nat)
      requires Shape() && index < BankSize && PF.TakeEntry(rd, buffer, pos).Some?
      modifies bank[index]
      ensures Shape()
      ensures Entries() == old(Entries())[index := PF.TakeEntry(rd, buffer, pos).value.value]
      ensures next == PF.TakeEntry(rd, buffer, pos).value.next
    {
      ghost var e := PF.TakeEntry(rd, buffer, pos).value;
      var p := bank[index];
      var name, q := ReadString(rd, pos, buffer);
      ghost var start := q;
      ghost var fl := PF.TakeFloats(buffer, start, ParamCount).value;
      assert e.value == PF.Entry(name, fl.value) && e.next == fl.next;
      for i := 0 to ParamCount
        invariant p.Defined() && p.defs == Table && p.name == old(p.name)
        invariant q == start + 4 * i
        invariant p.data[..i] == fl.value[..i]
      {
        var v;
        PF.TakeFloatsValue(buffer, start, ParamCount, i);
        v, q := ReadFloat32(q, buffer);
        p.Store(i, v);
        assert p.data[..i + 1] == p.data[..i] + [p.data[i]];
        assert fl.value[..i + 1] == fl.value[..i] + [fl.value[i]];
      }
      assert p.data == p.data[..ParamCount];
      p.name := name;
      next := q;
      assert p.data == fl.value;
      forall k | 0 <= k < BankSize && k != index
        ensures bank[k].name == old(bank[k].name) && bank[k].data == old(bank[k].data)
      {
        assert bank[k] != p;
      }
    }

    /**
     * `set_preset_data`: a blob whose versions are 1 0 replaces the selected
     * preset's values and name and selects it again (1); one with another
     * version changes nothing (0). Neither the strings nor the values are
     * checked: an out-of-range value is stored as it is. `rd` picks the
     * `read_uint32` the cursor uses: `AsWritten`, the source's, or
     * `Intended`, the corrected one.
     */
    method SetPresetData(rd: Reader, blob: seq<byte>) returns (r: uint32)
      requires Valid() && PF.ParsePreset(rd, blob) != PF.Undefined
      modifies this, bank[current]
      ensures Valid() && current == old(current)
      ensures r == 1 <==> PF.ParsePreset(rd, blob).Loaded?
      ensures r == 0 <==> PF.ParsePreset(rd, blob).Rejected?
      ensures PF.ParsePreset(rd, blob).Rejected? ==> Entries() == old(Entries()) && live == old(live)
      ensures PF.ParsePreset(rd, blob).Loaded? ==>
        Entries() == old(Entries())[old(current) := PF.ParsePreset(rd, blob).value] && fresh(live) &&
        live.name == PF.ParsePreset(rd, blob).value.name && live.data == PF.ParsePreset(rd, blob).value.values
    {
      var h := ReadHeader(rd, blob);
      if h.Rejected? {
        return 0;
      }
      LoadSelected(rd, blob, h.value);
      return 1;
    }

    /** The loading half of `set_preset_data`: the entry at `pos` into the selected preset, which is then selected afresh. */
    method LoadSelected(rd: Reader, blob: seq<byte>, pos: nat)
      requires Valid() && PF.TakeEntry(rd, blob, pos).Some?
      modifies this, bank[current]
      ensures Valid() && current == old(current)
      ensures Entries() == old(Entries())[current := PF.TakeEntry(rd, blob, pos).value.value] && fresh(live)
      ensures live.name == Entries()[current].name && live.data == Entries()[current].values
    {
      var next := LoadEntry(rd, current, blob, pos);
      SetSelectedPreset(current);
    }

    /**
     * One turn of the loop of `set_bank_data`: the next entry of `es`, read
     * at `pos`, goes into preset `j`, and the remaining reads start where it
     * ends.
     */
    method LoadNext(rd: Reader, blob: seq<byte>, pos: nat, j: nat, ghost es: seq<PF.Entry>, ghost end: nat,
                    ghost before: seq<PF.Entry>) returns (next: nat)
      requires Shape() && j < |es| <= BankSize
      requires PF.TakeEntries(rd, blob, pos, |es| - j) == Some(Read(es[j..], end))
      requires |before| == BankSize && Entries() == es[..j] + before[j..]
      modifies bank[j]
      ensures Shape()
      ensures PF.TakeEntries(rd, blob, next, |es| - (j + 1)) == Some(Read(es[j + 1..], end))
      ensures Entries() == es[..j + 1] + before[j + 1..]
    {
      PF.TakeEntriesStep(rd, blob, pos, |es| - j, es[j..], end);
      assert es[j..][1..] == es[j + 1..];
      next := LoadEntry(rd, j, blob, pos);
      Splice(es, before, j);
    }

    /** The loop of `set_bank_data`: `count` entries from `pos` into the first `count` presets, in order. */
    method LoadEntries(rd: Reader, blob: seq<byte>, start: nat, count: nat)
      requires Shape() && count <= BankSize && PF.TakeEntries(rd, blob, start, count).Some?
      modifies bank
      ensures Shape()
      ensures Entries() == PF.TakeEntries(rd, blob, start, count).value.value + old(Entries())[count..]
    {
      ghost var es := PF.TakeEntries(rd, blob, start, count).value.value;
      ghost var end := PF.TakeEntries(rd, blob, start, count).value.next;
      ghost var before := Entries();
      var pos := start;
      for j := 0 to count
        invariant Shape()
        invariant PF.TakeEntries(rd, blob, pos, count - j) == Some(Read(es[j..], end))
        invariant Entries() == es[..j] + before[j..]
      {
        pos := LoadNext(rd, blob, pos, j, es, end, before);
      }
      assert es[..count] == es;
    }

    /**
     * `set_bank_data`: a blob whose versions are 1 0 replaces the first
     * `count` presets in order, keeps the others, and selects preset 0 (1);
     * one with another version changes nothing (0). `rd` is as for
     * `SetPresetData`.
     */
    method SetBankData(rd: Reader, blob: seq<byte>) returns (r: uint32)
      requires Valid() && PF.ParseBank(rd, blob) != PF.Undefined
      modifies this, bank
      ensures Valid()
      ensures r == 1 <==> PF.ParseBank(rd, blob).Loaded?
      ensures r == 0 <==> PF.ParseBank(rd, blob).Rejected?
      ensures PF.ParseBank(rd, blob).Rejected? ==>
        Entries() == old(Entries()) && live == old(live) && current == old(current)
      ensures PF.ParseBank(rd, blob).Loaded? ==>
        var es := PF.ParseBank(rd, blob).value;
        Entries() == es + old(Entries())[|es|..] && current == 0 && fresh(live) &&
        live.name == Entries()[0].name && live.data == Entries()[0].values
    {
      var h := ReadHeader(rd, blob);
      if h.Rejected? {
        return 0;
      }
      var count, pos := ReadUint32By(rd, h.value, blob);
      LoadBank(rd, blob, pos, count);
      return 1;
    }

    /** The loading half of `set_bank_data`: `count` entries from `pos` into the bank, then preset 0 selected. */
    method LoadBank(rd: Reader, blob: seq<byte>, pos: nat, count: nat)
      requires Valid() && count <= BankSize && PF.TakeEntries(rd, blob, pos, count).Some?
      modifies this, bank
      ensures Valid() && current == 0 && fresh(live)
      ensures Entries() == PF.TakeEntries(rd, blob, pos, count).value.value + old(Entries())[count..]
      ensures live.name == Entries()[0].name && live.data == Entries()[0].values
    {
      LoadEntries(rd, blob, pos, count);
      SetSelectedPreset(0);
    }
  }

  /** A blob written by `get_preset_data` and loaded by `set_preset_data` restores the selected preset. */
  method PresetSaveLoad(rd: Reader, synth: DSynth) returns (r: uint32)
    requires synth.Valid() && Fits(rd, |synth.Entries()[synth.current].name|)
    modifies synth, synth.bank[synth.current]
    ensures synth.Valid() && r == 1 && synth.Entries() == old(synth.Entries())
  {
    var blob := synth.GetPresetData();
    r := synth.SetPresetData(rd, blob);
    assert old(synth.Entries())[synth.current := old(synth.Entries())[synth.current]] == old(synth.Entries());
  }

  /** Loading a bank blob that parses as the bank's own entries leaves the bank as it was and selects preset 0. */
  method ReloadBank(rd: Reader, synth: DSynth, blob: seq<byte>) returns (r: uint32)
    requires synth.Valid() && PF.ParseBank(rd, blob) == PF.Loaded(synth.Entries())
    modifies synth, synth.bank
    ensures synth.Valid() && r == 1 && synth.Entries() == old(synth.Entries()) && synth.current == 0
  {
    ghost var es := synth.Entries();
    r := synth.SetBankData(rd, blob);
    assert es + es[BankSize..] == es;
  }

  /** A blob written by `get_bank_data` and loaded by `set_bank_data` restores the whole bank and selects preset 0. */
  method BankSaveLoad(rd: Reader, synth: DSynth) returns (r: uint32)
    requires synth.Valid() && forall i :: 0 <= i < BankSize ==> Fits(rd, |synth.Entries()[i].name|)
    modifies synth, synth.bank
    ensures synth.Valid() && r == 1 && synth.Entries() == old(synth.Entries()) && synth.current == 0
  {
    var blob := synth.GetBankData();
    BankBlobLoads(rd, synth.Entries());
    r := ReloadBank(rd, synth, blob);
  }
}
