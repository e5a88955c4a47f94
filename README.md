# plumdemo core in Dafny

This project models the sequential core of the plumdemo plugin host and its demo synth plugin, and proves properties of that model:

- **The host's sub-block event splitter.** This is `audio::process`. It cuts one driver callback at the frame offsets of its MIDI events, delivers each event when it is due, and renders the gaps between events.
- **The host's track engine.** This is `track_engine` and `trackitem`: one synth slot and four effect slots. Each slot holds a plugin and its channel buffers. `process` threads audio through the occupied slots.
- **The demo synth's state.** This covers:
  - a pool of eight voices, with first-free allocation and no stealing;
  - a release that takes the first held voice playing the note;
  - MIDI Note On / Note Off dispatch;
  - a bank of six presets whose parameters are clamped to declared ranges;
  - the selected preset, with the live copy the voices read.
- **The storage format.** This is the synth's preset and bank blobs, and the byte codec they are built from (`append_*` / `read_*`).

Modules:

| file | module | form |
|---|---|---|
| scalars.dfy | `Scalars` | bytes, `uint32`, IEEE-754 single floats kept as bit patterns, with the IEEE `<`, `std::min`, `std::max` and the clamp |
| option.dfy | `Opt` | `Option` |
| splitter.dfy | `Splitter` | the reference schedule as functions, the callback loop as a method proved equal to it |
| chain.dfy | `Chain` | what the signal chain computes, as values |
| engine.dfy | `Engine` | `trackitem` and `track_engine` as classes over arrays of channels, proved against `Chain` |
| codec.dfy | `Codec` | the encodings as functions, the buffer operations as methods |
| presetformat.dfy | `PresetFormat` | the blob layout, its writers and parsers as functions, the round trips |
| pool.dfy | `Pool` | the voice pool as values: allocation, release, counting |
| voice.dfy | `Voice` | `preset_t` and `voice` as classes |
| synth.dfy | `Synth` | `DSynth` as a class, its parameter table and factory bank, its MIDI dispatch and its storage methods |

Modelling choices:

- **Floats are 32-bit patterns.** The modelled code only stores, copies, serialises and compares them. Comparison is `Scalars.Less`, the IEEE order: NaN is unordered and the two zeros are equal. The threshold `level < 0.000001` is `Less(level, F32(0x358637BE))`, because no float lies between the double 1e-6 and that float.
- **A float's in-memory bytes** are its bit pattern, least significant byte first, as on the little-endian hosts the plugin targets.
- **Unit DSP is opaque.** A plugin's `process` is a kernel function from its input channels, the frame count, the output channel and the frame to an output sample.
- **A voice's level is opaque too.** The level its rendering measures is an input to `Voice.Voice.Process` and `Synth.DSynth.Process`.
- **Reads past the end are undefined.** The blob loaders read past the end of a short blob, and `set_bank_data` writes past the bank for a count above 6. Both are undefined behaviour, so a parser's answer is then `Undefined`. The loader methods require a blob whose outcome is not `Undefined`.
- **The spin lock is sequential.** Every engine method is one atomic step, so a `process` sees the slots either before or after a `set_synth` / `set_effect`.
- **Plugin calls are a log.** The calls the engine makes on a plugin that the plugin can observe (reference, activate, deactivate, release, MIDI) are appended to the plugin's `calls` log.

Where the code differs from its own declarations, the model follows the code:

- `set_selected_preset` calls `m_bank[index].clone()` and uses the result as a new preset (plugin/src/demo-synth/synth.cpp:144). `preset_t` declares `clone(preset_t *np)` (plugin/src/demo-synth/voice.h:77-82). The model makes a new preset and clones into it.
- `midi_event` passes velocity 0 for a Note On whose velocity byte is 0. `voice::start` ignores the velocity, so a Note On of velocity 0 starts a voice like any other. It is not a Note Off.
- `track_engine::track_engine` only reserves room. The four empty effect slots come from the member initialiser (host/src/engine.h:77).

## Model

| member | source | states |
|---|---|---|
| Scalars.StdMin | plugin/src/demo-synth/voice.h:72 | returns one of its operands, the second exactly when it is IEEE-less than the first |
| Scalars.StdMax | plugin/src/demo-synth/voice.h:73 | returns one of its operands, the second exactly when the first is IEEE-less than it |
| Scalars.Clamp | plugin/src/demo-synth/voice.h:69-75 | for a declared range, the stored value lies in the range whatever the input (NaN included); an in-range input keeps its numeric value, and its bits unless it is a zero; NaN becomes the upper bound |
| Scalars.ClampIdempotent | plugin/src/demo-synth/voice.h:69-75 | setting a value twice stores the same bits as setting it once |
| Codec.Uint32BytesValue | plugin/src/utils.cpp:26-32 | `append_uint32` writes the value's four bytes least significant first: read back little-endian they give the value |
| Codec.Uint32Bytes | plugin/src/utils.cpp:26-32 | `append_uint32` writes exactly four bytes |
| Codec.LittleEndianDigits | plugin/src/utils.cpp:26-32 | any four bytes, taken as a little-endian value, are written back by `append_uint32` as the same four bytes |
| Codec.Uint32At | plugin/src/utils.cpp:34-44 | the corrected read of four bytes is below 65536 exactly when bytes 2 and 3 are zero |
| Codec.Uint32AtBytes | plugin/src/utils.cpp:26-44 | the corrected read of any four bytes is written back as exactly those bytes |
| Codec.AppendUint32 | plugin/src/utils.cpp:26-32 | the buffer grows by exactly those four bytes; the existing prefix is unchanged |
| Codec.Uint32AtAsWritten | plugin/src/utils.cpp:34-44 | the value `read_uint32` as written computes is always below 65536 |
| Codec.AsWrittenAgrees | plugin/src/utils.cpp:34-44 | on any four bytes, `read_uint32` as written agrees with the little-endian value exactly when bytes 2 and 3 are zero |
| Codec.HighByteBytes | plugin/src/utils.cpp:39-41 | as written, bits 8-15 of the result are the bitwise or of bytes 1, 2 and 3 |
| Codec.Or8ZeroIff | plugin/src/utils.cpp:39-41 | the or of two bytes is zero exactly when both are |
| Codec.AsWrittenSmallValues | plugin/src/utils.cpp:34-44 | as written and corrected, the reads agree on whether four bytes hold 0, and on whether they hold 1 |
| Codec.ReadUint32AsWritten | plugin/src/utils.cpp:34-44 | the as-written reader returns that value and advances the cursor by exactly 4 |
| Codec.AsWrittenRoundTripBelow64K | plugin/src/utils.cpp:26-44 | as written, `read_uint32` recovers what `append_uint32` wrote for every value below 65536, wherever it sits in the buffer |
| Codec.AsWrittenRoundTripFailsAbove64K | plugin/src/utils.cpp:26-44 | as written, `read_uint32` misreads every value of 65536 or more |
| Codec.AsWrittenReads65536As256 | plugin/src/utils.cpp:38-41 | the bytes written for 65536 are read back as 256 |
| Codec.Uint32By | plugin/src/utils.cpp:34-44 | the read the loaders use, as written or corrected; as written it is below 65536 |
| Codec.Uint32ReadBack | plugin/src/utils.cpp:26-44 | each reader recovers every value it fits (all of them corrected, those below 65536 as written) from its `append_uint32` bytes |
| Codec.ReadUint32By | plugin/src/utils.cpp:34-44 | the cursor read by either reader returns what `TakeUint32` says, 4 bytes on |
| Codec.TakeUint32 | plugin/src/utils.cpp:34-44 | a 32-bit read succeeds exactly when four bytes remain, and ends 4 bytes on |
| Codec.ReadUint32 | plugin/src/utils.cpp:34-44 | the corrected reader returns the little-endian value of the four bytes at the cursor, and the cursor 4 bytes on |
| Codec.Uint32RoundTrip | plugin/src/utils.cpp:26-44 | the corrected reader recovers every value the writer wrote, whatever surrounds it |
| Codec.Float32Bytes | plugin/src/utils.cpp:46-53 | a float is written as four bytes |
| Codec.Float32AtBytes | plugin/src/utils.cpp:55-66 | the float read from any four bytes is written back as exactly those bytes |
| Codec.AppendFloat32 | plugin/src/utils.cpp:46-53 | the buffer grows by exactly the float's four bytes; the prefix is unchanged |
| Codec.TakeFloat32 | plugin/src/utils.cpp:55-66 | a float read succeeds exactly when four bytes remain, ends 4 bytes on, and its value's bytes are the four bytes read |
| Codec.ReadFloat32 | plugin/src/utils.cpp:55-66 | `read_float32` returns the float whose bytes are the four at the cursor, and the cursor 4 bytes on |
| Codec.Float32RoundTrip | plugin/src/utils.cpp:46-66 | `read_float32` recovers every float `append_float32` wrote, bit for bit |
| Codec.StringBytes | plugin/src/utils.cpp:68-75 | a string is written as 4 + its length bytes, the string's bytes after the prefix |
| Codec.AppendString | plugin/src/utils.cpp:68-75 | the buffer grows by exactly that encoding; the prefix is unchanged |
| Codec.PushBytes | plugin/src/utils.cpp:71-74 | the loop of `append_string` appends the string's bytes in order |
| Codec.TakeString | plugin/src/utils.cpp:77-84 | a string read, with either reader for the length, succeeds exactly when the prefix and that many bytes remain; it returns those bytes and ends 4 + length bytes on; as written it takes fewer than 65536 bytes |
| Codec.ReadString | plugin/src/utils.cpp:77-84 | `read_string` returns what `TakeString` says for that reader: the bytes after the length prefix, and the cursor 4 + their number on |
| Codec.StringRoundTrip | plugin/src/utils.cpp:68-84 | `read_string` recovers every string `append_string` wrote whose length the reader fits: below 2^32 bytes corrected, below 65536 as written |
| Codec.AsWrittenStringRoundTripFails | plugin/src/utils.cpp:68-84 | as written, no string of 65536 bytes or more round-trips |
| Codec.AsWrittenReadsPrefix | plugin/src/utils.cpp:77-84 | as written, a 65536-byte string reads back as its first 256 bytes, and the cursor stops 260 bytes on |
| PresetFormat.FieldBytes | plugin/src/demo-synth/synth.cpp:378-383 | a header string with its version pair takes 12 + the string's length bytes |
| PresetFormat.FloatsBytes | plugin/src/demo-synth/synth.cpp:386-390 | the values of a preset take 4 bytes each |
| PresetFormat.FloatsBytesSnoc | plugin/src/demo-synth/synth.cpp:386-390 | writing one more value appends its four bytes after those already written |
| PresetFormat.EntriesBytesSnoc | plugin/src/demo-synth/synth.cpp:465-473 | writing one more preset appends its name and values after those already written |
| PresetFormat.Version | plugin/src/demo-synth/synth.cpp:335-337 | the two version reads go on exactly when they read 1 then 0, are rejected exactly when the bytes are there but differ, and are undefined past the end |
| PresetFormat.VersionAgrees | plugin/src/utils.cpp:34-44 | the defect in `read_uint32` never changes the outcome of a version check |
| PresetFormat.VersionRejected | plugin/src/demo-synth/synth.cpp:335-337 | a version pair written as anything but 1 0 is rejected |
| PresetFormat.SkipStringTakes | plugin/src/demo-synth/synth.cpp:333 | a string read whose result is dropped moves the cursor exactly as `read_string` does |
| PresetFormat.Field | plugin/src/demo-synth/synth.cpp:333-337 | a string and a version pair that load end at least 12 bytes on, inside the blob; a rejection comes only after the string was read |
| PresetFormat.Header | plugin/src/demo-synth/synth.cpp:330-348 | the header reads of both loaders, when they load, end at least 28 bytes in, inside the blob |
| PresetFormat.TakeFloats | plugin/src/demo-synth/synth.cpp:353-357 | six value reads succeed exactly when 24 bytes remain, and end 24 bytes on |
| PresetFormat.TakeFloatsValue | plugin/src/demo-synth/synth.cpp:353-357 | value `i` is the float at byte `4 * i` after the name |
| PresetFormat.TakeEntry | plugin/src/demo-synth/synth.cpp:351-357 | one preset read gives six values and ends after its start, inside the blob |
| PresetFormat.TakeEntries | plugin/src/demo-synth/synth.cpp:426-438 | `count` preset reads give `count` presets of six values each |
| PresetFormat.TakeEntriesStep | plugin/src/demo-synth/synth.cpp:426-438 | reading `count` presets is reading one, then `count - 1` from where it ends |
| PresetFormat.ParsePreset | plugin/src/demo-synth/synth.cpp:320-359 | a preset blob that loads gives six values and, as written, a name shorter than 65536 bytes |
| PresetFormat.ParseBank | plugin/src/demo-synth/synth.cpp:395-450 | a bank blob that loads holds at most six presets (a larger count writes past the bank) |
| PresetFormat.HeaderRoundTrip | plugin/src/demo-synth/synth.cpp:330-348 | the header the writers emit passes both version checks and ends where the writer's header ends, for either reader when the kind string fits it |
| PresetFormat.PresetRoundTrip | plugin/src/demo-synth/synth.cpp:320-393 | a preset blob loads back as the name and six values it was written from, whatever follows it, for either reader when the name fits it |
| PresetFormat.AtPreset | plugin/src/demo-synth/synth.cpp:320-393 | wherever the preset layout of an entry fills the start of a blob, the blob loads as that entry |
| PresetFormat.AsWrittenTruncatesName | plugin/src/demo-synth/synth.cpp:320-393 | a preset named with 65536 bytes loads back whole with the corrected reader; as written it loads, under the name's first 256 bytes |
| PresetFormat.BankRoundTrip | plugin/src/demo-synth/synth.cpp:395-476 | a bank blob of up to six presets loads back as those presets, in order, for either reader when every name fits it |
| PresetFormat.AtBank | plugin/src/demo-synth/synth.cpp:395-476 | wherever the bank layout of up to six storable entries fills the start of a blob, the blob loads as those entries |
| PresetFormat.StringsNotCompared | plugin/src/demo-synth/synth.cpp:330-348 | the magic, id and kind strings are read and never compared: any strings pass when the versions are 1 0 |
| PresetFormat.WrongVersionRejected | plugin/src/demo-synth/synth.cpp:333-337 | a first version pair other than 1 0 makes both loaders return 0, whatever follows |
| PresetFormat.SecondVersionRejected | plugin/src/demo-synth/synth.cpp:341-345 | a second version pair other than 1 0 makes both loaders return 0, whatever follows |
| Pool.FirstFree | plugin/src/demo-synth/synth.cpp:217-218 | finds the lowest-index free voice, or reports that none is free |
| Pool.FirstPlaying | plugin/src/demo-synth/synth.cpp:230-235 | finds the lowest-index voice held on the note, or reports that there is none |
| Pool.Started | plugin/src/demo-synth/voice.h:162-170 | a started voice plays the note and is not free; its level is untouched |
| Pool.Released | plugin/src/demo-synth/voice.h:174-178 | a released voice plays no note; note and level are untouched; it is free exactly when its level is below the threshold |
| Pool.NoteOn | plugin/src/demo-synth/synth.cpp:215-226 | only the first free voice starts, on the note; every other voice is unchanged; with no free voice nothing changes |
| Pool.NoteOff | plugin/src/demo-synth/synth.cpp:228-243 | only the first voice held on the note is released; every other voice is unchanged; with no match nothing changes |
| Pool.NoteOnHoldsOneMore | plugin/src/demo-synth/synth.cpp:215-226 | a note on holds exactly one more voice when one is free, and changes nothing otherwise (no stealing) |
| Pool.NoteOffHoldsOneFewer | plugin/src/demo-synth/synth.cpp:228-243 | a note off holds exactly one voice fewer when one plays the note, and changes nothing otherwise |
| Pool.FreeMeansRoom | plugin/src/demo-synth/voice.h:185-188 | while a voice is free, fewer than all voices are held |
| Pool.NoteOnThenOff | plugin/src/demo-synth/synth.cpp:215-243 | a note on followed by a note off of the same note leaves as many voices playing it as before |
| Pool.StartedNotFree | plugin/src/demo-synth/synth.cpp:215-226 | the voice a note on starts plays the note and is not free |
| Voice.Preset.constructor | plugin/src/demo-synth/voice.h:51-56 | a preset before `define` has six values and no table |
| Voice.Preset.Define | plugin/src/demo-synth/voice.h:57-62 | the table, the name and every value are as given, none clamped |
| Voice.Preset.Set | plugin/src/demo-synth/voice.h:69-75 | only `data[index]` changes, to the clamped value, which lies in the declared range and equals an in-range input numerically; the table and name are unchanged |
| Voice.Preset.Store | plugin/src/demo-synth/synth.cpp:353-357 | the loaders' plain store: only `data[index]` changes, to the value exactly |
| Voice.Preset.CloneInto | plugin/src/demo-synth/voice.h:77-82 | the target gets this preset's table, name and every value exactly |
| Voice.Voice.constructor | plugin/src/demo-synth/voice.h:211-216 | a new voice is not held and has level 0 |
| Voice.Voice.Start | plugin/src/demo-synth/voice.h:162-172 | the voice is held on the note; the level is untouched |
| Voice.Voice.Release | plugin/src/demo-synth/voice.h:174-178 | the voice is no longer held; the note and level are untouched |
| Voice.Voice.IsHeld | plugin/src/demo-synth/voice.h:180-183 | reports the held flag |
| Voice.Voice.IsFree | plugin/src/demo-synth/voice.h:185-188 | true exactly when the voice is released and its level is below the threshold; a held voice is never free |
| Voice.Voice.MidiNote | plugin/src/demo-synth/voice.h:190-193 | reports the note the voice was last started on |
| Voice.Voice.Process | plugin/src/demo-synth/voice.h:195-209 | rendering replaces the level by the one measured; note and held flag are untouched |
| Synth.TableRanges | plugin/src/demo-synth/synth.h:132-156 | there are six parameter definitions, and each declares a range: both bounds numbers, the lower first |
| Synth.FactoryInRange | plugin/src/demo-synth/synth.cpp:40-45 | the factory bank has six presets of six values, each within its parameter's declared range |
| Synth.As | plugin/src/demo-synth/synth.h:48-64 | the object and plugin ids give the plugin interface, the storage id the storage interface, any other id nothing |
| Synth.Command | plugin/src/demo-synth/synth.cpp:199 | the status byte with its channel nibble cleared: a multiple of 16, at most the status and within 16 of it |
| Synth.Dispatch | plugin/src/demo-synth/synth.cpp:197-213 | a 9nH status starts a voice on `data[1]`, an 8nH status releases one, any other status changes nothing |
| Synth.ZeroVelocityStarts | plugin/src/demo-synth/synth.cpp:201-205 | a Note On of velocity 0, on any channel, holds one more voice when one is free |
| Synth.ProcessedVoices | plugin/src/demo-synth/synth.cpp:261-273 | processing skips free voices, keeps every note and held flag, and a busy voice becomes free exactly when it is released and its new level is below the threshold |
| Synth.ProcessedHeld | plugin/src/demo-synth/synth.cpp:261-273 | processing never changes how many voices are held |
| Synth.ReadField | plugin/src/demo-synth/synth.cpp:333-337 | a string read and dropped, then the version check: the same outcome and position as the format's field |
| Synth.ReadHeader | plugin/src/demo-synth/synth.cpp:330-348 | the loaders' header reads: rejected exactly as the format rejects, else the position after the kind string |
| Synth.NewVoices | plugin/src/demo-synth/synth.cpp:38 | eight distinct new voices, none held, all at level 0 |
| Synth.NewPreset | plugin/src/demo-synth/synth.cpp:40 | one `define` of the constructor: a new preset with the table, name and values given |
| Synth.NewBank | plugin/src/demo-synth/synth.cpp:40-45 | six distinct new presets holding the factory bank, in order |
| Synth.WriteHeader | plugin/src/demo-synth/synth.cpp:377-384 | appends exactly the header bytes for the kind |
| Synth.WriteEntry | plugin/src/demo-synth/synth.cpp:385-390 | appends exactly the name's encoding followed by each value's four bytes |
| Synth.WritePreset | plugin/src/demo-synth/synth.cpp:373-393 | the blob is exactly the preset layout of the entry |
| Synth.WriteEntries | plugin/src/demo-synth/synth.cpp:465-473 | appends every preset of the bank, in order |
| Synth.WriteBank | plugin/src/demo-synth/synth.cpp:452-476 | the blob is exactly the bank layout of the entries |
| Synth.DSynth.constructor | plugin/src/demo-synth/synth.cpp:32-48 | eight free voices at level 0, the factory bank, preset 0 selected, and the live copy equal to it |
| Synth.DSynth.CountPresets | plugin/src/demo-synth/synth.cpp:131-134 | the number of presets in the bank, 6 |
| Synth.DSynth.GetSelectedPreset | plugin/src/demo-synth/synth.cpp:136-139 | the selected index, always a valid preset index |
| Synth.DSynth.SetSelectedPreset | plugin/src/demo-synth/synth.cpp:141-155 | afterwards the index is selected, the live copy is a new clone of that preset with its name and values, and the bank and voices are unchanged |
| Synth.CString | plugin/src/demo-synth/synth.cpp:118-129 | what a name keeps through `c_str()` and a `const char *`: a prefix of it with no 0 byte, ending where its first 0 byte is |
| Synth.CStringKeeps | plugin/src/demo-synth/synth.cpp:118-129 | a name passes through a `const char *` unchanged exactly when it holds no 0 byte, and a second pass changes nothing |
| Synth.DSynth.GetPresetName | plugin/src/demo-synth/synth.cpp:118-121 | the bank's name of that preset cut at its first 0 byte; the whole name when it holds none |
| Synth.DSynth.SetPresetName | plugin/src/demo-synth/synth.cpp:123-129 | that preset's name becomes the new name cut at its first 0 byte, which `get_preset_name` then returns; its values, the other presets and the live copy's name do not change |
| Synth.DSynth.CountParameters | plugin/src/demo-synth/synth.cpp:161-164 | the number of parameter definitions, which is the number of values in every preset |
| Synth.DSynth.GetParameter | plugin/src/demo-synth/synth.cpp:166-169 | the selected preset's value, which the live copy also holds |
| Synth.DSynth.SetParameter | plugin/src/demo-synth/synth.cpp:171-175 | the clamped value replaces that one value of the selected preset and of the live copy; it lies in the declared range and equals an in-range input numerically |
| Synth.DSynth.FindFree | plugin/src/demo-synth/synth.cpp:217-218 | the scan finds the lowest-index free voice |
| Synth.DSynth.FindPlaying | plugin/src/demo-synth/synth.cpp:230-235 | the scan finds the lowest-index voice held on the note |
| Synth.DSynth.NoteOn | plugin/src/demo-synth/synth.cpp:215-226 | the voices become `Pool.NoteOn` of what they were |
| Synth.DSynth.NoteOff | plugin/src/demo-synth/synth.cpp:228-243 | the voices become `Pool.NoteOff` of what they were |
| Synth.DSynth.MidiEvent | plugin/src/demo-synth/synth.cpp:197-213 | the voices become `Dispatch` of what they were |
| Synth.DSynth.Process | plugin/src/demo-synth/synth.cpp:256-274 | every voice that is not free takes its measured level; free voices are untouched |
| Synth.DSynth.GetPresetData | plugin/src/demo-synth/synth.cpp:373-393 | the blob is the selected preset's layout; it parses back as that preset with the corrected reader for names below 2^32 bytes and as written for names below 65536; as written a 65536-byte name parses as its first 256 bytes |
| Synth.DSynth.GetBankData | plugin/src/demo-synth/synth.cpp:452-476 | the blob is the bank's layout with count 6; it parses back as the whole bank with each reader when every name fits that reader |
| Synth.PresetBlobLoads | plugin/src/demo-synth/synth.cpp:373-393 | the layout of one full entry parses back as that entry under each reader whose length limit its name fits; as written, a 65536-byte name parses as its first 256 bytes |
| Synth.BankBlobLoads | plugin/src/demo-synth/synth.cpp:452-476 | the layout of six full entries parses back as those entries under each reader whose length limit every name fits |
| Synth.DSynth.LoadEntry | plugin/src/demo-synth/synth.cpp:350-359 | one preset's name and values are read into that preset exactly; the others are unchanged; the cursor ends after it |
| Synth.DSynth.LoadSelected | plugin/src/demo-synth/synth.cpp:350-361 | the entry at the cursor replaces the selected preset, which stays selected and gets a fresh live copy with its name and values; the other presets are unchanged |
| Synth.DSynth.SetPresetData | plugin/src/demo-synth/synth.cpp:320-371 | returns 1 exactly when the blob parses (both version pairs 1 0), storing the parsed preset over the selected one and making the live copy a new clone of it; returns 0 otherwise with nothing changed |
| Synth.DSynth.LoadNext | plugin/src/demo-synth/synth.cpp:426-438 | one turn of the loop: the next parsed entry replaces preset `j`, and the remaining entries parse from where it ends |
| Synth.DSynth.LoadEntries | plugin/src/demo-synth/synth.cpp:426-438 | the first `count` presets become the parsed ones in order; the rest are unchanged |
| Synth.DSynth.LoadBank | plugin/src/demo-synth/synth.cpp:424-445 | the first `count` presets become the parsed ones, the rest are kept, and preset 0 is selected with a fresh live copy |
| Synth.DSynth.SetBankData | plugin/src/demo-synth/synth.cpp:395-450 | returns 1 exactly when the blob parses (both version pairs 1 0), storing the parsed presets over the first ones, keeping the rest, and selecting preset 0 with a new live clone of it; returns 0 otherwise with nothing changed |
| Synth.PresetSaveLoad | plugin/src/demo-synth/synth.cpp:320-393 | with either reader, loading the blob `get_preset_data` wrote leaves the bank as it was and returns 1 when the name fits the reader |
| Synth.ReloadBank | plugin/src/demo-synth/synth.cpp:395-450 | loading a blob that parses as the bank's own entries returns 1, leaves the bank as it was and selects preset 0 |
| Synth.BankSaveLoad | plugin/src/demo-synth/synth.cpp:395-476 | with either reader, loading the blob `get_bank_data` wrote leaves the bank as it was, selects preset 0 and returns 1 when every name fits the reader |
| Chain.Silence | host/src/engine.cpp:193-194 | `n` zero samples |
| Chain.Render | host/src/engine.cpp:65-68 | one output channel per declared output, `n` frames each, sample by sample the unit's kernel |
| Chain.Feed | host/src/engine.cpp:171-185 | an effect's inputs 0 and 1 get the source's two channels, or zeros when there is none; its other inputs are as they were |
| Chain.WalkAllEmpty | host/src/engine.cpp:164-166 | empty effect slots pass the source on unchanged |
| Chain.EmptyChainSilent | host/src/engine.cpp:191-195 | with no synth and every effect slot empty, both outputs are silent |
| Chain.SynthOnly | host/src/engine.cpp:196-200 | with every effect slot empty, the outputs are the synth's first two channels |
| Chain.SkipEmptySlots | host/src/engine.cpp:164-189 | the chain computes the same as its occupied slots alone, in order |
| Chain.LastOccupiedDecides | host/src/engine.cpp:164-205 | the output is the last occupied effect's first two channels, fed by the chain before it |
| Engine.AllocateIo | host/src/engine.cpp:40-63 | the buffer has `buffer_size * (ni + no)` samples; input `i` starts at `i * buffer_size`, output `j` at `(ni + j) * buffer_size` |
| Engine.RegionsDisjoint | host/src/engine.cpp:40-63 | the `buffer_size`-sample channel regions at those offsets do not overlap and all lie inside the buffer |
| Engine.FillZero | host/src/engine.cpp:193-194 | the first `n` driver samples become zero; the rest are unchanged |
| Engine.TrackItem.constructor | host/src/engine.cpp:27-32 | references the plugin, lays out its channel regions zero-filled at the given buffer size, then activates it |
| Engine.TrackItem.Destroy | host/src/engine.cpp:34-38 | deactivates, then releases the plugin |
| Engine.TrackItem.Process | host/src/engine.cpp:65-68 | the outputs' first `n` frames become the unit's render of its inputs; the inputs and later frames are unchanged |
| Engine.TrackItem.Clear | host/src/engine.cpp:173-174 | one input channel's first `n` frames become zero; every other channel is unchanged |
| Engine.TrackItem.CopyInto | host/src/engine.cpp:70-73 | the target's input channel gets exactly the first `n` frames of this output; nothing else changes |
| Engine.TrackItem.CopyOut | host/src/engine.cpp:70-73 | the driver buffer's first `n` samples get exactly this output's first `n` frames; the rest are unchanged |
| Engine.FeedInputs | host/src/engine.cpp:171-185 | an effect's inputs become `Chain.Feed` of the source |
| Engine.Emit | host/src/engine.cpp:191-205 | the driver outputs get the final source's two channels, or zeros |
| Engine.RunSynth | host/src/engine.cpp:158-162 | the synth's outputs become `Chain.Start` of its slot |
| Engine.RunEffect | host/src/engine.cpp:166-188 | an occupied effect's outputs become `Chain.Step` of the source and its slot |
| Engine.TrackEngine.constructor | host/src/engine.h:73-77 | no synth, four empty effect slots, and the buffer size not yet set |
| Engine.TrackEngine.MaxEffects | host/src/engine.cpp:81-84 | the number of effect slots, 4 |
| Engine.TrackEngine.Reset | host/src/engine.cpp:136-140 | records the buffer size and sample rate; the slots are unchanged |
| Engine.TrackEngine.SetSynth | host/src/engine.cpp:92-111 | only the synth slot changes: to a new item for the plugin sized to the buffer size, or to empty; the new plugin is referenced and activated, the displaced one deactivated and released |
| Engine.TrackEngine.SetEffect | host/src/engine.cpp:115-134 | only effect slot `index` changes, in the same way; the synth and the other slots are unchanged |
| Engine.TrackEngine.Midi | host/src/engine.cpp:142-148 | the event is forwarded to the synth's plugin when there is a synth |
| Engine.TrackEngine.SynthTurn | host/src/engine.cpp:152-162 | the synth, if any, renders and becomes the source (-1); otherwise there is none (-2) |
| Engine.TrackEngine.Turn | host/src/engine.cpp:164-189 | an occupied slot is fed by the source and becomes it; an empty one is skipped |
| Engine.TrackEngine.RunSlot | host/src/engine.cpp:168-188 | an occupied slot's turn extends the chain walked so far by that slot |
| Engine.TrackEngine.RunEffects | host/src/engine.cpp:164-189 | after the effect loop the source holds the chain walked over all four slots |
| Engine.TrackEngine.RunChain | host/src/engine.cpp:150-189 | the final source's first two outputs hold the chain's walk over the slots as they were when the call began |
| Engine.TrackEngine.Process | host/src/engine.cpp:150-209 | the first `n` samples of both driver outputs are exactly `Chain.Output` of the slots as they were when the call began; the rest are unchanged |
| Splitter.ScheduleRendered | host/src/audio.cpp:171-206 | the schedule renders exactly the frames left in the block |
| Splitter.ScheduleDelivered | host/src/audio.cpp:175-187 | the schedule delivers every remaining event exactly once, in index order |
| Splitter.SchedulePlaced | host/src/audio.cpp:179-194 | each event is delivered after exactly its offset in frames has been rendered, and each sub-block is non-empty and starts where the previous one ended |
| Splitter.ScheduleCorrect | host/src/audio.cpp:171-206 | from any point of the loop, the rest of the schedule renders the remaining frames, delivers the remaining events in order, and places each at its offset |
| Splitter.BlockSchedule | host/src/audio.cpp:171-206 | for sorted in-block offsets, the rendered frames sum to `nframes`, every event is delivered once in order, and each at its offset |
| Splitter.SameTimeEventsAdjacent | host/src/audio.cpp:179-187 | no sub-block is rendered between two events with the same offset |
| Splitter.NoEventsOneBlock | host/src/audio.cpp:171-206 | with no events the engine renders once, the whole block |
| Splitter.DeliverDue | host/src/audio.cpp:175-194 | the inner loop delivers every event due at the current frame, in order, and stops at the first later one, whose offset ends the next sub-block; the calls made so far stay a prefix of the reference schedule |
| Splitter.RenderNext | host/src/audio.cpp:171-204 | one pass of the outer loop delivers what is due, renders a non-empty sub-block up to the next event or the end of the block, and keeps the calls a prefix of the reference schedule, the whole of it once the block is done |
| Splitter.ProcessBlock | host/src/audio.cpp:155-209 | the loop makes exactly the reference schedule's calls (none without an engine), the output pointers end `nframes` on, and it returns 0 |

## Left out

- JACK plumbing (client, ports, buffer and event fetching) is not modelled. The splitter takes the event offsets as a sequence, and the engine's driver outputs are arrays.
- Concurrency is not modelled: the spin lock, the atomics on `m_preset` and on the preset values, and the hazard of deleting a displaced `trackitem`. Every operation is one sequential step.
- The Tonic synthesis graph, `update_params`, the note-to-frequency mapping and the level averaging of `voice::process` are not modelled. They are floating-point DSP. The measured level is an input.
- Synth.DSynth.Process: the mixing of voice outputs into the driver buffers is not modelled (floating-point DSP). Only its effect on the voices is.
- Engine.TrackItem.constructor: the source's single flat sample vector is modelled as one array element per channel region. The offsets `AllocateIo` computes are kept and stated, but aliasing through raw pointers is not modelled.
- The GUI and its notifications are not modelled: `open_ui`, `on_gui_closed`, `refresh`, `on_data_changed`, and `plugin_preset_changed` / `plugin_preset_selected` / `plugin_bank_changed` on the host.
- Reference counting, blob allocation and release are not modelled, nor the plugin API's interface ids. The ids are parameters of `Synth.As`.
- `configure`, `activate`, `deactivate`, `get_name`, `get_parameter_def`, the I/O name queries, the display formatters of `m_defs` and the `printf` logging are not modelled. They are fixed answers or output.
- `voice`'s pointer to the shared preset, and its uninitialised `m_note` before the first `start`, are not modelled. The model gives a new voice note 0; nothing reads it before `start`.
- Voice.Preset.constructor: the source leaves a preset's table pointer and values unset until `define`. The model gives it an empty table and zeros.
- Voice.Preset.Get has no contract of its own. `Synth.DSynth.GetParameter` states what it returns.
- Synth.DSynth.SetPresetData: requires a blob that the loader reads within its bounds. A short blob is read past its end in the source (undefined behaviour).
- Synth.DSynth.SetBankData: requires a blob read within its bounds and a count of at most 6. The source writes past `m_bank` for a larger count.
- Synth.DSynth.GetPresetData: with the corrected reader, the round trip is stated for names shorter than 2^32 bytes, whose length `append_uint32` writes exactly. The source truncates a longer length to 32 bits, silently. With the reader as written, the round trip is stated only for names shorter than 65536 bytes; a 65536-byte name loads back as its first 256 bytes (`PresetFormat.AsWrittenTruncatesName`).
- Synth.DSynth.GetBankData: the round trip has the same name-length bounds, for every preset of the bank.
- Engine.AllocateIo: does not model the 32-bit wrap of `buffer_size * (ni + no)` and of `k += buffer_size`, which the source computes in `uint32_t` (host/src/engine.cpp:47-58). The offsets are unbounded naturals, exact while the product stays below 2^32.
- Engine.TrackEngine.Process: requires every item to have room for `n` frames. The source relies on the driver never delivering more frames than the buffer size `reset` received; no buffer-size callback is registered (host/src/audio.cpp:124-126).
- Engine.TrackEngine.Process: requires at least two synth outputs and, for every effect, at least two inputs and two outputs. The source indexes `outs[1]` and the target's `ins[1]` unchecked, which is undefined behaviour for a smaller plugin.
- A plugin's state between calls is not modelled: `Engine.Unit`'s kernel is fixed, so its output depends only on its inputs and the frame count, never on the synth's voices or on the MIDI it was sent. No contract relates outputs across calls.
- `plum::string` and `istring::text` are not part of this model. A name is taken to reach the synth as a 0-terminated `const char *`, so `Synth.DSynth.SetPresetName` keeps the bytes before the first 0. Loaded names are kept whole, as `read_string` builds them with an explicit length, and `Synth.DSynth.GetPresetName` cuts them at their first 0 byte.
- The loaders store values unclamped, as the source does. Nothing re-checks loaded values against the declared ranges.
- The blob parsers and the loader methods take the reader as a parameter: `AsWritten`, the source's `read_uint32`, or `Intended`, the corrected one (the finding below). The round trips are proved for both, each for the name lengths it reads back.
- The Gain plugin, the host GUI, the plugin catalog and dynamic loading are not modelled. They are outside this core.

## Findings

| source | as written | input that shows it | evidently intended | confidence | as-written member | corrected member |
|---|---|---|---|---|---|---|
| plugin/src/utils.cpp:38-41 | `read_uint32` ORs bytes 1, 2 and 3 all shifted by 8, so bytes 2 and 3 land on bits 8-15 | the four bytes `append_uint32` writes for 65536, `00 00 01 00`, read back as 256 | bytes shifted by 8, 16 and 24, the inverse of `append_uint32` | not executed | Codec.AsWrittenReads65536As256 | Codec.Uint32RoundTrip |
