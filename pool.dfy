/**
 * The demo synth's voice pool as values: eight voices, each with the note it
 * was last started on, whether its key is held, and its last measured output
 * level. `note_on` starts the first free voice and steals none; `note_off`
 * releases the first held voice playing the note.
 */
module Pool {
  import opened Scalars
  import opened Opt

  /** What `voice` keeps for the allocator: `m_note`, `m_held`, `m_level`. */
  datatype VoiceState = VoiceState(note: int, held: bool, level: Float32)

  /** The smallest float the source does not count as silent: `level < 0.000001` is `Less(level, Silent)`. */
  const Silent := F32(0x3586_37BE)

  /** `voice::is_free`: released and silent. */
  predicate Free(v: VoiceState) {
    Less(v.level, Silent) && !v.held
  }

  /** The voice `note_off(note)` looks for: held, on that note. */
  predicate Plays(v: VoiceState, note: int) {
    v.held && v.note == note
  }

  /** `std::find_if(..., is_free)`: the lowest index of a free voice. */
  function FirstFree(vs: seq<VoiceState>): (r: Option<nat>)
    ensures r.Some? ==> r.value < |vs| && Free(vs[r.value])
    ensures r.Some? ==> forall k :: 0 <= k < r.value ==> !Free(vs[k])
    ensures r.None? ==> forall k :: 0 <= k < |vs| ==> !Free(vs[k])
  {
    if vs == [] then None
    else if Free(vs[0]) then Some(0)
    else
      var rest := FirstFree(vs[1..]);
      if rest.None? then None else Some(rest.value + 1)
  }

  /** `std::find_if(..., is_held && midi_note == note)`: the lowest index of a voice playing `note`. */
  function FirstPlaying(vs: seq<VoiceState>, note: int): (r: Option<nat>)
    ensures r.Some? ==> r.value < |vs| && Plays(vs[r.value], note)
    ensures r.Some? ==> forall k :: 0 <= k < r.value ==> !Plays(vs[k], note)
    ensures r.None? ==> forall k :: 0 <= k < |vs| ==> !Plays(vs[k], note)
  {
    if vs == [] then None
    else if Plays(vs[0], note) then Some(0)
    else
      var rest := FirstPlaying(vs[1..], note);
      if rest.None? then None else Some(rest.value + 1)
  }

  /** `voice::start`: held, on `note`; the level is not touched. */
  function Started(v: VoiceState, note: int): (r: VoiceState)
    ensures Plays(r, note) && !Free(r)
    ensures r.level == v.level
  {
    v.(note := note, held := true)
  }

  /** `voice::release`: no longer held; the note is kept. */
  function Released(v: VoiceState): (r: VoiceState)
    ensures forall n :: !Plays(r, n)
    ensures r.note == v.note && r.level == v.level
    ensures Free(r) <==> Less(v.level, Silent)
  {
    v.(held := false)
  }

  /** `DSynth::note_on`: the first free voice, if any, starts on `note`. */
  function NoteOn(vs: seq<VoiceState>, note: int): (r: seq<VoiceState>)
    ensures |r| == |vs|
    ensures FirstFree(vs).None? ==> r == vs
    ensures FirstFree(vs).Some? ==>
      var i := FirstFree(vs).value;
      r[i] == Started(vs[i], note) && forall k :: 0 <= k < |vs| && k != i ==> r[k] == vs[k]
  {
    match FirstFree(vs)
    case None => vs
    case Some(i) => vs[i := Started(vs[i], note)]
  }

  /** `DSynth::note_off`: the first voice playing `note`, if any, is released. */
  function NoteOff(vs: seq<VoiceState>, note: int): (r: seq<VoiceState>)
    ensures |r| == |vs|
    ensures FirstPlaying(vs, note).None? ==> r == vs
    ensures FirstPlaying(vs, note).Some? ==>
      var i := FirstPlaying(vs, note).value;
      r[i] == Released(vs[i]) && forall k :: 0 <= k < |vs| && k != i ==> r[k] == vs[k]
  {
    match FirstPlaying(vs, note)
    case None => vs
    case Some(i) => vs[i := Released(vs[i])]
  }

  // ---------------------------------------------------------------------
  // Counting

  /** How many voices are playing `note`. */
  function Playing(vs: seq<VoiceState>, note: int): nat {
    if vs == [] then 0 else Playing(vs[..|vs| - 1], note) + (if Plays(vs[|vs| - 1], note) then 1 else 0)
  }

  /** How many voices are held. */
  function HeldCount(vs: seq<VoiceState>): nat {
    if vs == [] then 0 else HeldCount(vs[..|vs| - 1]) + (if vs[|vs| - 1].held then 1 else 0)
  }

  /** Replacing one voice changes the number playing `note` by that voice alone. */
  lemma {:induction false} PlayingUpdate(vs: seq<VoiceState>, i: nat, v: VoiceState, note: int)
    requires i < |vs|
    ensures Playing(vs[i := v], note) + (if Plays(vs[i], note) then 1 else 0)
         == Playing(vs, note) + (if Plays(v, note) then 1 else 0)
    decreases |vs|
  {
    var ws := vs[i := v];
    var n := |vs| - 1;
    if i < n {
      assert ws[..n] == vs[..n][i := v];
      PlayingUpdate(vs[..n], i, v, note);
    } else {
      assert ws[..n] == vs[..n];
    }
  }

  /** Replacing one voice changes the number held by that voice alone. */
  lemma {:induction false} HeldCountUpdate(vs: seq<VoiceState>, i: nat, v: VoiceState)
    requires i < |vs|
    ensures HeldCount(vs[i := v]) + (if vs[i].held then 1 else 0) == HeldCount(vs) + (if v.held then 1 else 0)
    decreases |vs|
  {
    var ws := vs[i := v];
    var n := |vs| - 1;
    if i < n {
      assert ws[..n] == vs[..n][i := v];
      HeldCountUpdate(vs[..n], i, v);
    } else {
      assert ws[..n] == vs[..n];
    }
  }

  /** The held voices are at most all of them. */
  lemma {:induction false} HeldCountBound(vs: seq<VoiceState>)
    ensures HeldCount(vs) <= |vs|
    decreases |vs|
  {
    if vs != [] {
      HeldCountBound(vs[..|vs| - 1]);
    }
  }

  // ---------------------------------------------------------------------
  // Properties of the allocator

  /** `note_on` holds one more voice when a voice is free, and changes nothing otherwise (no stealing). */
  lemma NoteOnHoldsOneMore(vs: seq<VoiceState>, note: int)
    ensures FirstFree(vs).Some? ==> HeldCount(NoteOn(vs, note)) == HeldCount(vs) + 1
    ensures FirstFree(vs).None? ==> NoteOn(vs, note) == vs
  {
    if FirstFree(vs).Some? {
      var i := FirstFree(vs).value;
      HeldCountUpdate(vs, i, Started(vs[i], note));
    }
  }

  /** `note_off` holds one voice fewer when one plays the note, and changes nothing otherwise. */
  lemma NoteOffHoldsOneFewer(vs: seq<VoiceState>, note: int)
    ensures FirstPlaying(vs, note).Some? ==> HeldCount(NoteOff(vs, note)) + 1 == HeldCount(vs)
    ensures FirstPlaying(vs, note).None? ==> NoteOff(vs, note) == vs
  {
    if FirstPlaying(vs, note).Some? {
      var i := FirstPlaying(vs, note).value;
      HeldCountUpdate(vs, i, Released(vs[i]));
    }
  }

  /** A free voice is not held, so while one is free fewer than all voices are held. */
  lemma {:induction false} FreeMeansRoom(vs: seq<VoiceState>)
    requires FirstFree(vs).Some?
    ensures HeldCount(vs) < |vs|
    decreases |vs|
  {
    var n := |vs| - 1;
    var i := FirstFree(vs).value;
    if i < n {
      assert Free(vs[..n][i]);
      FreeMeansRoom(vs[..n]);
    } else {
      HeldCountBound(vs[..n]);
    }
  }

  /** A `note_on` matched by a `note_off` of the same note leaves as many voices playing it as before. */
  lemma NoteOnThenOff(vs: seq<VoiceState>, note: int)
    requires FirstFree(vs).Some?
    ensures Playing(NoteOn(vs, note), note) == Playing(vs, note) + 1
    ensures FirstPlaying(NoteOn(vs, note), note).Some?
    ensures Playing(NoteOff(NoteOn(vs, note), note), note) == Playing(vs, note)
  {
    var i := FirstFree(vs).value;
    var on := NoteOn(vs, note);
    PlayingUpdate(vs, i, Started(vs[i], note), note);
    assert Plays(on[i], note);
    var j := FirstPlaying(on, note).value;
    PlayingUpdate(on, j, Released(on[j]), note);
  }

  /** The voice `note_on` starts plays its note and is not free until released. */
  lemma StartedNotFree(vs: seq<VoiceState>, note: int)
    requires FirstFree(vs).Some?
    ensures var i := FirstFree(vs).value;
      Plays(NoteOn(vs, note)[i], note) && !Free(NoteOn(vs, note)[i])
  {
  }
}
