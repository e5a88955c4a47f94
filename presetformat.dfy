/**
 * The demo synth's storage format (plugin/src/demo-synth/synth.cpp,
 * `get_/set_preset_data` and `get_/set_bank_data`), as values.
 *
 * Both blobs start with the header: the string "plum", the version 1 0, the
 * string "dsynth", the version 1 0, then the kind "preset" or "bank". A preset
 * blob continues with one entry — a name and six floats; a bank blob with a
 * count and that many entries. The loaders check only the two version pairs;
 * the strings are read and ignored, and a short blob is read past its end.
 */
module PresetFormat {
  import opened Scalars
  import opened Opt
  import opened Codec

  const ParamCount := 6
  const BankSize := 6

  /** One stored preset: its name and its six parameter values. */
  datatype Entry = Entry(name: seq<byte>, values: seq<Float32>)

  /**
   * How a loader ends: with what it stored, by returning 0 before storing
   * anything (a version pair other than 1 0), or at a read past the end of the
   * blob or a write past the bank, where the source's behaviour is undefined.
   */
  datatype Load<T> = Loaded(value: T) | Rejected | Undefined

  /**
   * An entry that `rd` reads back: six values and a name whose length fits the
   * reader — below 2^32 with the intended `read_uint32`, below 2^16 as written.
   */
  predicate Storable(rd: Reader, e: Entry) {
    |e.values| == ParamCount && Fits(rd, |e.name|)
  }

  /** The strings of the header, as the bytes of their ASCII characters. */
  const Magic: seq<byte> := [0x70, 0x6C, 0x75, 0x6D]               // "plum"
  const SynthId: seq<byte> := [0x64, 0x73, 0x79, 0x6E, 0x74, 0x68] // "dsynth"
  const PresetKind: seq<byte> := [0x70, 0x72, 0x65, 0x73, 0x65, 0x74] // "preset"
  const BankKind: seq<byte> := [0x62, 0x61, 0x6E, 0x6B]            // "bank"

  // ---------------------------------------------------------------------
  // Writing

  /** The version pair 1 0. */
  function VersionBytes(): (r: seq<byte>)
    ensures |r| == 8
  {
    Uint32Bytes(1) + Uint32Bytes(0)
  }

  /** The header, ending with the kind string. */
  function HeaderBytes(kind: seq<byte>): seq<byte> {
    FieldBytes(Magic) + FieldBytes(SynthId) + StringBytes(kind)
  }

  /** A string followed by the version pair 1 0. */
  function FieldBytes(s: seq<byte>): (r: seq<byte>)
    ensures |r| == 12 + |s|
  {
    StringBytes(s) + VersionBytes()
  }

  /** The floats of `append_float32`, one after the other. */
  function FloatsBytes(vs: seq<Float32>): (r: seq<byte>)
    ensures |r| == 4 * |vs|
  {
    if vs == [] then [] else Float32Bytes(vs[0]) + FloatsBytes(vs[1..])
  }

  function EntryBytes(e: Entry): seq<byte> {
    StringBytes(e.name) + FloatsBytes(e.values)
  }

  function EntriesBytes(es: seq<Entry>): seq<byte> {
    if es == [] then [] else EntryBytes(es[0]) + EntriesBytes(es[1..])
  }

  /** One more float appends its four bytes: the writers' loops build `FloatsBytes` from the front. */
  lemma {:induction false} FloatsBytesSnoc(vs: seq<Float32>, f: Float32)
    ensures FloatsBytes(vs + [f]) == FloatsBytes(vs) + Float32Bytes(f)
    decreases |vs|
  {
    if vs == [] {
      assert vs + [f] == [f];
    } else {
      assert (vs + [f])[1..] == vs[1..] + [f];
      FloatsBytesSnoc(vs[1..], f);
    }
  }

  /** One more entry appends its bytes. */
  lemma {:induction false} EntriesBytesSnoc(es: seq<Entry>, e: Entry)
    ensures EntriesBytes(es + [e]) == EntriesBytes(es) + EntryBytes(e)
    decreases |es|
  {
    if es == [] {
      assert es + [e] == [e];
    } else {
      assert (es + [e])[1..] == es[1..] + [e];
      EntriesBytesSnoc(es[1..], e);
    }
  }

  /** What `get_preset_data` returns for a preset. */
  function PresetBytes(e: Entry): seq<byte> {
    HeaderBytes(PresetKind) + EntryBytes(e)
  }

  /** What `get_bank_data` returns for a bank: the count, then every entry. */
  function BankBytes(es: seq<Entry>): seq<byte>
    requires |es| < 0x1_0000_0000
  {
    HeaderBytes(BankKind) + Uint32Bytes(|es|) + EntriesBytes(es)
  }

  // ---------------------------------------------------------------------
  // Reading

  /** The two `read_uint32` of a version and its check: on to the next read only for 1 0. */
  function Version(rd: Reader, buffer: seq<byte>, pos: nat): (r: Load<nat>)
    ensures r.Loaded? <==> pos + 8 <= |buffer| && Uint32By(rd, buffer, pos) == 1 && Uint32By(rd, buffer, pos + 4) == 0
    ensures r.Rejected? <==> pos + 8 <= |buffer| && (Uint32By(rd, buffer, pos) != 1 || Uint32By(rd, buffer, pos + 4) != 0)
    ensures r.Loaded? ==> r.value == pos + 8
  {
    if pos + 8 > |buffer| then Undefined
    else if Uint32By(rd, buffer, pos) == 1 && Uint32By(rd, buffer, pos + 4) == 0 then Loaded(pos + 8)
    else Rejected
  }

  /** The defect in `read_uint32` never changes the outcome of a version check. */
  lemma {:induction false} VersionAgrees(buffer: seq<byte>, pos: nat)
    ensures Version(AsWritten, buffer, pos) == Version(Intended, buffer, pos)
  {
    if pos + 8 <= |buffer| {
      AsWrittenSmallValues(buffer, pos);
      AsWrittenSmallValues(buffer, pos + 4);
    }
  }

  /** A `read_string` whose result is dropped: where the next read starts. */
  function SkipString(rd: Reader, buffer: seq<byte>, pos: nat): (r: Option<nat>)
    ensures r.Some? ==> pos + 4 <= r.value <= |buffer|
  {
    if pos + 4 <= |buffer| && pos + 4 + Uint32By(rd, buffer, pos) <= |buffer| then Some(pos + 4 + Uint32By(rd, buffer, pos))
    else None
  }

  /** Skipping a string ends where reading it does. */
  lemma {:induction false} SkipStringTakes(rd: Reader, buffer: seq<byte>, pos: nat)
    ensures SkipString(rd, buffer, pos).Some? <==> TakeString(rd, buffer, pos).Some?
    ensures SkipString(rd, buffer, pos).Some? ==> SkipString(rd, buffer, pos).value == TakeString(rd, buffer, pos).value.next
  {
  }

  /** A string, ignored, then a version pair: the position after the pair. */
  function Field(rd: Reader, buffer: seq<byte>, pos: nat): (r: Load<nat>)
    ensures r.Loaded? ==> pos + 12 <= r.value <= |buffer|
    ensures r.Rejected? ==> SkipString(rd, buffer, pos).Some?
  {
    match SkipString(rd, buffer, pos)
    case None => Undefined
    case Some(p) => Version(rd, buffer, p)
  }

  /** The header of either blob: the position after the kind string. */
  function Header(rd: Reader, buffer: seq<byte>): (r: Load<nat>)
    ensures r.Loaded? ==> 28 <= r.value <= |buffer|
  {
    match Field(rd, buffer, 0)
    case Rejected => Rejected
    case Undefined => Undefined
    case Loaded(p) =>
      match Field(rd, buffer, p)
      case Rejected => Rejected
      case Undefined => Undefined
      case Loaded(q) =>
        match SkipString(rd, buffer, q)
        case None => Undefined
        case Some(r) => Loaded(r)
  }

  /** `count` floats by `read_float32`, from `pos`. */
  function TakeFloats(buffer: seq<byte>, pos: nat, count: nat): (r: Option<Read<seq<Float32>>>)
    ensures r.Some? <==> pos + 4 * count <= |buffer|
    ensures r.Some? ==> |r.value.value| == count && r.value.next == pos + 4 * count
  {
    if pos + 4 * count <= |buffer| then
      Some(Read(seq(count, i requires 0 <= i < count => Float32At(buffer, pos + 4 * i)), pos + 4 * count))
    else None
  }

  /** Float `i` of `TakeFloats` is the float at byte `4 * i`. */
  lemma {:induction false} TakeFloatsValue(buffer: seq<byte>, pos: nat, count: nat, i: nat)
    requires pos + 4 * count <= |buffer| && i < count
    ensures TakeFloats(buffer, pos, count).value.value[i] == Float32At(buffer, pos + 4 * i)
  {
  }

  /** One entry: the name, then the six values. */
  function TakeEntry(rd: Reader, buffer: seq<byte>, pos: nat): (r: Option<Read<Entry>>)
    ensures r.Some? ==> |r.value.value.values| == ParamCount && pos < r.value.next <= |buffer|
    ensures r.Some? && rd == AsWritten ==> |r.value.value.name| < 0x1_0000
  {
    match TakeString(rd, buffer, pos)
    case None => None
    case Some(name) =>
      match TakeFloats(buffer, name.next, ParamCount)
      case None => None
      case Some(values) => Some(Read(Entry(name.value, values.value), values.next))
  }

  /** `count` entries, from `pos`. */
  function TakeEntries(rd: Reader, buffer: seq<byte>, pos: nat, count: nat): (r: Option<Read<seq<Entry>>>)
    ensures r.Some? ==> |r.value.value| == count && pos <= r.value.next <= |buffer|
    ensures r.Some? ==> forall j :: 0 <= j < count ==> |r.value.value[j].values| == ParamCount
    decreases count
  {
    if count == 0 then (if pos <= |buffer| then Some(Read([], pos)) else None)
    else
      match TakeEntry(rd, buffer, pos)
      case None => None
      case Some(e) =>
        match TakeEntries(rd, buffer, e.next, count - 1)
        case None => None
        case Some(rest) => Some(Read([e.value] + rest.value, rest.next))
  }

  /** A successful read of `count > 0` entries is one entry, then the other `count - 1`. */
  lemma {:induction false} TakeEntriesStep(rd: Reader, buffer: seq<byte>, pos: nat, count: nat, es: seq<Entry>, end: nat)
    requires count > 0 && TakeEntries(rd, buffer, pos, count) == Some(Read(es, end))
    ensures TakeEntry(rd, buffer, pos).Some? && TakeEntry(rd, buffer, pos).value.value == es[0]
    ensures TakeEntries(rd, buffer, TakeEntry(rd, buffer, pos).value.next, count - 1) == Some(Read(es[1..], end))
  {
    var rest := TakeEntries(rd, buffer, TakeEntry(rd, buffer, pos).value.next, count - 1).value;
    assert ([TakeEntry(rd, buffer, pos).value.value] + rest.value)[1..] == rest.value;
  }

  /** What `set_preset_data` makes of a blob. */
  function ParsePreset(rd: Reader, buffer: seq<byte>): (r: Load<Entry>)
    ensures r.Loaded? ==> |r.value.values| == ParamCount
    ensures r.Loaded? && rd == AsWritten ==> |r.value.name| < 0x1_0000
  {
    match Header(rd, buffer)
    case Rejected => Rejected
    case Undefined => Undefined
    case Loaded(p) =>
      match TakeEntry(rd, buffer, p)
      case None => Undefined
      case Some(e) => Loaded(e.value)
  }

  /**
   * What `set_bank_data` makes of a blob: the count, then that many entries.
   * A count above the bank's six presets writes past `m_bank`.
   */
  function ParseBank(rd: Reader, buffer: seq<byte>): (r: Load<seq<Entry>>)
    ensures r.Loaded? ==> |r.value| <= BankSize
    ensures r.Loaded? ==> forall j :: 0 <= j < |r.value| ==> |r.value[j].values| == ParamCount
  {
    match Header(rd, buffer)
    case Rejected => Rejected
    case Undefined => Undefined
    case Loaded(p) =>
      match TakeUint32(rd, buffer, p)
      case None => Undefined
      case Some(count) =>
        if count.value > BankSize then Undefined
        else
          match TakeEntries(rd, buffer, count.next, count.value)
          case None => Undefined
          case Some(es) => Loaded(es.value)
  }

  // ---------------------------------------------------------------------
  // Round trips

  /** `buffer` holds `x` from `pos` on. */
  predicate At(buffer: seq<byte>, pos: nat, x: seq<byte>) {
    pos + |x| <= |buffer| && forall i :: 0 <= i < |x| ==> buffer[pos + i] == x[i]
  }

  /** The bytes at `pos` are `x`: the buffer is what comes before, `x`, and what comes after. */
  lemma {:induction false} AtParts(buffer: seq<byte>, pos: nat, x: seq<byte>)
    requires At(buffer, pos, x)
    ensures buffer == buffer[..pos] + x + buffer[pos + |x|..]
  {
    var w := buffer[..pos] + x + buffer[pos + |x|..];
    forall i | 0 <= i < |buffer|
      ensures w[i] == buffer[i]
    {
      if pos <= i < pos + |x| {
        assert x[i - pos] == buffer[pos + (i - pos)];
      }
    }
  }

  lemma {:induction false} AtSplit(buffer: seq<byte>, pos: nat, x: seq<byte>, y: seq<byte>)
    requires At(buffer, pos, x + y)
    ensures At(buffer, pos, x) && At(buffer, pos + |x|, y)
  {
    forall i | 0 <= i < |x|
      ensures buffer[pos + i] == x[i]
    {
      assert (x + y)[i] == x[i];
    }
    forall i | 0 <= i < |y|
      ensures buffer[pos + |x| + i] == y[i]
    {
      assert (x + y)[|x| + i] == y[i];
    }
  }

  lemma {:induction false} AtWhole(x: seq<byte>, suffix: seq<byte>)
    ensures At(x + suffix, 0, x)
  {
    forall i | 0 <= i < |x|
      ensures (x + suffix)[0 + i] == x[i]
    {
    }
  }

  lemma {:induction false} AtUint32(rd: Reader, buffer: seq<byte>, pos: nat, v: uint32)
    requires At(buffer, pos, Uint32Bytes(v)) && Fits(rd, v)
    ensures TakeUint32(rd, buffer, pos) == Some(Read(v, pos + 4))
  {
    AtParts(buffer, pos, Uint32Bytes(v));
    Uint32ReadBack(rd, v, buffer[..pos], buffer[pos + 4..]);
  }

  lemma {:induction false} AtFloat32(buffer: seq<byte>, pos: nat, f: Float32)
    requires At(buffer, pos, Float32Bytes(f))
    ensures TakeFloat32(buffer, pos) == Some(Read(f, pos + 4))
  {
    AtParts(buffer, pos, Float32Bytes(f));
    Float32RoundTrip(f, buffer[..pos], buffer[pos + 4..]);
  }

  lemma {:induction false} AtString(rd: Reader, buffer: seq<byte>, pos: nat, s: seq<byte>)
    requires At(buffer, pos, StringBytes(s)) && Fits(rd, |s|)
    ensures TakeString(rd, buffer, pos) == Some(Read(s, pos + |StringBytes(s)|))
  {
    AtParts(buffer, pos, StringBytes(s));
    StringRoundTrip(rd, s, buffer[..pos], buffer[pos + |StringBytes(s)|..]);
  }

  lemma {:induction false} AtSkip(rd: Reader, buffer: seq<byte>, pos: nat, s: seq<byte>, q: nat)
    requires At(buffer, pos, StringBytes(s)) && Fits(rd, |s|) && q == pos + 4 + |s|
    ensures SkipString(rd, buffer, pos) == Some(q)
  {
    AtString(rd, buffer, pos, s);
    SkipStringTakes(rd, buffer, pos);
  }

  lemma {:induction false} AtVersion(rd: Reader, buffer: seq<byte>, pos: nat)
    requires At(buffer, pos, VersionBytes())
    ensures Version(rd, buffer, pos) == Loaded(pos + 8)
  {
    AtSplit(buffer, pos, Uint32Bytes(1), Uint32Bytes(0));
    AtUint32(rd, buffer, pos, 1);
    AtUint32(rd, buffer, pos + 4, 0);
  }

  /** Float `i` of `FloatsBytes(vs)` sits at byte `4 * i`. */
  lemma {:induction false} FloatsBytesAt(buffer: seq<byte>, pos: nat, vs: seq<Float32>, i: nat)
    requires At(buffer, pos, FloatsBytes(vs)) && i < |vs|
    ensures At(buffer, pos + 4 * i, Float32Bytes(vs[i]))
    decreases i
  {
    AtSplit(buffer, pos, Float32Bytes(vs[0]), FloatsBytes(vs[1..]));
    if i > 0 {
      FloatsBytesAt(buffer, pos + 4, vs[1..], i - 1);
      assert vs[1..][i - 1] == vs[i];
    }
  }

  /** Every float of `vs` in its four bytes, one after the other, from `pos`. */
  predicate FloatsAt(buffer: seq<byte>, pos: nat, vs: seq<Float32>) {
    pos + 4 * |vs| <= |buffer| && forall i :: 0 <= i < |vs| ==> At(buffer, pos + 4 * i, Float32Bytes(vs[i]))
  }

  lemma {:induction false} AtFloatsBytes(buffer: seq<byte>, pos: nat, vs: seq<Float32>)
    requires At(buffer, pos, FloatsBytes(vs))
    ensures FloatsAt(buffer, pos, vs)
  {
    forall i | 0 <= i < |vs|
      ensures At(buffer, pos + 4 * i, Float32Bytes(vs[i]))
    {
      FloatsBytesAt(buffer, pos, vs, i);
    }
  }

  lemma {:induction false} FloatAt(buffer: seq<byte>, q: nat, f: Float32)
    requires At(buffer, q, Float32Bytes(f))
    ensures q + 4 <= |buffer| && Float32At(buffer, q) == f
  {
    AtFloat32(buffer, q, f);
  }

  lemma {:induction false} TakeFloatsAt(buffer: seq<byte>, pos: nat, vs: seq<Float32>)
    requires FloatsAt(buffer, pos, vs)
    ensures TakeFloats(buffer, pos, |vs|) == Some(Read(vs, pos + 4 * |vs|))
  {
    var got := TakeFloats(buffer, pos, |vs|).value.value;
    forall i | 0 <= i < |vs|
      ensures got[i] == vs[i]
    {
      TakeFloatsValue(buffer, pos, |vs|, i);
      FloatAt(buffer, pos + 4 * i, vs[i]);
    }
    assert got == vs;
  }

  lemma {:induction false} AtFloats(buffer: seq<byte>, pos: nat, vs: seq<Float32>)
    requires At(buffer, pos, FloatsBytes(vs))
    ensures TakeFloats(buffer, pos, |vs|) == Some(Read(vs, pos + 4 * |vs|))
  {
    AtFloatsBytes(buffer, pos, vs);
    TakeFloatsAt(buffer, pos, vs);
  }

  /** The bytes an entry takes. */
  function EntrySize(e: Entry): nat {
    4 + |e.name| + 4 * |e.values|
  }

  function EntriesSize(es: seq<Entry>): nat {
    if es == [] then 0 else EntrySize(es[0]) + EntriesSize(es[1..])
  }

  lemma {:induction false} EntriesBytesSize(es: seq<Entry>)
    ensures |EntriesBytes(es)| == EntriesSize(es)
    decreases |es|
  {
    if es != [] {
      EntriesBytesSize(es[1..]);
    }
  }

  /** Each of `es` loads in turn from `pos`, each entry where the one before it ended. */
  predicate EntriesLoad(rd: Reader, buffer: seq<byte>, pos: nat, es: seq<Entry>)
    decreases |es|, 1
  {
    if es == [] then pos <= |buffer| else FirstLoads(rd, buffer, pos, es)
  }

  /** The first of `es` loads at `pos`, and the rest load from where it ends. */
  predicate FirstLoads(rd: Reader, buffer: seq<byte>, pos: nat, es: seq<Entry>)
    requires es != []
    decreases |es|, 0
  {
    TakeEntry(rd, buffer, pos) == Some(Read(es[0], pos + EntrySize(es[0]))) &&
    EntriesLoad(rd, buffer, pos + EntrySize(es[0]), es[1..])
  }

  /** One more entry in front of `count - 1` entries. */
  lemma {:induction false} TakeEntriesCons(rd: Reader, buffer: seq<byte>, pos: nat, count: nat, e: Read<Entry>, rest: Read<seq<Entry>>)
    requires count > 0 && TakeEntry(rd, buffer, pos) == Some(e) && TakeEntries(rd, buffer, e.next, count - 1) == Some(rest)
    ensures TakeEntries(rd, buffer, pos, count) == Some(Read([e.value] + rest.value, rest.next))
  {
  }

  lemma {:induction false} EntriesLoadTail(rd: Reader, buffer: seq<byte>, pos: nat, es: seq<Entry>)
    requires es != [] && EntriesLoad(rd, buffer, pos, es)
    ensures TakeEntry(rd, buffer, pos) == Some(Read(es[0], pos + EntrySize(es[0])))
    ensures EntriesLoad(rd, buffer, pos + EntrySize(es[0]), es[1..])
  {
  }

  /** A load of `es` is a load of its first entry, then of the rest from where that one ends. */
  lemma {:induction false} EntriesLoadSplit(rd: Reader, buffer: seq<byte>, pos: nat, es: seq<Entry>)
    returns (first: Entry, p1: nat, rest: seq<Entry>)
    requires es != [] && EntriesLoad(rd, buffer, pos, es)
    ensures TakeEntry(rd, buffer, pos) == Some(Read(first, p1)) && EntriesLoad(rd, buffer, p1, rest)
    ensures es == [first] + rest && |rest| == |es| - 1 && p1 + EntriesSize(rest) == pos + EntriesSize(es)
  {
    first, p1, rest := es[0], pos + EntrySize(es[0]), es[1..];
    EntriesLoadTail(rd, buffer, pos, es);
    EntriesHeadTail(es);
  }

  lemma {:induction false} EntriesHeadTail(es: seq<Entry>)
    requires es != []
    ensures [es[0]] + es[1..] == es && |es[1..]| == |es| - 1
    ensures EntriesSize(es) == EntrySize(es[0]) + EntriesSize(es[1..])
  {
  }

  lemma {:induction false} TakeEntriesLoad(rd: Reader, buffer: seq<byte>, pos: nat, es: seq<Entry>)
    requires EntriesLoad(rd, buffer, pos, es)
    ensures TakeEntries(rd, buffer, pos, |es|) == Some(Read(es, pos + EntriesSize(es)))
    decreases |es|
  {
    if es != [] {
      var first, p1, rest := EntriesLoadSplit(rd, buffer, pos, es);
      TakeEntriesLoad(rd, buffer, p1, rest);
      TakeEntriesUp(rd, buffer, pos, first, p1, rest, p1 + EntriesSize(rest), es);
    }
  }

  /** The first entry, then the rest where it ends, are all the entries. */
  lemma {:induction false} TakeEntriesUp(rd: Reader, buffer: seq<byte>, pos: nat, first: Entry, p1: nat, rest: seq<Entry>, end: nat, es: seq<Entry>)
    requires TakeEntry(rd, buffer, pos) == Some(Read(first, p1))
    requires TakeEntries(rd, buffer, p1, |rest|) == Some(Read(rest, end))
    requires es == [first] + rest && |rest| == |es| - 1
    ensures TakeEntries(rd, buffer, pos, |es|) == Some(Read(es, end))
  {
    TakeEntriesCons(rd, buffer, pos, |es|, Read(first, p1), Read(rest, end));
  }

  lemma {:induction false} AtEntry(rd: Reader, buffer: seq<byte>, pos: nat, e: Entry)
    requires At(buffer, pos, EntryBytes(e)) && Storable(rd, e)
    ensures TakeEntry(rd, buffer, pos) == Some(Read(e, pos + EntrySize(e)))
  {
    AtSplit(buffer, pos, StringBytes(e.name), FloatsBytes(e.values));
    AtString(rd, buffer, pos, e.name);
    AtFloats(buffer, pos + |StringBytes(e.name)|, e.values);
  }

  lemma {:induction false} StorableTail(rd: Reader, es: seq<Entry>)
    requires es != [] && forall j :: 0 <= j < |es| ==> Storable(rd, es[j])
    ensures forall j :: 0 <= j < |es[1..]| ==> Storable(rd, es[1..][j])
  {
    forall j | 0 <= j < |es[1..]|
      ensures Storable(rd, es[1..][j])
    {
      assert es[1..][j] == es[j + 1];
    }
  }

  lemma {:induction false} AtEntriesLoad(rd: Reader, buffer: seq<byte>, pos: nat, es: seq<Entry>)
    requires At(buffer, pos, EntriesBytes(es)) && forall j :: 0 <= j < |es| ==> Storable(rd, es[j])
    ensures EntriesLoad(rd, buffer, pos, es)
    decreases |es|
  {
    if es != [] {
      AtSplit(buffer, pos, EntryBytes(es[0]), EntriesBytes(es[1..]));
      AtEntry(rd, buffer, pos, es[0]);
      StorableTail(rd, es);
      assert |EntryBytes(es[0])| == EntrySize(es[0]);
      AtEntriesLoad(rd, buffer, pos + EntrySize(es[0]), es[1..]);
      EntriesLoadCons(rd, buffer, pos, es);
    }
  }

  lemma {:induction false} EntriesLoadCons(rd: Reader, buffer: seq<byte>, pos: nat, es: seq<Entry>)
    requires es != []
    requires TakeEntry(rd, buffer, pos) == Some(Read(es[0], pos + EntrySize(es[0])))
    requires EntriesLoad(rd, buffer, pos + EntrySize(es[0]), es[1..])
    ensures EntriesLoad(rd, buffer, pos, es)
  {
  }

  lemma {:induction false} AtEntries(rd: Reader, buffer: seq<byte>, pos: nat, es: seq<Entry>)
    requires At(buffer, pos, EntriesBytes(es)) && forall j :: 0 <= j < |es| ==> Storable(rd, es[j])
    ensures TakeEntries(rd, buffer, pos, |es|) == Some(Read(es, pos + |EntriesBytes(es)|))
  {
    AtEntriesLoad(rd, buffer, pos, es);
    TakeEntriesLoad(rd, buffer, pos, es);
    EntriesBytesSize(es);
  }

  lemma {:induction false} FieldLoads(rd: Reader, buffer: seq<byte>, pos: nat, q: nat, r: nat)
    requires SkipString(rd, buffer, pos) == Some(q) && Version(rd, buffer, q) == Loaded(r)
    ensures Field(rd, buffer, pos) == Loaded(r)
  {
  }

  lemma {:induction false} FieldFrom(rd: Reader, buffer: seq<byte>, pos: nat, q: nat, r: nat)
    requires SkipString(rd, buffer, pos) == Some(q) && At(buffer, q, VersionBytes()) && r == q + 8
    ensures Field(rd, buffer, pos) == Loaded(r)
  {
    AtVersion(rd, buffer, q);
    FieldLoads(rd, buffer, pos, q, r);
  }

  /** A string at `pos` and the version pair 1 0 right after it: the field loads. */
  lemma {:induction false} FieldAt(rd: Reader, buffer: seq<byte>, pos: nat, s: seq<byte>, q: nat, r: nat)
    requires Fits(rd, |s|)
    requires At(buffer, pos, StringBytes(s)) && At(buffer, q, VersionBytes())
    requires q == pos + 4 + |s| && r == q + 8
    ensures Field(rd, buffer, pos) == Loaded(r)
  {
    AtSkip(rd, buffer, pos, s, q);
    FieldFrom(rd, buffer, pos, q, r);
  }

  /** A field's two parts: the string, then the version pair right after it. */
  lemma {:induction false} FieldParts(buffer: seq<byte>, pos: nat, s: seq<byte>)
    requires At(buffer, pos, FieldBytes(s))
    ensures At(buffer, pos, StringBytes(s)) && At(buffer, pos + 4 + |s|, VersionBytes())
  {
    AtSplit(buffer, pos, StringBytes(s), VersionBytes());
  }

  /** A field's bytes at `pos`: the field loads, and the next read starts after them. */
  lemma {:induction false} AtField(rd: Reader, buffer: seq<byte>, pos: nat, s: seq<byte>)
    requires Fits(rd, |s|) && At(buffer, pos, FieldBytes(s))
    ensures Field(rd, buffer, pos) == Loaded(pos + |FieldBytes(s)|)
  {
    FieldParts(buffer, pos, s);
    FieldAt(rd, buffer, pos, s, pos + 4 + |s|, pos + 12 + |s|);
  }

  lemma {:induction false} HeaderLoads(rd: Reader, buffer: seq<byte>, p: nat, q: nat, r: nat)
    requires Field(rd, buffer, 0) == Loaded(p) && Field(rd, buffer, p) == Loaded(q)
    requires SkipString(rd, buffer, q) == Some(r)
    ensures Header(rd, buffer) == Loaded(r)
  {
  }

  /** The three parts of a header: two fields and the kind string. */
  lemma {:induction false} AtHeader(rd: Reader, buffer: seq<byte>, magic: seq<byte>, id: seq<byte>, kind: seq<byte>)
    requires Fits(rd, |magic|) && Fits(rd, |id|) && Fits(rd, |kind|)
    requires At(buffer, 0, FieldBytes(magic) + FieldBytes(id) + StringBytes(kind))
    ensures Header(rd, buffer) == Loaded(|FieldBytes(magic) + FieldBytes(id) + StringBytes(kind)|)
  {
    var p := |FieldBytes(magic)|;
    var q := p + |FieldBytes(id)|;
    AtHeaderParts(rd, buffer, magic, id, kind);
    HeaderLoads(rd, buffer, p, q, |FieldBytes(magic) + FieldBytes(id) + StringBytes(kind)|);
  }

  /** The same, part by part: the two fields load, and the kind string is skipped. */
  lemma {:induction false} AtHeaderParts(rd: Reader, buffer: seq<byte>, magic: seq<byte>, id: seq<byte>, kind: seq<byte>)
    requires Fits(rd, |magic|) && Fits(rd, |id|) && Fits(rd, |kind|)
    requires At(buffer, 0, FieldBytes(magic) + FieldBytes(id) + StringBytes(kind))
    ensures Field(rd, buffer, 0) == Loaded(|FieldBytes(magic)|)
    ensures Field(rd, buffer, |FieldBytes(magic)|) == Loaded(|FieldBytes(magic)| + |FieldBytes(id)|)
    ensures SkipString(rd, buffer, |FieldBytes(magic)| + |FieldBytes(id)|) == Some(|FieldBytes(magic) + FieldBytes(id) + StringBytes(kind)|)
  {
    var q := |FieldBytes(magic)| + |FieldBytes(id)|;
    AtSplit(buffer, 0, FieldBytes(magic) + FieldBytes(id), StringBytes(kind));
    AtFields(rd, buffer, magic, id);
    AtSkip(rd, buffer, q, kind, q + 4 + |kind|);
  }

  /** The two fields of a header, one after the other from the start. */
  lemma {:induction false} AtFields(rd: Reader, buffer: seq<byte>, magic: seq<byte>, id: seq<byte>)
    requires Fits(rd, |magic|) && Fits(rd, |id|) && At(buffer, 0, FieldBytes(magic) + FieldBytes(id))
    ensures Field(rd, buffer, 0) == Loaded(|FieldBytes(magic)|)
    ensures Field(rd, buffer, |FieldBytes(magic)|) == Loaded(|FieldBytes(magic)| + |FieldBytes(id)|)
  {
    AtSplit(buffer, 0, FieldBytes(magic), FieldBytes(id));
    AtField(rd, buffer, 0, magic);
    AtField(rd, buffer, |FieldBytes(magic)|, id);
  }

  /** The header the writers emit passes the loaders' checks, whatever follows it. */
  lemma {:induction false} HeaderRoundTrip(rd: Reader, kind: seq<byte>, suffix: seq<byte>)
    requires Fits(rd, |kind|)
    ensures Header(rd, HeaderBytes(kind) + suffix) == Loaded(|HeaderBytes(kind)|)
  {
    AtWhole(HeaderBytes(kind), suffix);
    AtHeader(rd, HeaderBytes(kind) + suffix, Magic, SynthId, kind);
  }

  /** A preset blob loads back as the entry it was made from. */
  lemma {:induction false} PresetRoundTrip(rd: Reader, e: Entry, suffix: seq<byte>)
    requires Storable(rd, e)
    ensures ParsePreset(rd, PresetBytes(e) + suffix) == Loaded(e)
  {
    AtWhole(PresetBytes(e), suffix);
    AtPreset(rd, PresetBytes(e) + suffix, e);
  }

  /** A buffer that starts with a preset blob loads as its entry. */
  lemma {:induction false} AtPreset(rd: Reader, buffer: seq<byte>, e: Entry)
    requires Storable(rd, e) && At(buffer, 0, PresetBytes(e))
    ensures ParsePreset(rd, buffer) == Loaded(e)
  {
    var h := HeaderBytes(PresetKind);
    AtSplit(buffer, 0, h, EntryBytes(e));
    AtHeader(rd, buffer, Magic, SynthId, PresetKind);
    AtEntry(rd, buffer, |h|, e);
  }

  /**
   * As written, a preset named with 65536 bytes loads: `set_preset_data`
   * stores the first 256 bytes as the name, and the floats after them.
   */
  lemma {:induction false} AsWrittenTruncatesName(e: Entry, suffix: seq<byte>)
    requires |e.values| == ParamCount && |e.name| == 0x1_0000
    ensures ParsePreset(Intended, PresetBytes(e) + suffix) == Loaded(e)
    ensures ParsePreset(AsWritten, PresetBytes(e) + suffix).Loaded?
    ensures ParsePreset(AsWritten, PresetBytes(e) + suffix).value.name == e.name[..0x100]
  {
    PresetRoundTrip(Intended, e, suffix);
    AtWhole(PresetBytes(e), suffix);
    AtPresetAsWritten(PresetBytes(e) + suffix, e);
  }

  /** As written, a buffer that starts with the blob of a preset named with 65536 bytes loads the name's first 256. */
  lemma {:induction false} AtPresetAsWritten(buffer: seq<byte>, e: Entry)
    requires |e.values| == ParamCount && |e.name| == 0x1_0000 && At(buffer, 0, PresetBytes(e))
    ensures ParsePreset(AsWritten, buffer).Loaded?
    ensures ParsePreset(AsWritten, buffer).value.name == e.name[..0x100]
  {
    var h := HeaderBytes(PresetKind);
    AtSplit(buffer, 0, h, EntryBytes(e));
    AtHeader(AsWritten, buffer, Magic, SynthId, PresetKind);
    AtSplit(buffer, |h|, StringBytes(e.name), FloatsBytes(e.values));
    AtParts(buffer, |h|, StringBytes(e.name));
    AsWrittenReadsPrefix(e.name, buffer[..|h|], buffer[|h| + |StringBytes(e.name)|..]);
  }

  /** A bank blob of at most six entries loads back as those entries. */
  lemma {:induction false} BankRoundTrip(rd: Reader, es: seq<Entry>, suffix: seq<byte>)
    requires |es| <= BankSize && forall j :: 0 <= j < |es| ==> Storable(rd, es[j])
    ensures ParseBank(rd, BankBytes(es) + suffix) == Loaded(es)
  {
    AtWhole(BankBytes(es), suffix);
    AtBank(rd, BankBytes(es) + suffix, es);
  }

  /** A buffer that starts with a bank blob of at most six entries loads as those entries. */
  lemma {:induction false} AtBank(rd: Reader, buffer: seq<byte>, es: seq<Entry>)
    requires |es| <= BankSize && forall j :: 0 <= j < |es| ==> Storable(rd, es[j])
    requires At(buffer, 0, BankBytes(es))
    ensures ParseBank(rd, buffer) == Loaded(es)
  {
    var h := HeaderBytes(BankKind);
    AtSplit(buffer, 0, h + Uint32Bytes(|es|), EntriesBytes(es));
    AtSplit(buffer, 0, h, Uint32Bytes(|es|));
    AtHeader(rd, buffer, Magic, SynthId, BankKind);
    AtUint32(rd, buffer, |h|, |es|);
    AtEntries(rd, buffer, |h| + 4, es);
  }

  /** The loaders check versions and nothing else: any magic, id and kind strings pass. */
  lemma {:induction false} StringsNotCompared(rd: Reader, magic: seq<byte>, id: seq<byte>, kind: seq<byte>, suffix: seq<byte>)
    requires Fits(rd, |magic|) && Fits(rd, |id|) && Fits(rd, |kind|)
    ensures Header(rd, FieldBytes(magic) + FieldBytes(id) + StringBytes(kind) + suffix).Loaded?
  {
    var h := FieldBytes(magic) + FieldBytes(id) + StringBytes(kind);
    AtWhole(h, suffix);
    AtHeader(rd, h + suffix, magic, id, kind);
  }

  /** A blob whose first version is not 1 0 is rejected, whatever follows. */
  lemma {:induction false} WrongVersionRejected(rd: Reader, magic: seq<byte>, major: uint32, minor: uint32, suffix: seq<byte>)
    requires Fits(rd, |magic|) && (major != 1 || minor != 0)
    ensures Header(rd, StringBytes(magic) + Uint32Bytes(major) + Uint32Bytes(minor) + suffix) == Rejected
    ensures ParsePreset(rd, StringBytes(magic) + Uint32Bytes(major) + Uint32Bytes(minor) + suffix) == Rejected
    ensures ParseBank(rd, StringBytes(magic) + Uint32Bytes(major) + Uint32Bytes(minor) + suffix) == Rejected
  {
    var a := StringBytes(magic);
    var h := a + Uint32Bytes(major) + Uint32Bytes(minor);
    var buffer := h + suffix;
    AtWhole(h, suffix);
    AtSplit(buffer, 0, a + Uint32Bytes(major), Uint32Bytes(minor));
    AtSplit(buffer, 0, a, Uint32Bytes(major));
    AtString(rd, buffer, 0, magic);
    VersionRejected(rd, buffer, |a|, major, minor);
    HeaderRejects(rd, buffer);
  }

  /** A rejected header rejects both blobs. */
  lemma {:induction false} HeaderRejects(rd: Reader, buffer: seq<byte>)
    requires Header(rd, buffer) == Rejected
    ensures ParsePreset(rd, buffer) == Rejected && ParseBank(rd, buffer) == Rejected
  {
  }

  /** A header whose first field loads and whose second is rejected is rejected. */
  lemma {:induction false} SecondFieldRejects(rd: Reader, buffer: seq<byte>, p: nat)
    requires Field(rd, buffer, 0) == Loaded(p) && Field(rd, buffer, p) == Rejected
    ensures Header(rd, buffer) == Rejected
  {
  }

  /** A version pair other than 1 0 is rejected by either reader: the defect never turns 0 or 1 into another value. */
  lemma {:induction false} VersionRejected(rd: Reader, buffer: seq<byte>, pos: nat, major: uint32, minor: uint32)
    requires At(buffer, pos, Uint32Bytes(major)) && At(buffer, pos + 4, Uint32Bytes(minor)) && (major != 1 || minor != 0)
    ensures Version(rd, buffer, pos) == Rejected
  {
    AtUint32(Intended, buffer, pos, major);
    AtUint32(Intended, buffer, pos + 4, minor);
    VersionAgrees(buffer, pos);
  }

  /** A field whose version pair is not 1 0 rejects the blob. */
  lemma {:induction false} FieldRejected(rd: Reader, buffer: seq<byte>, pos: nat, s: seq<byte>, major: uint32, minor: uint32, q: nat)
    requires Fits(rd, |s|) && (major != 1 || minor != 0)
    requires At(buffer, pos, StringBytes(s)) && At(buffer, q, Uint32Bytes(major)) && At(buffer, q + 4, Uint32Bytes(minor))
    requires q == pos + 4 + |s|
    ensures Field(rd, buffer, pos) == Rejected
  {
    AtSkip(rd, buffer, pos, s, q);
    VersionRejected(rd, buffer, q, major, minor);
  }

  /** A blob whose second version, the synth's, is not 1 0 is rejected, whatever follows. */
  lemma {:induction false} SecondVersionRejected(rd: Reader, magic: seq<byte>, id: seq<byte>, major: uint32, minor: uint32, suffix: seq<byte>)
    requires Fits(rd, |magic|) && Fits(rd, |id|) && (major != 1 || minor != 0)
    ensures Header(rd, FieldBytes(magic) + StringBytes(id) + Uint32Bytes(major) + Uint32Bytes(minor) + suffix) == Rejected
    ensures ParsePreset(rd, FieldBytes(magic) + StringBytes(id) + Uint32Bytes(major) + Uint32Bytes(minor) + suffix) == Rejected
    ensures ParseBank(rd, FieldBytes(magic) + StringBytes(id) + Uint32Bytes(major) + Uint32Bytes(minor) + suffix) == Rejected
  {
    var h := FieldBytes(magic) + StringBytes(id) + Uint32Bytes(major) + Uint32Bytes(minor);
    AtWhole(h, suffix);
    SecondVersionAt(rd, h + suffix, magic, id, major, minor);
    HeaderRejects(rd, h + suffix);
  }

  /** The first field of a header loads and the second, with a version pair other than 1 0, is rejected. */
  lemma {:induction false} SecondVersionAt(rd: Reader, buffer: seq<byte>, magic: seq<byte>, id: seq<byte>, major: uint32, minor: uint32)
    requires Fits(rd, |magic|) && Fits(rd, |id|) && (major != 1 || minor != 0)
    requires At(buffer, 0, FieldBytes(magic) + StringBytes(id) + Uint32Bytes(major) + Uint32Bytes(minor))
    ensures Header(rd, buffer) == Rejected
  {
    var b := FieldBytes(magic) + StringBytes(id);
    AtSplit(buffer, 0, b + Uint32Bytes(major), Uint32Bytes(minor));
    AtSplit(buffer, 0, b, Uint32Bytes(major));
    AtSplit(buffer, 0, FieldBytes(magic), StringBytes(id));
    SecondFieldAt(rd, buffer, magic, id, major, minor);
  }

  /** The same, from the four parts in place. */
  lemma {:induction false} SecondFieldAt(rd: Reader, buffer: seq<byte>, magic: seq<byte>, id: seq<byte>, major: uint32, minor: uint32)
    requires Fits(rd, |magic|) && Fits(rd, |id|) && (major != 1 || minor != 0)
    requires At(buffer, 0, FieldBytes(magic)) && At(buffer, 12 + |magic|, StringBytes(id))
    requires At(buffer, 16 + |magic| + |id|, Uint32Bytes(major)) && At(buffer, 20 + |magic| + |id|, Uint32Bytes(minor))
    ensures Header(rd, buffer) == Rejected
  {
    var p := 12 + |magic|;
    AtField(rd, buffer, 0, magic);
    FieldRejected(rd, buffer, p, id, major, minor, p + 4 + |id|);
    SecondFieldRejects(rd, buffer, p);
  }
}
