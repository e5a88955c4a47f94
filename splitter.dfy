/**
 * The sub-block loop of `audio::process` (host/src/audio.cpp): one driver
 * callback of `nframes` frames is cut at the frame offsets of its MIDI events.
 * Every event due at the current frame is delivered to the engine, then the
 * gap up to the next event is rendered, and finally the remainder.
 *
 * The driver's buffers and event queue are left out: the events are given by
 * their frame offsets, and the engine by the trace of calls the loop makes on
 * it, `Midi(i)` for `m_engine->midi` with event `i`, and `Process(delta, offset)`
 * for `m_engine->process(delta, ...)` with the output pointers advanced by
 * `offset` frames.
 */
module Splitter {
  import opened Scalars

  /** One call of the loop into the engine. */
  datatype Step = Midi(index: nat) | Process(delta: nat, offset: nat)

  /** The event offsets of one callback as the driver promises them: non-decreasing and inside the block. */
  predicate EventsInBlock(times: seq<uint32>, nframes: nat) {
    (forall i, j :: 0 <= i < j < |times| ==> times[i] <= times[j]) &&
    (forall i :: 0 <= i < |times| ==> times[i] < nframes)
  }

  /** The number of frames rendered by a trace. */
  function Rendered(trace: seq<Step>): nat {
    if trace == [] then 0
    else (if trace[0].Process? then trace[0].delta else 0) + Rendered(trace[1..])
  }

  /** The event indices a trace delivers, in order. */
  function Delivered(trace: seq<Step>): seq<nat> {
    if trace == [] then []
    else (if trace[0].Midi? then [trace[0].index] else []) + Delivered(trace[1..])
  }

  /** `[lo, lo + 1, ..., hi - 1]`. */
  function Range(lo: nat, hi: nat): (r: seq<nat>)
    requires lo <= hi
    ensures |r| == hi - lo && forall k :: 0 <= k < |r| ==> r[k] == lo + k
    decreases hi - lo
  {
    if lo == hi then [] else [lo] + Range(lo + 1, hi)
  }

  /**
   * The reference schedule, written as the splitting rule reads: starting
   * at event `from` with `cursor` frames rendered, render the gap up to the
   * event's offset (an empty gap is not rendered), deliver the event, and go
   * on from its offset; after the last event render what is left of the block.
   */
  function Schedule(times: seq<uint32>, nframes: nat, from: nat, cursor: nat): seq<Step>
    requires from <= |times|
    decreases |times| - from
  {
    if from == |times| then
      Gap(nframes - cursor, cursor)
    else
      Gap(times[from] - cursor, cursor) + [Midi(from)] + Schedule(times, nframes, from + 1, times[from])
  }

  /** Rendering `delta` frames at `offset`, or nothing when `delta` is not positive. */
  function Gap(delta: int, offset: nat): (r: seq<Step>)
    ensures delta > 0 ==> r == [Process(delta, offset)]
    ensures delta <= 0 ==> r == []
  {
    if delta > 0 then [Process(delta, offset)] else []
  }

  // ---------------------------------------------------------------------
  // Trace algebra

  lemma {:induction false} RenderedConcat(a: seq<Step>, b: seq<Step>)
    ensures Rendered(a + b) == Rendered(a) + Rendered(b)
    ensures Delivered(a + b) == Delivered(a) + Delivered(b)
    decreases |a|
  {
    if a == [] {
      assert a + b == b;
    } else {
      assert (a + b)[1..] == a[1..] + b;
      RenderedConcat(a[1..], b);
    }
  }

  /** One step longer a prefix has rendered that step's frames more. */
  lemma RenderedPrefix(trace: seq<Step>, k: nat)
    requires k < |trace|
    ensures Rendered(trace[..k + 1]) == Rendered(trace[..k]) + (if trace[k].Process? then trace[k].delta else 0)
  {
    assert trace[..k + 1] == trace[..k] + [trace[k]];
    RenderedConcat(trace[..k], [trace[k]]);
    RenderedSingle(trace[k]);
  }

  lemma {:induction false} RenderedMonotone(trace: seq<Step>, j: nat, k: nat)
    requires j <= k <= |trace|
    ensures Rendered(trace[..j]) <= Rendered(trace[..k])
    decreases k - j
  {
    if j < k {
      RenderedPrefix(trace, k - 1);
      RenderedMonotone(trace, j, k - 1);
    }
  }

  // ---------------------------------------------------------------------
  // Properties of the schedule

  /** The offsets of events `from` onwards are sorted, at least `cursor` and inside the block. */
  predicate Pending(times: seq<uint32>, nframes: nat, from: nat, cursor: nat) {
    from <= |times| && cursor <= nframes &&
    (forall i, j :: from <= i < j < |times| ==> times[i] <= times[j]) &&
    (forall i :: from <= i < |times| ==> cursor <= times[i] < nframes)
  }

  /** Moving the cursor to the next event's offset keeps the rest pending. */
  lemma PendingAt(times: seq<uint32>, nframes: nat, from: nat, cursor: nat)
    requires Pending(times, nframes, from, cursor) && from < |times|
    ensures Pending(times, nframes, from, times[from]) && Pending(times, nframes, from + 1, times[from])
  {
  }

  /** Every step of `trace`, taken from `cursor` frames on, is placed sample-accurately. */
  predicate Placed(times: seq<uint32>, trace: seq<Step>, cursor: nat) {
    (forall k :: 0 <= k < |trace| && trace[k].Midi? ==>
       trace[k].index < |times| && cursor + Rendered(trace[..k]) == times[trace[k].index]) &&
    (forall k :: 0 <= k < |trace| && trace[k].Process? ==>
       trace[k].delta > 0 && trace[k].offset == cursor + Rendered(trace[..k]))
  }

  /** Placement composes: the second part is placed from where the first part ends. */
  lemma PlacedConcat(times: seq<uint32>, a: seq<Step>, b: seq<Step>, cursor: nat)
    requires Placed(times, a, cursor) && Placed(times, b, cursor + Rendered(a))
    ensures Placed(times, a + b, cursor)
  {
    var s := a + b;
    forall k | 0 <= k < |s|
      ensures s[k].Midi? ==> s[k].index < |times| && cursor + Rendered(s[..k]) == times[s[k].index]
      ensures s[k].Process? ==> s[k].delta > 0 && s[k].offset == cursor + Rendered(s[..k])
    {
      if k < |a| {
        assert s[..k] == a[..k];
      } else {
        assert s[..k] == a + b[..k - |a|];
        RenderedConcat(a, b[..k - |a|]);
        assert s[k] == b[k - |a|];
      }
    }
  }

  /** A single step is placed when it sits at `cursor`. */
  lemma PlacedSingle(times: seq<uint32>, step: Step, cursor: nat)
    requires step.Midi? ==> step.index < |times| && cursor == times[step.index]
    requires step.Process? ==> step.delta > 0 && step.offset == cursor
    ensures Placed(times, [step], cursor)
  {
    assert [step][..0] == [];
  }

  lemma RenderedSingle(step: Step)
    ensures Rendered([step]) == if step.Process? then step.delta else 0
    ensures Delivered([step]) == if step.Midi? then [step.index] else []
  {
    assert [step][1..] == [];
  }

  /** The schedule at an event that is due now delivers it first. */
  lemma ScheduleDue(times: seq<uint32>, nframes: nat, from: nat, cursor: nat)
    requires from < |times| && times[from] == cursor
    ensures Schedule(times, nframes, from, cursor) == [Midi(from)] + Schedule(times, nframes, from + 1, cursor)
  {
  }

  /** The schedule at an event that is not due yet first renders up to it. */
  lemma ScheduleGap(times: seq<uint32>, nframes: nat, from: nat, cursor: nat)
    requires from < |times| && times[from] > cursor
    ensures Schedule(times, nframes, from, cursor)
         == [Process(times[from] - cursor, cursor)] + Schedule(times, nframes, from, times[from])
  {
    ScheduleDue(times, nframes, from, times[from]);
  }

  /**
   * The same placement, step by step from the front: the trace starts at
   * `cursor` frames, a delivered event is due exactly there, and a rendered
   * sub-block is non-empty, starts there and moves the cursor on.
   */
  predicate PlacedFrom(times: seq<uint32>, trace: seq<Step>, cursor: nat)
    decreases |trace|
  {
    trace == [] ||
    match trace[0]
    case Midi(i) => i < |times| && times[i] == cursor && PlacedFrom(times, trace[1..], cursor)
    case Process(d, o) => d > 0 && o == cursor && PlacedFrom(times, trace[1..], cursor + d)
  }

  lemma {:induction false} PlacedFromIsPlaced(times: seq<uint32>, trace: seq<Step>, cursor: nat)
    requires PlacedFrom(times, trace, cursor)
    ensures Placed(times, trace, cursor)
    decreases |trace|
  {
    if trace != [] {
      var h := trace[0];
      var rest := trace[1..];
      assert trace == [h] + rest;
      RenderedSingle(h);
      PlacedFromIsPlaced(times, rest, cursor + Rendered([h]));
      PlacedSingle(times, h, cursor);
      PlacedConcat(times, [h], rest, cursor);
    }
  }

  /** The schedule renders exactly the rest of the block. */
  lemma {:induction false} ScheduleRendered(times: seq<uint32>, nframes: nat, from: nat, cursor: nat)
    requires Pending(times, nframes, from, cursor)
    ensures Rendered(Schedule(times, nframes, from, cursor)) == nframes - cursor
    decreases |times| - from, nframes - cursor
  {
    if from == |times| {
      if cursor < nframes {
        RenderedSingle(Process(nframes - cursor, cursor));
      }
    } else if times[from] == cursor {
      PendingAt(times, nframes, from, cursor);
      ScheduleDue(times, nframes, from, cursor);
      ScheduleRendered(times, nframes, from + 1, cursor);
      RenderedSingle(Midi(from));
      RenderedConcat([Midi(from)], Schedule(times, nframes, from + 1, cursor));
    } else {
      PendingAt(times, nframes, from, cursor);
      var t: nat := times[from];
      ScheduleGap(times, nframes, from, cursor);
      ScheduleRendered(times, nframes, from, t);
      RenderedSingle(Process(t - cursor, cursor));
      RenderedConcat([Process(t - cursor, cursor)], Schedule(times, nframes, from, t));
    }
  }

  /** The schedule delivers events `from` onwards once each and in index order. */
  lemma {:induction false} ScheduleDelivered(times: seq<uint32>, nframes: nat, from: nat, cursor: nat)
    requires Pending(times, nframes, from, cursor)
    ensures Delivered(Schedule(times, nframes, from, cursor)) == Range(from, |times|)
    decreases |times| - from, nframes - cursor
  {
    if from == |times| {
      if cursor < nframes {
        RenderedSingle(Process(nframes - cursor, cursor));
      }
    } else if times[from] == cursor {
      PendingAt(times, nframes, from, cursor);
      ScheduleDue(times, nframes, from, cursor);
      ScheduleDelivered(times, nframes, from + 1, cursor);
      RenderedSingle(Midi(from));
      RenderedConcat([Midi(from)], Schedule(times, nframes, from + 1, cursor));
    } else {
      PendingAt(times, nframes, from, cursor);
      var t: nat := times[from];
      ScheduleGap(times, nframes, from, cursor);
      ScheduleDelivered(times, nframes, from, t);
      RenderedSingle(Process(t - cursor, cursor));
      RenderedConcat([Process(t - cursor, cursor)], Schedule(times, nframes, from, t));
    }
  }

  /** Every step of the schedule from `cursor` on is placed. */
  lemma {:induction false} SchedulePlaced(times: seq<uint32>, nframes: nat, from: nat, cursor: nat)
    requires Pending(times, nframes, from, cursor)
    ensures PlacedFrom(times, Schedule(times, nframes, from, cursor), cursor)
    decreases |times| - from, nframes - cursor
  {
    if from == |times| {
      if cursor < nframes {
        assert [Process(nframes - cursor, cursor)][1..] == [];
      }
    } else if times[from] == cursor {
      PendingAt(times, nframes, from, cursor);
      var tail := Schedule(times, nframes, from + 1, cursor);
      ScheduleDue(times, nframes, from, cursor);
      SchedulePlaced(times, nframes, from + 1, cursor);
      assert ([Midi(from)] + tail)[1..] == tail;
    } else {
      PendingAt(times, nframes, from, cursor);
      var t: nat := times[from];
      var tail := Schedule(times, nframes, from, t);
      ScheduleGap(times, nframes, from, cursor);
      SchedulePlaced(times, nframes, from, t);
      assert ([Process(t - cursor, cursor)] + tail)[1..] == tail;
    }
  }

  /**
   * The schedule renders exactly the rest of the block, delivers events
   * `from` onwards once each and in index order, delivers each after exactly
   * as many frames as its offset, renders only non-empty sub-blocks, and each
   * sub-block starts where the previous one ended.
   */
  lemma ScheduleCorrect(times: seq<uint32>, nframes: nat, from: nat, cursor: nat)
    requires Pending(times, nframes, from, cursor)
    ensures Rendered(Schedule(times, nframes, from, cursor)) == nframes - cursor
    ensures Delivered(Schedule(times, nframes, from, cursor)) == Range(from, |times|)
    ensures Placed(times, Schedule(times, nframes, from, cursor), cursor)
  {
    ScheduleRendered(times, nframes, from, cursor);
    ScheduleDelivered(times, nframes, from, cursor);
    SchedulePlaced(times, nframes, from, cursor);
    PlacedFromIsPlaced(times, Schedule(times, nframes, from, cursor), cursor);
  }

  /**
   * For a whole callback: the sub-blocks add up to the block, every event
   * is delivered once and in order, and each after exactly as many frames
   * as its offset.
   */
  lemma BlockSchedule(times: seq<uint32>, nframes: nat)
    requires EventsInBlock(times, nframes)
    ensures Rendered(Schedule(times, nframes, 0, 0)) == nframes
    ensures Delivered(Schedule(times, nframes, 0, 0)) == Range(0, |times|)
    ensures Placed(times, Schedule(times, nframes, 0, 0), 0)
  {
    ScheduleCorrect(times, nframes, 0, 0);
  }

  /**
   * Events that share an offset are delivered with no sub-block rendered
   * between them.
   */
  lemma SameTimeEventsAdjacent(times: seq<uint32>, trace: seq<Step>, cursor: nat, a: nat, b: nat, c: nat)
    requires Placed(times, trace, cursor)
    requires a < b < c < |trace| && trace[a].Midi? && trace[c].Midi?
    requires times[trace[a].index] == times[trace[c].index]
    ensures !trace[b].Process?
  {
    RenderedMonotone(trace, a, b);
    RenderedPrefix(trace, b);
    RenderedMonotone(trace, b + 1, c);
  }

  /** With no events, the whole block is rendered as a single sub-block. */
  lemma NoEventsOneBlock(nframes: nat)
    requires nframes > 0
    ensures Schedule([], nframes, 0, 0) == [Process(nframes, 0)]
  {
  }

  // ---------------------------------------------------------------------
  // The loop

  /** `done` followed by the schedule from event `from` at `cursor` is the whole schedule. */
  predicate Completes(times: seq<uint32>, nframes: nat, done: seq<Step>, from: nat, cursor: nat)
    requires from <= |times|
  {
    done + Schedule(times, nframes, from, cursor) == Schedule(times, nframes, 0, 0)
  }

  /** Delivering a due event. */
  lemma {:induction false} AdvanceDue(times: seq<uint32>, nframes: nat, done: seq<Step>, from: nat, cursor: nat)
    requires from < |times| && times[from] == cursor
    requires Completes(times, nframes, done, from, cursor)
    ensures Completes(times, nframes, done + [Midi(from)], from + 1, cursor)
  {
    ScheduleDue(times, nframes, from, cursor);
    assert done + [Midi(from)] + Schedule(times, nframes, from + 1, cursor)
        == done + ([Midi(from)] + Schedule(times, nframes, from + 1, cursor));
  }

  /** Rendering up to the next event. */
  lemma {:induction false} AdvanceGap(times: seq<uint32>, nframes: nat, done: seq<Step>, from: nat, cursor: nat)
    requires from < |times| && times[from] > cursor
    requires Completes(times, nframes, done, from, cursor)
    ensures Completes(times, nframes, done + [Process(times[from] - cursor, cursor)], from, times[from])
  {
    var step := Process(times[from] - cursor, cursor);
    ScheduleGap(times, nframes, from, cursor);
    assert done + [step] + Schedule(times, nframes, from, times[from])
        == done + ([step] + Schedule(times, nframes, from, times[from]));
  }

  /** Rendering the rest of the block after the events. */
  lemma AdvanceLast(times: seq<uint32>, nframes: nat, done: seq<Step>, cursor: nat)
    requires cursor < nframes
    requires Completes(times, nframes, done, |times|, cursor)
    ensures done + [Process(nframes - cursor, cursor)] == Schedule(times, nframes, 0, 0)
  {
  }

  /**
   * The inner loop of `audio::process`: hands the engine every event due at
   * `frame`, in order, and stops at the first later event, whose time sets
   * the length `delta` of the next sub-block (`left` when no event is left).
   */
  method DeliverDue(times: seq<uint32>, nframes: uint32, hasEngine: bool, start: nat, frame: nat, left: nat,
                    ghost before: seq<Step>, traceBefore: seq<Step>)
    returns (index: nat, next: nat, delta: nat, ghost done: seq<Step>, trace: seq<Step>)
    requires EventsInBlock(times, nframes)
    requires start <= |times| && (start < |times| ==> frame <= times[start])
    requires 0 < left && frame + left == nframes
    requires Completes(times, nframes, before, start, frame)
    requires traceBefore == if hasEngine then before else []
    ensures start <= index <= |times| && 0 < delta <= left
    ensures trace == if hasEngine then done else []
    ensures index < |times| ==>
      next == times[index] == frame + delta && Completes(times, nframes, done + [Process(delta, frame)], index, next)
    ensures index == |times| ==> next == frame && delta == left && Completes(times, nframes, done, index, frame)
  {
    index, next, delta, done, trace := start, frame, left, before, traceBefore;
    while index < |times|
      invariant start <= index <= |times| && next == frame && delta == left
      invariant index < |times| ==> frame <= times[index]
      invariant Completes(times, nframes, done, index, frame)
      invariant trace == if hasEngine then done else []
      decreases |times| - index
    {
      var t: nat := times[index];
      if t == frame {
        AdvanceDue(times, nframes, done, index, frame);
        if hasEngine {
          trace := trace + [Midi(index)];
        }
        done := done + [Midi(index)];
        index := index + 1;
      } else {
        AdvanceGap(times, nframes, done, index, frame);
        delta := t - frame;
        next := t;
        return;
      }
    }
  }

  /**
   * One pass of the outer loop of `audio::process`: deliver what is due at
   * `frame`, then render up to the next event or the end of the block. When
   * the whole rest of the block was rendered, the steps are the schedule.
   */
  method RenderNext(times: seq<uint32>, nframes: uint32, hasEngine: bool, start: nat, frame: nat, left: nat,
                    ghost before: seq<Step>, traceBefore: seq<Step>)
    returns (index: nat, next: nat, delta: nat, ghost done: seq<Step>, trace: seq<Step>)
    requires EventsInBlock(times, nframes)
    requires start <= |times| && (start < |times| ==> frame <= times[start])
    requires 0 < left && frame + left == nframes
    requires Completes(times, nframes, before, start, frame)
    requires traceBefore == if hasEngine then before else []
    ensures index <= |times| && 0 < delta <= left
    ensures index < |times| ==> next == frame + delta == times[index]
    ensures delta < left ==> Completes(times, nframes, done, index, frame + delta)
    ensures delta == left ==> done == Schedule(times, nframes, 0, 0)
    ensures trace == if hasEngine then done else []
  {
    ghost var due;
    index, next, delta, due, trace := DeliverDue(times, nframes, hasEngine, start, frame, left, before, traceBefore);
    if index == |times| {
      AdvanceLast(times, nframes, due, frame);
    }
    if hasEngine {
      trace := trace + [Process(delta, frame)];
    }
    done := due + [Process(delta, frame)];
  }

  /**
   * `audio::process` after the driver buffers are fetched. `hasEngine` says
   * whether `m_engine` is set; `end` is how far the output pointers have
   * advanced when the loop stops, and `status` the value returned.
   */
  method ProcessBlock(times: seq<uint32>, nframes: uint32, hasEngine: bool)
    returns (trace: seq<Step>, end: nat, status: int)
    requires EventsInBlock(times, nframes)
    ensures status == 0 && end == nframes
    ensures trace == if hasEngine then Schedule(times, nframes, 0, 0) else []
  {
    var left: nat := nframes;
    var index: nat := 0;
    var offset: nat := 0;
    ghost var done: seq<Step> := [];
    trace := [];

    while left != 0
      invariant index <= |times| && offset + left == nframes
      invariant index < |times| ==> offset <= times[index]
      invariant left != 0 ==> Completes(times, nframes, done, index, offset)
      invariant left == 0 ==> done == Schedule(times, nframes, 0, 0)
      invariant trace == if hasEngine then done else []
      decreases left
    {
      var next, delta;
      index, next, delta, done, trace := RenderNext(times, nframes, hasEngine, index, offset, left, done, trace);
      left := left - delta;
      offset := offset + delta;
    }
    end := offset;
    status := 0;
  }
}
