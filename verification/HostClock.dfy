/**
 The host clock's sequence-lock publication.  One owner thread submits samples while any number of
 threads take snapshots.  The concurrent behaviour is a state machine whose steps are single atomic
 accesses; the class at the end is the sequential code of one submit and one snapshot, tied to the
 same steps.
 */
module HostClocks {
  import opened Wrappers

  datatype PlaybackState = Empty | Stopped | Playing | Paused | Ended | Error

  datatype Sample = Sample(positionMs: real, state: PlaybackState, discontinuityId: nat)

  datatype ClockError = StoppedPositionInvalid | StateInvalid | SegmentRegressed

  const DEFAULT_SAMPLE := Sample(0.0, Stopped, 0)

  /** The sequence counter is an unsigned 64-bit integer that wraps. */
  const SEQUENCE_MODULUS: nat := 0x1_0000_0000_0000_0000
  const WRAP_SUBMISSIONS: nat := 0x8000_0000_0000_0000
  const MAX_ATTEMPTS: nat := 8

  function ValidateSourceClockSample(sample: Sample): (r: Option<ClockError>)
    ensures r.None? <==> sample.state != Empty && (sample.state == Stopped ==> sample.positionMs == 0.0)
  {
    match sample.state
    case Stopped => if sample.positionMs != 0.0 then Some(StoppedPositionInvalid) else None
    case Empty => Some(StateInvalid)
    case _ => None
  }

  // ---------------------------------------------------------------- the protocol

  /** Where the owner thread stands inside submit: which stores it has already made. */
  datatype WriterPc = Idle | Marked | PositionStored | StateStored | IdStored

  /** The clock's atomics and the writer's progress.  history is the default sample followed by every
      sample whose publication has begun; it only records, no step reads it to decide anything but
      the value the writer is still storing. */
  datatype Clock = Clock(sequence: nat, positionMs: real, state: PlaybackState, discontinuityId: nat,
                         initialized: bool, writer: WriterPc, history: seq<Sample>)
  {
    function Published(): Sample { Sample(positionMs, state, discontinuityId) }

    function Begun(): int { |history| - 1 }
  }

  /** The next access a reader thread will make.  Outside: it is not in snapshot. */
  datatype ReaderPc = Outside | AtBefore | AtPosition | AtState | AtId | AtAfter

  /** A value handed out by snapshot and the place in history it was taken from. */
  datatype Observation = Observation(sample: Sample, index: nat)

  /** One reader thread.  begun and cachedIndex only record: how many publications had begun when
      `before` was loaded, and which history entry the cached sample is. */
  datatype Reader = Reader(pc: ReaderPc, attempt: nat, before: nat, result: Sample, cache: Sample,
                           begun: nat, cachedIndex: nat, returned: seq<Observation>)

  datatype System = System(clock: Clock, readers: seq<Reader>)

  datatype Action =
    | BeginSubmit(sample: Sample)     // validation, the regression check and the first fetch_add
    | WriterStep                      // the owner's next store, or the closing fetch_add
    | ReaderStep(reader: nat)         // one atomic load of that thread, or entering snapshot
    | UseOtherClock(reader: nat)      // that thread snapshots a different HostClock in between

  function SubmitError(clock: Clock, sample: Sample): Option<ClockError> {
    var invalid := ValidateSourceClockSample(sample);
    if invalid.Some? then invalid
    else if clock.initialized && sample.discontinuityId == clock.discontinuityId
            && sample.positionMs < clock.positionMs then Some(SegmentRegressed)
    else None
  }

  function Advance(sequence: nat): nat { (sequence + 1) % SEQUENCE_MODULUS }

  function BeginSubmitStep(clock: Clock, sample: Sample): Clock {
    if clock.writer != Idle || SubmitError(clock, sample).Some? then clock
    else clock.(sequence := Advance(clock.sequence), writer := Marked, history := clock.history + [sample])
  }

  function WriterNext(clock: Clock): Clock
    requires clock.history != []
  {
    var sample := clock.history[|clock.history| - 1];
    match clock.writer
    case Idle => clock
    case Marked => clock.(positionMs := sample.positionMs, writer := PositionStored)
    case PositionStored => clock.(state := sample.state, writer := StateStored)
    case StateStored => clock.(discontinuityId := sample.discontinuityId, writer := IdStored)
    case IdStored => clock.(sequence := Advance(clock.sequence), initialized := true, writer := Idle)
  }

  function Return(reader: Reader): Reader {
    reader.(pc := Outside, returned := reader.returned + [Observation(reader.cache, reader.cachedIndex)])
  }

  function ReaderNext(clock: Clock, reader: Reader): Reader
    requires clock.history != []
  {
    match reader.pc
    case Outside => reader.(pc := AtBefore, attempt := 0)
    case AtBefore =>
      if reader.attempt >= MAX_ATTEMPTS then Return(reader)
      else if clock.sequence % 2 != 0 then reader.(attempt := reader.attempt + 1)
      else reader.(pc := AtPosition, before := clock.sequence, begun := clock.Begun())
    case AtPosition => reader.(pc := AtState, result := reader.result.(positionMs := clock.positionMs))
    case AtState => reader.(pc := AtId, result := reader.result.(state := clock.state))
    case AtId => reader.(pc := AtAfter, result := reader.result.(discontinuityId := clock.discontinuityId))
    case AtAfter =>
      if reader.before == clock.sequence && clock.sequence % 2 == 0 then
        Return(reader.(cache := reader.result, cachedIndex := reader.begun))
      else reader.(pc := AtBefore, attempt := reader.attempt + 1)
  }

  function Step(s: System, a: Action): System
    requires s.clock.history != []
  {
    match a
    case BeginSubmit(sample) => s.(clock := BeginSubmitStep(s.clock, sample))
    case WriterStep => s.(clock := WriterNext(s.clock))
    case ReaderStep(r) =>
      if r < |s.readers| then s.(readers := s.readers[r := ReaderNext(s.clock, s.readers[r])]) else s
    case UseOtherClock(r) =>
      if r < |s.readers| && s.readers[r].pc == Outside then
        s.(readers := s.readers[r := s.readers[r].(cache := DEFAULT_SAMPLE, cachedIndex := 0)])
      else s
  }

  function Run(s: System, actions: seq<Action>): (t: System)
    requires s.clock.history != []
    ensures t.clock.history != [] && |t.readers| == |s.readers|
    decreases |actions|
  {
    if actions == [] then s else Run(Step(s, actions[0]), actions[1..])
  }

  const INITIAL_CLOCK := Clock(0, 0.0, Stopped, 0, false, Idle, [DEFAULT_SAMPLE])
  const INITIAL_READER := Reader(Outside, 0, 0, DEFAULT_SAMPLE, DEFAULT_SAMPLE, 0, 0, [])

  function Initial(readers: nat): System { System(INITIAL_CLOCK, seq(readers, _ => INITIAL_READER)) }

  /** Fewer than 2^63 publications have begun since the reader opened the window it is about to close,
      so the 64-bit counter cannot have come round to the same value. */
  predicate WindowShort(s: System, a: Action) {
    a.ReaderStep? && a.reader < |s.readers| && s.readers[a.reader].pc == AtAfter ==>
      s.clock.Begun() - s.readers[a.reader].begun < 0x8000_0000_0000_0000
  }

  predicate WindowsShort(s: System, actions: seq<Action>)
    requires s.clock.history != []
    decreases |actions|
  {
    actions == [] || (WindowShort(s, actions[0]) && WindowsShort(Step(s, actions[0]), actions[1..]))
  }

  // ---------------------------------------------------------------- invariants

  predicate ClockOk(c: Clock) {
    var last := |c.history| - 1;
    && c.history != []
    && c.history[0] == DEFAULT_SAMPLE
    && (c.writer != Idle ==> last > 0)
    && c.sequence == (2 * last - (if c.writer == Idle then 0 else 1)) % SEQUENCE_MODULUS
    && (c.initialized <==> last > (if c.writer == Idle then 0 else 1))
    && (c.writer in {PositionStored, StateStored, IdStored, Idle} ==> c.positionMs == c.history[last].positionMs)
    && (c.writer in {StateStored, IdStored, Idle} ==> c.state == c.history[last].state)
    && (c.writer in {IdStored, Idle} ==> c.discontinuityId == c.history[last].discontinuityId)
    && SegmentsAscend(c.history)
  }

  /** Neighbouring submissions of one discontinuity segment never go back in time.  The default sample
      at index 0 is not a submission and is exempt. */
  predicate SegmentsAscend(history: seq<Sample>) {
    forall i :: 1 <= i < |history| - 1 && history[i].discontinuityId == history[i + 1].discontinuityId ==>
      history[i].positionMs <= history[i + 1].positionMs
  }

  predicate Whole(o: Observation, history: seq<Sample>) { o.index < |history| && o.sample == history[o.index] }

  /** What a reader knows: its cache is a whole sample, and as long as no publication has begun since it
      loaded `before`, everything loaded so far belongs to that one sample. */
  predicate ReaderOk(c: Clock, r: Reader)
    requires c.history != []
  {
    && r.cachedIndex < |c.history| && r.cache == c.history[r.cachedIndex]
    && (forall i :: 0 <= i < |r.returned| ==> Whole(r.returned[i], c.history))
    && (r.pc in {AtPosition, AtState, AtId, AtAfter} ==>
          && r.begun <= c.Begun() && r.before == 2 * r.begun % SEQUENCE_MODULUS
          && (r.begun == c.Begun() ==>
                && c.writer == Idle
                && (r.pc != AtPosition ==> r.result.positionMs == c.history[r.begun].positionMs)
                && (r.pc in {AtId, AtAfter} ==> r.result.state == c.history[r.begun].state)
                && (r.pc == AtAfter ==> r.result == c.history[r.begun])))
  }

  predicate SystemOk(s: System) {
    && ClockOk(s.clock)
    && forall r :: 0 <= r < |s.readers| ==> ReaderOk(s.clock, s.readers[r])
  }

  /** Snapshots of one thread never go back to an older publication, and the cache is the newest one. */
  predicate Ordered(r: Reader) {
    && (forall i, j :: 0 <= i < j < |r.returned| ==> r.returned[i].index <= r.returned[j].index)
    && (forall i :: 0 <= i < |r.returned| ==> r.returned[i].index <= r.cachedIndex)
    && (r.pc in {AtPosition, AtState, AtId, AtAfter} ==> r.cachedIndex <= r.begun)
  }

  /** Whatever other clocks a thread reads in between: an older submission is never handed out after a newer one, only
      the default sample of an emptied cache can come back. */
  predicate NeverBehind(r: Reader) {
    && (forall i, j :: 0 <= i < j < |r.returned| ==>
         r.returned[i].index <= r.returned[j].index || r.returned[j].index == 0)
    && (forall i :: 0 <= i < |r.returned| ==> r.returned[i].index <= r.cachedIndex || r.cachedIndex == 0)
    && (r.pc in {AtPosition, AtState, AtId, AtAfter} ==>
          r.cachedIndex <= r.begun && forall i :: 0 <= i < |r.returned| ==> r.returned[i].index <= r.begun)
  }

  lemma WriterKeepsClockOk(c: Clock)
    requires ClockOk(c)
    ensures ClockOk(WriterNext(c)) && WriterNext(c).history == c.history
  {
  }

  lemma SubmitKeepsClockOk(c: Clock, sample: Sample)
    requires ClockOk(c)
    ensures ClockOk(BeginSubmitStep(c, sample))
  {
    var d := BeginSubmitStep(c, sample);
    if d != c {
      var last := |c.history| - 1;
      assert d.sequence == (2 * (last + 1) - 1) % SEQUENCE_MODULUS;
      forall i | 1 <= i < |d.history| - 1 && d.history[i].discontinuityId == d.history[i + 1].discontinuityId
        ensures d.history[i].positionMs <= d.history[i + 1].positionMs
      {
        if i == last { assert c.initialized; } else { assert d.history[i + 1] == c.history[i + 1]; }
      }
    }
  }

  /** Between submissions a sample is accepted exactly when it is one of a loaded source, at zero if stopped, and does
      not go back within the discontinuity segment of the last submission, if there was one. */
  lemma SubmitsExactly(c: Clock, sample: Sample)
    requires ClockOk(c) && c.writer == Idle
    ensures SubmitError(c, sample) == None <==>
      && sample.state != Empty && (sample.state == Stopped ==> sample.positionMs == 0.0)
      && var last := c.history[|c.history| - 1];
      |c.history| == 1 || last.discontinuityId != sample.discontinuityId || last.positionMs <= sample.positionMs
  {
  }

  lemma ReaderKeepsOk(c: Clock, r: Reader)
    requires ClockOk(c) && ReaderOk(c, r)
    requires r.pc == AtAfter ==> c.Begun() - r.begun < WRAP_SUBMISSIONS
    ensures ReaderOk(c, ReaderNext(c, r))
  {
    if r.pc == AtAfter && r.before == c.sequence && c.sequence % 2 == 0 {
      EvenCounterMeansIdle(c);
      SameCounterSameCount(r.begun, c.Begun());
    } else if r.pc == AtBefore && r.attempt < MAX_ATTEMPTS && c.sequence % 2 == 0 {
      EvenCounterMeansIdle(c);
    }
  }

  lemma ReaderStaysOrdered(c: Clock, r: Reader)
    requires c.history != [] && r.cachedIndex <= c.Begun() && Ordered(r)
    ensures Ordered(ReaderNext(c, r))
  {
  }

  lemma EvenCounterMeansIdle(c: Clock)
    requires ClockOk(c) && c.sequence % 2 == 0
    ensures c.writer == Idle
  {
  }

  lemma SameCounterSameCount(begun: nat, now: nat)
    requires begun <= now && now - begun < WRAP_SUBMISSIONS
    requires 2 * begun % SEQUENCE_MODULUS == 2 * now % SEQUENCE_MODULUS
    ensures begun == now
  {
    var q := 2 * begun / SEQUENCE_MODULUS;
    var p := 2 * now / SEQUENCE_MODULUS;
    assert 2 * (now - begun) == SEQUENCE_MODULUS * (p - q);
  }

  lemma WriterKeepsReaders(c: Clock, d: Clock, r: Reader)
    requires ClockOk(c) && ClockOk(d) && ReaderOk(c, r)
    requires (d == WriterNext(c)) || exists sample :: d == BeginSubmitStep(c, sample)
    ensures ReaderOk(d, r)
  {
  }

  lemma StepKeepsOk(s: System, a: Action)
    requires SystemOk(s) && WindowShort(s, a)
    ensures SystemOk(Step(s, a))
  {
    match a
    case BeginSubmit(sample) =>
      SubmitKeepsClockOk(s.clock, sample);
      forall r | 0 <= r < |s.readers| ensures ReaderOk(Step(s, a).clock, s.readers[r]) {
        WriterKeepsReaders(s.clock, Step(s, a).clock, s.readers[r]);
      }
    case WriterStep =>
      WriterKeepsClockOk(s.clock);
      forall r | 0 <= r < |s.readers| ensures ReaderOk(Step(s, a).clock, s.readers[r]) {
        WriterKeepsReaders(s.clock, Step(s, a).clock, s.readers[r]);
      }
    case ReaderStep(r) => if r < |s.readers| { ReaderKeepsOk(s.clock, s.readers[r]); }
    case UseOtherClock(r) =>
  }

  lemma {:induction false} RunKeepsOk(s: System, actions: seq<Action>)
    requires SystemOk(s) && WindowsShort(s, actions)
    ensures SystemOk(Run(s, actions))
    decreases |actions|
  {
    if actions != [] {
      StepKeepsOk(s, actions[0]);
      RunKeepsOk(Step(s, actions[0]), actions[1..]);
    }
  }

  lemma StepKeepsOrdered(s: System, a: Action, r: nat)
    requires SystemOk(s) && WindowShort(s, a) && r < |s.readers| && Ordered(s.readers[r])
    requires a != UseOtherClock(r)
    ensures |Step(s, a).readers| == |s.readers| && Ordered(Step(s, a).readers[r])
  {
    if a == ReaderStep(r) { ReaderStaysOrdered(s.clock, s.readers[r]); }
  }

  lemma {:induction false} RunKeepsOrdered(s: System, actions: seq<Action>, r: nat)
    requires SystemOk(s) && WindowsShort(s, actions) && r < |s.readers| && Ordered(s.readers[r])
    requires UseOtherClock(r) !in actions
    ensures |Run(s, actions).readers| == |s.readers| && Ordered(Run(s, actions).readers[r])
    decreases |actions|
  {
    if actions != [] {
      StepKeepsOrdered(s, actions[0], r);
      StepKeepsOk(s, actions[0]);
      RunKeepsOrdered(Step(s, actions[0]), actions[1..], r);
    }
  }

  lemma ReaderStaysNeverBehind(c: Clock, r: Reader)
    requires c.history != [] && r.cachedIndex <= c.Begun() && NeverBehind(r)
    requires forall i :: 0 <= i < |r.returned| ==> r.returned[i].index <= c.Begun()
    ensures NeverBehind(ReaderNext(c, r))
  {
    match r.pc {
      case AtBefore => ReturnStaysNeverBehind(r);
      case AtAfter => ReturnStaysNeverBehind(r.(cache := r.result, cachedIndex := r.begun));
      case _ =>
    }
  }

  lemma ReturnStaysNeverBehind(r: Reader)
    requires forall i, j :: 0 <= i < j < |r.returned| ==>
      r.returned[i].index <= r.returned[j].index || r.returned[j].index == 0
    requires forall i :: 0 <= i < |r.returned| ==> r.returned[i].index <= r.cachedIndex || r.cachedIndex == 0
    ensures NeverBehind(Return(r))
  {
  }

  /** When a step hands out a sample older than one handed out before: exactly when the attempts are spent and the cache
      was emptied by reading another clock, and then it is the default sample. */
  lemma GoesBackExactly(c: Clock, r: Reader, i: nat)
    requires ClockOk(c) && ReaderOk(c, r) && NeverBehind(r) && i < |r.returned|
    ensures var next := ReaderNext(c, r);
      && r.returned <= next.returned
      && (|next.returned| > |r.returned| && next.returned[|r.returned|].index < r.returned[i].index <==>
            r.pc == AtBefore && r.attempt >= 8 && r.cachedIndex == 0 && r.returned[i].index > 0)
  {
  }

  lemma StepStaysNeverBehind(s: System, a: Action, r: nat)
    requires SystemOk(s) && r < |s.readers| && NeverBehind(s.readers[r])
    ensures |Step(s, a).readers| == |s.readers| && NeverBehind(Step(s, a).readers[r])
  {
    var reader := s.readers[r];
    forall i | 0 <= i < |reader.returned| ensures reader.returned[i].index <= s.clock.Begun() {
      assert Whole(reader.returned[i], s.clock.history);
    }
    if a == ReaderStep(r) { ReaderStaysNeverBehind(s.clock, reader); }
  }

  lemma {:induction false} RunStaysNeverBehind(s: System, actions: seq<Action>, r: nat)
    requires SystemOk(s) && WindowsShort(s, actions) && r < |s.readers| && NeverBehind(s.readers[r])
    ensures |Run(s, actions).readers| == |s.readers| && NeverBehind(Run(s, actions).readers[r])
    decreases |actions|
  {
    if actions != [] {
      StepStaysNeverBehind(s, actions[0], r);
      StepKeepsOk(s, actions[0]);
      RunStaysNeverBehind(Step(s, actions[0]), actions[1..], r);
    }
  }

  // ---------------------------------------------------------------- main results

  /** No snapshot is ever torn: whatever the interleaving, each value any thread got is the default
      sample or one whole submitted sample. */
  lemma SnapshotsAreWhole(readers: nat, actions: seq<Action>, r: nat, i: nat)
    requires WindowsShort(Initial(readers), actions) && r < readers
    requires i < |Run(Initial(readers), actions).readers[r].returned|
    ensures Run(Initial(readers), actions).readers[r].returned[i].sample in Run(Initial(readers), actions).clock.history
  {
    RunKeepsOk(Initial(readers), actions);
    var t := Run(Initial(readers), actions);
    assert ReaderOk(t.clock, t.readers[r]);
    assert Whole(t.readers[r].returned[i], t.clock.history);
  }

  lemma {:induction false} SegmentAscends(history: seq<Sample>, i: nat, j: nat)
    requires SegmentsAscend(history) && 1 <= i <= j < |history|
    requires forall k :: i <= k <= j ==> history[k].discontinuityId == history[i].discontinuityId
    ensures history[i].positionMs <= history[j].positionMs
    decreases j - i
  {
    if i < j {
      assert history[i + 1].discontinuityId == history[i].discontinuityId;
      SegmentAscends(history, i + 1, j);
    }
  }

  /** No thread, whatever other clocks it reads, sees an older submission after a newer one: a later snapshot is at the
      same or a later publication, and inside one contiguous discontinuity segment at the same or a later position, or
      it is the default sample. */
  lemma SnapshotsNeverGoBack(readers: nat, actions: seq<Action>, r: nat, i: nat, j: nat)
    requires WindowsShort(Initial(readers), actions) && r < readers
    requires i < j < |Run(Initial(readers), actions).readers[r].returned|
    ensures
      var t := Run(Initial(readers), actions);
      var older, newer := t.readers[r].returned[i], t.readers[r].returned[j];
      && Whole(older, t.clock.history) && Whole(newer, t.clock.history)
      && (newer.index < older.index ==> newer == Observation(DEFAULT_SAMPLE, 0))
      && (1 <= older.index <= newer.index && (forall k :: older.index <= k <= newer.index ==>
             t.clock.history[k].discontinuityId == older.sample.discontinuityId) ==>
            older.sample.positionMs <= newer.sample.positionMs)
  {
    RunKeepsOk(Initial(readers), actions);
    RunStaysNeverBehind(Initial(readers), actions, r);
    var t := Run(Initial(readers), actions);
    assert ReaderOk(t.clock, t.readers[r]);
    var older, newer := t.readers[r].returned[i], t.readers[r].returned[j];
    if 1 <= older.index <= newer.index && forall k :: older.index <= k <= newer.index ==>
        t.clock.history[k].discontinuityId == older.sample.discontinuityId {
      SegmentAscends(t.clock.history, older.index, newer.index);
    }
  }

  /** A thread that reads only this clock sees publications in order, and its positions never go back
      inside one contiguous discontinuity segment. */
  lemma SnapshotsOfOneClockAscend(readers: nat, actions: seq<Action>, r: nat, i: nat, j: nat)
    requires WindowsShort(Initial(readers), actions) && r < readers && UseOtherClock(r) !in actions
    requires i < j < |Run(Initial(readers), actions).readers[r].returned|
    ensures
      var t := Run(Initial(readers), actions);
      var older, newer := t.readers[r].returned[i], t.readers[r].returned[j];
      && Whole(older, t.clock.history) && Whole(newer, t.clock.history)
      && older.index <= newer.index
      && (older.index >= 1 && (forall k :: older.index <= k <= newer.index ==>
             t.clock.history[k].discontinuityId == older.sample.discontinuityId) ==>
            older.sample.positionMs <= newer.sample.positionMs)
  {
    RunKeepsOk(Initial(readers), actions);
    RunKeepsOrdered(Initial(readers), actions, r);
    var t := Run(Initial(readers), actions);
    assert ReaderOk(t.clock, t.readers[r]);
    var older, newer := t.readers[r].returned[i], t.readers[r].returned[j];
    if older.index >= 1 && forall k :: older.index <= k <= newer.index ==>
        t.clock.history[k].discontinuityId == older.sample.discontinuityId {
      SegmentAscends(t.clock.history, older.index, newer.index);
    }
  }

  // ---------------------------------------------------------------- how fresh a snapshot is

  /** What an onlooker notes of one thread: how many submissions were complete when it entered the snapshot it is in,
      how many of its attempts since met an odd or a changed counter, how many steps it has made, and what it was last
      given since it last read another clock. */
  datatype Watch = Watch(completed: nat, missed: nat, steps: nat, seen: Sample)

  const INITIAL_WATCH := Watch(0, 0, 0, DEFAULT_SAMPLE)

  function Completed(c: Clock): int { c.Begun() - if c.writer == Idle then 0 else 1 }

  function Noted(s: System, a: Action, r: nat, w: Watch): Watch
    requires ClockOk(s.clock) && r < |s.readers|
  {
    var c, before, after := s.clock, s.readers[r], Step(s, a).readers[r];
    if a == UseOtherClock(r) && before.pc == Outside then w.(seen := DEFAULT_SAMPLE)
    else if a != ReaderStep(r) then w
    else if before.pc == Outside then Watch(Completed(c), 0, 1, w.seen)
    else if |after.returned| > |before.returned| then w.(seen := after.returned[|after.returned| - 1].sample)
    else if before.pc == AtBefore && c.sequence % 2 != 0 then w.(missed := w.missed + 1, steps := w.steps + 1)
    else if before.pc == AtAfter && (c.sequence % 2 != 0 || c.sequence != before.before) then
      w.(missed := w.missed + 1, steps := w.steps + 1)
    else w.(steps := w.steps + 1)
  }

  /** The onlooker's notes after a run. */
  function Notes(s: System, actions: seq<Action>, r: nat, w: Watch): Watch
    requires SystemOk(s) && WindowsShort(s, actions) && r < |s.readers|
    decreases |actions|
  {
    if actions == [] then w
    else
      StepKeepsOk(s, actions[0]);
      Notes(Step(s, actions[0]), actions[1..], r, Noted(s, actions[0], r, w))
  }

  /** The steps a thread has made at that point of its current attempt. */
  function InAttempt(pc: ReaderPc): nat {
    match pc case Outside => 0 case AtBefore => 0 case AtPosition => 1 case AtState => 2 case AtId => 3
             case AtAfter => 4
  }

  predicate WatchOk(c: Clock, r: Reader, w: Watch)
    requires c.history != []
  {
    && w.seen == r.cache && r.attempt <= MAX_ATTEMPTS
    && (r.pc != Outside ==>
          && w.missed == r.attempt && w.completed <= Completed(c)
          && w.steps <= 1 + 5 * r.attempt + InAttempt(r.pc))
    && (r.pc in {AtPosition, AtState, AtId, AtAfter} ==> w.completed <= r.begun && r.attempt < MAX_ATTEMPTS)
  }

  lemma StepKeepsWatchOk(s: System, a: Action, r: nat, w: Watch)
    requires SystemOk(s) && WindowShort(s, a) && r < |s.readers| && WatchOk(s.clock, s.readers[r], w)
    ensures SystemOk(Step(s, a)) && r < |Step(s, a).readers|
    ensures WatchOk(Step(s, a).clock, Step(s, a).readers[r], Noted(s, a, r, w))
  {
    StepKeepsOk(s, a);
    if a == ReaderStep(r) { ReaderKeepsWatchOk(s, r, w); }
  }

  lemma ReaderKeepsWatchOk(s: System, r: nat, w: Watch)
    requires SystemOk(s) && r < |s.readers| && WatchOk(s.clock, s.readers[r], w)
    ensures WatchOk(s.clock, ReaderNext(s.clock, s.readers[r]), Noted(s, ReaderStep(r), r, w))
  {
    if s.clock.sequence % 2 == 0 { EvenCounterMeansIdle(s.clock); }
  }

  lemma {:induction false} RunKeepsWatchOk(s: System, actions: seq<Action>, r: nat, w: Watch)
    requires SystemOk(s) && WindowsShort(s, actions) && r < |s.readers| && WatchOk(s.clock, s.readers[r], w)
    ensures SystemOk(Run(s, actions)) && r < |Run(s, actions).readers|
    ensures WatchOk(Run(s, actions).clock, Run(s, actions).readers[r], Notes(s, actions, r, w))
    decreases |actions|
  {
    if actions != [] {
      StepKeepsWatchOk(s, actions[0], r, w);
      RunKeepsWatchOk(Step(s, actions[0]), actions[1..], r, Noted(s, actions[0], r, w));
    }
  }

  /** In every interleaving: a snapshot returns after at most 42 steps.  One that met an odd or changed counter at no
      more than seven attempts gives a submission no older than the last one that was complete when it was entered; it
      returns something else only after eight such attempts, and then what the thread was last given. */
  lemma SnapshotsAreFresh(readers: nat, actions: seq<Action>, r: nat)
    requires WindowsShort(Initial(readers), actions) && r < readers
    requires WindowShort(Run(Initial(readers), actions), ReaderStep(r))
    ensures SystemOk(Initial(readers))
    ensures
      var s, w := Run(Initial(readers), actions), Notes(Initial(readers), actions, r, INITIAL_WATCH);
      var before, after := s.readers[r], ReaderNext(s.clock, s.readers[r]);
      && (before.pc != Outside ==> w.steps <= 41 && w.missed <= 8)
      && (|after.returned| > |before.returned| ==>
            var given := after.returned[|before.returned|];
            && Whole(given, s.clock.history)
            && (w.missed <= 7 ==> w.completed <= given.index)
            && (w.missed > 7 ==> w.missed == 8 && given.sample == w.seen))
      && (before.pc == AtBefore && w.missed == 8 ==> |after.returned| > |before.returned|)
  {
    RunKeepsWatchOk(Initial(readers), actions, r, INITIAL_WATCH);
    RunKeepsOk(Initial(readers), actions);
    var s := Run(Initial(readers), actions);
    assert ReaderOk(s.clock, s.readers[r]);
    ReaderKeepsOk(s.clock, s.readers[r]);
  }

  // ---------------------------------------------------------------- the bounds are needed

  /** One whole submission, as the five accesses of the owner thread. */
  function SubmitActions(sample: Sample): seq<Action> {
    [BeginSubmit(sample), WriterStep, WriterStep, WriterStep, WriterStep]
  }

  function SubmitTimes(sample: Sample, times: nat): seq<Action> {
    if times == 0 then [] else SubmitActions(sample) + SubmitTimes(sample, times - 1)
  }

  /** The clock after an accepted submission has run to its end. */
  function Publish(c: Clock, sample: Sample): Clock {
    Clock(Advance(Advance(c.sequence)), sample.positionMs, sample.state, sample.discontinuityId, true, Idle,
          c.history + [sample])
  }

  lemma {:induction false} RunAppends(s: System, first: seq<Action>, second: seq<Action>)
    requires s.clock.history != []
    ensures Run(s, first + second) == Run(Run(s, first), second)
    decreases |first|
  {
    if first == [] {
      assert first + second == second;
    } else {
      assert (first + second)[1..] == first[1..] + second;
      RunAppends(Step(s, first[0]), first[1..], second);
    }
  }

  lemma SubmitActionsPublish(s: System, sample: Sample)
    requires s.clock.history != [] && s.clock.writer == Idle && SubmitError(s.clock, sample).None?
    ensures Run(s, SubmitActions(sample)) == s.(clock := Publish(s.clock, sample))
  {
    var actions := SubmitActions(sample);
    var s1 := Step(s, actions[0]);
    var s2 := Step(s1, WriterStep);
    var s3 := Step(s2, WriterStep);
    var s4 := Step(s3, WriterStep);
    assert actions[1..] == [WriterStep, WriterStep, WriterStep, WriterStep];
    assert actions[1..][1..] == [WriterStep, WriterStep, WriterStep];
    assert actions[1..][1..][1..] == [WriterStep, WriterStep];
    assert actions[1..][1..][1..][1..] == [WriterStep];
    assert Run(s4, [WriterStep]) == Step(s4, WriterStep);
    assert Run(s3, [WriterStep, WriterStep]) == Run(s4, [WriterStep]);
    assert Run(s2, [WriterStep, WriterStep, WriterStep]) == Run(s3, [WriterStep, WriterStep]);
  }

  lemma {:induction false} SubmittingTheSameSample(s: System, sample: Sample, times: nat)
    requires s.clock.history != [] && s.clock.writer == Idle && s.clock.sequence < SEQUENCE_MODULUS
    requires ValidateSourceClockSample(sample).None? && times > 0
    requires SubmitError(s.clock, sample).None?
    ensures var t := Run(s, SubmitTimes(sample, times));
      && t.readers == s.readers && t.clock.writer == Idle
      && t.clock.sequence == (s.clock.sequence + 2 * times) % SEQUENCE_MODULUS
      && t.clock.Published() == sample
      && (forall x :: x in t.clock.history ==> x in s.clock.history || x == sample)
    decreases times
  {
    var u := s.(clock := Publish(s.clock, sample));
    SubmittingOnce(s, sample, times);
    if times > 1 {
      SubmittingTheSameSample(u, sample, times - 1);
      SequenceAdds(s.clock.sequence, times);
    }
  }

  /** The first of several submissions of one sample, which is accepted again. */
  lemma {:induction false} SubmittingOnce(s: System, sample: Sample, times: nat)
    requires s.clock.history != [] && s.clock.writer == Idle && s.clock.sequence < SEQUENCE_MODULUS
    requires SubmitError(s.clock, sample).None? && times > 0
    ensures var u := s.(clock := Publish(s.clock, sample));
      && Run(s, SubmitTimes(sample, times)) == Run(u, SubmitTimes(sample, times - 1))
      && u.clock.sequence == (s.clock.sequence + 2) % SEQUENCE_MODULUS
      && SubmitError(u.clock, sample).None? && u.clock.Published() == sample
  {
    SubmitActionsPublish(s, sample);
    RunAppends(s, SubmitActions(sample), SubmitTimes(sample, times - 1));
  }

  lemma SequenceAdds(sequence: nat, times: nat)
    requires sequence < SEQUENCE_MODULUS && times > 0
    ensures ((sequence + 2) % SEQUENCE_MODULUS + 2 * (times - 1)) % SEQUENCE_MODULUS
         == (sequence + 2 * times) % SEQUENCE_MODULUS
  {
  }

  const THREE_READS: seq<Action> := [ReaderStep(0), ReaderStep(0), ReaderStep(0)]

  lemma ThreeReads(s: System)
    requires s.clock.history != []
    ensures Run(s, THREE_READS) == Step(Step(Step(s, ReaderStep(0)), ReaderStep(0)), ReaderStep(0))
  {
    assert THREE_READS[1..] == [ReaderStep(0), ReaderStep(0)] && THREE_READS[1..][1..] == [ReaderStep(0)];
    var s1 := Step(s, ReaderStep(0));
    var s2 := Step(s1, ReaderStep(0));
    assert Run(s2, [ReaderStep(0)]) == Step(s2, ReaderStep(0));
    assert Run(s1, [ReaderStep(0), ReaderStep(0)]) == Run(s2, [ReaderStep(0)]);
  }

  const WRAP_SAMPLE := Sample(1.0, Playing, 1)

  /** The reader loads `before` and the position, 2^63 submissions run, and it loads the rest. */
  const WRAP_RUN: seq<Action> := THREE_READS + SubmitTimes(WRAP_SAMPLE, WRAP_SUBMISSIONS) + THREE_READS

  /** The wrap bound is tight: exactly 2^63 submissions inside one window let a snapshot combine the
      position of one sample with the state and identifier of another. */
  lemma WrappedCounterTears()
    ensures WRAP_RUN == THREE_READS + SubmitTimes(WRAP_SAMPLE, 0x8000_0000_0000_0000) + THREE_READS
    ensures var t := Run(Initial(1), WRAP_RUN);
      |t.readers[0].returned| == 1 && t.readers[0].returned[0].sample !in t.clock.history
  {
    var s := Initial(1);
    var s3 := Run(s, THREE_READS);
    ThreeReads(s);
    var reader := Reader(AtState, 0, 0, DEFAULT_SAMPLE, DEFAULT_SAMPLE, 0, 0, []);
    assert s3 == System(INITIAL_CLOCK, [reader]);
    SubmittingTheSameSample(s3, WRAP_SAMPLE, WRAP_SUBMISSIONS);
    var u := Run(s3, SubmitTimes(WRAP_SAMPLE, WRAP_SUBMISSIONS));
    RunAppends(s, THREE_READS, SubmitTimes(WRAP_SAMPLE, WRAP_SUBMISSIONS));
    RunAppends(s, THREE_READS + SubmitTimes(WRAP_SAMPLE, WRAP_SUBMISSIONS), THREE_READS);
    CloseWindow(u, reader);
  }

  lemma CloseWindow(u: System, reader: Reader)
    requires u.clock.history != [] && u.readers == [reader] && reader.returned == []
    requires reader.pc == AtState && reader.before == u.clock.sequence == 0
    ensures var t := Run(u, THREE_READS);
      && t.clock == u.clock
      && t.readers[0].returned
         == [Observation(Sample(reader.result.positionMs, u.clock.state, u.clock.discontinuityId), reader.begun)]
  {
    ThreeReads(u);
  }

  /** One submission, one snapshot, then a second submission begins and the thread reads another clock. */
  const FORGET_PREFIX: seq<Action> :=
    SubmitActions(WRAP_SAMPLE) + THREE_READS + THREE_READS + [BeginSubmit(Sample(2.0, Playing, 1)), UseOtherClock(0)]

  /** Reading a second clock in between empties the thread's cache: if the next snapshot of this clock
      then meets a submission in progress at every attempt, it returns the default sample although
      the thread has already seen a newer one. */
  lemma OtherClockForgets()
    ensures
      var actions := FORGET_PREFIX + Repeated(ReaderStep(0), MAX_ATTEMPTS + 2);
      Run(Initial(1), actions).readers[0].returned == [Observation(WRAP_SAMPLE, 1), Observation(DEFAULT_SAMPLE, 0)]
  {
    ForgetPrefix();
    var s4 := Run(Initial(1), FORGET_PREFIX);
    SpinSteps(s4);
    RunAppends(Initial(1), FORGET_PREFIX, Repeated(ReaderStep(0), MAX_ATTEMPTS + 2));
  }

  /** The thread has seen the first sample, the second submission has begun, and the cache is empty. */
  lemma ForgetPrefix()
    ensures var s := Run(Initial(1), FORGET_PREFIX);
      && s.clock.history != [] && s.clock.sequence == 3 && |s.readers| == 1 && s.readers[0].pc == Outside
      && s.readers[0].returned == [Observation(WRAP_SAMPLE, 1)]
      && s.readers[0].cache == DEFAULT_SAMPLE && s.readers[0].cachedIndex == 0
  {
    var s0 := Initial(1);
    var s1 := Run(s0, SubmitActions(WRAP_SAMPLE));
    SubmitActionsPublish(s0, WRAP_SAMPLE);
    RunAppends(s0, SubmitActions(WRAP_SAMPLE), THREE_READS);
    ThreeReads(s1);
    var s2 := Run(s1, THREE_READS);
    RunAppends(s0, SubmitActions(WRAP_SAMPLE) + THREE_READS, THREE_READS);
    ThreeReads(s2);
    var s3 := Run(s2, THREE_READS);
    assert s3.readers[0].returned == [Observation(WRAP_SAMPLE, 1)] && s3.readers[0].pc == Outside;
    var last := [BeginSubmit(Sample(2.0, Playing, 1)), UseOtherClock(0)];
    RunAppends(s0, SubmitActions(WRAP_SAMPLE) + THREE_READS + THREE_READS, last);
    assert last[1..] == [UseOtherClock(0)];
    var s4 := Step(Step(s3, last[0]), last[1]);
    assert Run(Step(s3, last[0]), [UseOtherClock(0)]) == s4;
    assert Run(s3, last) == s4;
    assert Run(s0, FORGET_PREFIX) == s4;
  }

  function Repeated(a: Action, times: nat): seq<Action> { seq(times, _ => a) }

  /** With the counter odd throughout, a reader entering snapshot spends its eight attempts and then
      returns its cache. */
  lemma SpinSteps(s: System)
    requires s.clock.history != [] && |s.readers| == 1 && s.clock.sequence % 2 != 0 && s.readers[0].pc == Outside
    ensures Run(s, Repeated(ReaderStep(0), MAX_ATTEMPTS + 2)).readers[0].returned
         == s.readers[0].returned + [Observation(s.readers[0].cache, s.readers[0].cachedIndex)]
  {
    assert Repeated(ReaderStep(0), MAX_ATTEMPTS + 2)[1..] == Repeated(ReaderStep(0), MAX_ATTEMPTS + 1);
    FailedAttempts(Step(s, ReaderStep(0)), MAX_ATTEMPTS);
  }

  lemma {:induction false} FailedAttempts(s: System, left: nat)
    requires s.clock.history != [] && |s.readers| == 1 && s.clock.sequence % 2 != 0
    requires s.readers[0].pc == AtBefore && s.readers[0].attempt + left == MAX_ATTEMPTS
    ensures Run(s, Repeated(ReaderStep(0), left + 1)) == s.(readers := [Return(s.readers[0].(attempt := MAX_ATTEMPTS))])
    decreases left
  {
    var next := Step(s, ReaderStep(0));
    assert Repeated(ReaderStep(0), left + 1)[1..] == Repeated(ReaderStep(0), left);
    if left == 0 {
      assert Repeated(ReaderStep(0), left) == [];
    } else {
      FailedAttempts(next, left - 1);
    }
  }

  // ---------------------------------------------------------------- the sequential code

  /** The thread-local cache of snapshot. */
  class SnapshotCache {
    var owner: HostClock?
    var sample: Sample
    constructor ()
      ensures owner == null && sample == DEFAULT_SAMPLE
    {
      owner, sample := null, DEFAULT_SAMPLE;
    }
  }

  class HostClock {
    var sequence: nat
    var positionMs: real
    var state: PlaybackState
    var discontinuityId: nat
    var initialized: bool
    ghost var history: seq<Sample>

    /** The clock between two submissions, as a state of the protocol. */
    ghost function View(): Clock
      reads this
    {
      Clock(sequence, positionMs, state, discontinuityId, initialized, Idle, history)
    }

    ghost predicate Valid()
      reads this
    {
      ClockOk(View())
    }

    constructor ()
      ensures Valid() && View() == INITIAL_CLOCK
    {
      sequence, positionMs, state, discontinuityId, initialized := 0, 0.0, Stopped, 0, false;
      history := [DEFAULT_SAMPLE];
    }

    /** A rejected sample changes nothing; an accepted one has exactly the effect of the protocol's
        five owner accesses. */
    method Submit(sample: Sample) returns (r: Option<ClockError>)
      requires Valid()
      modifies this
      ensures Valid()
      ensures r == SubmitError(old(View()), sample)
      ensures r.Some? ==> View() == old(View())
      ensures r.None? ==> View() == Run(System(old(View()), []), SubmitActions(sample)).clock
      ensures r.None? ==> View().Published() == sample && history == old(history) + [sample]
    {
      r := ValidateSourceClockSample(sample);
      if r.Some? { return; }
      if initialized && sample.discontinuityId == discontinuityId && sample.positionMs < positionMs {
        return Some(SegmentRegressed);
      }
      ghost var before := View();
      SubmitActionsPublish(System(before, []), sample);
      SubmitKeepsClockOk(before, sample);
      sequence := Advance(sequence);
      history := history + [sample];
      positionMs := sample.positionMs;
      state := sample.state;
      discontinuityId := sample.discontinuityId;
      sequence := Advance(sequence);
      initialized := true;
      assert View() == Publish(before, sample);
      WriterKeepsClockOk(BeginSubmitStep(before, sample));
      PublishKeepsClockOk(before, sample);
      r := None;
    }

    /** Without a concurrent submission the first attempt succeeds; with the counter stuck at an odd
        value every attempt fails and the cached sample of this clock, or the default, is returned. */
    method Snapshot(cache: SnapshotCache) returns (r: Sample, ghost attempts: nat)
      modifies cache
      ensures cache.owner == this && cache.sample == r
      ensures sequence % 2 == 0 ==> r == View().Published()
      ensures attempts == if sequence % 2 == 0 then 1 else 8
      ensures sequence % 2 != 0 ==> r == if old(cache.owner) == this then old(cache.sample) else DEFAULT_SAMPLE
    {
      if cache.owner != this {
        cache.owner := this;
        cache.sample := DEFAULT_SAMPLE;
      }
      var attempt := 0;
      attempts := 0;
      while attempt < MAX_ATTEMPTS
        invariant cache.owner == this
        invariant cache.sample == if old(cache.owner) == this then old(cache.sample) else DEFAULT_SAMPLE
        invariant attempt <= MAX_ATTEMPTS && attempts == attempt && (attempt > 0 ==> sequence % 2 != 0)
      {
        attempt, attempts := attempt + 1, attempts + 1;
        var before := sequence;
        if before % 2 != 0 { continue; }
        var result := Sample(positionMs, state, discontinuityId);
        var after := sequence;
        if before == after && after % 2 == 0 {
          cache.sample := result;
          r := result;
          return;
        }
      }
      r := cache.sample;
    }
  }

  lemma PublishKeepsClockOk(c: Clock, sample: Sample)
    requires ClockOk(c) && c.writer == Idle && SubmitError(c, sample).None?
    ensures ClockOk(Publish(c, sample))
  {
    SubmitKeepsClockOk(c, sample);
    var d := BeginSubmitStep(c, sample);
    WriterKeepsClockOk(d);
    WriterKeepsClockOk(WriterNext(d));
    WriterKeepsClockOk(WriterNext(WriterNext(d)));
    WriterKeepsClockOk(WriterNext(WriterNext(WriterNext(d))));
  }
}
