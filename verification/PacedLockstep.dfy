// The two-seat lockstep pacer: which acknowledgements it lets through, and
// the ordering and real-time guarantees that follow over every run.
module PacedLockstep {
  import opened Geometry
  import opened Varint

  const PERIOD: real := 1.0 / 30.0
  const STALL_TIMEOUT: real := 10.0
  const MAX_TICK: nat := 27900
  const U32: nat := 0x1_0000_0000

  type Seat = n: nat | n < 2

  // ---------------------------------------------------------------- messages

  datatype Message = MatchStart | Snapshot(tick: nat) | Events(tick: nat) | MatchOver | Unpaced | Garbled

  datatype AckRequest = NoAck | AckOf(tick: nat) | GarbledAck

  /** What a server payload says to the pacer; anything after the tick is not its business. */
  ghost function ServerMessage(payload: seq<Byte>): Message {
    match ReadAt(payload, 0, U32)
    case Malformed => Garbled
    case Read(kind, offset) =>
      if kind == 2 then MatchStart
      else if kind == 7 then MatchOver
      else if kind != 3 && kind != 4 then Unpaced
      else match ReadAt(payload, offset, U32)
        case Malformed => Garbled
        case Read(tick, _) => if kind == 3 then Snapshot(tick) else Events(tick)
  }

  ghost function ClientAck(payload: seq<Byte>): AckRequest {
    match ReadAt(payload, 0, U32)
    case Malformed => GarbledAck
    case Read(kind, offset) =>
      if kind != 4 then NoAck
      else match ReadAt(payload, offset, U32)
        case Malformed => GarbledAck
        case Read(tick, end) => if end == |payload| then AckOf(tick) else GarbledAck
  }

  // ---------------------------------------------------------------- one step

  datatype Clock = Clock(started: seq<bool>, finished: seq<bool>, snapshots: seq<nat>, completed: seq<nat>,
                         acked: seq<nat>, tick: nat, due: Option<real>, progress: Option<real>)

  const IDLE := Clock([false, false], [false, false], [0, 0], [0, 0], [0, 0], 0, None, None)

  predicate TwoSeats(c: Clock) {
    |c.started| == |c.finished| == |c.snapshots| == |c.completed| == |c.acked| == 2
  }

  datatype Step = Accepted(clock: Clock) | Held | Refused

  function AfterSnapshot(c: Clock, seat: Seat, tick: nat, now: real): Step
    requires TwoSeats(c)
  {
    if !(1 <= tick <= MAX_TICK) || tick != c.snapshots[seat] + 1 then Refused
    else if c.snapshots[seat] != c.completed[seat] then Refused
    else if tick == c.tick + 1 then
      if c.acked != [c.tick, c.tick] then Refused
      else Accepted(c.(tick := tick, progress := Some(now), due := Some(now + PERIOD),
                       snapshots := c.snapshots[seat := tick]))
    else if tick != c.tick then Refused
    else Accepted(c.(snapshots := c.snapshots[seat := tick]))
  }

  function AfterServer(c: Clock, seat: Seat, message: Message, now: real): (step: Step)
    requires TwoSeats(c)
    ensures step.Accepted? ==> TwoSeats(step.clock)
  {
    match message
    case Garbled => Refused
    case Unpaced => Accepted(c)
    case MatchOver => Accepted(c.(finished := c.finished[seat := true]))
    case MatchStart =>
      if c.started[seat] then Refused
      else Accepted(c.(started := c.started[seat := true],
                       progress := if c.progress.None? then Some(now) else c.progress))
    case Snapshot(tick) => if !c.started[seat] then Refused else AfterSnapshot(c, seat, tick, now)
    case Events(tick) =>
      if !c.started[seat] || tick != c.snapshots[seat] || tick != c.completed[seat] + 1 then Refused
      else Accepted(c.(completed := c.completed[seat := tick]))
  }

  function AfterAck(c: Clock, seat: Seat, request: AckRequest, now: real): (step: Step)
    requires TwoSeats(c)
    ensures step.Accepted? ==> TwoSeats(step.clock)
  {
    match request
    case NoAck => Accepted(c)
    case GarbledAck => Refused
    case AckOf(tick) =>
      if !c.started[seat] || c.snapshots[seat] == 0 then Refused
      else if tick != c.snapshots[seat] then Refused
      else if tick <= c.acked[seat] || tick != c.acked[seat] + 1 then Refused
      else if c.completed != [tick, tick] || c.due.None? || now < c.due.value then Held
      else Accepted(c.(acked := c.acked[seat := tick]))
  }

  predicate Stalled(c: Clock, now: real) {
    c.progress.Some? && c.finished != [true, true] && now - c.progress.value >= STALL_TIMEOUT
  }

  // ---------------------------------------------------------------- the pacer

  class PacedClock {
    var started: seq<bool>
    var finished: seq<bool>
    var snapshots: seq<nat>
    var completed: seq<nat>
    var acked: seq<nat>
    var tick: nat
    var due: Option<real>
    var progress: Option<real>

    ghost function View(): Clock
      reads this
    {
      Clock(started, finished, snapshots, completed, acked, tick, due, progress)
    }

    constructor ()
      ensures View() == IDLE
    {
      started, finished := [false, false], [false, false];
      snapshots, completed, acked := [0, 0], [0, 0], [0, 0];
      tick, due, progress := 0, None, None;
    }

    /** Takes one server frame; a refused frame leaves the clock as it was. */
    method ObserveServer(seat: Seat, payload: seq<Byte>, now: real) returns (accepted: bool)
      requires TwoSeats(View())
      modifies this
      ensures TwoSeats(View())
      ensures var step := AfterServer(old(View()), seat, ServerMessage(payload), now);
        if accepted then step == Accepted(View()) else step == Refused && View() == old(View())
    {
      hide ReadsCanonical, Holds;
      var header := ReadU32(payload, 0);
      ReadingIsUnique(payload, 0, U32, header, ReadAt(payload, 0, U32));
      if header.Malformed? {
        return false;
      }
      var kind := header.value;
      if kind == 2 {
        if started[seat] {
          return false;
        }
        started := started[seat := true];
        if progress == None {
          progress := Some(now);
        }
      } else if kind == 3 || kind == 4 {
        var body := ReadU32(payload, header.next);
        ReadingIsUnique(payload, header.next, U32, body, ReadAt(payload, header.next, U32));
        if body.Malformed? || !started[seat] {
          return false;
        }
        if kind == 3 {
          accepted := ObserveSnapshot(seat, body.value, now);
          return;
        }
        if body.value != snapshots[seat] || body.value != completed[seat] + 1 {
          return false;
        }
        completed := completed[seat := body.value];
      } else if kind == 7 {
        finished := finished[seat := true];
      }
      accepted := true;
    }

    method ObserveSnapshot(seat: Seat, tick: nat, now: real) returns (accepted: bool)
      requires TwoSeats(View())
      modifies this
      ensures TwoSeats(View())
      ensures var step := AfterSnapshot(old(View()), seat, tick, now);
        if accepted then step == Accepted(View()) else step == Refused && View() == old(View())
    {
      if !(1 <= tick <= MAX_TICK) || tick != snapshots[seat] + 1 {
        return false;
      }
      if snapshots[seat] != completed[seat] {
        return false;
      }
      if tick == this.tick + 1 {
        if acked != [this.tick, this.tick] {
          return false;
        }
        this.tick := tick;
        progress := Some(now);
        // The deadline restarts from the actual tick, so a late client gains no catch-up credit.
        due := Some(now + PERIOD);
      } else if tick != this.tick {
        return false;
      }
      snapshots := snapshots[seat := tick];
      accepted := true;
    }

    method CheckDeadline(now: real) returns (stalled: bool)
      ensures stalled == Stalled(View(), now)
    {
      stalled := progress.Some? && finished != [true, true] && now - progress.value >= STALL_TIMEOUT;
    }

    /** Decides on one client frame: pass it on, hold it back, or refuse it. */
    method AllowAck(seat: Seat, payload: seq<Byte>, now: real) returns (step: Step)
      requires TwoSeats(View())
      modifies this`acked
      ensures TwoSeats(View())
      ensures step == AfterAck(old(View()), seat, ClientAck(payload), now)
      ensures View() == if step.Accepted? then step.clock else old(View())
    {
      hide ReadsCanonical, Holds;
      var header := ReadU32(payload, 0);
      ReadingIsUnique(payload, 0, U32, header, ReadAt(payload, 0, U32));
      if header.Malformed? {
        return Refused;
      }
      if header.value != 4 {
        return Accepted(Clock(started, finished, snapshots, completed, acked, tick, due, progress));
      }
      var body := ReadU32(payload, header.next);
      ReadingIsUnique(payload, header.next, U32, body, ReadAt(payload, header.next, U32));
      if body.Malformed? || body.next != |payload| {
        return Refused;
      }
      var wanted := body.value;
      if !started[seat] || snapshots[seat] == 0 {
        return Refused;
      }
      if wanted != snapshots[seat] || wanted <= acked[seat] || wanted != acked[seat] + 1 {
        return Refused;
      }
      if completed != [wanted, wanted] || due.None? || now < due.value {
        return Held;
      }
      acked := acked[seat := wanted];
      step := Accepted(Clock(started, finished, snapshots, completed, acked, tick, due, progress));
    }
  }

  // ---------------------------------------------------------------- runs

  datatype Frame =
    | FromServer(seat: Seat, message: Message, now: real)
    | FromClient(seat: Seat, request: AckRequest, now: real)

  function Next(c: Clock, frame: Frame): Step
    requires TwoSeats(c)
  {
    match frame
    case FromServer(seat, message, now) => AfterServer(c, seat, message, now)
    case FromClient(seat, request, now) => AfterAck(c, seat, request, now)
  }

  /** A run in progress: the arrival time of every shared tick, and the frames that passed. */
  datatype Progress = Progress(clock: Clock, arrivals: seq<real>, passed: seq<Frame>)

  /** State after the frames, or None once a frame was refused. */
  ghost function Run(frames: seq<Frame>): (r: Option<Progress>)
    ensures r.Some? ==> TwoSeats(r.value.clock)
  {
    if frames == [] then Some(Progress(IDLE, [], []))
    else match Run(frames[..|frames| - 1])
      case None => None
      case Some(p) =>
        var last := frames[|frames| - 1];
        match Next(p.clock, last)
        case Refused => None
        case Held => Some(p)
        case Accepted(clock) =>
          Some(Progress(clock, if clock.tick > p.clock.tick then p.arrivals + [last.now] else p.arrivals, p.passed + [last]))
  }

  predicate MonotoneTime(frames: seq<Frame>) {
    forall i, j :: 0 <= i <= j < |frames| ==> frames[i].now <= frames[j].now
  }

  /** Ordering between snapshots, completions and acknowledgements of the two seats. */
  ghost predicate InLockstep(c: Clock) {
    && TwoSeats(c)
    && c.tick <= MAX_TICK
    && (forall s: Seat :: c.acked[s] <= c.completed[s] <= c.snapshots[s] <= c.completed[s] + 1)
    && (forall s: Seat :: c.snapshots[s] <= c.tick <= c.snapshots[s] + 1)
    && (forall s: Seat :: c.acked[s] <= c.tick <= c.acked[s] + 1)
    && (forall s: Seat, other: Seat :: c.acked[s] <= c.completed[other])
    && (forall s: Seat :: c.snapshots[s] > 0 ==> c.started[s])
    && (c.tick > 0 <==> c.due.Some?)
  }

  /** The deadline hangs on the current tick's arrival, and an acknowledged tick is past its deadline. */
  ghost predicate OnTime(p: Progress, latest: real) {
    && TwoSeats(p.clock)
    && |p.arrivals| == p.clock.tick
    && (p.arrivals != [] ==> p.clock.due == Some(p.arrivals[|p.arrivals| - 1] + PERIOD)
                             && p.arrivals[|p.arrivals| - 1] <= latest)
    && (forall s: Seat :: p.clock.tick > 0 && p.clock.acked[s] == p.clock.tick ==>
          p.clock.due.Some? && p.clock.due.value <= latest)
    && (forall k :: 0 < k < |p.arrivals| ==> p.arrivals[k - 1] + PERIOD <= p.arrivals[k])
  }

  lemma SnapshotKeepsLockstep(c: Clock, seat: Seat, tick: nat, now: real)
    requires InLockstep(c) && c.started[seat] && AfterSnapshot(c, seat, tick, now).Accepted?
    ensures InLockstep(AfterSnapshot(c, seat, tick, now).clock)
  {
    var next := AfterSnapshot(c, seat, tick, now).clock;
    var other: Seat := 1 - seat;
    assert next.snapshots[other] == c.snapshots[other] && next.snapshots[seat] == tick;
    assert next.tick == c.tick + 1 ==> c.acked[seat] == c.acked[other] == c.tick;
  }

  lemma EventsKeepLockstep(c: Clock, seat: Seat, tick: nat, now: real)
    requires InLockstep(c) && AfterServer(c, seat, Events(tick), now).Accepted?
    ensures InLockstep(AfterServer(c, seat, Events(tick), now).clock)
  {
    var next := AfterServer(c, seat, Events(tick), now).clock;
    var other: Seat := 1 - seat;
    assert next.completed[other] == c.completed[other] && next.completed[seat] == tick;
  }

  lemma AckKeepsLockstep(c: Clock, seat: Seat, request: AckRequest, now: real)
    requires InLockstep(c) && AfterAck(c, seat, request, now).Accepted?
    ensures InLockstep(AfterAck(c, seat, request, now).clock)
  {
    if request.AckOf? {
      var next := AfterAck(c, seat, request, now).clock;
      var other: Seat := 1 - seat;
      assert next.acked[other] == c.acked[other] && next.acked[seat] == request.tick;
      assert c.completed[seat] == c.completed[other] == request.tick;
    }
  }

  lemma StepKeepsLockstep(c: Clock, frame: Frame)
    requires InLockstep(c) && Next(c, frame).Accepted?
    ensures InLockstep(Next(c, frame).clock)
  {
    match frame
    case FromClient(seat, request, now) => AckKeepsLockstep(c, seat, request, now);
    case FromServer(seat, message, now) =>
      match message
      case Snapshot(tick) => SnapshotKeepsLockstep(c, seat, tick, now);
      case Events(tick) => EventsKeepLockstep(c, seat, tick, now);
      case _ =>
  }

  lemma StepKeepsTime(p: Progress, latest: real, frame: Frame)
    requires InLockstep(p.clock) && OnTime(p, latest) && latest <= frame.now
    ensures OnTime(p, frame.now)
    ensures Next(p.clock, frame).Accepted? ==>
      var clock := Next(p.clock, frame).clock;
      OnTime(Progress(clock, if clock.tick > p.clock.tick then p.arrivals + [frame.now] else p.arrivals, p.passed + [frame]),
             frame.now)
  {
  }

  /** Every run that was not aborted is in lockstep and on time. */
  lemma {:induction false} RunIsPaced(frames: seq<Frame>)
    requires Run(frames).Some? && MonotoneTime(frames)
    ensures InLockstep(Run(frames).value.clock)
    ensures frames != [] ==> OnTime(Run(frames).value, frames[|frames| - 1].now)
    ensures frames == [] ==> Run(frames).value == Progress(IDLE, [], [])
    decreases |frames|
  {
    if frames != [] {
      var shorter, last := frames[..|frames| - 1], frames[|frames| - 1];
      RunIsPaced(shorter);
      var p := Run(shorter).value;
      if Next(p.clock, last).Accepted? {
        StepKeepsLockstep(p.clock, last);
      }
      if shorter == [] {
        StepKeepsTime(p, last.now, last);
      } else {
        assert frames[|shorter| - 1].now <= frames[|shorter|].now;
        StepKeepsTime(p, shorter[|shorter| - 1].now, last);
      }
    }
  }

  /** Tick `k + 1` arrives at least `k` periods after tick 1. */
  lemma {:induction false} ArrivalsAreSpaced(p: Progress, latest: real, k: nat)
    requires OnTime(p, latest) && k < |p.arrivals|
    ensures p.arrivals[k] >= p.arrivals[0] + (k as real) * PERIOD
  {
    if k > 0 {
      ArrivalsAreSpaced(p, latest, k - 1);
      assert p.arrivals[k - 1] + PERIOD <= p.arrivals[k];
    }
  }

  /** Over every run the two seats stay within one tick, and no tick comes before its period. */
  lemma SeatsStayTogether(frames: seq<Frame>, k: nat)
    requires Run(frames).Some? && MonotoneTime(frames)
    ensures var clock := Run(frames).value.clock;
      && clock.snapshots[0] <= clock.snapshots[1] + 1 && clock.snapshots[1] <= clock.snapshots[0] + 1
      && (forall s: Seat :: clock.acked[s] <= clock.completed[s] <= clock.snapshots[s] <= clock.completed[s] + 1)
    ensures var arrivals := Run(frames).value.arrivals;
      k < |arrivals| ==> arrivals[k] >= arrivals[0] + (k as real) * PERIOD
  {
    RunIsPaced(frames);
    if k < |Run(frames).value.arrivals| {
      ArrivalsAreSpaced(Run(frames).value, frames[|frames| - 1].now, k);
    }
  }

  lemma AckIsDue(p: Progress, latest: real, seat: Seat, tick: nat, now: real)
    requires InLockstep(p.clock) && OnTime(p, latest) && latest <= now
    ensures AfterAck(p.clock, seat, AckOf(tick), now).Accepted? <==>
      && p.clock.tick == tick == p.clock.acked[seat] + 1
      && p.clock.completed == [tick, tick]
      && 0 < tick <= |p.arrivals| && now >= p.arrivals[tick - 1] + PERIOD
  {
    var c := p.clock;
    if c.completed == [tick, tick] && tick > 0 {
      assert c.completed[seat] == tick && c.snapshots[seat] >= tick;
    }
  }

  /**
   * A run lets an acknowledgement through exactly when it is the seat's next
   * one for the current tick, both seats completed that tick, and a whole
   * period has passed since it arrived.
   */
  lemma AckPassesExactlyWhenDue(frames: seq<Frame>, seat: Seat, tick: nat, now: real)
    requires Run(frames).Some? && MonotoneTime(frames)
    requires frames == [] || frames[|frames| - 1].now <= now
    ensures var p := Run(frames).value;
      Next(p.clock, FromClient(seat, AckOf(tick), now)).Accepted? <==>
        && p.clock.tick == tick == p.clock.acked[seat] + 1
        && p.clock.completed == [tick, tick]
        && 0 < tick <= |p.arrivals| && now >= p.arrivals[tick - 1] + PERIOD
  {
    RunIsPaced(frames);
    hide InLockstep, OnTime, AfterAck;
    AckIsDue(Run(frames).value, if frames == [] then now else frames[|frames| - 1].now, seat, tick, now);
  }

  // ---------------------------------------------------------------- the literal rule over the frames that passed

  /** What a passed frame counts as for its seat. */
  datatype Mark = Began | Shown | Done | Acknowledged | Over

  predicate Marks(frame: Frame, seat: Seat, mark: Mark) {
    && frame.seat == seat
    && match frame
       case FromClient(_, request, _) => mark == Acknowledged && request.AckOf?
       case FromServer(_, message, _) =>
         match mark
         case Began => message.MatchStart?
         case Shown => message.Snapshot?
         case Done => message.Events?
         case Over => message.MatchOver?
         case Acknowledged => false
  }

  ghost function Count(passed: seq<Frame>, seat: Seat, mark: Mark): nat {
    if passed == [] then 0
    else Count(passed[..|passed| - 1], seat, mark) + if Marks(passed[|passed| - 1], seat, mark) then 1 else 0
  }

  /** Seats and ticks of the clock are counts of the frames that passed. */
  ghost predicate Counted(p: Progress) {
    && TwoSeats(p.clock)
    && forall s: Seat ::
      && (p.clock.started[s] <==> Count(p.passed, s, Began) > 0)
      && p.clock.snapshots[s] == Count(p.passed, s, Shown)
      && p.clock.completed[s] == Count(p.passed, s, Done)
      && p.clock.acked[s] == Count(p.passed, s, Acknowledged)
      && (p.clock.finished[s] <==> Count(p.passed, s, Over) > 0)
  }

  lemma CountGrows(passed: seq<Frame>, frame: Frame, seat: Seat, mark: Mark)
    ensures Count(passed + [frame], seat, mark) == Count(passed, seat, mark) + if Marks(frame, seat, mark) then 1 else 0
  {
    assert (passed + [frame])[..|passed|] == passed;
  }

  /** When the first passed MatchStart came. */
  ghost function FirstBegan(passed: seq<Frame>): Option<real> {
    if passed == [] then None
    else
      var last := passed[|passed| - 1];
      var before := FirstBegan(passed[..|passed| - 1]);
      if before.None? && Marks(last, last.seat, Began) then Some(last.now) else before
  }

  /** The stall timer runs from the last shared tick, or before the first one from the first MatchStart. */
  ghost predicate Timed(p: Progress) {
    p.clock.progress == if p.arrivals == [] then FirstBegan(p.passed) else Some(p.arrivals[|p.arrivals| - 1])
  }

  lemma {:induction false} RunIsTimed(frames: seq<Frame>)
    requires Run(frames).Some? && MonotoneTime(frames)
    ensures Timed(Run(frames).value)
    decreases |frames|
  {
    if frames != [] {
      var shorter, last := frames[..|frames| - 1], frames[|frames| - 1];
      RunIsTimed(shorter);
      RunIsPaced(shorter);
      var p := Run(shorter).value;
      assert (p.passed + [last])[..|p.passed|] == p.passed;
      if Next(p.clock, last).Accepted? {
        StepIsTimed(p, last);
      }
    }
  }

  lemma StepIsTimed(p: Progress, frame: Frame)
    requires Timed(p) && InLockstep(p.clock) && |p.arrivals| == p.clock.tick && Next(p.clock, frame).Accepted?
    ensures var clock := Next(p.clock, frame).clock;
      Timed(Progress(clock, if clock.tick > p.clock.tick then p.arrivals + [frame.now] else p.arrivals, p.passed + [frame]))
  {
    assert (p.passed + [frame])[..|p.passed|] == p.passed;
  }

  /** A match is stalled exactly when it is not over for both seats and ten seconds brought no new tick. */
  lemma StallsExactly(frames: seq<Frame>, now: real)
    requires Run(frames).Some? && MonotoneTime(frames)
    ensures var p := Run(frames).value;
      Stalled(p.clock, now) <==>
        && (Count(p.passed, 0, Over) == 0 || Count(p.passed, 1, Over) == 0)
        && (if p.arrivals == [] then FirstBegan(p.passed).Some? && now - FirstBegan(p.passed).value >= 10.0
            else now - p.arrivals[|p.arrivals| - 1] >= 10.0)
  {
    hide Run, Count, FirstBegan;
    RunIsTimed(frames);
    RunIsCounted(frames);
    var c := Run(frames).value.clock;
    assert c.finished == [c.finished[0], c.finished[1]];
  }

  /** A frame that passes is counted, and changes nothing else. */
  lemma StepKeepsCounts(p: Progress, frame: Frame)
    requires Counted(p) && Next(p.clock, frame).Accepted?
    ensures Counted(p.(clock := Next(p.clock, frame).clock, passed := p.passed + [frame]))
  {
    hide Count;
    forall s: Seat, mark: Mark
      ensures Count(p.passed + [frame], s, mark) == Count(p.passed, s, mark) + if Marks(frame, s, mark) then 1 else 0
    {
      CountGrows(p.passed, frame, s, mark);
    }
  }

  lemma {:induction false} RunIsCounted(frames: seq<Frame>)
    requires Run(frames).Some?
    ensures Counted(Run(frames).value)
    decreases |frames|
  {
    hide Counted, Next;
    if frames == [] {
      NothingCounted();
    } else {
      var shorter, last := frames[..|frames| - 1], frames[|frames| - 1];
      RunIsCounted(shorter);
      var p := Run(shorter).value;
      if Next(p.clock, last).Accepted? {
        StepKeepsCounts(p, last);
        ArrivalsAreNotCounted(p.(clock := Next(p.clock, last).clock, passed := p.passed + [last]), Run(frames).value);
      }
    }
  }

  lemma NothingCounted()
    ensures Counted(Progress(IDLE, [], []))
  {
  }

  lemma ArrivalsAreNotCounted(p: Progress, q: Progress)
    requires Counted(p) && p.clock == q.clock && p.passed == q.passed
    ensures Counted(q)
  {
  }

  /**
   * When a frame aborts the match, in terms of what passed before: a server
   * frame out of the order MatchStart, then Snapshot and Events alternating by
   * tick, or a snapshot that opens a tick before both seats acknowledged the
   * last one; an acknowledgement of anything but the seat's current snapshot,
   * each once.
   */
  ghost predicate Aborts(passed: seq<Frame>, frame: Frame) {
    var s := frame.seat;
    var began, shown, done := Count(passed, s, Began), Count(passed, s, Shown), Count(passed, s, Done);
    match frame
    case FromClient(_, request, _) =>
      (match request
       case NoAck => false
       case GarbledAck => true
       case AckOf(tick) => began == 0 || shown == 0 || tick != shown || tick != Count(passed, s, Acknowledged) + 1)
    case FromServer(_, message, _) =>
      match message
      case Garbled => true
      case Unpaced => false
      case MatchOver => false
      case MatchStart => began > 0
      case Events(tick) => began == 0 || tick != shown || tick != done + 1
      case Snapshot(tick) =>
        || began == 0 || tick != shown + 1 || shown != done || tick > 27900
        || (tick > Count(passed, 1 - s, Shown)
            && !(Count(passed, 0, Acknowledged) == Count(passed, 1, Acknowledged) == tick - 1))
  }

  /** Over every run a frame is refused exactly when the rule aborts. */
  lemma RefusedExactly(frames: seq<Frame>, frame: Frame)
    requires Run(frames).Some? && MonotoneTime(frames)
    ensures var p := Run(frames).value;
      Next(p.clock, frame).Refused? <==> Aborts(p.passed, frame)
  {
    hide Run, Count;
    RunIsPaced(frames);
    RunIsCounted(frames);
    var c := Run(frames).value.clock;
    var other: Seat := 1 - frame.seat;
    assert c.acked == [c.acked[0], c.acked[1]];
    assert c.snapshots[frame.seat] <= c.tick && c.snapshots[other] <= c.tick <= c.snapshots[other] + 1;
  }

  /**
   * The seat's next acknowledgement for its current snapshot is never refused:
   * it passes when both seats completed the tick and a period is over since
   * the tick arrived, and is held back before.
   */
  lemma DueAckIsNeverRefused(frames: seq<Frame>, seat: Seat, tick: nat, now: real)
    requires Run(frames).Some? && MonotoneTime(frames)
    requires frames == [] || frames[|frames| - 1].now <= now
    requires !Aborts(Run(frames).value.passed, FromClient(seat, AckOf(tick), now))
    ensures var p := Run(frames).value;
      && 0 < tick <= |p.arrivals|
      && Next(p.clock, FromClient(seat, AckOf(tick), now)) ==
         if Count(p.passed, 0, Done) == Count(p.passed, 1, Done) == tick && now >= p.arrivals[tick - 1] + 1.0 / 30.0
         then Accepted(p.clock.(acked := p.clock.acked[seat := tick])) else Held
  {
    hide Run, Count;
    RunIsPaced(frames);
    RunIsCounted(frames);
    var p := Run(frames).value;
    RefusedExactly(frames, FromClient(seat, AckOf(tick), now));
    var other: Seat := 1 - seat;
    assert p.clock.completed == [p.clock.completed[0], p.clock.completed[1]];
    assert p.clock.acked[seat] + 1 == tick == p.clock.snapshots[seat] <= p.clock.tick;
    assert p.clock.tick <= p.clock.acked[seat] + 1;
  }

  /** A held acknowledgement passes when it is retried after the period, once both seats completed the tick. */
  lemma HeldAckPassesLater(frames: seq<Frame>, seat: Seat, tick: nat, now: real, later: real)
    requires Run(frames).Some? && MonotoneTime(frames) && now <= later
    requires frames == [] || frames[|frames| - 1].now <= now
    requires Next(Run(frames).value.clock, FromClient(seat, AckOf(tick), now)).Held?
    ensures var p := Run(frames).value;
      && 0 < tick <= |p.arrivals|
      && Run(frames + [FromClient(seat, AckOf(tick), now)]) == Some(p)
      && (Count(p.passed, 0, Done) == Count(p.passed, 1, Done) == tick && later >= p.arrivals[tick - 1] + 1.0 / 30.0 ==>
            Next(p.clock, FromClient(seat, AckOf(tick), later)).Accepted?)
  {
    hide Aborts, Count, AfterAck;
    var held := FromClient(seat, AckOf(tick), now);
    assert (frames + [held])[..|frames|] == frames;
    RefusedExactly(frames, held);
    SameVerdict(Run(frames).value.passed, seat, tick, now, later);
    DueAckIsNeverRefused(frames, seat, tick, now);
    DueAckIsNeverRefused(frames, seat, tick, later);
  }

  lemma SameVerdict(passed: seq<Frame>, seat: Seat, tick: nat, now: real, later: real)
    ensures Aborts(passed, FromClient(seat, AckOf(tick), now)) <==> Aborts(passed, FromClient(seat, AckOf(tick), later))
  {
  }

  // ---------------------------------------------------------------- the payloads of the pacer

  /** A number below 128 is encoded by itself. */
  lemma SmallKind(kind: nat, rest: seq<Byte>)
    requires kind < 128
    ensures ReadAt([kind] + rest, 0, U32) == Read(kind, 1)
  {
    hide ReadsCanonical;
    assert Encode(kind) == [kind];
    ValueIsRead([], kind, rest);
    assert [] + Encode(kind) + rest == [kind] + rest;
  }

  lemma ValueIsRead(before: seq<Byte>, value: nat, after: seq<Byte>)
    requires value < U32
    ensures ReadAt(before + Encode(value) + after, |before|, U32) == Read(value, |before| + |Encode(value)|)
  {
    EncodedIsHeld(value, before, after);
    ReadingIsUnique(before + Encode(value) + after, |before|, U32,
                    ReadAt(before + Encode(value) + after, |before|, U32), Read(value, |before| + |Encode(value)|));
  }

  /** Server payloads by their kind byte; the tick follows it. */
  lemma ServerKinds(tick: nat, rest: seq<Byte>)
    requires tick < U32
    ensures ServerMessage([2] + rest) == MatchStart && ServerMessage([7] + rest) == MatchOver
    ensures ServerMessage([3] + (Encode(tick) + rest)) == Snapshot(tick)
    ensures ServerMessage([4] + (Encode(tick) + rest)) == Events(tick)
    ensures ServerMessage([]) == Garbled
  {
    hide ReadAt, Encode;
    SmallKind(2, rest);
    SmallKind(7, rest);
    SmallKind(3, Encode(tick) + rest);
    SmallKind(4, Encode(tick) + rest);
    TickAfterKind(3, tick, rest);
    TickAfterKind(4, tick, rest);
    NothingIsRead();
  }

  /** An acknowledgement ends with its tick. */
  lemma ClientKinds(tick: nat, rest: seq<Byte>)
    requires tick < U32
    ensures ClientAck([4] + (Encode(tick) + rest)) == if rest == [] then AckOf(tick) else GarbledAck
    ensures ClientAck([]) == GarbledAck
  {
    hide ReadAt, Encode;
    SmallKind(4, Encode(tick) + rest);
    TickAfterKind(4, tick, rest);
    NothingIsRead();
  }

  lemma TickAfterKind(kind: nat, tick: nat, rest: seq<Byte>)
    requires kind < 128 && tick < U32
    ensures ReadAt([kind] + (Encode(tick) + rest), 1, U32) == Read(tick, 1 + |Encode(tick)|)
  {
    hide ReadAt, Encode;
    ValueIsRead([kind], tick, rest);
    assert [kind] + Encode(tick) + rest == [kind] + (Encode(tick) + rest);
  }

  lemma NothingIsRead()
    ensures ReadAt([], 0, U32) == Malformed
  {
    assert forall value: nat :: |Encode(value)| > 0;
  }

  lemma OtherKindsAreUnpaced(kind: nat, rest: seq<Byte>)
    requires kind < 128
    ensures kind !in {2, 3, 4, 7} ==> ServerMessage([kind] + rest) == Unpaced
    ensures kind != 4 ==> ClientAck([kind] + rest) == NoAck
  {
    SmallKind(kind, rest);
  }
}
