// One seat's bounded framing relay between a client and the server, and the
// ordered admission of the two seats.
module Relay {
  import opened Geometry
  import opened Varint
  import opened PacedLockstep

  const FRAME_LIMIT: nat := 4 * 1024 * 1024
  const QUEUE_LIMIT: nat := FRAME_LIMIT + 4
  const READ_CHUNK: nat := 65536
  const FRAME_COUNT_LIMIT: nat := 1_000_000
  const FIRST_FRAME_LIMIT: nat := 64
  const SERVER_BYTE_LIMIT: nat := 2 * 1024 * 1024 * 1024
  const CLIENT_BYTE_LIMIT: nat := 64 * 1024 * 1024
  /** Turns of the frame loop in one call. */
  const BATCH_LIMIT: nat := READ_CHUNK / 5 + 2

  // ---------------------------------------------------------------- frames

  /** Little-endian length in the first four bytes. */
  function FrameLength(bytes: seq<Byte>): nat
    requires |bytes| >= 4
  {
    (bytes[0] as nat) + 0x100 * (bytes[1] as nat) + 0x1_0000 * (bytes[2] as nat) + 0x100_0000 * (bytes[3] as nat)
  }

  /** The lowest byte of a length comes first. */
  lemma HeaderHoldsLength(length: nat, payload: seq<Byte>)
    requires length < 0x1_0000_0000
    ensures FrameLength([length % 256, length / 256 % 256, length / 65536 % 256, length / 16777216] + payload) == length
  {
    var low, middle := length / 256, length / 65536;
    assert middle == low / 256 && length / 16777216 == middle / 256;
  }

  /** A header and exactly the payload it announces. */
  ghost predicate WholeFrame(frame: seq<Byte>) {
    |frame| >= 5 && FrameLength(frame) <= FRAME_LIMIT && |frame| == 4 + FrameLength(frame)
  }

  ghost predicate WholeFrames(frames: seq<seq<Byte>>) {
    forall i :: 0 <= i < |frames| ==> WholeFrame(frames[i])
  }

  ghost function Flatten(frames: seq<seq<Byte>>): seq<Byte> {
    if frames == [] then [] else Flatten(frames[..|frames| - 1]) + frames[|frames| - 1]
  }

  /** The start of a frame whose rest has not arrived. */
  ghost predicate Incomplete(bytes: seq<Byte>) {
    |bytes| < 4 || (1 <= FrameLength(bytes) <= FRAME_LIMIT && |bytes| < 4 + FrameLength(bytes))
  }

  lemma OneMoreFrame(frames: seq<seq<Byte>>, frame: seq<Byte>)
    requires WholeFrames(frames) && WholeFrame(frame)
    ensures WholeFrames(frames + [frame])
  {
    hide WholeFrame;
  }

  lemma FlattenGrows(frames: seq<seq<Byte>>, frame: seq<Byte>)
    ensures Flatten(frames + [frame]) == Flatten(frames) + frame
  {
    assert (frames + [frame])[..|frames|] == frames;
  }

  lemma {:induction false} FlattenConcat(a: seq<seq<Byte>>, b: seq<seq<Byte>>)
    ensures Flatten(a + b) == Flatten(a) + Flatten(b)
    decreases |b|
  {
    if b == [] {
      assert a + b == a;
    } else {
      FlattenConcat(a, b[..|b| - 1]);
      assert (a + b)[..|a + b| - 1] == a + b[..|b| - 1];
    }
  }

  /** While open, bytes written and queued are the frames in order; once closed, what was written is a prefix. */
  ghost predicate Delivered(open: bool, sent: seq<Byte>, queued: seq<Byte>, frames: seq<seq<Byte>>) {
    if open then sent + queued == Flatten(frames) else queued == [] && sent <= Flatten(frames)
  }

  lemma DeliverNext(open: bool, sent: seq<Byte>, queued: seq<Byte>, frames: seq<seq<Byte>>, frame: seq<Byte>)
    requires Delivered(open, sent, queued, frames)
    ensures Delivered(open, sent, if open then queued + frame else queued, frames + [frame])
  {
    FlattenGrows(frames, frame);
    assert sent + (queued + frame) == sent + queued + frame;
  }

  lemma DeliverClose(open: bool, sent: seq<Byte>, queued: seq<Byte>, frames: seq<seq<Byte>>)
    requires Delivered(open, sent, queued, frames)
    ensures Delivered(false, sent, [], frames)
  {
  }

  lemma DeliverWritten(open: bool, sent: seq<Byte>, queued: seq<Byte>, frames: seq<seq<Byte>>, count: nat)
    requires Delivered(open, sent, queued, frames) && count <= |queued|
    ensures Delivered(open, sent + queued[..count], queued[count..], frames)
  {
    assert sent + queued[..count] + queued[count..] == sent + queued;
  }

  // ---------------------------------------------------------------- payload checks

  /** Handshake and terminal state of one seat. */
  datatype Flags = Flags(hello: bool, welcomed: bool, matchOver: bool)

  /** The payload checks of the protocol, kept abstract. */
  datatype Checks = Checks(hello: seq<Byte> -> bool, welcome: seq<Byte> -> bool,
                           clientMessage: seq<Byte> -> bool, serverMessage: seq<Byte> -> bool,
                           endsMatch: seq<Byte> -> bool)

  type Direction = n: nat | n < 2
  const FROM_CLIENT: Direction := 0
  const FROM_SERVER: Direction := 1

  /** Flags after one payload, or None when the payload is refused. */
  function Observed(checks: Checks, flags: Flags, direction: Direction, payload: seq<Byte>): (r: Option<Flags>)
    ensures r.Some? && flags.welcomed ==> r.value.welcomed
    ensures r.Some? && (flags.welcomed ==> flags.hello) ==> (r.value.welcomed ==> r.value.hello)
    ensures r.Some? && flags.matchOver ==> r.value.matchOver
    ensures r.Some? && direction == FROM_CLIENT ==> r.value.matchOver == flags.matchOver
    ensures r.Some? && r.value.welcomed ==> flags.welcomed || flags.hello
  {
    if direction == FROM_CLIENT && !flags.hello then
      if checks.hello(payload) then Some(flags.(hello := true)) else None
    else if direction == FROM_SERVER && !flags.welcomed then
      // Lobby changes reach sockets that have not said Hello yet.
      if |payload| > 0 && payload[0] == 1 then Some(flags)
      else if flags.hello && checks.welcome(payload) then Some(flags.(welcomed := true))
      else None
    else if direction == FROM_CLIENT then
      if checks.clientMessage(payload) then Some(flags) else None
    else if flags.matchOver || !checks.serverMessage(payload) then None
    else if checks.endsMatch(payload) then Some(flags.(matchOver := true))
    else Some(flags)
  }

  /** Frames consumed by a seat, with the side they came from. */
  type Log = seq<(Direction, seq<Byte>)>

  /** Flags the consumed frames lead to; None once a payload failed its check. */
  ghost function FlagsAfter(checks: Checks, log: Log): Option<Flags> {
    if log == [] then Some(Flags(false, false, false))
    else
      var (direction, frame) := log[|log| - 1];
      match FlagsAfter(checks, log[..|log| - 1])
      case None => None
      case Some(flags) => if |frame| < 4 then None else Observed(checks, flags, direction, frame[4..])
  }

  ghost function FramesOf(log: Log, direction: Direction): seq<seq<Byte>> {
    if log == [] then []
    else
      var rest := FramesOf(log[..|log| - 1], direction);
      if log[|log| - 1].0 == direction then rest + [log[|log| - 1].1] else rest
  }

  lemma LogGrows(checks: Checks, log: Log, direction: Direction, frame: seq<Byte>)
    requires FlagsAfter(checks, log).Some? && |frame| >= 4
    ensures FlagsAfter(checks, log + [(direction, frame)])
         == Observed(checks, FlagsAfter(checks, log).value, direction, frame[4..])
    ensures FramesOf(log + [(direction, frame)], direction) == FramesOf(log, direction) + [frame]
    ensures FramesOf(log + [(direction, frame)], 1 - direction) == FramesOf(log, 1 - direction)
  {
    hide Observed;
    assert (log + [(direction, frame)])[..|log|] == log;
  }

  lemma {:induction false} PrefixWasChecked(checks: Checks, log: Log, n: nat)
    requires FlagsAfter(checks, log).Some? && n <= |log|
    ensures FlagsAfter(checks, log[..n]).Some?
    decreases |log|
  {
    if n == |log| {
      assert log[..n] == log;
    } else {
      PrefixWasChecked(checks, log[..|log| - 1], n);
      assert log[..|log| - 1][..n] == log[..n];
    }
  }

  /** Every consumed frame passed the check of the state it arrived in. */
  lemma FrameWasChecked(checks: Checks, log: Log, n: nat)
    requires FlagsAfter(checks, log).Some? && n < |log|
    ensures FlagsAfter(checks, log[..n]).Some? && |log[n].1| >= 4
    ensures Observed(checks, FlagsAfter(checks, log[..n]).value, log[n].0, log[n].1[4..])
         == FlagsAfter(checks, log[..n + 1])
    ensures FlagsAfter(checks, log[..n + 1]).Some?
  {
    hide Observed;
    PrefixWasChecked(checks, log, n);
    PrefixWasChecked(checks, log, n + 1);
    assert log[..n + 1][..n] == log[..n];
  }

  /** A seat is welcomed only after its client said Hello, by a server frame that is a Welcome. */
  lemma {:induction false} WelcomeFollowsHello(checks: Checks, log: Log) returns (hello: nat, welcome: nat)
    requires FlagsAfter(checks, log).Some? && FlagsAfter(checks, log).value.welcomed
    ensures hello < welcome < |log| && |log[hello].1| >= 4 && |log[welcome].1| >= 4
    ensures log[hello].0 == FROM_CLIENT && checks.hello(log[hello].1[4..])
    ensures log[welcome].0 == FROM_SERVER && checks.welcome(log[welcome].1[4..])
    ensures forall i :: 0 <= i < welcome ==>
      FlagsAfter(checks, log[..i]).Some? && !FlagsAfter(checks, log[..i]).value.welcomed
  {
    welcome := FirstChange(checks, log, (flags: Flags) => flags.welcomed);
    FrameWasChecked(checks, log, welcome);
    hello := FirstChange(checks, log[..welcome], (flags: Flags) => flags.hello);
    FrameWasChecked(checks, log[..welcome], hello);
    assert log[..welcome][..hello] == log[..hello];
    forall i | 0 <= i < welcome
      ensures FlagsAfter(checks, log[..i]).Some? && !FlagsAfter(checks, log[..i]).value.welcomed
    {
      PrefixWasChecked(checks, log, i);
    }
  }

  /** First frame after which a flag that starts unset is set. */
  lemma {:induction false} FirstChange(checks: Checks, log: Log, set_: Flags -> bool) returns (n: nat)
    requires FlagsAfter(checks, log).Some? && set_(FlagsAfter(checks, log).value) && !set_(Flags(false, false, false))
    ensures n < |log| && FlagsAfter(checks, log[..n + 1]).Some? && set_(FlagsAfter(checks, log[..n + 1]).value)
    ensures forall i :: 0 <= i <= n && FlagsAfter(checks, log[..i]).Some? ==> !set_(FlagsAfter(checks, log[..i]).value)
    decreases |log|
  {
    var last := |log| - 1;
    PrefixWasChecked(checks, log, last);
    if i: nat :| i <= last && FlagsAfter(checks, log[..i]).Some? && set_(FlagsAfter(checks, log[..i]).value) {
      n := FirstChange(checks, log[..i], set_);
      assert log[..i][..n + 1] == log[..n + 1];
      forall k | 0 <= k <= n && FlagsAfter(checks, log[..k]).Some? ensures !set_(FlagsAfter(checks, log[..k]).value) {
        assert log[..i][..k] == log[..k];
      }
    } else {
      n := last;
      assert log[..n + 1] == log;
    }
  }

  /** Nothing the server says after the match is over is relayed. */
  lemma MatchOverIsLast(checks: Checks, log: Log, end: nat, later: nat)
    requires FlagsAfter(checks, log).Some? && end <= later < |log|
    requires FlagsAfter(checks, log[..end]).Some? && FlagsAfter(checks, log[..end]).value.matchOver
    ensures log[later].0 == FROM_CLIENT
  {
    MatchStaysOver(checks, log, end, later);
    FrameWasChecked(checks, log, later);
    WelcomedAtEnd(checks, log[..later]);
  }

  lemma {:induction false} MatchStaysOver(checks: Checks, log: Log, end: nat, later: nat)
    requires FlagsAfter(checks, log).Some? && end <= later <= |log|
    requires FlagsAfter(checks, log[..end]).Some? && FlagsAfter(checks, log[..end]).value.matchOver
    ensures FlagsAfter(checks, log[..later]).Some? && FlagsAfter(checks, log[..later]).value.matchOver
    decreases later
  {
    if end < later {
      MatchStaysOver(checks, log, end, later - 1);
      FrameWasChecked(checks, log, later - 1);
    }
  }

  lemma {:induction false} WelcomedAtEnd(checks: Checks, log: Log)
    requires FlagsAfter(checks, log).Some?
    ensures FlagsAfter(checks, log).value.matchOver ==> FlagsAfter(checks, log).value.welcomed
    decreases |log|
  {
    if log != [] {
      FrameWasChecked(checks, log, |log| - 1);
      assert log[..|log|] == log;
      WelcomedAtEnd(checks, log[..|log| - 1]);
    }
  }

  // ---------------------------------------------------------------- the literal rule over the consumed frames

  /** The client said something: that must have been its Hello. */
  ghost predicate Greeted(log: Log) { exists i :: 0 <= i < |log| && log[i].0 == FROM_CLIENT }

  predicate IsLobby(payload: seq<Byte>) { payload != [] && payload[0] == 1 }

  /** The server said something other than a lobby change: that must have been the Welcome. */
  ghost predicate Seated(log: Log) {
    exists i :: 0 <= i < |log| && log[i].0 == FROM_SERVER && |log[i].1| >= 4 && !IsLobby(log[i].1[4..])
  }

  /** After the Welcome the server ended the match. */
  ghost predicate Ended(checks: Checks, log: Log) {
    exists i :: 0 <= i < |log| && log[i].0 == FROM_SERVER && |log[i].1| >= 4 && checks.endsMatch(log[i].1[4..]) && Seated(log[..i])
  }

  /** Which payload may come next. */
  ghost predicate Admits(checks: Checks, log: Log, direction: Direction, payload: seq<Byte>) {
    if direction == FROM_CLIENT then (if Greeted(log) then checks.clientMessage(payload) else checks.hello(payload))
    else if !Seated(log) then IsLobby(payload) || (Greeted(log) && checks.welcome(payload))
    else !Ended(checks, log) && checks.serverMessage(payload)
  }

  /** The first frames of a side are short, later ones at most four mebibytes. */
  ghost function PayloadLimit(log: Log, direction: Direction): nat {
    if (if direction == FROM_CLIENT then Greeted(log) else Seated(log)) then 4 * 1024 * 1024 else 64
  }

  /** Every consumed frame kept the length limit of the state it arrived in. */
  ghost predicate Sized(log: Log) {
    forall n :: 0 <= n < |log| ==> 5 <= |log[n].1| <= 4 + PayloadLimit(log[..n], log[n].0)
  }

  lemma RuleGrows(checks: Checks, log: Log, direction: Direction, frame: seq<Byte>)
    requires |frame| >= 4
    ensures var longer := log + [(direction, frame)];
      && (Greeted(longer) <==> Greeted(log) || direction == FROM_CLIENT)
      && (Seated(longer) <==> Seated(log) || (direction == FROM_SERVER && !IsLobby(frame[4..])))
      && (Ended(checks, longer) <==>
            Ended(checks, log) || (direction == FROM_SERVER && checks.endsMatch(frame[4..]) && Seated(log)))
  {
    var longer := log + [(direction, frame)];
    assert longer[|log|] == (direction, frame);
    if Greeted(log) {
      var i :| 0 <= i < |log| && log[i].0 == FROM_CLIENT;
      assert longer[i].0 == FROM_CLIENT;
    }
    SeatedGrows(log, direction, frame);
    EndedGrows(checks, log, direction, frame);
  }

  lemma SizedGrows(log: Log, direction: Direction, frame: seq<Byte>)
    requires Sized(log) && 5 <= |frame| <= 4 + PayloadLimit(log, direction)
    ensures Sized(log + [(direction, frame)])
  {
    hide PayloadLimit;
    var longer := log + [(direction, frame)];
    assert longer[|log|] == (direction, frame) && longer[..|log|] == log;
    forall i | 0 <= i < |log| ensures longer[i] == log[i] && longer[..i] == log[..i] {
    }
  }

  lemma SeatedGrows(log: Log, direction: Direction, frame: seq<Byte>)
    requires |frame| >= 4
    ensures Seated(log + [(direction, frame)]) <==> Seated(log) || (direction == FROM_SERVER && !IsLobby(frame[4..]))
  {
    var longer := log + [(direction, frame)];
    assert longer[|log|] == (direction, frame);
    if Seated(log) {
      var i :| 0 <= i < |log| && log[i].0 == FROM_SERVER && |log[i].1| >= 4 && !IsLobby(log[i].1[4..]);
      assert longer[i] == log[i];
    }
  }

  lemma EndedGrows(checks: Checks, log: Log, direction: Direction, frame: seq<Byte>)
    requires |frame| >= 4
    ensures Ended(checks, log + [(direction, frame)]) <==>
      Ended(checks, log) || (direction == FROM_SERVER && checks.endsMatch(frame[4..]) && Seated(log))
  {
    hide Seated;
    var longer := log + [(direction, frame)];
    assert longer[|log|] == (direction, frame) && longer[..|log|] == log;
    forall i | 0 <= i < |log| ensures longer[i] == log[i] && longer[..i] == log[..i] {
    }
    if Ended(checks, log) {
      var i :| 0 <= i < |log| && log[i].0 == FROM_SERVER && |log[i].1| >= 4 && checks.endsMatch(log[i].1[4..]) && Seated(log[..i]);
      assert longer[i] == log[i] && longer[..i] == log[..i];
    }
  }

  /** The flags of a seat are what its consumed frames say. */
  lemma {:induction false} FlagsAreHistory(checks: Checks, log: Log)
    requires FlagsAfter(checks, log).Some?
    ensures FlagsAfter(checks, log).value == Flags(Greeted(log), Seated(log), Ended(checks, log))
    decreases |log|
  {
    hide Greeted, Seated, Ended, Sized, PayloadLimit;
    if log == [] {
      NothingHappened(checks);
    } else {
      var shorter, last := log[..|log| - 1], log[|log| - 1];
      PrefixWasChecked(checks, log, |log| - 1);
      FlagsAreHistory(checks, shorter);
      assert log == shorter + [last] && last == (last.0, last.1);
      RuleGrows(checks, shorter, last.0, last.1);
      EndedNeedsSeated(checks, shorter);
    }
  }

  lemma NothingHappened(checks: Checks)
    ensures !Greeted([]) && !Seated([]) && !Ended(checks, [])
  {
  }

  lemma EndedNeedsSeated(checks: Checks, log: Log)
    ensures Ended(checks, log) ==> Seated(log)
  {
    if Ended(checks, log) {
      var i :| 0 <= i < |log| && log[i].0 == FROM_SERVER && |log[i].1| >= 4 && checks.endsMatch(log[i].1[4..]) && Seated(log[..i]);
      var j :| 0 <= j < i && log[..i][j].0 == FROM_SERVER && |log[..i][j].1| >= 4 && !IsLobby(log[..i][j].1[4..]);
      assert log[j] == log[..i][j];
    }
  }

  /** A payload passes its check exactly when the rule admits it. */
  lemma ObservedExactly(checks: Checks, log: Log, direction: Direction, payload: seq<Byte>)
    requires FlagsAfter(checks, log).Some?
    ensures Observed(checks, FlagsAfter(checks, log).value, direction, payload).Some? <==> Admits(checks, log, direction, payload)
  {
    hide FlagsAfter, Greeted, Seated, Ended;
    FlagsAreHistory(checks, log);
  }

  // ---------------------------------------------------------------- what a batch has to do

  /** Everything a frame is judged by: the consumed frames, the shared clock of a paced seat, a broken upstream. */
  datatype Situation = Situation(log: Log, clock: Option<Clock>, upstreamError: bool)

  ghost predicate Clocked(s: Situation) { s.clock.Some? ==> TwoSeats(s.clock.value) }

  datatype Verdict = Passes(next: Situation) | Waits | Fails

  /** The pacer's word on a frame from the server, who moves the clock. */
  ghost function PacedBy(clock: Option<Clock>, seat: Seat, direction: Direction, payload: seq<Byte>, now: real): (r: Option<Option<Clock>>)
    requires clock.Some? ==> TwoSeats(clock.value)
    ensures r.Some? && r.value.Some? ==> TwoSeats(r.value.value)
  {
    if direction == FROM_CLIENT || clock.None? then Some(clock)
    else match AfterServer(clock.value, seat, ServerMessage(payload), now)
      case Accepted(next) => Some(Some(next))
      case _ => None
  }

  /** The pacer's word on a frame from the client, as long as orders are passed upstream. */
  ghost function Gate(checks: Checks, seat: Seat, s: Situation, direction: Direction, payload: seq<Byte>, now: real): (step: Step)
    requires Clocked(s)
    ensures step.Accepted? ==> TwoSeats(step.clock)
  {
    if direction == FROM_CLIENT && s.clock.Some? && !Ended(checks, s.log) && !s.upstreamError
    then AfterAck(s.clock.value, seat, ClientAck(payload), now)
    else Accepted(if s.clock.Some? then s.clock.value else IDLE)
  }

  /** What has to happen to the first frame of the unread bytes. */
  ghost function Judge(checks: Checks, seat: Seat, s: Situation, direction: Direction, rest: seq<Byte>, now: real): (v: Verdict)
    requires Clocked(s)
    ensures v.Passes? ==> Clocked(v.next) && |rest| >= 4 && FrameLength(rest) >= 1 && 4 + FrameLength(rest) <= |rest|
  {
    if |rest| < 4 then Waits
    else
      var end := 4 + FrameLength(rest);
      if !(5 <= end <= 4 + PayloadLimit(s.log, direction)) then Fails
      else if |rest| < end then Waits
      else
        match Gate(checks, seat, s, direction, rest[4..end], now)
        case Refused => Fails
        case Held => Waits
        case Accepted(clock) =>
          var paced := PacedBy(if s.clock.Some? then Some(clock) else None, seat, direction, rest[4..end], now);
          if |FramesOf(s.log, direction)| < 1_000_000 && Admits(checks, s.log, direction, rest[4..end]) && paced.Some?
          then Passes(s.(log := s.log + [(direction, rest[..end])], clock := paced.value))
          else Fails
  }

  /** A batch ends with the unread bytes and whether they are the start of a frame; or a frame fails it. */
  datatype Batch = Stopped(next: Situation, rest: seq<Byte>, cut: bool) | Broken

  ghost function Consume(checks: Checks, seat: Seat, s: Situation, direction: Direction, rest: seq<Byte>, now: real, turns: nat): Batch
    requires Clocked(s)
    decreases turns
  {
    if turns == 0 then Stopped(s, rest, false)
    else match Judge(checks, seat, s, direction, rest, now)
      case Fails => Broken
      case Waits => Stopped(s, rest, rest != [] && (|rest| < 4 || |rest| < 4 + FrameLength(rest)))
      case Passes(next) => Consume(checks, seat, next, direction, rest[4 + FrameLength(rest)..], now, turns - 1)
  }

  lemma FrontIsWhole(log: Log, direction: Direction, rest: seq<Byte>)
    requires |rest| >= 4 && 1 <= FrameLength(rest) <= PayloadLimit(log, direction) && 4 + FrameLength(rest) <= |rest|
    ensures WholeFrame(rest[..4 + FrameLength(rest)])
  {
    assert rest[..4 + FrameLength(rest)][..4] == rest[..4];
  }

  lemma ConsumeOne(checks: Checks, seat: Seat, s: Situation, direction: Direction, rest: seq<Byte>, now: real, turns: nat)
    requires Clocked(s) && turns > 0
    ensures var batch := Consume(checks, seat, s, direction, rest, now, turns);
      match Judge(checks, seat, s, direction, rest, now)
      case Fails => batch.Broken?
      case Waits => batch == Stopped(s, rest, rest != [] && (|rest| < 4 || |rest| < 4 + FrameLength(rest)))
      case Passes(next) =>
        && Clocked(next) && 4 + FrameLength(rest) <= |rest| && 5 <= 4 + FrameLength(rest)
        && batch == Consume(checks, seat, next, direction, rest[4 + FrameLength(rest)..], now, turns - 1)
  {
    hide Judge, FrameLength;
  }

  lemma ConsumeNone(checks: Checks, seat: Seat, s: Situation, direction: Direction, rest: seq<Byte>, now: real)
    requires Clocked(s)
    ensures Consume(checks, seat, s, direction, rest, now, 0) == Stopped(s, rest, false)
  {
  }

  // ---------------------------------------------------------------- endpoints

  class Endpoint {
    var incoming: seq<Byte>
    var outgoing: seq<Byte>
    var eof: bool
    var writeClosed: bool
    var received: nat
    var frames: nat
    /** Every byte read from this side. */
    ghost var arrived: seq<Byte>
    /** Frames consumed from this side, in order. */
    ghost var taken: seq<seq<Byte>>
    /** Every byte written to this side. */
    ghost var sent: seq<Byte>

    constructor ()
      ensures incoming == [] && outgoing == [] && !eof && !writeClosed && received == 0 && frames == 0
      ensures arrived == [] && taken == [] && sent == []
    {
      incoming, outgoing, eof, writeClosed, received, frames := [], [], false, false, 0, 0;
      arrived, taken, sent := [], [], [];
    }

    /** Nothing read is lost or reordered: it was consumed as whole frames, or it still waits. */
    ghost predicate Conserves()
      reads this
    {
      arrived == Flatten(taken) + incoming && WholeFrames(taken) && received == |arrived|
    }

    /** Hands the first bytes of the queue to the socket. */
    method Write(count: nat)
      requires count <= |outgoing|
      modifies this`outgoing, this`sent
      ensures outgoing == old(outgoing)[count..]
      ensures sent == old(sent) + old(outgoing)[..count]
    {
      sent := sent + outgoing[..count];
      outgoing := outgoing[count..];
    }
  }

  // ---------------------------------------------------------------- one seat

  datatype Turn = Taken(size: nat) | Stop(cut: bool) | Fail

  datatype Arrival = Data(bytes: seq<Byte>) | Closed | Reset

  class SeatRelay {
    const seat: Seat
    const checks: Checks
    const client: Endpoint
    const server: Endpoint
    const pacer: PacedClock?
    var flags: Flags
    /** Frames consumed from both sides, in the order they were consumed. */
    ghost var log: Log
    var upstreamError: bool
    /** The seat's client was accepted and its upstream connection opened. */
    var connected: bool

    function Source(direction: Direction): Endpoint { if direction == FROM_CLIENT then client else server }

    function Target(direction: Direction): Endpoint { if direction == FROM_CLIENT then server else client }

    /** Client frames are still passed upstream. */
    predicate Upstream()
      reads this
    {
      !(flags.matchOver || upstreamError)
    }

    ghost predicate Bounded()
      reads client, server
    {
      && |client.incoming| + |server.outgoing| <= QUEUE_LIMIT
      && |server.incoming| + |client.outgoing| <= QUEUE_LIMIT
    }

    /** Server frames reach the client complete and in order; client frames the server, until upstream closes. */
    ghost predicate Delivers()
      reads this, client, server
    {
      && Delivered(true, client.sent, client.outgoing, server.taken)
      && Delivered(Upstream(), server.sent, server.outgoing, client.taken)
    }

    /** The flags are what the consumed frames led to. */
    ghost predicate Logged()
      reads this, client, server
    {
      && FlagsAfter(checks, log) == Some(flags)
      && FramesOf(log, FROM_CLIENT) == client.taken && FramesOf(log, FROM_SERVER) == server.taken
    }

    /** Frame and byte counts are within their limits, frame lengths within those of the state they arrived in. */
    ghost predicate Measured()
      reads this, client, server
    {
      && Sized(log)
      && client.frames == |client.taken| <= 1_000_000 && server.frames == |server.taken| <= 1_000_000
      && client.received <= 64 * 1024 * 1024 && server.received <= 2 * 1024 * 1024 * 1024
    }

    /** What the next frame will be judged by. */
    ghost function Now(): Situation
      reads this, pacer
    {
      Situation(log, if pacer == null then None else Some(pacer.View()), upstreamError)
    }

    /** What each queue waits for: without pacing an incomplete frame, with pacing perhaps held frames. */
    ghost predicate Waiting()
      reads client, server
    {
      Incomplete(server.incoming) && (pacer == null ==> Incomplete(client.incoming))
    }

    ghost predicate Valid()
      reads this, client, server, pacer
    {
      && client != server
      && client.Conserves() && server.Conserves()
      && Delivers() && Bounded() && Waiting() && Logged() && Measured()
      && (pacer != null ==> TwoSeats(pacer.View()))
      && (flags.welcomed ==> flags.hello)
    }

    constructor (seat: Seat, checks: Checks, pacer: PacedClock?)
      requires pacer != null ==> TwoSeats(pacer.View())
      ensures Valid() && !flags.welcomed && !connected && this.pacer == pacer && fresh(client) && fresh(server)
    {
      this.seat, this.checks, this.pacer := seat, checks, pacer;
      flags, upstreamError, connected := Flags(false, false, false), false, false;
      log := [];
      client := new Endpoint();
      server := new Endpoint();
    }

    /** Bytes that may be read now without overfilling the pair of queues. */
    function ReadBudget(direction: Direction): (budget: nat)
      requires Valid()
      reads this, client, server, pacer
      ensures budget <= READ_CHUNK
      ensures budget + |Source(direction).incoming| + |Target(direction).outgoing| <= QUEUE_LIMIT
      ensures Incomplete(Source(direction).incoming) && Target(direction).outgoing == [] ==> budget > 0
      ensures budget == 65536 || budget + |Source(direction).incoming| + |Target(direction).outgoing| == 4 * 1024 * 1024 + 4
    {
      var available := QUEUE_LIMIT - |Source(direction).incoming| - |Target(direction).outgoing|;
      if available < READ_CHUNK then available else READ_CHUNK
    }

    /** Checks one payload and moves the flags; the end of the match closes upstream writing. */
    method Observe(direction: Direction, frame: seq<Byte>) returns (ok: bool)
      requires client != server && |frame| >= 5 && Delivers() && Logged() && (flags.welcomed ==> flags.hello)
      modifies this`flags, this`log, Source(direction)`taken, server`outgoing, server`writeClosed
      ensures ok <==> Observed(checks, old(flags), direction, frame[4..]).Some?
      ensures ok ==>
        && Observed(checks, old(flags), direction, frame[4..]) == Some(flags)
        && log == old(log) + [(direction, frame)] && Logged()
        && Source(direction).taken == old(Source(direction).taken) + [frame]
        && Delivered(direction == FROM_CLIENT || Upstream(), Source(direction).sent, Source(direction).outgoing,
                     Target(direction).taken)
        && Delivered(direction == FROM_SERVER || Upstream(), Target(direction).sent,
                     Target(direction).outgoing + (if direction == FROM_SERVER || Upstream() then frame else []),
                     Source(direction).taken)
        && |server.outgoing| <= |old(server.outgoing)| && (direction == FROM_CLIENT ==> server.outgoing == old(server.outgoing))
        && (old(Upstream()) || !Upstream())
    {
      hide Observed, Delivered, FlagsAfter, FramesOf, Flatten;
      var next := Observed(checks, flags, direction, frame[4..]);
      if next.None? {
        return false;
      }
      if next.value.matchOver && !flags.matchOver {
        DeliverClose(Upstream(), server.sent, server.outgoing, client.taken);
        server.outgoing := [];
        server.writeClosed := true;
      }
      LogGrows(checks, log, direction, frame);
      flags := next.value;
      log := log + [(direction, frame)];
      var target := Target(direction);
      DeliverNext(direction == FROM_SERVER || Upstream(), target.sent, target.outgoing, Source(direction).taken, frame);
      Source(direction).taken := Source(direction).taken + [frame];
      assert target.outgoing + [] == target.outgoing;
      ok := true;
    }

    /** Server frames move the pacer. */
    method PaceServer(direction: Direction, payload: seq<Byte>, now: real) returns (ok: bool)
      requires pacer != null ==> TwoSeats(pacer.View())
      modifies pacer
      ensures pacer != null ==> TwoSeats(pacer.View())
      ensures var paced := PacedBy(old(Now()).clock, seat, direction, payload, now);
        && (ok <==> paced.Some?) && (ok ==> Now() == old(Now()).(clock := paced.value))
    {
      ok := true;
      if direction == FROM_SERVER && pacer != null {
        ok := pacer.ObserveServer(seat, payload, now);
      }
    }

    /** Consumes one whole frame: checks it, moves the flags, and queues it for the other side. */
    method TakeFrame(direction: Direction, frame: seq<Byte>, now: real) returns (ok: bool)
      requires client != server && |frame| >= 5 && WholeFrame(frame) && Delivers() && WholeFrames(Source(direction).taken)
      requires pacer != null ==> TwoSeats(pacer.View())
      requires (flags.welcomed ==> flags.hello) && Logged() && Measured() && |frame| <= 4 + PayloadLimit(log, direction)
      modifies this`flags, this`log, Source(direction)`frames, Source(direction)`taken, client`outgoing, server`outgoing,
               server`writeClosed, pacer
      ensures var paced := PacedBy(old(Now()).clock, seat, direction, frame[4..], now);
        && (ok <==> |old(Source(direction).taken)| < 1_000_000 && Admits(checks, old(log), direction, frame[4..]) && paced.Some?)
        && (ok ==> Now() == old(Now()).(log := old(log) + [(direction, frame)], clock := paced.value))
      ensures ok ==>
        && log == old(log) + [(direction, frame)] && Logged() && Measured()
        && Source(direction).taken == old(Source(direction).taken) + [frame]
        && WholeFrames(Source(direction).taken) && Delivers()
        && |Target(direction).outgoing| <= old(|Target(direction).outgoing|) + |frame|
        && |Source(direction).outgoing| <= old(|Source(direction).outgoing|)
        && (pacer != null ==> TwoSeats(pacer.View()))
        && (flags.welcomed ==> flags.hello) && (old(flags.welcomed) ==> flags.welcomed)
        && (old(Upstream()) || !Upstream())
    {
      hide WholeFrame, WholeFrames, Observed, Delivered, FlagsAfter, FramesOf, Flatten, Admits, PacedBy, Sized, PayloadLimit;
      var source, target := Source(direction), Target(direction);
      ObservedExactly(checks, log, direction, frame[4..]);
      SizedGrows(log, direction, frame);
      source.frames := source.frames + 1;
      if source.frames > FRAME_COUNT_LIMIT {
        return false;
      }
      OneMoreFrame(source.taken, frame);
      ok := Observe(direction, frame);
      if !ok {
        return false;
      }
      ok := PaceServer(direction, frame[4..], now);
      if !ok {
        return false;
      }
      if direction == FROM_SERVER || Upstream() {
        target.outgoing := target.outgoing + frame;
      } else {
        assert target.outgoing + [] == target.outgoing;
      }
    }

    /** Every endpoint and flag after the frames consumed so far, `rest` of the source still unread. */
    ghost predicate Forwarding(direction: Direction, rest: seq<Byte>)
      reads this, client, server, pacer
    {
      && client != server
      && Source(direction).arrived == Flatten(Source(direction).taken) + rest && WholeFrames(Source(direction).taken)
      && Source(direction).received == |Source(direction).arrived|
      && Target(direction).Conserves()
      && Delivers() && Logged() && Measured()
      && |rest| + |Target(direction).outgoing| <= QUEUE_LIMIT
      && |Target(direction).incoming| + |Source(direction).outgoing| <= QUEUE_LIMIT
      && (pacer != null ==> TwoSeats(pacer.View()))
      && (flags.welcomed ==> flags.hello)
    }

    /** Takes one frame off the unread rest. */
    method TakeNext(direction: Direction, rest: seq<Byte>, now: real) returns (ok: bool)
      requires Forwarding(direction, rest) && |rest| >= 4
      requires 1 <= FrameLength(rest) <= PayloadLimit(log, direction) && 4 + FrameLength(rest) <= |rest|
      modifies this`flags, this`log, Source(direction)`frames, Source(direction)`taken, client`outgoing, server`outgoing,
               server`writeClosed, pacer
      ensures var frame := rest[..4 + FrameLength(rest)];
              var paced := PacedBy(old(Now()).clock, seat, direction, frame[4..], now);
        && (ok <==> |FramesOf(old(log), direction)| < 1_000_000 && Admits(checks, old(log), direction, frame[4..]) && paced.Some?)
        && (ok ==> Now() == old(Now()).(log := old(log) + [(direction, frame)], clock := paced.value))
      ensures ok ==>
        && Forwarding(direction, rest[4 + FrameLength(rest)..])
        && Source(direction).taken == old(Source(direction).taken) + [rest[..4 + FrameLength(rest)]]
        && (old(flags.welcomed) ==> flags.welcomed)
    {
      hide Admits, PacedBy, FlagsAfter, FramesOf, Delivered, Sized, WholeFrame, WholeFrames, Flatten, PayloadLimit, FrameLength;
      var end := 4 + FrameLength(rest);
      var frame := rest[..end];
      FrontIsWhole(log, direction, rest);
      FlattenGrows(Source(direction).taken, frame);
      assert rest == frame + rest[end..];
      ok := TakeFrame(direction, frame, now);
    }

    /** Drops the consumed bytes at the end of a batch. */
    method KeepRest(direction: Direction, rest: seq<Byte>)
      requires Forwarding(direction, rest)
      requires direction == FROM_SERVER || pacer == null ==> Incomplete(rest)
      requires Incomplete(Target(direction).incoming) || (direction == FROM_SERVER && pacer != null)
      modifies Source(direction)`incoming
      ensures Valid() && Source(direction).incoming == rest && Now() == old(Now())
    {
      Source(direction).incoming := rest;
    }

    /** Whether the gate of the client's direction is in force. */
    predicate Gated(direction: Direction)
      reads this
    {
      direction == FROM_CLIENT && pacer != null && Upstream()
    }

    /** The pacer's verdict on a client frame; the queues do not change. */
    method AskPacer(direction: Direction, rest: seq<Byte>, payload: seq<Byte>, now: real) returns (step: Step)
      requires Forwarding(direction, rest) && pacer != null
      modifies pacer
      ensures Forwarding(direction, rest)
      ensures step == AfterAck(old(pacer.View()), seat, ClientAck(payload), now)
      ensures Now() == if step.Accepted? then old(Now()).(clock := Some(step.clock)) else old(Now())
    {
      step := pacer.AllowAck(seat, payload, now);
    }

    lemma IsClocked(direction: Direction, rest: seq<Byte>)
      requires Forwarding(direction, rest)
      ensures Clocked(Now())
    {
    }

    /** The verdict on the next frame, in terms of the seat's own flags and gate. */
    lemma JudgeHere(direction: Direction, rest: seq<Byte>, now: real)
      requires Forwarding(direction, rest)
      ensures Clocked(Now())
      ensures PayloadLimit(log, direction)
           == if (if direction == FROM_SERVER then !flags.welcomed else !flags.hello) then FIRST_FRAME_LIMIT else FRAME_LIMIT
      ensures var v := Judge(checks, seat, Now(), direction, rest, now);
        if |rest| < 4 then v.Waits?
        else if !(1 <= FrameLength(rest) <= PayloadLimit(log, direction)) then v.Fails?
        else if |rest| < 4 + FrameLength(rest) then v.Waits?
        else
          var frame := rest[..4 + FrameLength(rest)];
          var payload := rest[4..4 + FrameLength(rest)];
          var gate := if Gated(direction) then AfterAck(pacer.View(), seat, ClientAck(payload), now) else Accepted(IDLE);
          if gate.Refused? then v.Fails?
          else if gate.Held? then v.Waits?
          else
            var paced := PacedBy(if Gated(direction) then Some(gate.clock) else Now().clock, seat, direction, payload, now);
            if |FramesOf(log, direction)| < 1_000_000 && Admits(checks, log, direction, payload) && paced.Some?
            then v == Passes(Now().(log := log + [(direction, frame)], clock := paced.value))
            else v.Fails?
    {
      hide Admits, Greeted, Seated, Ended, FramesOf, FlagsAfter, FrameLength, Sized, Delivered, WholeFrames;
      FlagsAreHistory(checks, log);
    }

    /** One turn of the loop: checks the length, asks the gate, and takes the frame. */
    method TakeTurn(direction: Direction, rest: seq<Byte>, now: real) returns (turn: Turn)
      requires Forwarding(direction, rest) && Clocked(Now())
      modifies this`flags, this`log, Source(direction)`frames, Source(direction)`taken, client`outgoing, server`outgoing,
               server`writeClosed, pacer
      ensures match Judge(checks, seat, old(Now()), direction, rest, now)
              case Fails => turn == Fail
              case Waits =>
                && turn == Stop(rest != [] && (|rest| < 4 || |rest| < 4 + FrameLength(rest)))
                && Forwarding(direction, rest) && Now() == old(Now()) && flags == old(flags)
                && Source(direction).taken == old(Source(direction).taken)
                && (direction == FROM_SERVER || pacer == null ==> Incomplete(rest))
              case Passes(next) =>
                && turn == Taken(4 + FrameLength(rest)) && Now() == next
                && Forwarding(direction, rest[4 + FrameLength(rest)..])
                && Source(direction).taken == old(Source(direction).taken) + [rest[..4 + FrameLength(rest)]]
                && (old(flags.welcomed) ==> flags.welcomed)
    {
      hide Judge, FrameLength, Forwarding, Admits, PacedBy, FramesOf, AfterAck, ClientAck, PayloadLimit, Clocked, Valid;
      JudgeHere(direction, rest, now);
      if |rest| < 4 {
        return Stop(rest != []);
      }
      var length := FrameLength(rest);
      var first := if direction == FROM_SERVER then !flags.welcomed else !flags.hello;
      if !(1 <= length <= if first then FIRST_FRAME_LIMIT else FRAME_LIMIT) {
        return Fail;
      }
      if |rest| < 4 + length {
        return Stop(true);
      }
      assert rest[..4 + length][4..] == rest[4..4 + length];
      if Gated(direction) {
        var step := AskPacer(direction, rest, rest[4..4 + length], now);
        if step.Refused? {
          return Fail;
        }
        if step.Held? {
          return Stop(false);
        }
      }
      var taken := TakeNext(direction, rest, now);
      turn := if taken then Taken(4 + length) else Fail;
    }

    /**
     * Consumes whole frames until the rest is incomplete or held back, and
     * fails exactly on a frame that has to fail it, or when the bytes ended
     * within one. Without a pacer the batch limit is out of reach.
     */
    method ForwardFrames(direction: Direction, now: real, ghost waiting: nat) returns (ok: bool, progressed: bool)
      requires Forwarding(direction, Source(direction).incoming)
      requires waiting <= |Source(direction).incoming| <= waiting + READ_CHUNK
      requires direction == FROM_SERVER || pacer == null ==> Incomplete(Source(direction).incoming[..waiting])
      requires Incomplete(Target(direction).incoming) || (direction == FROM_SERVER && pacer != null)
      modifies this`flags, this`log, Source(direction)`frames, Source(direction)`taken, Source(direction)`incoming,
               client`outgoing, server`outgoing, server`writeClosed, pacer
      ensures var batch := Consume(checks, seat, old(Now()), direction, old(Source(direction).incoming), now, BATCH_LIMIT);
        && (ok <==> batch.Stopped? && !(Source(direction).eof && batch.cut))
        && (ok ==> Now() == batch.next && Source(direction).incoming == batch.rest)
      ensures ok ==> Valid()
      ensures ok ==> old(Source(direction).taken) <= Source(direction).taken
      ensures ok && (direction == FROM_SERVER || pacer == null) ==>
        |Source(direction).taken| - |old(Source(direction).taken)| <= BATCH_LIMIT - 1
      ensures ok ==> (old(flags.welcomed) ==> flags.welcomed)
    {
      hide Forwarding, FrameLength, Judge, Incomplete, Valid, Now, Clocked, Consume, Upstream;
      var source := Source(direction);
      var buffer := source.incoming;
      assert buffer[0..] == buffer;
      IsClocked(direction, buffer);
      ghost var batch := Consume(checks, seat, Now(), direction, buffer, now, BATCH_LIMIT);
      var offset := 0;
      var cut := false;
      var exhausted := true;
      for turn := 0 to BATCH_LIMIT
        invariant turn == 0 ==> offset == 0
        invariant |source.taken| == |old(source.taken)| + turn
        invariant offset <= |buffer| && !cut && exhausted && source.incoming == buffer && source.eof == old(source.eof)
        invariant Forwarding(direction, buffer[offset..])
        invariant old(source.taken) <= source.taken && (old(flags.welcomed) ==> flags.welcomed)
        invariant 5 * turn <= offset
        invariant Clocked(Now()) && batch == Consume(checks, seat, Now(), direction, buffer[offset..], now, BATCH_LIMIT - turn)
        invariant (direction == FROM_SERVER || pacer == null) && turn > 0 ==> waiting + 1 + 5 * (turn - 1) <= offset
      {
        var rest := buffer[offset..];
        ConsumeOne(checks, seat, Now(), direction, rest, now, BATCH_LIMIT - turn);
        var taken := TakeTurn(direction, rest, now);
        if taken.Fail? {
          return false, false;
        }
        if taken.Stop? {
          cut, exhausted := taken.cut, false;
          break;
        }
        if turn == 0 && (direction == FROM_SERVER || pacer == null) {
          assert rest == buffer;
          FirstFramePassesWaiting(buffer, waiting);
        }
        assert rest[taken.size..] == buffer[offset + taken.size..];
        offset := offset + taken.size;
        IsClocked(direction, buffer[offset..]);
      }
      assert exhausted ==> direction == FROM_CLIENT && pacer != null;
      ConsumeNone(checks, seat, Now(), direction, buffer[offset..], now);
      KeepRest(direction, buffer[offset..]);
      ok := !(source.eof && cut);
      progressed := offset > 0;
    }

    lemma EndedIsMatchOver()
      requires Valid()
      ensures Clocked(Now()) && (Ended(checks, Now().log) <==> flags.matchOver) && (Now().clock.Some? <==> pacer != null)
    {
      FlagsAreHistory(checks, log);
    }

    /**
     * When what the socket delivered is fine: data within the byte limit whose
     * frames pass and which does not go on after an end within a frame; an end
     * between frames, or with frames the pacer still holds; a reset only as
     * such an end after the match, with nothing left for the client.
     */
    ghost predicate Receives(s: Situation, incoming: seq<Byte>, received: nat, eof: bool, outgoing: seq<Byte>,
                             direction: Direction, arrival: Arrival, now: real)
      requires Clocked(s)
    {
      match arrival
      case Data(bytes) =>
        && received + |bytes| <= (if direction == FROM_SERVER then 2 * 1024 * 1024 * 1024 else 64 * 1024 * 1024)
        && Fits(s, incoming + bytes, eof, direction, now)
      case Closed => Ends(s, incoming, direction, now)
      case Reset =>
        && incoming == [] && Ended(checks, s.log) && (direction == FROM_SERVER || outgoing == [])
        && Ends(s, incoming, direction, now)
    }

    ghost predicate Fits(s: Situation, bytes: seq<Byte>, eof: bool, direction: Direction, now: real)
      requires Clocked(s)
    {
      var batch := Consume(checks, seat, s, direction, bytes, now, BATCH_LIMIT);
      batch.Stopped? && !(eof && batch.cut)
    }

    ghost predicate Ends(s: Situation, incoming: seq<Byte>, direction: Direction, now: real)
      requires Clocked(s)
    {
      if direction == FROM_CLIENT && s.clock.Some? then Fits(s, incoming, true, direction, now) else incoming == []
    }

    /** Takes what the socket delivered, never more than the read budget, and forwards the frames it completes. */
    method Receive(direction: Direction, arrival: Arrival, now: real) returns (ok: bool)
      requires Valid()
      requires arrival.Data? ==> 0 < |arrival.bytes| <= ReadBudget(direction)
      modifies this`flags, this`log, Source(direction)`frames, Source(direction)`taken, Source(direction)`incoming,
               Source(direction)`arrived, Source(direction)`received, Source(direction)`eof,
               client`outgoing, server`outgoing, server`writeClosed, pacer
      ensures ok ==> Valid() && (old(flags.welcomed) ==> flags.welcomed)
      ensures ok ==> old(Source(direction).taken) <= Source(direction).taken
      ensures ok && arrival.Data? ==> Source(direction).arrived == old(Source(direction).arrived) + arrival.bytes
      ensures ok <==> Receives(old(Now()), old(Source(direction).incoming), old(Source(direction).received),
                               old(Source(direction).eof), old(Source(direction).outgoing), direction, arrival, now)
    {
      hide Valid, Now, Consume, Ended;
      ghost var s, incoming, received, outgoing := Now(), Source(direction).incoming, Source(direction).received, Source(direction).outgoing;
      EndedIsMatchOver();
      var source := Source(direction);
      if arrival.Reset? && (source.incoming != [] || !flags.matchOver || (direction == FROM_CLIENT && source.outgoing != [])) {
        return false;
      }
      if arrival.Data? {
        ok := ReceiveData(direction, arrival.bytes, now);
      } else {
        ok := ReceiveEnd(direction, now);
      }
    }

    /** The peer closed: whatever is left must not be part of a frame, except for frames the pacer holds. */
    method ReceiveEnd(direction: Direction, now: real) returns (ok: bool)
      requires Valid()
      modifies this`flags, this`log, Source(direction)`frames, Source(direction)`taken, Source(direction)`incoming,
               Source(direction)`eof, client`outgoing, server`outgoing, server`writeClosed, pacer
      ensures ok ==> Valid() && (old(flags.welcomed) ==> flags.welcomed)
      ensures ok ==> old(Source(direction).taken) <= Source(direction).taken
      ensures Clocked(old(Now())) && (ok <==> Ends(old(Now()), old(Source(direction).incoming), direction, now))
    {
      hide Consume;
      EndedIsMatchOver();
      var source := Source(direction);
      if source.incoming != [] && !(direction == FROM_CLIENT && pacer != null) {
        return false;
      }
      source.eof := true;
      ok := true;
      if direction == FROM_CLIENT && pacer != null {
        assert Forwarding(direction, source.incoming);
        var progressed: bool;
        ok, progressed := ForwardFrames(direction, now, |source.incoming|);
      }
    }

    method ReceiveData(direction: Direction, bytes: seq<Byte>, now: real) returns (ok: bool)
      requires Valid() && 0 < |bytes| <= ReadBudget(direction)
      modifies this`flags, this`log, Source(direction)`frames, Source(direction)`taken, Source(direction)`incoming,
               Source(direction)`arrived, Source(direction)`received, client`outgoing, server`outgoing,
               server`writeClosed, pacer
      ensures ok ==> Valid() && (old(flags.welcomed) ==> flags.welcomed)
      ensures ok ==> old(Source(direction).taken) <= Source(direction).taken
      ensures ok ==> Source(direction).arrived == old(Source(direction).arrived) + bytes
      ensures Clocked(old(Now()))
      ensures ok <==>
        && old(Source(direction).received) + |bytes| <= (if direction == FROM_SERVER then 2 * 1024 * 1024 * 1024 else 64 * 1024 * 1024)
        && Fits(old(Now()), old(Source(direction).incoming) + bytes, Source(direction).eof, direction, now)
    {
      hide Valid, Now, Forwarding, Incomplete, Consume, FlagsAfter, ReadBudget, Fits;
      EndedIsMatchOver();
      var source := Source(direction);
      ghost var waiting := source.incoming;
      var fine := Arrive(direction, bytes);
      if !fine {
        return false;
      }
      assert source.incoming[..|waiting|] == waiting;
      var progressed: bool;
      FitsIsConsume(Now(), source.incoming, source.eof, direction, now);
      ok, progressed := ForwardFrames(direction, now, |waiting|);
    }

    lemma FitsIsConsume(s: Situation, bytes: seq<Byte>, eof: bool, direction: Direction, now: real)
      requires Clocked(s)
      ensures var batch := Consume(checks, seat, s, direction, bytes, now, BATCH_LIMIT);
        Fits(s, bytes, eof, direction, now) <==> batch.Stopped? && !(eof && batch.cut)
    {
      hide Consume;
    }

    /** Counts and appends the bytes read. */
    method Arrive(direction: Direction, bytes: seq<Byte>) returns (fine: bool)
      requires Valid() && 0 < |bytes| <= ReadBudget(direction)
      modifies Source(direction)`incoming, Source(direction)`arrived, Source(direction)`received
      ensures Source(direction).received == old(Source(direction).received) + |bytes| && Now() == old(Now())
      ensures fine <==> Source(direction).received <= (if direction == FROM_SERVER then 2 * 1024 * 1024 * 1024 else 64 * 1024 * 1024)
      ensures fine ==>
        && Forwarding(direction, Source(direction).incoming)
        && Source(direction).incoming == old(Source(direction).incoming) + bytes
        && Source(direction).arrived == old(Source(direction).arrived) + bytes
        && |bytes| <= READ_CHUNK
        && (direction == FROM_SERVER || pacer == null ==> Incomplete(old(Source(direction).incoming)))
        && (Incomplete(Target(direction).incoming) || (direction == FROM_SERVER && pacer != null))
    {
      hide Delivered, WholeFrames, Incomplete, FlagsAfter, FramesOf, Flatten, Sized;
      var source := Source(direction);
      source.received := source.received + |bytes|;
      if source.received > (if direction == FROM_SERVER then SERVER_BYTE_LIMIT else CLIENT_BYTE_LIMIT) {
        return false;
      }
      assert source.arrived == Flatten(source.taken) + source.incoming;
      source.incoming := source.incoming + bytes;
      source.arrived := source.arrived + bytes;
      fine := true;
    }

    /** Retries frames the pacer held back. */
    method Retry(now: real) returns (ok: bool)
      requires Valid() && pacer != null
      modifies this`flags, this`log, client`frames, client`taken, client`incoming, client`outgoing, server`outgoing,
               server`writeClosed, pacer
      ensures ok ==> Valid() && (old(flags.welcomed) ==> flags.welcomed)
      ensures Clocked(old(Now())) && (ok <==> Fits(old(Now()), old(client.incoming), client.eof, FROM_CLIENT, now))
    {
      hide Consume;
      EndedIsMatchOver();
      assert Forwarding(FROM_CLIENT, client.incoming);
      var progressed: bool;
      ok, progressed := ForwardFrames(FROM_CLIENT, now, |client.incoming|);
    }

    /** The waiting client is accepted and its upstream connection opened. */
    method Accept(connecting: bool)
      requires Valid()
      modifies this`connected
      ensures Valid() && connected == connecting && Now() == old(Now())
    {
      connected := connecting;
    }

    /** Writes queued bytes towards one side. */
    method WriteTo(direction: Direction, count: nat)
      requires Valid() && count <= |Target(direction).outgoing|
      modifies Target(direction)`outgoing, Target(direction)`sent
      ensures Valid()
      ensures Target(direction).sent == old(Target(direction).sent) + old(Target(direction).outgoing)[..count]
      ensures Target(direction).outgoing == old(Target(direction).outgoing)[count..]
    {
      DeliverWritten(direction == FROM_SERVER || Upstream(), Target(direction).sent, Target(direction).outgoing,
                     Source(direction).taken, count);
      Target(direction).Write(count);
    }

    /** A broken upstream write drops the queued orders; server frames are still drained. */
    method BreakUpstream()
      requires Valid()
      modifies this`upstreamError, server`outgoing, server`writeClosed
      ensures Valid() && !Upstream()
    {
      DeliverClose(Upstream(), server.sent, server.outgoing, client.taken);
      upstreamError := true;
      server.outgoing := [];
      server.writeClosed := true;
    }
  }

  /** A frame at the start of the buffer ends past the bytes that alone were incomplete. */
  lemma FirstFramePassesWaiting(buffer: seq<Byte>, waiting: nat)
    requires waiting <= |buffer| && Incomplete(buffer[..waiting])
    requires |buffer| >= 4 && 4 + FrameLength(buffer) <= |buffer| && FrameLength(buffer) >= 1
    ensures waiting + 1 <= 4 + FrameLength(buffer)
  {
    if waiting >= 4 {
      assert buffer[..waiting][..4] == buffer[..4];
    }
  }

  /** Every byte read from the server was written to the client, is queued for it, or is still incomplete. */
  lemma ServerBytesAreConserved(relay: SeatRelay)
    requires relay.Valid()
    ensures relay.server.arrived == relay.client.sent + relay.client.outgoing + relay.server.incoming
    ensures relay.Upstream() ==>
      relay.client.arrived == relay.server.sent + relay.server.outgoing + relay.client.incoming
    ensures relay.server.sent <= relay.client.arrived
  {
  }

  lemma FlattenFront(frames: seq<seq<Byte>>)
    requires frames != []
    ensures Flatten(frames) == frames[0] + Flatten(frames[1..])
  {
    FlattenConcat([frames[0]], frames[1..]);
    assert [frames[0]] + frames[1..] == frames;
    FlattenGrows([], frames[0]);
    assert [] + [frames[0]] == [frames[0]];
  }

  /** A whole frame at the front cannot be part of an incomplete one. */
  lemma WholeIsNotIncomplete(frame: seq<Byte>, rest: seq<Byte>)
    requires WholeFrame(frame)
    ensures !Incomplete(frame + rest) && FrameLength(frame + rest) == FrameLength(frame)
  {
    assert (frame + rest)[..4] == frame[..4];
  }

  /**
   * Bytes determine their frames: however a stream was cut into reads, relays
   * that consumed all its whole frames consumed the same ones.
   */
  lemma {:induction false} FramingIsUnique(a: seq<seq<Byte>>, restA: seq<Byte>, b: seq<seq<Byte>>, restB: seq<Byte>)
    requires WholeFrames(a) && WholeFrames(b) && Incomplete(restA) && Incomplete(restB)
    requires Flatten(a) + restA == Flatten(b) + restB
    ensures a == b && restA == restB
    decreases |a|
  {
    hide Incomplete, FrameLength;
    if a != [] {
      FlattenFront(a);
      WholeIsNotIncomplete(a[0], Flatten(a[1..]) + restA);
      assert Flatten(a) + restA == a[0] + (Flatten(a[1..]) + restA);
    }
    if b != [] {
      FlattenFront(b);
      WholeIsNotIncomplete(b[0], Flatten(b[1..]) + restB);
      assert Flatten(b) + restB == b[0] + (Flatten(b[1..]) + restB);
    }
    if a == [] || b == [] {
      assert a == [] ==> Flatten(a) + restA == restA;
      assert b == [] ==> Flatten(b) + restB == restB;
    } else {
      SameFront(a[0], Flatten(a[1..]) + restA, b[0], Flatten(b[1..]) + restB);
      FramingIsUnique(a[1..], restA, b[1..], restB);
      assert a == [a[0]] + a[1..] && b == [b[0]] + b[1..];
    }
  }

  lemma SameFront(frame: seq<Byte>, rest: seq<Byte>, other: seq<Byte>, tail: seq<Byte>)
    requires WholeFrame(frame) && WholeFrame(other) && frame + rest == other + tail
    ensures frame == other && rest == tail
  {
    WholeIsNotIncomplete(frame, rest);
    WholeIsNotIncomplete(other, tail);
    assert frame == (frame + rest)[..|frame|] && other == (other + tail)[..|other|];
    assert rest == (frame + rest)[|frame|..] && tail == (other + tail)[|other|..];
  }

  // ---------------------------------------------------------------- what batches accept

  /** Before the handshake of its side a relayed frame carries at most 64 bytes, afterwards at most four mebibytes. */
  lemma HandshakeFramesAreShort(relay: SeatRelay, n: nat)
    requires relay.Valid() && n < |relay.log|
    ensures 1 <= |relay.log[n].1| - 4 <= 4 * 1024 * 1024
    ensures relay.log[n].0 == FROM_CLIENT && (forall i :: 0 <= i < n ==> relay.log[i].0 == FROM_SERVER) ==>
      |relay.log[n].1| - 4 <= 64
    ensures relay.log[n].0 == FROM_SERVER
            && (forall i :: 0 <= i < n && relay.log[i].0 == FROM_SERVER ==> IsLobby(relay.log[i].1[4..])) ==>
      |relay.log[n].1| - 4 <= 64
  {
    hide FlagsAfter, FramesOf, WholeFrames, Delivered;
    assert forall i :: 0 <= i < n ==> relay.log[..n][i] == relay.log[i];
  }

  ghost function Tagged(direction: Direction, frames: seq<seq<Byte>>): (log: Log)
    ensures |log| == |frames| && forall i :: 0 <= i < |log| ==> log[i] == (direction, frames[i])
  {
    seq(|frames|, i requires 0 <= i < |frames| => (direction, frames[i]))
  }

  /** The frame keeps length and count limits and the rule after what was consumed. */
  ghost predicate Belongs(checks: Checks, log: Log, direction: Direction, frame: seq<Byte>) {
    && 5 <= |frame| <= 4 + PayloadLimit(log, direction)
    && |FramesOf(log, direction)| < 1_000_000 && Admits(checks, log, direction, frame[4..])
  }

  ghost predicate AllBelong(checks: Checks, log: Log, direction: Direction, frames: seq<seq<Byte>>) {
    forall i :: 0 <= i < |frames| ==> Belongs(checks, log + Tagged(direction, frames[..i]), direction, frames[i])
  }

  lemma BelongInTurn(checks: Checks, log: Log, direction: Direction, frames: seq<seq<Byte>>)
    requires frames != []
    ensures AllBelong(checks, log, direction, frames) <==>
      && Belongs(checks, log, direction, frames[0])
      && AllBelong(checks, log + [(direction, frames[0])], direction, frames[1..])
    ensures log + Tagged(direction, frames) == log + [(direction, frames[0])] + Tagged(direction, frames[1..])
  {
    hide Belongs;
    assert log + Tagged(direction, frames[..0]) == log;
    forall i | 0 <= i < |frames| - 1
      ensures log + [(direction, frames[0])] + Tagged(direction, frames[1..][..i]) == log + Tagged(direction, frames[..i + 1])
      ensures frames[1..][i] == frames[i + 1]
    {
    }
    if AllBelong(checks, log + [(direction, frames[0])], direction, frames[1..]) && Belongs(checks, log, direction, frames[0]) {
      forall i | 0 <= i < |frames| ensures Belongs(checks, log + Tagged(direction, frames[..i]), direction, frames[i]) {
        if i > 0 { assert frames[1..][i - 1] == frames[i]; }
      }
    }
  }

  lemma JudgeWhole(checks: Checks, seat: Seat, s: Situation, direction: Direction, frame: seq<Byte>, tail: seq<Byte>, now: real)
    requires s.clock.None? && WholeFrame(frame)
    ensures Judge(checks, seat, s, direction, frame + tail, now)
         == if Belongs(checks, s.log, direction, frame) then Passes(s.(log := s.log + [(direction, frame)])) else Fails
    ensures 4 + FrameLength(frame + tail) == |frame| && (frame + tail)[|frame|..] == tail
  {
    hide Admits, FramesOf, PayloadLimit;
    assert (frame + tail)[..4] == frame[..4];
    assert (frame + tail)[..|frame|] == frame && (frame + tail)[4..|frame|] == frame[4..];
  }

  /**
   * Without a pacer a stream of whole frames and the start of another one is
   * consumed completely, in order, exactly when every frame belongs where it
   * stands and the started one announces an admissible length.
   */
  lemma {:induction false} BatchExactly(checks: Checks, seat: Seat, s: Situation, direction: Direction, frames: seq<seq<Byte>>,
                                       tail: seq<Byte>, now: real, turns: nat)
    requires s.clock.None? && WholeFrames(frames) && Incomplete(tail) && |frames| < turns
    ensures var log := s.log + Tagged(direction, frames);
      Consume(checks, seat, s, direction, Flatten(frames) + tail, now, turns) ==
        if AllBelong(checks, s.log, direction, frames) && (|tail| >= 4 ==> FrameLength(tail) <= PayloadLimit(log, direction))
        then Stopped(s.(log := log), tail, tail != []) else Broken
    decreases |frames|
  {
    hide FrameLength, WholeFrame, Judge, Belongs, AllBelong, PayloadLimit, Consume, Flatten, Incomplete;
    if frames == [] {
      BatchOfTail(checks, seat, s, direction, frames, tail, now, turns);
    } else {
      var rest := Flatten(frames[1..]) + tail;
      FlattenFront(frames);
      assert Flatten(frames) + tail == frames[0] + rest;
      JudgeWhole(checks, seat, s, direction, frames[0], rest, now);
      ConsumeOne(checks, seat, s, direction, frames[0] + rest, now, turns);
      BelongInTurn(checks, s.log, direction, frames);
      BatchExactly(checks, seat, s.(log := s.log + [(direction, frames[0])]), direction, frames[1..], tail, now, turns - 1);
    }
  }

  lemma BatchOfTail(checks: Checks, seat: Seat, s: Situation, direction: Direction, frames: seq<seq<Byte>>, tail: seq<Byte>,
                    now: real, turns: nat)
    requires s.clock.None? && frames == [] && Incomplete(tail) && turns > 0
    ensures var log := s.log + Tagged(direction, frames);
      && AllBelong(checks, s.log, direction, frames)
      && Consume(checks, seat, s, direction, Flatten(frames) + tail, now, turns) ==
        if |tail| >= 4 ==> FrameLength(tail) <= PayloadLimit(log, direction) then Stopped(s.(log := log), tail, tail != []) else Broken
  {
    hide FrameLength, Judge, Belongs, PayloadLimit, Consume, Incomplete;
    assert Flatten(frames) + tail == tail && s.log + Tagged(direction, frames) == s.log;
    JudgeTail(checks, seat, s, direction, tail, now);
    ConsumeOne(checks, seat, s, direction, tail, now, turns);
  }

  lemma JudgeTail(checks: Checks, seat: Seat, s: Situation, direction: Direction, tail: seq<Byte>, now: real)
    requires s.clock.None? && Incomplete(tail)
    ensures Judge(checks, seat, s, direction, tail, now)
         == if |tail| >= 4 && FrameLength(tail) > PayloadLimit(s.log, direction) then Fails else Waits
    ensures tail != [] ==> |tail| < 4 || |tail| < 4 + FrameLength(tail)
  {
    hide PayloadLimit;
  }

  // ---------------------------------------------------------------- admission of both seats

  /** What the sockets of one relay offer in one turn; reads are cut to the budget. */
  datatype Offer = Offer(connecting: bool, fromServer: Option<Arrival>, fromClient: Option<Arrival>,
                         toClient: nat, toServer: nat, upstreamBroken: bool)

  function CutTo(arrival: Arrival, budget: nat): Arrival {
    if !arrival.Data? then arrival
    else if |arrival.bytes| == 0 then Closed
    else Data(arrival.bytes[..Shorter(|arrival.bytes|, budget)])
  }

  function Shorter(a: nat, b: nat): (m: nat)
    ensures m <= a && m <= b && (m == a || m == b)
  {
    if a < b then a else b
  }

  class Admission {
    const first: SeatRelay
    const second: SeatRelay

    ghost predicate Valid()
      reads this, first, second, first.client, first.server, second.client, second.server, first.pacer, second.pacer
    {
      && first != second && first.pacer == second.pacer
      && {first.client, first.server} !! {second.client, second.server}
      && first.Valid() && second.Valid()
      && (second.connected ==> first.flags.welcomed)
    }

    constructor (first: SeatRelay, second: SeatRelay)
      requires first != second && first.pacer == second.pacer && first.Valid() && second.Valid()
      requires {first.client, first.server} !! {second.client, second.server}
      requires !first.connected && !second.connected
      ensures Valid() && this.first == first && this.second == second
    {
      this.first, this.second := first, second;
    }

    /** One turn of one seat: accept, or retry, read and write what is ready. */
    method PumpSeat(relay: SeatRelay, offer: Offer, now: real) returns (ok: bool)
      requires relay.Valid()
      modifies relay, relay.client, relay.server, relay.pacer
      ensures ok ==> relay.Valid() && (old(relay.flags.welcomed) ==> relay.flags.welcomed)
      ensures !old(relay.connected) ==> ok && relay.connected == offer.connecting && relay.Now() == old(relay.Now())
      ensures old(relay.connected) ==> relay.connected
    {
      hide SeatRelay.Valid, SeatRelay.Now, SeatRelay.Receives, SeatRelay.Fits, SeatRelay.ReadBudget;
      if !relay.connected {
        relay.Accept(offer.connecting);
        return true;
      }
      if relay.pacer != null {
        ok := relay.Retry(now);
        if !ok {
          return;
        }
      }
      ok := ReadReady(relay, FROM_SERVER, offer.fromServer, now);
      if !ok {
        return;
      }
      ok := ReadReady(relay, FROM_CLIENT, offer.fromClient, now);
      if !ok {
        return;
      }
      relay.WriteTo(FROM_SERVER, Shorter(offer.toClient, |relay.client.outgoing|));
      if offer.upstreamBroken {
        relay.BreakUpstream();
      } else {
        relay.WriteTo(FROM_CLIENT, Shorter(offer.toServer, |relay.server.outgoing|));
      }
    }

    /** Reads one side only when the queues leave room. */
    method ReadReady(relay: SeatRelay, direction: Direction, ready: Option<Arrival>, now: real) returns (ok: bool)
      requires relay.Valid()
      modifies relay`flags, relay`log, relay.client, relay.server, relay.pacer
      ensures ok ==> relay.Valid() && (old(relay.flags.welcomed) ==> relay.flags.welcomed)
      ensures Clocked(old(relay.Now()))
      ensures if ready.None? || old(relay.Source(direction).eof) || old(relay.ReadBudget(direction)) == 0
        then ok && relay.Now() == old(relay.Now()) && relay.Source(direction).arrived == old(relay.Source(direction).arrived)
        else
          var arrival := CutTo(ready.value, old(relay.ReadBudget(direction)));
          && (ok <==> relay.Receives(old(relay.Now()), old(relay.Source(direction).incoming), old(relay.Source(direction).received),
                                     old(relay.Source(direction).eof), old(relay.Source(direction).outgoing), direction, arrival, now))
          && (ok && arrival.Data? ==> relay.Source(direction).arrived == old(relay.Source(direction).arrived) + arrival.bytes)
    {
      hide SeatRelay.Valid, SeatRelay.Receives;
      relay.EndedIsMatchOver();
      if ready.None? || relay.Source(direction).eof || relay.ReadBudget(direction) == 0 {
        return true;
      }
      ok := relay.Receive(direction, CutTo(ready.value, relay.ReadBudget(direction)), now);
    }

    /** The second seat is not served, let alone connected upstream, before the first one's Welcome. */
    method Pump(offers: (Offer, Offer), now: real) returns (ok: bool)
      requires Valid()
      modifies first, second, first.client, first.server, second.client, second.server, first.pacer
      ensures ok ==> Valid()
      ensures !old(first.flags.welcomed) && !old(second.connected) && ok && !first.flags.welcomed ==>
        !second.connected && second.flags == old(second.flags)
    {
      ok := PumpSeat(first, offers.0, now);
      if !ok {
        return;
      }
      assert second.Valid();
      if first.flags.welcomed {
        ok := PumpSeat(second, offers.1, now);
      }
    }
  }
}
