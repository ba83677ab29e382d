/** The body of `main` after the port is open: the fixed start-up exchange,
    the sampling loop with its stop decisions, and the fixed shut-down
    exchange. Time, the sine value and the keyboard are inputs, one `Tick`
    per pass of the loop. */
module TestLoop {
  import opened Bytes
  import opened Transport
  import opened FrameCodec
  import opened Commands
  import opened StatusDecoder
  import opened Waveform
  import opened Termination

  /** The settings `main` runs with, as left by the command line. */
  datatype Config = Config(
    adr: Byte,
    mode: U32,
    load: U32,
    wave: Wave,
    maxCurrent: U32,
    maxPower: U32,
    limits: Limits)

  /** What one pass of the loop observes: milliseconds since the start, the
      sine of the waveform's phase, and whether ESC was pressed. */
  datatype Tick = Tick(elapsedMs: nat, phase: Phase, escape: bool)

  /** One telemetry line: the time and the decoded reading. */
  datatype Sample = Sample(elapsedMs: nat, status: Status)

  /** What a stretch of the run does: the frames it writes, the telemetry it
      logs, why it stopped (None while still running), and how many status
      polls it made. */
  datatype Trace = Trace(sent: seq<seq<Byte>>, log: seq<Sample>, reason: Option<Stop>, polls: nat)

  /** A stretch that does nothing. */
  const Idle := Trace([], [], None, 0)

  /** One stretch followed by the next. */
  function Join(a: Trace, b: Trace): Trace
  {
    Trace(a.sent + b.sent, a.log + b.log, b.reason, a.polls + b.polls)
  }

  lemma JoinAssociative(a: Trace, b: Trace, c: Trace)
    ensures Join(a, Join(b, c)) == Join(Join(a, b), c)
  {
    assert a.sent + (b.sent + c.sent) == (a.sent + b.sent) + c.sent;
    assert a.log + (b.log + c.log) == (a.log + b.log) + c.log;
  }

  /** `Idle` is a unit of `Join` on both sides, for stretches still running. */
  lemma JoinIdle(t: Trace)
    ensures Join(Idle, t) == t
    ensures t.reason == None ==> Join(t, Idle) == t
  {
    assert [] + t.sent == t.sent && [] + t.log == t.log;
    assert t.sent + [] == t.sent && t.log + [] == t.log;
  }

  /** A loop that was `done` followed by `rest`, where `rest` is `step`
      followed, unless it stopped, by `next`. */
  lemma Advance(whole: Trace, done: Trace, step: Trace, rest: Trace, next: Trace)
    requires whole == Join(done, rest)
    requires rest == if step.reason.Some? then step else Join(step, next)
    ensures step.reason.Some? ==> whole == Join(done, step)
    ensures step.reason.None? ==> whole == Join(Join(done, step), next)
  {
    if step.reason.None? {
      JoinAssociative(done, step, next);
    }
  }

  function StartupFrames(cfg: Config): seq<seq<Byte>>
  {
    [SetLoadFrame(cfg.adr, cfg.maxCurrent, cfg.maxPower, 0, cfg.mode),
     ActivateFrame(cfg.adr, true, true),
     RequestFrame(cfg.adr)]
  }

  /** Load off, then front-panel control back. */
  function ShutdownFrames(cfg: Config): seq<seq<Byte>>
  {
    [ActivateFrame(cfg.adr, false, true), ActivateFrame(cfg.adr, false, false)]
  }

  /** The set-load frame a tick writes. */
  function TickFrame(cfg: Config, t: Tick): seq<Byte>
  {
    var c := LoadCommand(cfg.wave, cfg.load, cfg.maxCurrent, cfg.maxPower, t.phase);
    SetLoadFrame(cfg.adr, c.maxCurrent, c.maxPower, c.load, cfg.mode)
  }

  /** One pass of the sampling loop: command the load; on ESC give up before
      polling; otherwise poll, and stop on load off before anything is decoded
      or logged; otherwise log the reading and check the limits. The reason is
      None when the loop goes on. */
  function Step(cfg: Config, t: Tick, replies: seq<Reply>, status: seq<Byte>, count: U32): (tr: Trace)
    requires |status| == 26
    ensures tr.polls == (if t.escape then 0 else 1)
    ensures tr.reason.Some? || |tr.log| == 1
    ensures tr.reason == Some(Aborted) <==> t.escape
  {
    var setLoad := TickFrame(cfg, t);
    if t.escape then Trace([setLoad], [], Some(Aborted), 0)
    else
      var polled := Received(status, NextReply(replies));
      var sent := [setLoad, RequestFrame(cfg.adr)];
      if !LoadOn(polled[17]) then Trace(sent, [], Some(LoadOff), 1)
      else
        var st := DecodeStatus(polled);
        Trace(sent, [Sample(t.elapsedMs, st)], CheckLimits(cfg.limits, st, t.elapsedMs, count), 1)
  }

  /** The sampling loop, from `status` (the buffer as the previous poll left
      it) and sample number `count`, until a pass stops it or the ticks run
      out. */
  function Ticks(cfg: Config, ticks: seq<Tick>, replies: seq<Reply>, status: seq<Byte>, count: U32): (tr: Trace)
    requires |status| == 26
    ensures tr.polls <= |ticks|
    decreases |ticks|, 1
  {
    if ticks == [] then Trace([], [], None, 0) else Resume(cfg, ticks, replies, status, count)
  }

  /** The sampling loop from a pass that takes place: that pass, then, unless
      it stopped the loop, the passes after it with the script and the buffer
      as it left them and the sample number raised. */
  function Resume(cfg: Config, ticks: seq<Tick>, replies: seq<Reply>, status: seq<Byte>, count: U32): (tr: Trace)
    requires ticks != [] && |status| == 26
    ensures tr.polls <= |ticks|
    decreases |ticks|, 0
  {
    var step := Step(cfg, ticks[0], replies, status, count);
    if step.reason.Some? then step
    else
      Join(step, Ticks(cfg, ticks[1..], Rest(replies), Received(status, NextReply(replies)),
                       Inc32(count)))
  }

  /** `Ticks` from tick `i` on, one pass unfolded. */
  lemma TicksAt(cfg: Config, ticks: seq<Tick>, i: nat, replies: seq<Reply>, status: seq<Byte>, count: U32)
    requires i < |ticks| && |status| == 26
    ensures var step := Step(cfg, ticks[i], replies, status, count);
      Ticks(cfg, ticks[i..], replies, status, count) ==
        if step.reason.Some? then step
        else Join(step, Ticks(cfg, ticks[i + 1..], Rest(replies), Received(status, NextReply(replies)), Inc32(count)))
  {
    assert ticks[i..][0] == ticks[i] && ticks[i..][1..] == ticks[i + 1..];
  }

  /** The whole run: start-up, the loop from sample 0, and the shut-down
      exchange once a stop condition has ended the loop. */
  function Session(cfg: Config, ticks: seq<Tick>, replies: seq<Reply>, buffer: seq<Byte>): (tr: Trace)
    requires |buffer| == 26
    ensures 1 <= tr.polls <= |ticks| + 1
    ensures |tr.sent| >= 3 && tr.sent[..3] == StartupFrames(cfg)
  {
    var loop := Ticks(cfg, ticks, Rest(replies), Received(buffer, NextReply(replies)), 0);
    var shutdown := if loop.reason.Some? then ShutdownFrames(cfg) else [];
    Trace(StartupFrames(cfg) + loop.sent + shutdown, loop.log, loop.reason, loop.polls + 1)
  }

  /** A session is the start-up exchange, then the loop, then the shut-down
      exchange when the loop stopped. */
  lemma SessionParts(cfg: Config, ticks: seq<Tick>, replies: seq<Reply>, buffer: seq<Byte>)
    requires |buffer| == 26
    ensures var loop := Ticks(cfg, ticks, Rest(replies), Received(buffer, NextReply(replies)), 0);
      Session(cfg, ticks, replies, buffer) ==
        Join(Join(Trace(StartupFrames(cfg), [], None, 1), loop),
             Trace(if loop.reason.Some? then ShutdownFrames(cfg) else [], [], loop.reason, 0))
  {
    var loop := Ticks(cfg, ticks, Rest(replies), Received(buffer, NextReply(replies)), 0);
    assert loop.log + [] == loop.log;
  }

  lemma SeqAssoc<T>(a: seq<T>, b: seq<T>, c: seq<T>)
    ensures a + b + c == a + (b + c)
  {
  }


  /** The port went from (`sent0`, `replies0`, `writes0`) to (`sent`,
      `replies`, `writes`) by doing what `tr` records: its frames were
      written, one scripted write count was used per frame and one reply
      per poll. */
  ghost predicate Did(sent0: seq<seq<Byte>>, replies0: seq<Reply>, writes0: seq<nat>,
                      sent: seq<seq<Byte>>, replies: seq<Reply>, writes: seq<nat>, tr: Trace)
  {
    sent == sent0 + tr.sent && replies == Drop(replies0, tr.polls) && writes == Drop(writes0, |tr.sent|)
  }

  lemma DidJoin(sent0: seq<seq<Byte>>, replies0: seq<Reply>, writes0: seq<nat>,
                sent1: seq<seq<Byte>>, replies1: seq<Reply>, writes1: seq<nat>,
                sent2: seq<seq<Byte>>, replies2: seq<Reply>, writes2: seq<nat>, a: Trace, b: Trace)
    requires Did(sent0, replies0, writes0, sent1, replies1, writes1, a)
    requires Did(sent1, replies1, writes1, sent2, replies2, writes2, b)
    ensures Did(sent0, replies0, writes0, sent2, replies2, writes2, Join(a, b))
  {
    DropDrop(replies0, a.polls, b.polls);
    DropDrop(writes0, |a.sent|, |b.sent|);
    SeqAssoc(sent0, a.sent, b.sent);
  }

  /** Start-up: set the load to zero under the configured ceilings, switch the
      load on under remote control, and make one poll whose reply is not
      used. */
  method Startup(port: Port, cfg: Config, status: array<Byte>)
    requires status.Length == 26
    modifies port, status
    ensures port.sent == old(port.sent) + StartupFrames(cfg)
    ensures port.replies == Rest(old(port.replies))
    ensures port.writeCounts == Drop(old(port.writeCounts), 3)
    ensures status[..] == Received(old(status[..]), NextReply(old(port.replies)))
  {
    SetLoad(port, cfg.adr, cfg.maxCurrent, cfg.maxPower, 0, cfg.mode);
    ActivateLoad(port, cfg.adr, true, true);
    var _ := RequestStatus(port, cfg.adr, status);
    DropFew(old(port.writeCounts));
  }

  /** Shut-down: switch the load off, then give control back to the front
      panel. */
  method Shutdown(port: Port, cfg: Config)
    modifies port
    ensures port.sent == old(port.sent) + ShutdownFrames(cfg)
    ensures port.replies == old(port.replies)
    ensures port.writeCounts == Drop(old(port.writeCounts), 2)
  {
    ActivateLoad(port, cfg.adr, false, true);
    ActivateLoad(port, cfg.adr, false, false);
    DropFew(old(port.writeCounts));
  }

  /** The waveform dispatch at the top of each pass: one `SetLoad` with the
      tick's ceilings and load. */
  method CommandLoad(port: Port, cfg: Config, t: Tick)
    modifies port
    ensures port.sent == old(port.sent) + [TickFrame(cfg, t)]
    ensures port.writeCounts == Rest(old(port.writeCounts)) && port.replies == old(port.replies)
  {
    var c := LoadCommand(cfg.wave, cfg.load, cfg.maxCurrent, cfg.maxPower, t.phase);
    SetLoad(port, cfg.adr, c.maxCurrent, c.maxPower, c.load, cfg.mode);
  }

  /** The status half of a pass: poll, stop on load off before anything is
      decoded or logged, otherwise log the reading and check the limits. */
  method Poll(port: Port, cfg: Config, t: Tick, status: array<Byte>, count: U32)
    returns (reason: Option<Stop>, logged: seq<Sample>)
    requires status.Length == 26
    modifies port, status
    ensures port.sent == old(port.sent) + [RequestFrame(cfg.adr)]
    ensures port.writeCounts == Rest(old(port.writeCounts)) && port.replies == Rest(old(port.replies))
    ensures status[..] == Received(old(status[..]), NextReply(old(port.replies)))
    ensures !LoadOn(status[17]) ==> reason == Some(LoadOff) && logged == []
    ensures LoadOn(status[17]) ==>
      var st := DecodeStatus(status[..]);
      logged == [Sample(t.elapsedMs, st)] && reason == CheckLimits(cfg.limits, st, t.elapsedMs, count)
  {
    var _ := RequestStatus(port, cfg.adr, status);
    if !LoadOn(status[17]) {
      return Some(LoadOff), [];
    }
    var st := DecodeStatus(status[..]);
    logged := [Sample(t.elapsedMs, st)];
    reason := CheckLimits(cfg.limits, st, t.elapsedMs, count);
  }

  /** Pass `i` of the `while(1)` loop, up to its `break`s: the caller leaves
      the loop when `reason` is not None. `step` is what the pass did, and the
      loop from here is that pass followed, if it did not stop, by the loop
      from the next tick. */
  method Pass(port: Port, cfg: Config, ticks: seq<Tick>, i: nat, status: array<Byte>, count: U32)
    returns (reason: Option<Stop>, logged: seq<Sample>, ghost step: Trace)
    requires i < |ticks| && status.Length == 26
    modifies port, status
    ensures Did(old(port.sent), old(port.replies), old(port.writeCounts),
                port.sent, port.replies, port.writeCounts, step)
    ensures step == Step(cfg, ticks[i], old(port.replies), old(status[..]), count)
    ensures status[..] == if ticks[i].escape then old(status[..])
                          else Received(old(status[..]), NextReply(old(port.replies)))
    ensures reason == step.reason && logged == step.log
    ensures Ticks(cfg, ticks[i..], old(port.replies), old(status[..]), count) ==
      if reason.Some? then step
      else Join(step, Ticks(cfg, ticks[i + 1..], port.replies, status[..], Inc32(count)))
  {
    var t := ticks[i];
    step := Step(cfg, t, port.replies, status[..], count);
    TicksAt(cfg, ticks, i, port.replies, status[..], count);
    DropFew(port.writeCounts);
    DropFew(port.replies);
    CommandLoad(port, cfg, t);
    if t.escape {
      return Some(Aborted), [], step;
    }
    reason, logged := Poll(port, cfg, t, status, count);
  }

  /** The sampling loop; `count` is raised only after the checks, wrapping as
      a 32-bit counter. The loop ends without a reason only when the ticks run
      out. */
  method Sampling(port: Port, cfg: Config, ticks: seq<Tick>, status: array<Byte>)
    returns (reason: Option<Stop>, log: seq<Sample>)
    requires status.Length == 26
    modifies port, status
    ensures var tr := Ticks(cfg, ticks, old(port.replies), old(status[..]), 0);
      && Did(old(port.sent), old(port.replies), old(port.writeCounts),
             port.sent, port.replies, port.writeCounts, tr)
      && reason == tr.reason && log == tr.log
  {
    ghost var sent0, replies0, writes0 := port.sent, port.replies, port.writeCounts;
    ghost var whole := Ticks(cfg, ticks, port.replies, status[..], 0);
    ghost var done := Idle;
    assert ticks[0..] == ticks;
    JoinIdle(whole);

    var count: U32 := 0;
    reason, log := None, [];
    var i := 0;
    while i < |ticks|
      invariant 0 <= i <= |ticks|
      invariant whole == Join(done, Ticks(cfg, ticks[i..], port.replies, status[..], count))
      invariant done.reason == None && reason == None && log == done.log
      invariant Did(sent0, replies0, writes0, port.sent, port.replies, port.writeCounts, done)
    {
      ghost var sent1, replies1, writes1 := port.sent, port.replies, port.writeCounts;
      ghost var rest := Ticks(cfg, ticks[i..], port.replies, status[..], count);
      var logged;
      ghost var step;
      reason, logged, step := Pass(port, cfg, ticks, i, status, count);
      Advance(whole, done, step, rest, Ticks(cfg, ticks[i + 1..], port.replies, status[..], Inc32(count)));
      DidJoin(sent0, replies0, writes0, sent1, replies1, writes1,
              port.sent, port.replies, port.writeCounts, done, step);
      log := log + logged;
      done := Join(done, step);
      if reason.Some? {
        break;
      }
      count := Inc32(count);
      i := i + 1;
    }
    if reason.None? {
      assert ticks[i..] == [];
      JoinIdle(done);
    }
  }

  /** `main` from the first `SetLoad` to the last `ActivateLoad`. `status` is
      the program's status buffer, whose contents before the first poll are
      whatever the stack held. The shut-down exchange follows every stop. */
  method Run(port: Port, cfg: Config, ticks: seq<Tick>, status: array<Byte>)
    returns (reason: Option<Stop>, log: seq<Sample>)
    requires status.Length == 26
    modifies port, status
    ensures var tr := Session(cfg, ticks, old(port.replies), old(status[..]));
      && Did(old(port.sent), old(port.replies), old(port.writeCounts),
             port.sent, port.replies, port.writeCounts, tr)
      && reason == tr.reason && log == tr.log
  {
    ghost var sent0, replies0, writes0 := port.sent, port.replies, port.writeCounts;
    ghost var buffer := Received(status[..], NextReply(port.replies));
    Startup(port, cfg, status);
    ghost var start := Trace(StartupFrames(cfg), [], None, 1);
    DropFew(replies0);
    assert Did(sent0, replies0, writes0, port.sent, port.replies, port.writeCounts, start);

    ghost var sent1, replies1, writes1 := port.sent, port.replies, port.writeCounts;
    reason, log := Sampling(port, cfg, ticks, status);
    ghost var loop := Ticks(cfg, ticks, replies1, buffer, 0);
    DidJoin(sent0, replies0, writes0, sent1, replies1, writes1,
            port.sent, port.replies, port.writeCounts, start, loop);

    ghost var sent2, replies2, writes2 := port.sent, port.replies, port.writeCounts;
    ghost var shutdown := Trace([], [], reason, 0);
    if reason.Some? {
      Shutdown(port, cfg);
      shutdown := Trace(ShutdownFrames(cfg), [], reason, 0);
      DropFew(replies2);
    } else {
      DropFew(replies2);
      DropFew(writes2);
      assert sent2 + [] == sent2;
    }
    assert Did(sent2, replies2, writes2, port.sent, port.replies, port.writeCounts, shutdown);
    DidJoin(sent0, replies0, writes0, sent2, replies2, writes2,
            port.sent, port.replies, port.writeCounts, Join(start, loop), shutdown);
    SessionParts(cfg, ticks, replies0, old(status[..]));
  }
}
