/** What the loop and the whole session promise, stated over the reference
    functions `Step`, `Ticks` and `Session` that `Run` is proved to follow. */
module LoopProperties {
  import opened Bytes
  import opened Transport
  import opened Commands
  import opened StatusDecoder
  import opened Termination
  import opened TestLoop

  /** One pass decides exactly as `Evaluate` does on the buffer its poll
      leaves behind: ESC stops before the poll, load off stops without a
      sample, and any other reading is logged with the pass's time. */
  lemma StepDecision(cfg: Config, t: Tick, replies: seq<Reply>, status: seq<Byte>, count: U32)
    requires |status| == 26
    ensures var tr := Step(cfg, t, replies, status, count);
      && (t.escape ==> tr == Trace([TickFrame(cfg, t)], [], Some(Aborted), 0))
      && (!t.escape ==>
            var polled := Received(status, NextReply(replies));
            && tr.sent == [TickFrame(cfg, t), RequestFrame(cfg.adr)] && tr.polls == 1
            && tr.reason == Evaluate(cfg.limits, polled, t.elapsedMs, count)
            && (tr.log == [] <==> !LoadOn(polled[17]))
            && (tr.log != [] ==> tr.log == [Sample(t.elapsedMs, DecodeStatus(polled))]))
  {
  }

  /** The decision and poll count of a pass that was not aborted. */
  lemma StepReason(cfg: Config, t: Tick, replies: seq<Reply>, status: seq<Byte>, count: U32)
    requires |status| == 26 && !t.escape
    ensures var tr := Step(cfg, t, replies, status, count);
      tr.polls == 1 && tr.reason == Evaluate(cfg.limits, Received(status, NextReply(replies)), t.elapsedMs, count)
  {
  }

  /** A stretch of the loop whose first pass polls: it stops with that
      poll's decision, or goes on from the buffer the poll left and the next
      sample number. */
  lemma TicksPoll(cfg: Config, ticks: seq<Tick>, replies: seq<Reply>, status: seq<Byte>, count: U32)
    requires |status| == 26 && ticks != [] && !ticks[0].escape
    ensures var polled := Received(status, NextReply(replies));
      var r := Evaluate(cfg.limits, polled, ticks[0].elapsedMs, count);
      var tr := Ticks(cfg, ticks, replies, status, count);
      var rest := Ticks(cfg, ticks[1..], Rest(replies), polled, Inc32(count));
      && (r.Some? ==> tr.reason == r && tr.polls == 1)
      && (r.None? ==> tr.reason == rest.reason && tr.polls == 1 + rest.polls)
  {
    StepReason(cfg, ticks[0], replies, status, count);
  }

  /** The shape of one pass: its set-load frame, then a request unless ESC
      was pressed; a sample exactly when it polled and did not find the load
      off; and an abort exactly when ESC was pressed. */
  lemma StepShape(cfg: Config, t: Tick, replies: seq<Reply>, status: seq<Byte>, count: U32)
    requires |status| == 26
    ensures var tr := Step(cfg, t, replies, status, count);
      && tr.polls == (if t.escape then 0 else 1)
      && |tr.sent| == 1 + tr.polls && tr.sent[0] == TickFrame(cfg, t)
      && (tr.polls == 1 ==> tr.sent[1] == RequestFrame(cfg.adr))
      && |tr.log| == tr.polls - (if tr.reason == Some(LoadOff) then 1 else 0)
      && (tr.log != [] ==> tr.log[0].elapsedMs == t.elapsedMs)
      && (tr.reason == Some(Aborted) <==> t.escape)
  {
    if !t.escape {
      var polled := Received(status, NextReply(replies));
      if LoadOn(polled[17]) {
        var st := DecodeStatus(polled);
        assert CheckLimits(cfg.limits, st, t.elapsedMs, count) != Some(Aborted);
      }
    }
  }

  /** How many polls, frames and samples any stretch of the loop makes: two
      frames per poll, one more after an abort, one sample per poll except a
      load-off one, and a stretch ends without a reason only once every tick
      has polled. */
  lemma {:induction false} TicksCounts(cfg: Config, ticks: seq<Tick>, replies: seq<Reply>, status: seq<Byte>, count: U32)
    requires |status| == 26
    ensures var tr := Ticks(cfg, ticks, replies, status, count);
      && tr.polls <= |ticks|
      && |tr.sent| == 2 * tr.polls + (if tr.reason == Some(Aborted) then 1 else 0)
      && |tr.log| == tr.polls - (if tr.reason == Some(LoadOff) then 1 else 0)
      && (tr.reason == None ==> tr.polls == |ticks|)
      && (tr.reason == Some(Aborted) ==> tr.polls < |ticks|)
    decreases |ticks|
  {
    if ticks != [] {
      var step := Step(cfg, ticks[0], replies, status, count);
      StepShape(cfg, ticks[0], replies, status, count);
      if step.reason.None? {
        TicksCounts(cfg, ticks[1..], Rest(replies), Received(status, NextReply(replies)), Inc32(count));
      }
    }
  }

  /** The set-load frame of each tick, in order. */
  function TickFrames(cfg: Config, ticks: seq<Tick>): (fs: seq<seq<Byte>>)
    ensures |fs| == |ticks|
  {
    seq(|ticks|, k requires 0 <= k < |ticks| => TickFrame(cfg, ticks[k]))
  }

  lemma TickFramesTail(cfg: Config, ticks: seq<Tick>)
    requires ticks != []
    ensures TickFrames(cfg, ticks)[1..] == TickFrames(cfg, ticks[1..])
  {
    var fs, gs := TickFrames(cfg, ticks)[1..], TickFrames(cfg, ticks[1..]);
    forall k | 0 <= k < |gs| ensures fs[k] == gs[k] {
      assert ticks[1..][k] == ticks[k + 1];
    }
  }

  /** The first `2 * n` elements of `sent` are `firsts[0], second,
      firsts[1], second, ...`. */
  ghost predicate Alternates<T>(sent: seq<T>, firsts: seq<T>, second: T, n: nat)
  {
    n <= |firsts| && 2 * n <= |sent| &&
    forall k :: 0 <= k < n ==> sent[2 * k] == firsts[k] && sent[2 * k + 1] == second
  }

  lemma AlternatesCons<T>(rest: seq<T>, firsts: seq<T>, second: T, n: nat)
    requires firsts != [] && Alternates(rest, firsts[1..], second, n)
    ensures Alternates([firsts[0], second] + rest, firsts, second, n + 1)
  {
    var sent := [firsts[0], second] + rest;
    forall k | 0 <= k < n + 1 ensures sent[2 * k] == firsts[k] && sent[2 * k + 1] == second {
      if k > 0 {
        assert sent[2 * k] == rest[2 * (k - 1)] && firsts[1..][k - 1] == firsts[k];
        assert sent[2 * k + 1] == rest[2 * (k - 1) + 1];
      }
    }
  }

  /** `tr` wrote, for each of its polls `k`, the set-load frame of tick `k`
      and then a status request, and, when it ended on an abort, the set-load
      frame of the aborted tick last. */
  ghost predicate FramesFollow(frames: seq<seq<Byte>>, request: seq<Byte>, tr: Trace)
  {
    && |tr.sent| == 2 * tr.polls + (if tr.reason == Some(Aborted) then 1 else 0)
    && Alternates(tr.sent, frames, request, tr.polls)
    && (tr.reason == Some(Aborted) ==> tr.polls < |frames| && tr.sent[2 * tr.polls] == frames[tr.polls])
  }

  /** A polling pass followed by a stretch that fits the frames after its own
      fits them all. */
  lemma PassThenFrames(frames: seq<seq<Byte>>, request: seq<Byte>, step: Trace, rest: Trace)
    requires frames != [] && step.polls == 1 && step.reason == None
    requires step.sent == [frames[0], request]
    requires FramesFollow(frames[1..], request, rest)
    ensures FramesFollow(frames, request, Join(step, rest))
  {
    AlternatesCons(rest.sent, frames, request, rest.polls);
    if rest.reason == Some(Aborted) {
      assert Join(step, rest).sent[2 * (rest.polls + 1)] == rest.sent[2 * rest.polls];
    }
  }

  /** The frames any stretch of the loop writes: pass `k` writes the set-load
      frame of tick `k` and then a status request, and an abort writes the
      set-load frame of its tick and nothing after it. */
  lemma {:induction false} TicksFrames(cfg: Config, ticks: seq<Tick>, replies: seq<Reply>, status: seq<Byte>, count: U32)
    requires |status| == 26
    ensures FramesFollow(TickFrames(cfg, ticks), RequestFrame(cfg.adr), Ticks(cfg, ticks, replies, status, count))
    decreases |ticks|
  {
    if ticks != [] {
      var step := Step(cfg, ticks[0], replies, status, count);
      StepShape(cfg, ticks[0], replies, status, count);
      TicksAt(cfg, ticks, 0, replies, status, count);
      assert ticks[0..] == ticks;
      if step.reason.None? {
        var next := Received(status, NextReply(replies));
        TicksFrames(cfg, ticks[1..], Rest(replies), next, Inc32(count));
        TickFramesTail(cfg, ticks);
        PassThenFrames(TickFrames(cfg, ticks), RequestFrame(cfg.adr), step,
                       Ticks(cfg, ticks[1..], Rest(replies), next, Inc32(count)));
      }
    }
  }

  /** Every logged sample carries the time of its own pass: the `k`-th sample
      comes from tick `k`, as no pass before it stopped without polling. */
  lemma {:induction false} TicksTimes(cfg: Config, ticks: seq<Tick>, replies: seq<Reply>, status: seq<Byte>, count: U32)
    requires |status| == 26
    ensures var tr := Ticks(cfg, ticks, replies, status, count);
      |tr.log| <= |ticks| && forall k :: 0 <= k < |tr.log| ==> tr.log[k].elapsedMs == ticks[k].elapsedMs
    decreases |ticks|
  {
    if ticks != [] {
      var step := Step(cfg, ticks[0], replies, status, count);
      StepShape(cfg, ticks[0], replies, status, count);
      if step.reason.None? {
        var rest := Ticks(cfg, ticks[1..], Rest(replies), Received(status, NextReply(replies)), Inc32(count));
        TicksTimes(cfg, ticks[1..], Rest(replies), Received(status, NextReply(replies)), Inc32(count));
        var tr := Join(step, rest);
        assert Ticks(cfg, ticks, replies, status, count) == tr;
        forall k | 0 <= k < |tr.log| ensures tr.log[k].elapsedMs == ticks[k].elapsedMs {
          if k > 0 {
            assert tr.log[k] == rest.log[k - 1] && ticks[1..][k - 1] == ticks[k];
          }
        }
      }
    }
  }

  /** With the voltage, current and time limits unset and the load on, the
      only thing that can stop a pass is the sample count passing its limit. */
  lemma OnlySampleLimit(lim: Limits, s: seq<Byte>, elapsedMs: nat, count: U32)
    requires |s| == 26 && LoadOn(s[17])
    requires lim.minVolts < 0.0 && lim.minAmps < 0.0 && lim.totalSeconds <= 0.0
    ensures Evaluate(lim, s, elapsedMs, count) ==
      if lim.sampleCount != NoSampleLimit && count > lim.sampleCount then Some(SampleLimit) else None
  {
    DecodedValuesNonNegative(s);
  }

  /** With no voltage, current or time limit, a sample limit of `N`, no ESC
      and the load staying on, the loop from sample number `count` makes
      exactly `N + 2 - count` polls and stops on the sample limit: the count
      is compared before it is raised. */
  lemma {:induction false} SampleLimitPolls(cfg: Config, ticks: seq<Tick>, replies: seq<Reply>, status: seq<Byte>, count: U32)
    requires |status| == 26
    requires cfg.limits.minVolts < 0.0 && cfg.limits.minAmps < 0.0 && cfg.limits.totalSeconds <= 0.0
    requires cfg.limits.sampleCount != NoSampleLimit && count <= cfg.limits.sampleCount + 1
    requires forall j :: 0 <= j < |ticks| ==> !ticks[j].escape
    requires forall j :: 0 <= j < |replies| ==> |replies[j]| == 26 && LoadOn(replies[j][17])
    requires |ticks| >= cfg.limits.sampleCount + 2 - count && |replies| >= cfg.limits.sampleCount + 2 - count
    ensures var tr := Ticks(cfg, ticks, replies, status, count);
      tr.reason == Some(SampleLimit) && tr.polls == cfg.limits.sampleCount + 2 - count
    decreases cfg.limits.sampleCount + 1 - count
  {
    var t := ticks[0];
    var polled := Received(status, NextReply(replies));
    assert polled == replies[0];
    TicksPoll(cfg, ticks, replies, status, count);
    OnlySampleLimit(cfg.limits, polled, t.elapsedMs, count);
    if count <= cfg.limits.sampleCount {
      assert Rest(replies) == replies[1..];
      SampleLimitPolls(cfg, ticks[1..], Rest(replies), polled, Inc32(count));
    }
  }

  /** The parts of `a + b + c` when `a` has three elements and `c` two or none. */
  lemma ThreeParts<T>(a: seq<T>, b: seq<T>, c: seq<T>)
    requires |a| == 3 && (|c| == 2 || c == [])
    ensures var s := a + b + c;
      && s[..3] == a
      && (|c| == 2 ==> s[3..|s| - 2] == b && s[|s| - 2] == c[0] && s[|s| - 1] == c[1])
      && (c == [] ==> s[3..] == b)
  {
    var s := a + b + c;
    assert s[..3] == a;
    if |c| == 2 {
      assert s[3..|s| - 2] == b;
    } else {
      assert s[3..] == b;
    }
  }

  /** Every session starts with the start-up exchange; one that stopped ends
      with the load switched off and then front-panel control handed back,
      after the last frame of the loop; and it polls once more than its
      loop. */
  lemma SessionShape(cfg: Config, ticks: seq<Tick>, replies: seq<Reply>, buffer: seq<Byte>)
    requires |buffer| == 26
    ensures var tr := Session(cfg, ticks, replies, buffer);
      var loop := Ticks(cfg, ticks, Rest(replies), Received(buffer, NextReply(replies)), 0);
      && tr.sent[..3] == StartupFrames(cfg)
      && tr.polls == loop.polls + 1 && tr.log == loop.log && tr.reason == loop.reason
      && (tr.reason.Some? ==>
            && tr.sent[3..|tr.sent| - 2] == loop.sent
            && tr.sent[|tr.sent| - 2] == ActivateFrame(cfg.adr, false, true)
            && tr.sent[|tr.sent| - 1] == ActivateFrame(cfg.adr, false, false))
      && (tr.reason.None? ==> tr.sent[3..] == loop.sent)
  {
    var loop := Ticks(cfg, ticks, Rest(replies), Received(buffer, NextReply(replies)), 0);
    ThreeParts(StartupFrames(cfg), loop.sent, if loop.reason.Some? then ShutdownFrames(cfg) else []);
  }

  /** The stop-on-sample-limit case for a whole run: `N + 2` polls in the
      loop, the start-up poll before them, and the shut-down exchange after. */
  lemma SessionSampleLimit(cfg: Config, ticks: seq<Tick>, replies: seq<Reply>, buffer: seq<Byte>)
    requires |buffer| == 26
    requires cfg.limits.minVolts < 0.0 && cfg.limits.minAmps < 0.0 && cfg.limits.totalSeconds <= 0.0
    requires cfg.limits.sampleCount != NoSampleLimit
    requires forall j :: 0 <= j < |ticks| ==> !ticks[j].escape
    requires forall j :: 1 <= j < |replies| ==> |replies[j]| == 26 && LoadOn(replies[j][17])
    requires |ticks| >= cfg.limits.sampleCount + 2 && |replies| >= cfg.limits.sampleCount + 3
    ensures var tr := Session(cfg, ticks, replies, buffer);
      && tr.reason == Some(SampleLimit) && tr.polls == cfg.limits.sampleCount + 3
      && tr.sent[|tr.sent| - 2..] == ShutdownFrames(cfg)
  {
    var polled := Received(buffer, NextReply(replies));
    SampleLimitPolls(cfg, ticks, Rest(replies), polled, 0);
    SessionShape(cfg, ticks, replies, buffer);
  }
}
