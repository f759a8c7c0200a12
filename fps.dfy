/**
 * The frame-rate sampler (FPSPerfService). Each update reads the present
 * timestamps of the target layer from the compositor's latency table and
 * queues the frame times (in ms) of the frames not seen before; each dump
 * polls frame times until one second's worth has been taken and emits
 * frames per second.
 */
module Fps {
  import opened Text
  import opened Sampler

  /** The layer whose latency table is read: its name and its ordinal among equally named layers. */
  datatype TargetLayer = TargetLayer(name: string, id: nat)

  const NS_PER_MS: real := 1000000.0
  const WINDOW_MS: real := 1000.0

  // ---------------------------------------------------------------------
  // The latency table: a header line, then rows "desired actual ready"

  function Prepend(t: int, rest: Option<seq<int>>): Option<seq<int>>
  {
    match rest
    case None => None
    case Some(ts) => Some([t] + ts)
  }

  /**
   * The actual-present timestamps of rows i.. up to the first empty line:
   * rows without exactly three fields are skipped, and so are pending frames
   * (Long.MAX_VALUE); a middle field that is not a long is a NumberFormatException (None).
   */
  function RowTimestamps(lines: seq<string>, i: nat): Option<seq<int>>
    decreases |lines| - i
  {
    if i >= |lines| || lines[i] == "" then Some([])
    else RowStep(lines[i], RowTimestamps(lines, i + 1))
  }

  /** One non-empty row in front of the timestamps of the rows after it. */
  function RowStep(line: string, rest: Option<seq<int>>): Option<seq<int>>
  {
    var fields := Split(line, WhiteChar);
    if |fields| != 3 then rest
    else match ParseJavaInt(fields[1], LONG_MIN, LONG_MAX)
      case None => None
      case Some(t) => if t == LONG_MAX then rest else Prepend(t, rest)
  }

  function ClearCommand(layerName: string): string
  {
    "dumpsys SurfaceFlinger --latency-clear '" + layerName + "'"
  }

  /**
   * The lines of the table that belongs to the target, or None when there is
   * nothing to read: no target, empty output, or (SDK 24 and 25, which print
   * one table per equally named layer, separated by blank lines) no table at
   * the target's ordinal.
   */
  function TableLines(target: Option<TargetLayer>, output: string, sdkVersion: int): Option<seq<string>>
  {
    if target.None? || output == "" then None
    else
      var text := ReplaceCrlf(output);
      if sdkVersion == 24 || sdkVersion == 25 then
        var blocks := Split(text, Literal("\n\n"));
        if target.value.id >= |blocks| then None else Some(Split(blocks[target.value.id], Literal("\n")))
      else Some(Split(text, Literal("\n")))
  }

  /** What acquireLatencyData returns; None is the escaping NumberFormatException. */
  function LatencyData(target: Option<TargetLayer>, output: string, sdkVersion: int): Option<seq<int>>
  {
    match TableLines(target, output, sdkVersion)
    case None => Some([])
    case Some(lines) => RowTimestamps(lines, 1)
  }

  function Join(prefix: seq<int>, rest: Option<seq<int>>): Option<seq<int>>
  {
    match rest
    case None => None
    case Some(ts) => Some(prefix + ts)
  }

  lemma JoinEmpty(rest: Option<seq<int>>)
    ensures Join([], rest) == rest
  {
    if rest.Some? {
      assert [] + rest.value == rest.value;
    }
  }

  lemma JoinPrepend(prefix: seq<int>, t: int, rest: Option<seq<int>>)
    ensures Join(prefix, Prepend(t, rest)) == Join(prefix + [t], rest)
  {
    if rest.Some? {
      assert prefix + ([t] + rest.value) == prefix + [t] + rest.value;
    }
  }

  method AcquireLatencyData(target: Option<TargetLayer>, output: string, sdkVersion: int)
    returns (results: Option<seq<int>>)
    ensures results == LatencyData(target, output, sdkVersion)
  {
    if target.None? || output == "" {
      return Some([]);
    }
    var text := ReplaceCrlf(output);
    if sdkVersion == 24 || sdkVersion == 25 {
      var blocks := Split(text, Literal("\n\n"));
      if target.value.id >= |blocks| {
        return Some([]);
      }
      text := blocks[target.value.id];
    }
    var lines := Split(text, Literal("\n"));
    assert TableLines(target, output, sdkVersion) == Some(lines);
    JoinEmpty(RowTimestamps(lines, 1));
    var acc: seq<int> := [];
    var i := 1;
    while i < |lines|
      invariant 1 <= i
      invariant RowTimestamps(lines, 1) == Join(acc, RowTimestamps(lines, i))
    {
      if lines[i] == "" {
        break;
      }
      var fields := Split(lines[i], WhiteChar);
      if |fields| != 3 {
        i := i + 1;
        continue;
      }
      var parsed := ParseJavaInt(fields[1], LONG_MIN, LONG_MAX);
      if parsed.None? {
        return None;
      }
      if parsed.value != LONG_MAX {
        JoinPrepend(acc, parsed.value, RowTimestamps(lines, i + 1));
        acc := acc + [parsed.value];
      }
      i := i + 1;
    }
    return Join(acc, Some([]));
  }

  /** Every returned timestamp is the parsed middle field of a three-field row of the table, never the pending marker. */
  lemma {:induction false} TimestampsAreMiddleColumn(lines: seq<string>, i: nat, t: int)
    requires RowTimestamps(lines, i).Some? && t in RowTimestamps(lines, i).value
    ensures t != LONG_MAX
    ensures exists j :: i <= j < |lines| && lines[j] != "" && RowField(lines[j]) == Some(t)
    decreases |lines| - i
  {
    var fields := Split(lines[i], WhiteChar);
    if |fields| != 3 {
      TimestampsAreMiddleColumn(lines, i + 1, t);
    } else {
      var v := ParseJavaInt(fields[1], LONG_MIN, LONG_MAX).value;
      if v == LONG_MAX || t != v {
        TimestampsAreMiddleColumn(lines, i + 1, t);
      } else {
        assert RowField(lines[i]) == Some(t);
      }
    }
  }

  /** The middle field of a three-field row, as a long. */
  function RowField(line: string): Option<int>
  {
    var fields := Split(line, WhiteChar);
    if |fields| != 3 then None else ParseJavaInt(fields[1], LONG_MIN, LONG_MAX)
  }

  /** Nothing after the first empty line is read. */
  lemma {:induction false} StopsAtEmptyLine(lines: seq<string>, i: nat, k: nat)
    requires i <= k < |lines| && lines[k] == ""
    ensures RowTimestamps(lines, i) == RowTimestamps(lines[..k], i)
    decreases k - i
  {
    if i < k {
      assert lines[..k][i] == lines[i];
      StopsAtEmptyLine(lines, i + 1, k);
    }
  }

  lemma NoTableNoTimestamps(target: Option<TargetLayer>, output: string, sdkVersion: int)
    requires target.None? || output == ""
    ensures LatencyData(target, output, sdkVersion) == Some([])
  {
  }

  // ---------------------------------------------------------------------
  // Frame times

  /** The first index at or after i whose timestamp is newer than `last`, or |ts|. */
  function FirstNewer(ts: seq<int>, last: int, i: nat): (k: nat)
    requires i <= |ts|
    ensures i <= k <= |ts|
    ensures forall j :: i <= j < k ==> ts[j] <= last
    ensures k < |ts| ==> ts[k] > last
    decreases |ts| - i
  {
    if i == |ts| || ts[i] > last then i else FirstNewer(ts, last, i + 1)
  }

  /** Frame times in ms for indices i.., skipping index 0 and any frame whose predecessor is 0. */
  function FrameTimesFrom(ts: seq<int>, i: nat): seq<real>
    decreases |ts| - i
  {
    if i >= |ts| then []
    else (if i == 0 || ts[i - 1] == 0 then [] else [(ts[i] - ts[i - 1]) as real / NS_PER_MS]) + FrameTimesFrom(ts, i + 1)
  }

  function Sum(q: seq<real>): real
  {
    if q == [] then 0.0 else Sum(q[..|q| - 1]) + q[|q| - 1]
  }

  lemma {:induction false} SumFront(q: seq<real>)
    requires q != []
    ensures Sum(q) == q[0] + Sum(q[1..])
    decreases |q|
  {
    if |q| > 1 {
      SumFront(q[..|q| - 1]);
      assert q[..|q| - 1][1..] == q[1..][..|q| - 2];
    }
  }

  /** At most one frame time per timestamp after the first: never more than n - 1 for n timestamps. */
  lemma {:induction false} FrameTimesBound(ts: seq<int>, i: nat)
    requires i <= |ts|
    ensures |FrameTimesFrom(ts, i)| <= |ts| - i
    ensures i == 0 && ts != [] ==> |FrameTimesFrom(ts, i)| <= |ts| - 1
    decreases |ts| - i
  {
    if i < |ts| {
      FrameTimesBound(ts, i + 1);
      FrameTimesStep(ts, i);
    }
  }

  /** One timestamp adds at most one frame time, and the first adds none. */
  lemma FrameTimesStep(ts: seq<int>, i: nat)
    requires i < |ts|
    ensures |FrameTimesFrom(ts, i)| <= 1 + |FrameTimesFrom(ts, i + 1)|
    ensures i == 0 ==> FrameTimesFrom(ts, i) == FrameTimesFrom(ts, i + 1)
  {
  }

  /** Without zero timestamps the frame times add up to the span from ts[i-1] to the last timestamp. */
  lemma {:induction false} FrameTimesTelescope(ts: seq<int>, i: nat)
    requires 0 < i <= |ts|
    requires forall j :: i - 1 <= j < |ts| ==> ts[j] != 0
    ensures Sum(FrameTimesFrom(ts, i)) == (ts[|ts| - 1] - ts[i - 1]) as real / NS_PER_MS
    decreases |ts| - i
  {
    if i < |ts| {
      FrameTimesTelescope(ts, i + 1);
      var head := (ts[i] - ts[i - 1]) as real / NS_PER_MS;
      var rest := FrameTimesFrom(ts, i + 1);
      assert FrameTimesFrom(ts, i) == [head] + rest;
      SumFront([head] + rest);
      assert ([head] + rest)[1..] == rest;
    }
  }

  // ---------------------------------------------------------------------
  // The dump window

  /** How many frame times one dump polls: until the queue is empty or the running total exceeds 1000 ms. */
  function DrainCount(q: seq<real>, total: real): (k: nat)
    ensures k <= |q|
    ensures q != [] ==> k >= 1
    decreases |q|
  {
    if q == [] then 0
    else if total + q[0] > WINDOW_MS then 1
    else 1 + DrainCount(q[1..], total + q[0])
  }

  /** Polling stops at the first frame that takes the total past one second, and not before. */
  lemma {:induction false} DrainStopsAtFirstExcess(q: seq<real>, total: real)
    ensures var k := DrainCount(q, total);
      && (forall j :: 1 <= j < k ==> total + Sum(q[..j]) <= WINDOW_MS)
      && (k < |q| ==> total + Sum(q[..k]) > WINDOW_MS)
    decreases |q|
  {
    if q != [] {
      var k := DrainCount(q, total);
      DrainStopsAtFirstExcess(q[1..], total + q[0]);
      forall j | 1 <= j <= k
        ensures total + Sum(q[..j]) == total + q[0] + Sum(q[1..][..j - 1])
      {
        SumFront(q[..j]);
        assert q[..j][1..] == q[1..][..j - 1];
      }
    }
  }

  function FpsOf(frames: int, totalMs: real): real
  {
    if totalMs != 0.0 then frames as real / totalMs * 1000.0 else 0.0
  }

  /** Present times 100, 120 and 140 ms give two 20 ms frames, i.e. 50 frames per second; a zero timestamp is not a frame boundary. */
  lemma FpsExample()
    ensures FrameTimesFrom([100000000, 120000000, 140000000], 0) == [20.0, 20.0]
    ensures DrainCount([20.0, 20.0], 0.0) == 2 && FpsOf(2, Sum([20.0, 20.0])) == 50.0
    ensures FrameTimesFrom([0, 120000000, 140000000], 0) == [20.0]
  {
  }

  /** The loop that skips the frames already seen: the index of the first newer one. */
  method SkipSeenFrames(ts: seq<int>, last: int) returns (k: nat)
    ensures k == FirstNewer(ts, last, 0)
  {
    k := 0;
    while k < |ts|
      invariant 0 <= k <= |ts|
      invariant FirstNewer(ts, last, 0) == FirstNewer(ts, last, k)
    {
      if ts[k] > last {
        break;
      }
      k := k + 1;
    }
  }

  /** The loop that turns timestamps from index k on into frame times. */
  method FrameTimes(ts: seq<int>, k: nat) returns (times: seq<real>)
    requires k <= |ts|
    ensures times == FrameTimesFrom(ts, k)
  {
    times := [];
    var i := k;
    while i < |ts|
      invariant k <= i <= |ts|
      invariant times + FrameTimesFrom(ts, i) == FrameTimesFrom(ts, k)
    {
      var step := if i == 0 || ts[i - 1] == 0 then [] else [(ts[i] - ts[i - 1]) as real / NS_PER_MS];
      assert FrameTimesFrom(ts, i) == step + FrameTimesFrom(ts, i + 1);
      assert times + FrameTimesFrom(ts, i) == (times + step) + FrameTimesFrom(ts, i + 1);
      times := times + step;
      i := i + 1;
    }
  }

  /** The polling loop of a dump: frames are taken until the total passes one second or the queue runs out. */
  method Drain(q: seq<real>, total0: real) returns (rest: seq<real>, total: real, polled: nat)
    ensures polled == DrainCount(q, total0)
    ensures rest == q[polled..]
    ensures total == total0 + Sum(q[..polled])
  {
    rest := q;
    total := total0;
    polled := 0;
    while rest != []
      invariant polled <= |q| && rest == q[polled..]
      invariant total == total0 + Sum(q[..polled])
      invariant DrainCount(q, total0) == polled + DrainCount(rest, total)
    {
      var frameTime := rest[0];
      assert q[..polled + 1][..polled] == q[..polled] && q[..polled + 1][polled] == frameTime;
      total := total + frameTime;
      rest := rest[1..];
      polled := polled + 1;
      if total > WINDOW_MS {
        break;
      }
    }
  }

  class FpsSampler {
    const base: BaseSampler<real>
    var lastFrameTimestamp: int
    var totalTime: real
    var numFrames: int

    constructor ()
      ensures fresh(base)
      ensures base.dataQueue == [] && base.timer == 0 && !base.executorShutDown
      ensures base.updateTask == NoTask && base.dumpTask == NoTask
      ensures lastFrameTimestamp == 0 && totalTime == 0.0 && numFrames == 0
    {
      base := new BaseSampler<real>();
      lastFrameTimestamp := 0;
      totalTime := 0.0;
      numFrames := 0;
    }

    /**
     * One update tick: queue the frame times of the frames newer than the
     * last one seen. When the table cannot be parsed the exception leaves
     * everything as it was and `completed` is false.
     */
    method Update(target: Option<TargetLayer>, latencyOutput: string, sdkVersion: int) returns (completed: bool)
      modifies this`lastFrameTimestamp, base`dataQueue, base`updateTask
      ensures completed <==> LatencyData(target, latencyOutput, sdkVersion).Some?
      ensures !completed ==> lastFrameTimestamp == old(lastFrameTimestamp) && base.dataQueue == old(base.dataQueue)
      ensures !completed ==> base.updateTask == Suppress(old(base.updateTask))
      ensures completed ==> base.updateTask == old(base.updateTask)
      ensures completed ==>
        var ts := LatencyData(target, latencyOutput, sdkVersion).value;
        var k := FirstNewer(ts, old(lastFrameTimestamp), 0);
        && (k == |ts| ==> lastFrameTimestamp == old(lastFrameTimestamp) && base.dataQueue == old(base.dataQueue))
        && (k < |ts| ==> lastFrameTimestamp == ts[|ts| - 1]
                         && base.dataQueue == old(base.dataQueue) + FrameTimesFrom(ts, k))
    {
      var frameResults := AcquireLatencyData(target, latencyOutput, sdkVersion);
      if frameResults.None? {
        base.UpdateThrew();
        return false;
      }
      completed := true;
      var ts := frameResults.value;
      var k := SkipSeenFrames(ts, lastFrameTimestamp);
      if k < |ts| {
        lastFrameTimestamp := ts[|ts| - 1];
        var frameTimes := FrameTimes(ts, k);
        base.dataQueue := base.dataQueue + frameTimes;
      }
    }

    /** One dump tick: the frames per second over the polled window; what was not polled stays queued. */
    method Dump() returns (fps: real)
      modifies this`totalTime, this`numFrames, base`dataQueue
      ensures
        var q := old(base.dataQueue);
        var k := DrainCount(q, old(totalTime));
        && base.dataQueue == q[k..]
        && fps == FpsOf(old(numFrames) + k, old(totalTime) + Sum(q[..k]))
      ensures totalTime == 0.0 && numFrames == 0
    {
      base.Dump();
      var rest, total, polled := Drain(base.dataQueue, totalTime);
      base.dataQueue := rest;
      fps := FpsOf(numFrames + polled, total);
      totalTime := 0.0;
      numFrames := 0;
    }

    /** Clears the latency history of every known layer, then schedules update and dump. */
    method Begin(layerNames: seq<string>) returns (clearCommands: seq<string>)
      requires !base.executorShutDown
      modifies base`updateTask, base`dumpTask
      ensures |clearCommands| == |layerNames|
      ensures forall i :: 0 <= i < |layerNames| ==> clearCommands[i] == ClearCommand(layerNames[i])
      ensures base.updateTask == Scheduled && base.dumpTask == Scheduled
    {
      clearCommands := [];
      for i := 0 to |layerNames|
        invariant |clearCommands| == i
        invariant forall j :: 0 <= j < i ==> clearCommands[j] == ClearCommand(layerNames[j])
      {
        clearCommands := clearCommands + [ClearCommand(layerNames[i])];
      }
      base.Begin();
    }
  }
}
