/**
  The script's `main`: it opens a streamer, then forever reads the sensor
  and hands the lines to `save_result`, sleeping between cycles. Only
  `KeyboardInterrupt` is caught, and only then is the streamer closed;
  any other exception raised in a cycle, including the one `time.sleep`
  raises for a negative delay, leaves the loop and `main`.

  The `cat` output of each cycle is an input: `outputs` lists the decoded
  outputs of the successive reads, and the interrupt arrives (during the
  sleep) after the last of them. The streamer is an abstract sink that
  records the calls it receives.
 */
module Polling {
  import opened Wrappers
  import opened Text
  import opened Reading
  import opened Startup

  /** Stands for the `ISStreamer` client: it records `log` and `close` calls. */
  class Streamer {
    const bucketName: string
    const accessKey: string
    const bucketKey: Option<string>
    var events: seq<Event>
    var closeCalls: nat

    constructor (bucketName: string, accessKey: string, bucketKey: Option<string>)
      ensures this.bucketName == bucketName && this.accessKey == accessKey && this.bucketKey == bucketKey
      ensures events == [] && closeCalls == 0
    {
      this.bucketName := bucketName;
      this.accessKey := accessKey;
      this.bucketKey := bucketKey;
      events := [];
      closeCalls := 0;
    }

    /** `streamer.log(key, value)`. */
    method Log(key: string, value: real)
      modifies this
      ensures events == old(events) + [Event(key, value)]
      ensures closeCalls == old(closeCalls)
    {
      events := events + [Event(key, value)];
    }

    /** `streamer.close()`. */
    method Close()
      modifies this
      ensures events == old(events)
      ensures closeCalls == old(closeCalls) + 1
    {
      closeCalls := closeCalls + 1;
    }
  }

  /** How `main` ends: the interrupt was caught, or another exception escaped. */
  datatype Ending = Interrupted | Crashed(error: Exception)

  /** What a run of the loop shows: the events logged, the lines printed, the ending. */
  datatype Run = Run(logged: seq<Event>, printed: seq<Diagnostic>, ending: Ending)

  /** The events a normally returning `save_result` sends. */
  function Sent(c: Cycle): (s: seq<Event>)
    ensures |s| <= 1
    ensures |s| == 1 <==> c.logged.Some?
  {
    if c.logged.Some? then [c.logged.value] else []
  }

  /** The cycle on `output` raises out of the loop. */
  predicate Crashes(sensor: string, units: Units, output: string)
  {
    SaveResult(sensor, ReadTempRaw(output), units).Failure?
  }

  /** The second line of `output` holds the marker. */
  predicate Marked(output: string)
  {
    var lines := ReadTempRaw(output);
    |lines| >= 2 && Contains(lines[1], Marker)
  }

  /** The data line of `output` lacks the marker, so the cycle only prints the lines. */
  predicate Unmarked(output: string)
  {
    |ReadTempRaw(output)| >= 2 && !Marked(output)
  }

  /** Number of outputs whose second line holds the marker. */
  function CountMarked(outputs: seq<string>): nat
  {
    if outputs == [] then 0
    else (if Marked(outputs[0]) then 1 else 0) + CountMarked(outputs[1..])
  }

  /** What each read's `save_result` does, in cycle order. */
  function Steps(sensor: string, units: Units, outputs: seq<string>): (r: seq<Result<Cycle, Exception>>)
    ensures |r| == |outputs|
  {
    if outputs == [] then []
    else [SaveResult(sensor, ReadTempRaw(outputs[0]), units)] + Steps(sensor, units, outputs[1..])
  }

  /** How the loop over these cycle outcomes ends: at the first exception, or at the interrupt. */
  function EndOf(steps: seq<Result<Cycle, Exception>>): Ending
  {
    if steps == [] then Interrupted
    else if steps[0].Failure? then Crashed(steps[0].error)
    else EndOf(steps[1..])
  }

  /** The loop reaches the interrupt iff no cycle raises; otherwise the FIRST exception ends it. */
  lemma {:induction false} EndOfFirstException(steps: seq<Result<Cycle, Exception>>)
    ensures EndOf(steps) == Interrupted <==> forall k :: 0 <= k < |steps| ==> steps[k].Success?
    ensures EndOf(steps).Crashed? ==>
              exists k :: 0 <= k < |steps| && steps[k] == Failure(EndOf(steps).error) &&
                          forall j :: 0 <= j < k ==> steps[j].Success?
  {
    if steps != [] && steps[0].Success? {
      EndOfFirstException(steps[1..]);
      assert forall k :: 1 <= k < |steps| ==> steps[k] == steps[1..][k - 1];
      if EndOf(steps).Crashed? {
        var k :| 0 <= k < |steps[1..]| && steps[1..][k] == Failure(EndOf(steps).error) &&
                 forall j :: 0 <= j < k ==> steps[1..][j].Success?;
        assert steps[k + 1] == Failure(EndOf(steps).error);
      }
    }
  }

  /** The events the streamer receives, up to the first exception. */
  function Logged(steps: seq<Result<Cycle, Exception>>): (events: seq<Event>)
    ensures |events| <= |steps|
  {
    if steps == [] || steps[0].Failure? then []
    else Sent(steps[0].value) + Logged(steps[1..])
  }

  /** What `save_result` prints, one line per cycle up to the first exception. */
  function Printed(steps: seq<Result<Cycle, Exception>>): (lines: seq<Diagnostic>)
    ensures |lines| <= |steps|
    ensures EndOf(steps) == Interrupted ==> |lines| == |steps|
  {
    if steps == [] || steps[0].Failure? then []
    else [steps[0].value.printed] + Printed(steps[1..])
  }

  /** The loop's observable behaviour over the successive outputs, then the interrupt. */
  function Trace(sensor: string, units: Units, outputs: seq<string>): Run
  {
    var steps := Steps(sensor, units, outputs);
    Run(Logged(steps), Printed(steps), EndOf(steps))
  }

  /**
    The run of `main` under `config`. `time.sleep` raises `ValueError` for a
    negative delay, which `--delay` lets through: the first cycle that
    returns normally is then followed by that exception. Otherwise the run
    is the loop's `Trace`.
   */
  function MainRun(config: Config, outputs: seq<string>): Run
  {
    if config.delay >= 0 || outputs == [] then Trace(config.sensor, config.units, outputs)
    else
      var first := Trace(config.sensor, config.units, outputs[..1]);
      if first.ending == Interrupted then Run(first.logged, first.printed, Crashed(ValueError)) else first
  }

  /** With a non-negative delay, the run is the loop's trace. */
  lemma MainRunIsTrace(config: Config, outputs: seq<string>)
    requires config.delay >= 0
    ensures MainRun(config, outputs) == Trace(config.sensor, config.units, outputs)
  {
  }

  /**
    With a negative delay the run ends after the first read: with that
    cycle's exception, or with the sleep's `ValueError` after what it logged
    and printed.
   */
  lemma NegativeDelayStopsAfterFirstRead(config: Config, outputs: seq<string>)
    requires config.delay < 0 && outputs != []
    ensures var step := SaveResult(config.sensor, ReadTempRaw(outputs[0]), config.units);
            MainRun(config, outputs) ==
              match step
              case Failure(e) => Run([], [], Crashed(e))
              case Success(c) => Run(Sent(c), [c.printed], Crashed(ValueError))
  {
    var first := outputs[..1];
    assert first == [outputs[0]];
    StepsFirst(config.sensor, config.units, first);
    var s := Steps(config.sensor, config.units, first);
    assert s[1..] == [];
    assert s == [s[0]];
  }

  /** `save_result` with its call on the streamer. */
  method SaveResultTo(sensor: string, lines: seq<string>, units: Units, streamer: Streamer)
    returns (r: Result<Diagnostic, Exception>)
    modifies streamer
    ensures SaveResult(sensor, lines, units).Failure? ==>
              r == Failure(SaveResult(sensor, lines, units).error) && streamer.events == old(streamer.events)
    ensures SaveResult(sensor, lines, units).Success? ==>
              var c := SaveResult(sensor, lines, units).value;
              r == Success(c.printed) && streamer.events == old(streamer.events) + Sent(c)
    ensures streamer.closeCalls == old(streamer.closeCalls)
  {
    match SaveResult(sensor, lines, units)
    case Failure(e) =>
      r := Failure(e);
    case Success(c) =>
      if c.logged.Some? {
        streamer.Log(c.logged.value.key, c.logged.value.value);
      }
      r := Success(c.printed);
  }

  /**
    `main()`: one streamer for the whole run, one `save_result` per read,
    `close()` exactly once and only when the interrupt ends the loop.
   */
  method Poll(config: Config, outputs: seq<string>) returns (streamer: Streamer, printed: seq<Diagnostic>, ending: Ending)
    ensures fresh(streamer)
    ensures streamer.bucketName == config.bucket && streamer.accessKey == config.apiKey
    ensures streamer.bucketKey == config.bucketKey
    ensures streamer.events == MainRun(config, outputs).logged
    ensures printed == MainRun(config, outputs).printed
    ensures ending == MainRun(config, outputs).ending
    ensures streamer.closeCalls == if ending == Interrupted then 1 else 0
  {
    streamer := new Streamer(config.bucket, config.apiKey, config.bucketKey);
    printed := [];
    var i := 0;
    ghost var steps := Steps(config.sensor, config.units, outputs);
    while i < |outputs|
      invariant 0 <= i <= |outputs|
      invariant streamer.closeCalls == 0
      invariant streamer.bucketName == config.bucket && streamer.accessKey == config.apiKey
      invariant streamer.bucketKey == config.bucketKey
      invariant streamer.events == Logged(steps[..i]) && printed == Printed(steps[..i])
      invariant EndOf(steps[..i]) == Interrupted
      invariant i > 0 ==> config.delay >= 0
    {
      var lines := ReadTempRaw(outputs[i]);
      StepsAt(config.sensor, config.units, outputs, i);
      var r := SaveResultTo(config.sensor, lines, config.units, streamer);
      if r.Failure? {
        if config.delay < 0 {
          NegativeDelayStopsAfterFirstRead(config, outputs);
        } else {
          RunCrash(steps, i);
        }
        ending := Crashed(r.error);
        return;
      }
      RunStep(steps, i);
      printed := printed + [r.value];
      // `time.sleep(args.delay)`
      if config.delay < 0 {
        NegativeDelayStopsAfterFirstRead(config, outputs);
        ending := Crashed(ValueError);
        return;
      }
      i := i + 1;
    }
    assert steps[..i] == steps;
    streamer.Close();
    ending := Interrupted;
  }

  lemma {:induction false} StepsAppend(sensor: string, units: Units, a: seq<string>, b: seq<string>)
    ensures Steps(sensor, units, a + b) == Steps(sensor, units, a) + Steps(sensor, units, b)
  {
    if a == [] {
      assert a + b == b;
    } else {
      assert (a + b)[0] == a[0];
      assert (a + b)[1..] == a[1..] + b;
      StepsAppend(sensor, units, a[1..], b);
    }
  }

  lemma StepsFirst(sensor: string, units: Units, outputs: seq<string>)
    requires outputs != []
    ensures Steps(sensor, units, outputs)[0] == SaveResult(sensor, ReadTempRaw(outputs[0]), units)
    ensures Steps(sensor, units, outputs)[1..] == Steps(sensor, units, outputs[1..])
  {
  }

  lemma {:induction false} StepsAt(sensor: string, units: Units, outputs: seq<string>, k: nat)
    requires k < |outputs|
    ensures Steps(sensor, units, outputs)[k] == SaveResult(sensor, ReadTempRaw(outputs[k]), units)
  {
    StepsFirst(sensor, units, outputs);
    if k > 0 {
      StepsAt(sensor, units, outputs[1..], k - 1);
    }
  }

  /** After cycles that all return normally, the next cycles simply continue the run. */
  lemma {:induction false} LoggedAppend(s: seq<Result<Cycle, Exception>>, t: seq<Result<Cycle, Exception>>)
    requires EndOf(s) == Interrupted
    ensures Logged(s + t) == Logged(s) + Logged(t)
  {
    if s == [] {
      assert s + t == t;
    } else {
      assert (s + t)[0] == s[0];
      assert (s + t)[1..] == s[1..] + t;
      LoggedAppend(s[1..], t);
    }
  }

  lemma {:induction false} PrintedAppend(s: seq<Result<Cycle, Exception>>, t: seq<Result<Cycle, Exception>>)
    requires EndOf(s) == Interrupted
    ensures Printed(s + t) == Printed(s) + Printed(t)
  {
    if s == [] {
      assert s + t == t;
    } else {
      assert (s + t)[0] == s[0];
      assert (s + t)[1..] == s[1..] + t;
      PrintedAppend(s[1..], t);
    }
  }

  lemma {:induction false} EndOfAppend(s: seq<Result<Cycle, Exception>>, t: seq<Result<Cycle, Exception>>)
    requires EndOf(s) == Interrupted
    ensures EndOf(s + t) == EndOf(t)
  {
    if s == [] {
      assert s + t == t;
    } else {
      assert (s + t)[0] == s[0];
      assert (s + t)[1..] == s[1..] + t;
      EndOfAppend(s[1..], t);
    }
  }

  /** Cycles after an exception change nothing: the loop has already ended. */
  lemma {:induction false} AppendAfterCrashed(s: seq<Result<Cycle, Exception>>, t: seq<Result<Cycle, Exception>>)
    requires EndOf(s) != Interrupted
    ensures Logged(s + t) == Logged(s) && Printed(s + t) == Printed(s) && EndOf(s + t) == EndOf(s)
  {
    assert (s + t)[0] == s[0];
    if s[0].Success? {
      assert (s + t)[1..] == s[1..] + t;
      AppendAfterCrashed(s[1..], t);
    }
  }

  /** Running two batches of reads one after the other. */
  lemma TraceAppend(sensor: string, units: Units, a: seq<string>, b: seq<string>)
    ensures var ta, tb := Trace(sensor, units, a), Trace(sensor, units, b);
            Trace(sensor, units, a + b) ==
              if ta.ending == Interrupted then Run(ta.logged + tb.logged, ta.printed + tb.printed, tb.ending)
              else ta
  {
    StepsAppend(sensor, units, a, b);
    var s, t := Steps(sensor, units, a), Steps(sensor, units, b);
    if EndOf(s) == Interrupted {
      LoggedAppend(s, t);
      PrintedAppend(s, t);
      EndOfAppend(s, t);
    } else {
      AppendAfterCrashed(s, t);
    }
  }

  /** A cycle that raises after cycles that all returned normally ends the run there. */
  lemma RunCrash(steps: seq<Result<Cycle, Exception>>, i: nat)
    requires i < |steps| && steps[i].Failure?
    requires EndOf(steps[..i]) == Interrupted
    ensures Logged(steps) == Logged(steps[..i]) && Printed(steps) == Printed(steps[..i])
    ensures EndOf(steps) == Crashed(steps[i].error)
  {
    var s, after := steps[..i], steps[i..];
    assert steps == s + after;
    assert after[0] == steps[i];
    LoggedAppend(s, after);
    PrintedAppend(s, after);
    EndOfAppend(s, after);
  }

  /** A cycle that returns normally extends the run by what it sends and prints. */
  lemma RunStep(steps: seq<Result<Cycle, Exception>>, i: nat)
    requires i < |steps| && steps[i].Success?
    requires EndOf(steps[..i]) == Interrupted
    ensures Logged(steps[..i + 1]) == Logged(steps[..i]) + Sent(steps[i].value)
    ensures Printed(steps[..i + 1]) == Printed(steps[..i]) + [steps[i].value.printed]
    ensures EndOf(steps[..i + 1]) == Interrupted
  {
    var s, x := steps[..i], steps[i];
    assert steps[..i + 1] == s + [x];
    LoggedAppend(s, [x]);
    PrintedAppend(s, [x]);
    EndOfAppend(s, [x]);
    assert [x][1..] == [];
  }

  /** A normal cycle logs under the sensor's id. */
  lemma SentUnderSensor(sensor: string, units: Units, output: string)
    requires !Crashes(sensor, units, output)
    ensures forall e :: e in Sent(SaveResult(sensor, ReadTempRaw(output), units).value) ==> e.key == sensor
  {
  }

  /** Every event is logged under the sensor's id. */
  lemma {:induction false} LoggedUnderSensor(sensor: string, units: Units, outputs: seq<string>)
    ensures forall e :: e in Trace(sensor, units, outputs).logged ==> e.key == sensor
  {
    if outputs != [] {
      LoggedUnderSensor(sensor, units, outputs[1..]);
      StepsFirst(sensor, units, outputs);
      var steps := Steps(sensor, units, outputs);
      if steps[0].Success? {
        SentUnderSensor(sensor, units, outputs[0]);
        assert Logged(steps) == Sent(steps[0].value) + Logged(Steps(sensor, units, outputs[1..]));
      }
    }
  }

  /** A cycle that raises ends the loop: later reads never happen. */
  lemma CrashEndsTheLoop(sensor: string, units: Units, outputs: seq<string>, k: nat, more: seq<string>)
    requires k < |outputs| && Crashes(sensor, units, outputs[k])
    ensures Trace(sensor, units, outputs).ending.Crashed?
    ensures Trace(sensor, units, outputs + more) == Trace(sensor, units, outputs)
  {
    StepsAt(sensor, units, outputs, k);
    EndOfFirstException(Steps(sensor, units, outputs));
    TraceAppend(sensor, units, outputs, more);
  }

  /** A cycle that returns normally logs exactly when its data line holds the marker. */
  lemma LoggedIffMarked(sensor: string, units: Units, output: string)
    requires !Crashes(sensor, units, output)
    ensures |Sent(SaveResult(sensor, ReadTempRaw(output), units).value)| == if Marked(output) then 1 else 0
  {
  }

  /**
    Without a raising cycle the loop runs to the interrupt and logs one
    event per read whose second line holds the marker.
   */
  lemma {:induction false} OneEventPerMarkedRead(sensor: string, units: Units, outputs: seq<string>)
    requires forall k :: 0 <= k < |outputs| ==> !Crashes(sensor, units, outputs[k])
    ensures Trace(sensor, units, outputs).ending == Interrupted
    ensures |Trace(sensor, units, outputs).logged| == CountMarked(outputs)
  {
    if outputs != [] {
      assert forall k :: 0 <= k < |outputs[1..]| ==> outputs[1..][k] == outputs[k + 1];
      OneEventPerMarkedRead(sensor, units, outputs[1..]);
      StepsFirst(sensor, units, outputs);
      LoggedIffMarked(sensor, units, outputs[0]);
    }
  }

  /** An unmarked read logs nothing and prints its lines. */
  lemma UnmarkedStep(sensor: string, units: Units, output: string)
    requires Unmarked(output)
    ensures SaveResult(sensor, ReadTempRaw(output), units) == Success(Cycle(None, ParseError(ReadTempRaw(output))))
  {
  }

  /** A run of unmarked reads logs nothing and prints one parse error per read. */
  lemma {:induction false} UnmarkedReadsLogNothing(sensor: string, units: Units, skipped: seq<string>)
    requires forall k :: 0 <= k < |skipped| ==> Unmarked(skipped[k])
    ensures Trace(sensor, units, skipped) ==
              Run([], seq(|skipped|, k requires 0 <= k < |skipped| => ParseError(ReadTempRaw(skipped[k]))), Interrupted)
  {
    if skipped != [] {
      assert forall k :: 0 <= k < |skipped[1..]| ==> skipped[1..][k] == skipped[k + 1];
      var rest := skipped[1..];
      UnmarkedReadsLogNothing(sensor, units, rest);
      StepsFirst(sensor, units, skipped);
      UnmarkedStep(sensor, units, skipped[0]);
      var steps := Steps(sensor, units, skipped);
      var x := ParseError(ReadTempRaw(skipped[0]));
      assert steps[0] == Success(Cycle(None, x));
      assert Logged(steps) == Logged(steps[1..]);
      assert Printed(steps) == [x] + Printed(steps[1..]);
      assert EndOf(steps) == EndOf(steps[1..]);
      var all := seq(|skipped|, k requires 0 <= k < |skipped| => ParseError(ReadTempRaw(skipped[k])));
      var later := seq(|rest|, k requires 0 <= k < |rest| => ParseError(ReadTempRaw(rest[k])));
      forall k | 0 <= k < |all|
        ensures all[k] == ([x] + later)[k]
      {
        if k > 0 {
          assert rest[k - 1] == skipped[k];
        }
      }
      assert all == [x] + later;
    }
  }

  /**
    Reads whose data line has no marker are reported and skipped: the loop
    then goes on exactly as if they had not happened.
   */
  lemma UnmarkedReadsSkipped(sensor: string, units: Units, skipped: seq<string>, rest: seq<string>)
    requires forall k :: 0 <= k < |skipped| ==> Unmarked(skipped[k])
    ensures Trace(sensor, units, skipped + rest).logged == Trace(sensor, units, rest).logged
    ensures Trace(sensor, units, skipped + rest).ending == Trace(sensor, units, rest).ending
    ensures |Trace(sensor, units, skipped + rest).printed| == |skipped| + |Trace(sensor, units, rest).printed|
  {
    UnmarkedReadsLogNothing(sensor, units, skipped);
    TraceAppend(sensor, units, skipped, rest);
  }

  /**
    A read that finds no file (`cat` prints nothing) raises `IndexError`
    and ends the loop without closing the streamer.
   */
  lemma MissingSensorEndsTheLoop(sensor: string, units: Units, before: seq<string>, after: seq<string>)
    requires forall k :: 0 <= k < |before| ==> !Crashes(sensor, units, before[k])
    ensures var t := Trace(sensor, units, before);
            Trace(sensor, units, before + [""] + after) == Run(t.logged, t.printed, Crashed(IndexError))
  {
    EmptyOutputRaises(sensor, units);
    OneEventPerMarkedRead(sensor, units, before);
    TraceAppend(sensor, units, before, [""]);
    StepsFirst(sensor, units, [""]);
    CrashEndsTheLoop(sensor, units, before + [""], |before|, after);
  }
}
