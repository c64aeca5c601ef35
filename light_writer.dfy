/** The light-sensor stream writer: a recorder with a start / stop /
    restart lifecycle that, while recording into an open stream file, turns
    each light reading into a two-channel frame [seconds since the previous
    frame (or since the session start), lux]. */
module LightStream {
  import opened Wrappers
  import opened Streams

  const StreamName: string := "light"
  /** Android's sensor type code for the light sensor. */
  const SensorTypeLight: int := 5

  const CreatedLine: string := "Created edu.jhu.hopkinspd.stream.LightWriter instance"
  const StartedLine: string := "Light recording started"
  const StoppedLine: string := "Light recording successfully stopped"
  const RestartedLine: string := "Light recording successfully restarted"

  datatype Sensor = Sensor(sensorType: int)

  /** A light reading; values[0] is the illuminance in lux. */
  datatype SensorEvent = SensorEvent(values: seq<real>)

  /** The system service that delivers sensor readings to registered
      listeners, each at its requested rate. */
  class SensorManager {
    var registrations: map<object, int>

    constructor ()
      ensures registrations == map[]
    {
      registrations := map[];
    }

    method RegisterListener(listener: object, rate: int)
      modifies this
      ensures registrations == old(registrations)[listener := rate]
    {
      registrations := registrations[listener := rate];
    }

    method UnregisterListener(listener: object)
      modifies this
      ensures registrations == old(registrations) - {listener}
    {
      registrations := registrations - {listener};
    }
  }

  /** Seconds (as the recorder computes them) of a time in milliseconds. */
  function Secs(millis: int): real
  {
    millis as real / 1000.0
  }

  /** The time of the last sample of a session, or its start if it has none. */
  function LastTime(start: real, samples: seq<(real, real)>): real
  {
    if |samples| == 0 then start else samples[|samples| - 1].0
  }

  /** The frame written for a reading of `lux` that came `delta` seconds after
      the previous one. */
  function LightFrame(delta: real, lux: real): Frame
  {
    [Num(delta), Num(lux)]
  }

  /** The time the `i`-th reading's delta is measured from: the previous
      reading, or the session start for the first. */
  function PrevTime(start: real, samples: seq<(real, real)>, i: nat): real
    requires i <= |samples|
  {
    if i == 0 then start else samples[i - 1].0
  }

  /** The frames of a session that started at `start` and received the
      readings `samples`, each a (time in seconds, lux) pair, in order. */
  function LightFrames(start: real, samples: seq<(real, real)>): (r: seq<Frame>)
    ensures |r| == |samples|
    ensures forall i {:trigger r[i]} :: 0 <= i < |r| ==>
      |r[i]| == 2 && r[i][0] == Num(samples[i].0 - PrevTime(start, samples, i)) && r[i][1] == Num(samples[i].1)
  {
    seq(|samples|, i requires 0 <= i < |samples| =>
      LightFrame(samples[i].0 - PrevTime(start, samples, i), samples[i].1))
  }

  /** A new reading adds one frame whose delta is measured from the
      previous reading, or from the session start. */
  lemma {:induction false} LightFramesSnoc(start: real, samples: seq<(real, real)>, t: real, lux: real)
    ensures LightFrames(start, samples + [(t, lux)]) == LightFrames(start, samples) + [LightFrame(t - LastTime(start, samples), lux)]
    ensures LastTime(start, samples + [(t, lux)]) == t
  {
    var s := samples + [(t, lux)];
    var r, q := LightFrames(start, s), LightFrames(start, samples) + [LightFrame(t - LastTime(start, samples), lux)];
    forall i | 0 <= i < |s|
      ensures r[i] == q[i]
    {
      if i < |samples| {
        assert PrevTime(start, s, i) == PrevTime(start, samples, i);
      }
    }
  }

  /** The elapsed-time channel of a frame. */
  function Delta(f: Frame): real
  {
    if |f| > 0 && f[0].Num? then f[0].value else 0.0
  }

  /** The sum of the elapsed-time channels of `frames`. */
  function DeltaSum(frames: seq<Frame>): real
  {
    if |frames| == 0 then 0.0 else DeltaSum(frames[..|frames| - 1]) + Delta(frames[|frames| - 1])
  }

  /** The deltas of a session telescope: they add up to the time of the last
      reading minus the session start. */
  lemma {:induction false} DeltasTelescope(start: real, samples: seq<(real, real)>)
    ensures DeltaSum(LightFrames(start, samples)) == LastTime(start, samples) - start
  {
    if |samples| > 0 {
      var prefix := samples[..|samples| - 1];
      DeltasTelescope(start, prefix);
      var last := samples[|samples| - 1];
      assert samples == prefix + [last];
      LightFramesSnoc(start, prefix, last.0, last.1);
      var q := LightFrames(start, prefix);
      var f := LightFrame(last.0 - LastTime(start, prefix), last.1);
      assert (q + [f])[..|q|] == q;
    }
  }

  class LightWriter {
    var sensorManager: SensorManager?
    var sensor: Option<Sensor>
    var sensorStream: StreamFile?
    var isRecording: bool
    var prevSecs: real
    /** The sampling rate read from the preferences at construction. */
    const sensorRate: int
    /** The lines of the stream's text log. */
    var logLines: seq<string>
    /** The start, in seconds, of the session the current stream file belongs to. */
    ghost var sessionStart: real
    /** The readings written to the current stream file, as (seconds, lux). */
    ghost var samples: seq<(real, real)>

    ghost predicate Valid()
      reads this, sensorStream
    {
      && (isRecording && sensorStream != null ==> !sensorStream.closed)
      && (sensorStream != null ==> Flatten(sensorStream.writes) == LightFrames(sessionStart, samples))
      && prevSecs == LastTime(sessionStart, samples)
    }

    constructor (sensorRate: int, sensorManager: SensorManager)
      ensures Valid()
      ensures this.sensorRate == sensorRate && this.sensorManager == sensorManager
      ensures sensor == Some(Sensor(SensorTypeLight))
      ensures sensorStream == null && !isRecording
      ensures logLines == [CreatedLine]
    {
      this.sensorRate := sensorRate;
      this.sensorManager := sensorManager;
      sensor := Some(Sensor(SensorTypeLight));
      sensorStream := null;
      isRecording := false;
      prevSecs := 0.0;
      logLines := [CreatedLine];
      sessionStart := 0.0;
      samples := [];
    }

    /** Registers this writer for light readings at the configured rate. */
    method Init()
      requires sensorManager != null
      modifies sensorManager
      ensures sensorManager.registrations == old(sensorManager.registrations)[this := sensorRate]
    {
      sensorManager.RegisterListener(this, sensorRate);
    }

    /** Unregisters from the sensor service and drops both references. */
    method Destroy()
      requires sensorManager != null
      modifies this, sensorManager
      ensures old(sensorManager).registrations == old(sensorManager.registrations) - {this}
      ensures sensorManager == null && sensor == None
      ensures sensorStream == old(sensorStream) && isRecording == old(isRecording)
      ensures prevSecs == old(prevSecs) && logLines == old(logLines)
      ensures sessionStart == old(sessionStart) && samples == old(samples)
    {
      sensorManager.UnregisterListener(this);
      sensorManager := null;
      sensor := None;
    }

    /** Starts a session at `startMillis`: the clock reference is the session
        start, a stream file named after "light" and that time is opened
        (`openOk` is false when the file service could not open it, which
        leaves no stream), and recording is on. */
    method Start(startMillis: int, openOk: bool)
      requires Valid()
      modifies this
      ensures Valid()
      ensures prevSecs == Secs(startMillis) && isRecording
      ensures openOk ==>
        fresh(sensorStream) && sensorStream.streamName == StreamName
        && sensorStream.startMillis == startMillis && sensorStream.writes == []
      ensures !openOk ==> sensorStream == null
      ensures logLines == old(logLines) + [StartedLine]
      ensures sensorManager == old(sensorManager) && sensor == old(sensor)
    {
      prevSecs := Secs(startMillis);
      if openOk {
        sensorStream := new StreamFile.Open(StreamName, startMillis);
      } else {
        sensorStream := null;
      }
      isRecording := true;
      logLines := logLines + [StartedLine];
      sessionStart := Secs(startMillis);
      samples := [];
    }

    /** Stops recording and closes the current stream; the success line is
        logged only when there was a stream to close. The stream reference is kept. */
    method Stop(stopMillis: int)
      requires Valid()
      modifies this, sensorStream
      ensures Valid()
      ensures !isRecording && sensorStream == old(sensorStream)
      ensures sensorStream != null ==> sensorStream.closed && sensorStream.writes == old(sensorStream.writes)
      ensures logLines == old(logLines) + (if sensorStream != null then [StoppedLine] else [])
      ensures prevSecs == old(prevSecs) && sensorManager == old(sensorManager) && sensor == old(sensor)
    {
      isRecording := false;
      var ok := CloseStreamFile(sensorStream);
      if ok {
        logLines := logLines + [StoppedLine];
      }
    }

    /** Switches to a new stream file for `millis`: the new file is opened
        (if the file service can) before the old one is closed, the clock
        reference moves to `millis`, and the recording state is unchanged. */
    method Restart(millis: int, openOk: bool)
      requires Valid()
      modifies this, sensorStream
      ensures Valid()
      ensures isRecording == old(isRecording) && prevSecs == Secs(millis)
      ensures openOk ==>
        fresh(sensorStream) && sensorStream.streamName == StreamName
        && sensorStream.startMillis == millis && sensorStream.writes == []
      ensures !openOk ==> sensorStream == null
      ensures old(sensorStream) != null ==>
        old(sensorStream).closed && old(sensorStream).writes == old(sensorStream.writes)
      ensures logLines == old(logLines) + (if old(sensorStream) != null then [RestartedLine] else [])
      ensures sensorManager == old(sensorManager) && sensor == old(sensor)
    {
      var oldStream := sensorStream;
      if openOk {
        sensorStream := new StreamFile.Open(StreamName, millis);
      } else {
        sensorStream := null;
      }
      prevSecs := Secs(millis);
      sessionStart := Secs(millis);
      samples := [];
      var ok := CloseStreamFile(oldStream);
      if ok {
        logLines := logLines + [RestartedLine];
      }
    }

    /** Handles a light reading arriving at `nowMillis`: while recording into
        a stream, writes [seconds since the previous frame, lux] and moves the
        clock reference to now; otherwise does nothing. */
    method OnSensorChanged(event: SensorEvent, nowMillis: int)
      requires Valid() && |event.values| >= 1
      modifies this, sensorStream
      ensures Valid()
      ensures !(old(sensorStream) != null && old(isRecording)) ==>
        unchanged(this) && (sensorStream != null ==> unchanged(sensorStream))
      ensures old(sensorStream) != null && old(isRecording) ==>
        && sensorStream == old(sensorStream) && isRecording
        && sensorStream.writes == old(sensorStream.writes) + [[LightFrame(Secs(nowMillis) - old(prevSecs), event.values[0])]]
        && prevSecs == Secs(nowMillis)
        && samples == old(samples) + [(Secs(nowMillis), event.values[0])]
        && sessionStart == old(sessionStart)
        && logLines == old(logLines)
    {
      if sensorStream != null && isRecording {
        WriteReading(event.values[0], nowMillis);
      }
    }

    /** The recording branch of OnSensorChanged. */
    method WriteReading(lux: real, nowMillis: int)
      requires Valid() && sensorStream != null && isRecording
      modifies this, sensorStream
      ensures Valid()
      ensures sensorStream == old(sensorStream) && isRecording
      ensures sensorStream.writes == old(sensorStream.writes) + [[LightFrame(Secs(nowMillis) - old(prevSecs), lux)]]
      ensures prevSecs == Secs(nowMillis)
      ensures samples == old(samples) + [(Secs(nowMillis), lux)]
      ensures sessionStart == old(sessionStart) && logLines == old(logLines)
      ensures sensorManager == old(sensorManager) && sensor == old(sensor)
    {
      var currentSecs := Secs(nowMillis);
      var diffSecs := currentSecs - prevSecs;
      prevSecs := currentSecs;
      var frame := LightFrame(diffSecs, lux);
      FlattenAppend(sensorStream.writes, [frame]);
      LightFramesSnoc(sessionStart, samples, currentSecs, lux);
      sensorStream.WriteFrame(frame);
      samples := samples + [(currentSecs, lux)];
    }

    /** The deltas written to the current stream file add up to the time
        from its session start to the last written reading (the clock reference). */
    lemma WrittenDeltasTelescope()
      requires Valid() && sensorStream != null
      ensures DeltaSum(Flatten(sensorStream.writes)) == prevSecs - sessionStart
    {
      DeltasTelescope(sessionStart, samples);
    }

    /** The stream's name. */
    function ToString(): (s: string)
      ensures s == StreamName
    {
      StreamName
    }
  }
}
