/** The touch recorder of the reaction test: every touch event, or "no
    touch" tick, while recording becomes one five-channel frame
    [time, X, Y, buttonVisible, buttonPressed] in a preallocated buffer of
    100 frames; a full buffer is written to the session's file as one batch
    and refilled from row 0, and stopping writes what is left. */
module ReactCapturing {
  import opened Wrappers
  import opened Streams

  const CaptureBufferLength: nat := 100
  const CaptureBufferEntries: nat := 5
  const CaptureFiletype: string := "react"

  /** Action codes of a touch event. */
  const ActionDown: int := 0
  const ActionUp: int := 1
  const ActionMove: int := 2

  /** The part of a touch event the recorder reads. */
  datatype MotionEvent = MotionEvent(action: int, x: real, y: real)

  /** The frame recorded for a touch event `me` (None for a "no touch" tick)
      at wall-clock time `nowMillis`, while the on-screen button is shown
      iff `buttonStatus`. */
  function TouchFrame(nowMillis: int, me: Option<MotionEvent>, buttonStatus: bool): (f: Frame)
    ensures |f| == CaptureBufferEntries
    ensures f[0] == Num(nowMillis as real / 1000.0)
    ensures f[3] == Num(1.0) <==> buttonStatus
    ensures f[3] == Num(0.0) <==> !buttonStatus
    ensures me.None? ==> f[1] == NaN && f[2] == NaN && f[4] == NaN
    ensures me.Some? ==> f[1] == Num(me.value.x) && f[2] == Num(me.value.y)
    ensures me.Some? ==>
      (f[4] == Num(1.0) <==> me.value.action == ActionDown || me.value.action == ActionMove)
    ensures me.Some? ==> f[4] == Num(0.0) || f[4] == Num(1.0)
  {
    var time := nowMillis as real / 1000.0;
    var buttonVisible := if buttonStatus then 1.0 else 0.0;
    match me
    case None => [Num(time), NaN, NaN, Num(buttonVisible), NaN]
    case Some(e) =>
      var buttonPressed := if e.action == ActionDown || e.action == ActionMove then 1.0 else 0.0;
      [Num(time), Num(e.x), Num(e.y), Num(buttonVisible), Num(buttonPressed)]
  }

  /** How a session's frames are cut into written batches: full buffers of
      CaptureBufferLength frames, then one shorter remainder if any. */
  function Batches(s: seq<Frame>): seq<seq<Frame>>
    decreases |s|
  {
    if |s| == 0 then []
    else if |s| <= CaptureBufferLength then [s]
    else [s[..CaptureBufferLength]] + Batches(s[CaptureBufferLength..])
  }

  /** The batches, read back in order, are exactly the recorded frames. */
  lemma {:induction false} BatchesFlatten(s: seq<Frame>)
    ensures Flatten(Batches(s)) == s
    decreases |s|
  {
    if CaptureBufferLength < |s| {
      BatchesFlatten(s[CaptureBufferLength..]);
      assert s == s[..CaptureBufferLength] + s[CaptureBufferLength..];
    }
  }

  /** There are |s| / 100 full batches, then one batch of |s| % 100 frames
      if that is not zero. */
  lemma {:induction false} BatchesShape(s: seq<Frame>)
    ensures |Batches(s)| == |s| / CaptureBufferLength + (if |s| % CaptureBufferLength == 0 then 0 else 1)
    ensures forall i :: 0 <= i < |s| / CaptureBufferLength ==> |Batches(s)[i]| == CaptureBufferLength
    ensures |s| % CaptureBufferLength != 0 ==>
      |Batches(s)[|s| / CaptureBufferLength]| == |s| % CaptureBufferLength
    decreases |s|
  {
    if CaptureBufferLength < |s| {
      var rest := s[CaptureBufferLength..];
      BatchesShape(rest);
      assert |rest| / CaptureBufferLength == |s| / CaptureBufferLength - 1;
      assert |rest| % CaptureBufferLength == |s| % CaptureBufferLength;
      forall i | 0 <= i < |s| / CaptureBufferLength
        ensures |Batches(s)[i]| == CaptureBufferLength
      {
        if i > 0 {
          assert Batches(s)[i] == Batches(rest)[i - 1];
        }
      }
    }
  }

  /** Frames recorded after a whole number of full buffers are batched on
      their own. */
  lemma {:induction false} BatchesAppend(s: seq<Frame>, t: seq<Frame>)
    requires |s| % CaptureBufferLength == 0
    ensures Batches(s + t) == Batches(s) + Batches(t)
    decreases |s|
  {
    if |s| == 0 {
      assert s + t == t;
    } else if |t| == 0 {
      assert s + t == s;
    } else {
      var n := CaptureBufferLength;
      var u := s + t;
      assert u[..n] == s[..n];
      assert u[n..] == s[n..] + t;
      assert |s[n..]| % n == 0;
      BatchesAppend(s[n..], t);
      assert Batches(u) == [s[..n]] + Batches(s[n..] + t);
      if |s| == n {
        assert s[..n] == s && s[n..] == [];
        assert Batches(s) == [s];
      } else {
        assert Batches(s) == [s[..n]] + Batches(s[n..]);
      }
    }
  }

  class ReactCapture {
    var isRecording: bool
    var bufferItems: int
    /** The frame buffer, CaptureBufferLength rows of CaptureBufferEntries channels. */
    const streamBuffer: array2<Channel>
    var testStreamFile: StreamFile?
    /** Every frame recorded since the last StartRecording. */
    ghost var recorded: seq<Frame>
    /** The frames in buffer rows 0 .. bufferItems - 1, not written yet. */
    ghost var pending: seq<Frame>

    ghost predicate Valid()
      reads this, streamBuffer, testStreamFile
    {
      && streamBuffer.Length0 == CaptureBufferLength
      && streamBuffer.Length1 == CaptureBufferEntries
      && 0 <= bufferItems < CaptureBufferLength
      && |pending| == bufferItems
      && (forall i :: 0 <= i < bufferItems ==> |pending[i]| == CaptureBufferEntries)
      && (forall i, k :: 0 <= i < bufferItems && 0 <= k < CaptureBufferEntries ==> pending[i][k] == streamBuffer[i, k])
      && (testStreamFile == null ==> bufferItems == 0 && !isRecording)
      && (isRecording ==>
            && testStreamFile != null
            && !testStreamFile.closed
            && bufferItems <= |recorded|
            && (|recorded| - bufferItems) % CaptureBufferLength == 0
            && testStreamFile.writes == Batches(recorded[..|recorded| - bufferItems])
            && pending == recorded[|recorded| - bufferItems..])
    }

    constructor ()
      ensures Valid() && fresh(streamBuffer)
      ensures !isRecording && bufferItems == 0 && testStreamFile == null
    {
      isRecording := false;
      bufferItems := 0;
      streamBuffer := new Channel[CaptureBufferLength, CaptureBufferEntries];
      testStreamFile := null;
      recorded := [];
      pending := [];
    }

    /** Opens a fresh file for the session started at `nowMillis`. */
    method StartRecording(nowMillis: int)
      requires Valid()
      modifies this
      ensures Valid() && fresh(testStreamFile)
      ensures testStreamFile.streamName == CaptureFiletype && testStreamFile.startMillis == nowMillis
      ensures testStreamFile.writes == [] && recorded == []
      ensures bufferItems == 0 && isRecording
    {
      testStreamFile := new StreamFile.Open(CaptureFiletype, nowMillis);
      bufferItems := 0;
      isRecording := true;
      recorded := [];
      pending := [];
    }

    /** Stops recording and writes the frames still in the buffer, if any,
        before closing the file. The buffer count is left as it is. */
    method StopRecording()
      requires Valid()
      modifies this, testStreamFile
      ensures Valid() && !isRecording
      ensures bufferItems == old(bufferItems) && testStreamFile == old(testStreamFile)
      ensures recorded == old(recorded)
      ensures testStreamFile != null ==> testStreamFile.closed
      ensures testStreamFile != null ==>
        testStreamFile.writes == old(testStreamFile.writes) + (if old(bufferItems) > 0 then [old(pending)] else [])
      ensures old(isRecording) ==> testStreamFile.writes == Batches(recorded)
    {
      isRecording := false;
      if bufferItems > 0 {
        RowsAre(streamBuffer, bufferItems, pending);
        testStreamFile.WriteFrames(streamBuffer, bufferItems);
      }
      if old(isRecording) {
        var done := |recorded| - bufferItems;
        assert recorded == recorded[..done] + recorded[done..];
        BatchesAppend(recorded[..done], recorded[done..]);
      }
      var _ := CloseStreamFile(testStreamFile);
    }

    /** Writes frame `f` into buffer row `bufferItems`, leaving every other row as it was. */
    method PutFrame(f: Frame)
      requires streamBuffer.Length0 == CaptureBufferLength && streamBuffer.Length1 == CaptureBufferEntries
      requires 0 <= bufferItems < CaptureBufferLength && |f| == CaptureBufferEntries
      modifies streamBuffer
      ensures forall k :: 0 <= k < CaptureBufferEntries ==> streamBuffer[bufferItems, k] == f[k]
      ensures forall i, k :: 0 <= i < CaptureBufferLength && 0 <= k < CaptureBufferEntries && i != bufferItems ==>
        streamBuffer[i, k] == old(streamBuffer[i, k])
    {
      streamBuffer[bufferItems, 0] := f[0];
      streamBuffer[bufferItems, 1] := f[1];
      streamBuffer[bufferItems, 2] := f[2];
      streamBuffer[bufferItems, 3] := f[3];
      streamBuffer[bufferItems, 4] := f[4];
    }

    /** Records one touch event (None: no touch) at `nowMillis` while the
        button is visible iff `buttonStatus`; always reports the event handled. */
    method HandleTouchEvent(me: Option<MotionEvent>, buttonStatus: bool, nowMillis: int)
      returns (handled: bool)
      requires Valid()
      modifies this, streamBuffer, testStreamFile
      ensures Valid() && handled
      ensures !old(isRecording) ==>
        unchanged(this, streamBuffer) && (testStreamFile != null ==> unchanged(testStreamFile))
      ensures old(isRecording) ==> isRecording && testStreamFile == old(testStreamFile)
      ensures old(isRecording) ==> recorded == old(recorded) + [TouchFrame(nowMillis, me, buttonStatus)]
      ensures old(isRecording) ==> bufferItems == (old(bufferItems) + 1) % CaptureBufferLength
      // exactly one row of the buffer is rewritten
      ensures old(isRecording) ==> forall k :: 0 <= k < CaptureBufferEntries ==>
        streamBuffer[old(bufferItems), k] == TouchFrame(nowMillis, me, buttonStatus)[k]
      ensures forall i, k :: 0 <= i < CaptureBufferLength && 0 <= k < CaptureBufferEntries && i != old(bufferItems) ==>
        streamBuffer[i, k] == old(streamBuffer[i, k])
      // a full buffer is written as one batch
      ensures old(isRecording) && old(bufferItems) + 1 == CaptureBufferLength ==>
        testStreamFile.writes == old(testStreamFile.writes) + [old(pending) + [TouchFrame(nowMillis, me, buttonStatus)]]
      ensures old(isRecording) && old(bufferItems) + 1 < CaptureBufferLength ==>
        testStreamFile.writes == old(testStreamFile.writes)
    {
      if isRecording {
        var f := TouchFrame(nowMillis, me, buttonStatus);
        ghost var done := |recorded| - bufferItems;
        PutFrame(f);
        bufferItems := bufferItems + 1;
        recorded := recorded + [f];
        pending := pending + [f];
        assert recorded[..done] == old(recorded)[..done];
        assert recorded[done..] == old(pending) + [f];
        if bufferItems == CaptureBufferLength {
          RowsAre(streamBuffer, bufferItems, pending);
          testStreamFile.WriteFrames(streamBuffer, bufferItems);
          bufferItems := 0;
          pending := [];
          assert recorded[..|recorded|] == recorded[..done] + recorded[done..];
          BatchesAppend(recorded[..done], recorded[done..]);
        }
      }
      return true;
    }
  }

  /** One touch-handler call: the event (None: no touch), whether the
      button is shown, and the wall-clock time in milliseconds. */
  type TouchInput = (Option<MotionEvent>, bool, int)

  /** The frames a recorder makes of `events`, in arrival order. */
  function SessionFrames(events: seq<TouchInput>): seq<Frame>
  {
    if |events| == 0 then []
    else SessionFrames(events[..|events| - 1]) + [TouchFrame(events[|events| - 1].2, events[|events| - 1].0, events[|events| - 1].1)]
  }

  /** One frame per event, the j-th made from the j-th event. */
  lemma {:induction false} SessionFramesAt(events: seq<TouchInput>)
    ensures |SessionFrames(events)| == |events|
    ensures forall j :: 0 <= j < |events| ==> SessionFrames(events)[j] == TouchFrame(events[j].2, events[j].0, events[j].1)
  {
    if |events| > 0 {
      SessionFramesAt(events[..|events| - 1]);
    }
  }

  lemma {:induction false} SessionFramesSnoc(events: seq<TouchInput>, j: nat)
    requires j < |events|
    ensures SessionFrames(events[..j + 1]) ==
      SessionFrames(events[..j]) + [TouchFrame(events[j].2, events[j].0, events[j].1)]
  {
    assert events[..j + 1][..j] == events[..j];
  }

  lemma {:induction false} SessionFramesAll(events: seq<TouchInput>)
    ensures SessionFrames(events[..|events|]) == SessionFrames(events)
  {
    assert events[..|events|] == events;
  }

  /** The batches of a session read back as its frames, in arrival order:
      |events| / 100 full batches, then one batch of the remaining
      |events| % 100 frames if that is not zero. */
  lemma SessionBatches(events: seq<TouchInput>)
    ensures Flatten(Batches(SessionFrames(events))) == SessionFrames(events)
    ensures |Batches(SessionFrames(events))| ==
      |events| / CaptureBufferLength + (if |events| % CaptureBufferLength == 0 then 0 else 1)
  {
    SessionFramesAt(events);
    BatchesFlatten(SessionFrames(events));
    BatchesShape(SessionFrames(events));
  }

  /** Feeds `events` to the recorder, one HandleTouchEvent call each. */
  method FeedEvents(rc: ReactCapture, events: seq<TouchInput>)
    requires rc.Valid() && rc.isRecording && rc.recorded == []
    modifies rc, rc.streamBuffer, rc.testStreamFile
    ensures rc.Valid() && rc.isRecording && rc.testStreamFile == old(rc.testStreamFile)
    ensures rc.recorded == SessionFrames(events)
  {
    var j := 0;
    while j < |events|
      invariant 0 <= j <= |events|
      invariant rc.Valid() && rc.isRecording && rc.testStreamFile == old(rc.testStreamFile)
      invariant rc.recorded == SessionFrames(events[..j])
    {
      SessionFramesSnoc(events, j);
      var _ := rc.HandleTouchEvent(events[j].0, events[j].1, events[j].2);
      j := j + 1;
    }
    SessionFramesAll(events);
  }

  /** A whole reaction-test recording: start at `startMillis`, one touch
      event per entry of `events`, stop. The session's file then holds the
      batches of the session's frames (see SessionBatches). */
  method RecordSession(rc: ReactCapture, startMillis: int, events: seq<TouchInput>)
    requires rc.Valid()
    modifies rc, rc.streamBuffer, rc.testStreamFile
    ensures rc.Valid() && !rc.isRecording && rc.testStreamFile != null && rc.testStreamFile.closed
    ensures rc.testStreamFile.writes == Batches(SessionFrames(events))
  {
    rc.StartRecording(startMillis);
    FeedEvents(rc, events);
    rc.StopRecording();
  }
}
