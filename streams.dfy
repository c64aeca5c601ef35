/** The output side shared by every capture stream: one channel value of a
    frame, a frame, and the stream file a recorder writes its frames to.
    The file-opening, frame-writing and closing services of the application
    are not part of this model; a stream file here records, in order, the
    frames handed to each write call, and whether it has been closed. */
module Streams {

  /** One channel of a frame: a number, or NaN where the recorder has no
      value (the touch recorder writes NaN for position when nobody touches). */
  datatype Channel = NaN | Num(value: real)

  /** One timestamped sample record: a fixed number of channels. */
  type Frame = seq<Channel>

  /** All frames of a list of write calls, in the order they were written. */
  function Flatten(batches: seq<seq<Frame>>): seq<Frame>
  {
    if |batches| == 0 then [] else batches[0] + Flatten(batches[1..])
  }

  /** Writing one more batch adds exactly its frames, after all earlier ones. */
  lemma {:induction false} FlattenAppend(batches: seq<seq<Frame>>, b: seq<Frame>)
    ensures Flatten(batches + [b]) == Flatten(batches) + b
  {
    if |batches| > 0 {
      assert (batches + [b])[1..] == batches[1..] + [b];
      FlattenAppend(batches[1..], b);
    }
  }

  /** The first `n` rows of a frame buffer, each row holding all of its channels. */
  function Rows(buffer: array2<Channel>, n: nat): (r: seq<Frame>)
    requires n <= buffer.Length0
    reads buffer
    ensures |r| == n
    ensures forall i :: 0 <= i < n ==> |r[i]| == buffer.Length1
    ensures forall i, k :: 0 <= i < n && 0 <= k < buffer.Length1 ==> r[i][k] == buffer[i, k]
  {
    seq(n, i requires 0 <= i < n reads buffer =>
      seq(buffer.Length1, k requires 0 <= k < buffer.Length1 reads buffer => buffer[i, k]))
  }

  /** A sequence of frames that agrees with the buffer cell by cell is its rows. */
  lemma RowsAre(buffer: array2<Channel>, n: nat, p: seq<Frame>)
    requires n <= buffer.Length0 && |p| == n
    requires forall i :: 0 <= i < n ==> |p[i]| == buffer.Length1
    requires forall i, k :: 0 <= i < n && 0 <= k < buffer.Length1 ==> p[i][k] == buffer[i, k]
    ensures Rows(buffer, n) == p
  {
    var r := Rows(buffer, n);
    forall i | 0 <= i < n
      ensures r[i] == p[i]
    {
      assert |r[i]| == |p[i]|;
    }
  }

  /** An output file of one stream for one session, named after the stream
      and the session's start time. */
  class StreamFile {
    const streamName: string
    const startMillis: int
    var writes: seq<seq<Frame>>
    var closed: bool

    constructor Open(streamName: string, startMillis: int)
      ensures this.streamName == streamName && this.startMillis == startMillis
      ensures writes == [] && !closed
    {
      this.streamName := streamName;
      this.startMillis := startMillis;
      writes := [];
      closed := false;
    }

    /** Writes the first `n` rows of a frame buffer as one batch. */
    method WriteFrames(buffer: array2<Channel>, n: nat)
      requires n <= buffer.Length0
      modifies this`writes
      ensures writes == old(writes) + [Rows(buffer, n)]
    {
      writes := writes + [Rows(buffer, n)];
    }

    /** Writes one frame. */
    method WriteFrame(frame: Frame)
      modifies this`writes
      ensures writes == old(writes) + [[frame]]
    {
      writes := writes + [[frame]];
    }

    method Close()
      modifies this`closed
      ensures closed
    {
      closed := true;
    }
  }

  /** Closes a stream file if there is one; reports whether there was. */
  method CloseStreamFile(file: StreamFile?) returns (ok: bool)
    modifies file
    ensures ok <==> file != null
    ensures file != null ==> file.closed && file.writes == old(file.writes)
  {
    if file == null {
      return false;
    }
    file.Close();
    return true;
  }
}
