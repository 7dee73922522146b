/**
 * The request messages of the video streaming calls and the pure description of
 * which messages a decoder's reads turn into: one data frame per successful read,
 * in read order, up to the first failed read, then exactly one terminal frame.
 */
module Frames {
  import opened Wrappers

  type Bytes = seq<bv8>

  /** A decoded picture as the decoder hands it out; its pixels are opaque to this core. */
  datatype Image = Image(pixels: seq<bv8>)

  /**
   * One `VideoFrame` request message. Fields the sender leaves unset keep their
   * protocol-buffer defaults: empty `data`, `fps` 0.
   */
  datatype VideoFrame = VideoFrame(data: Bytes, isFinal: bool, videoId: string, fps: real)

  /** The message sent for one decoded picture, carrying its JPEG encoding. */
  function DataFrame(img: Image, videoId: string, encode: Image -> Bytes): VideoFrame
  {
    VideoFrame(encode(img), false, videoId, 0.0)
  }

  /** The end-of-stream message: no data, the frame rate and the job identifier. */
  function TerminalFrame(videoId: string, fps: real): VideoFrame
  {
    VideoFrame([], true, videoId, fps)
  }

  /**
   * The pictures a read loop obtains from a sequence of read results: every
   * successful read up to, and not including, the first failed one.
   */
  function ReadsUntilFailure(results: seq<Option<Image>>): seq<Image>
  {
    if results == [] || results[0].None? then []
    else [results[0].value] + ReadsUntilFailure(results[1..])
  }

  /** The pictures obtained are the successful reads, in order, and the read after them failed. */
  lemma {:induction false} ReadsUntilFailureSpec(results: seq<Option<Image>>)
    ensures var imgs := ReadsUntilFailure(results);
      |imgs| <= |results| &&
      (forall i :: 0 <= i < |imgs| ==> results[i] == Some(imgs[i])) &&
      (|imgs| < |results| ==> results[|imgs|] == None)
  {
    if results != [] && results[0].Some? {
      ReadsUntilFailureSpec(results[1..]);
    }
  }

  /** The properties above determine the pictures obtained: nothing else satisfies them. */
  lemma {:induction false} ReadsUntilFailureUnique(results: seq<Option<Image>>, imgs: seq<Image>)
    requires |imgs| <= |results|
    requires forall i :: 0 <= i < |imgs| ==> results[i] == Some(imgs[i])
    requires |imgs| < |results| ==> results[|imgs|] == None
    ensures ReadsUntilFailure(results) == imgs
  {
    if imgs != [] {
      assert results[0] == Some(imgs[0]);
      ReadsUntilFailureUnique(results[1..], imgs[1..]);
    }
  }

  /** A successful read contributes its picture ahead of whatever the rest of the reads give. */
  lemma ReadsUntilFailureStep(results: seq<Option<Image>>)
    requires results != [] && results[0].Some?
    ensures ReadsUntilFailure(results) == [results[0].value] + ReadsUntilFailure(results[1..])
  {
  }

  /** Whatever the decoder holds after a failed read never reaches the request stream. */
  lemma {:induction false} FailureHidesLaterReads(before: seq<Option<Image>>, after1: seq<Option<Image>>, after2: seq<Option<Image>>)
    ensures ReadsUntilFailure(before + [None] + after1) == ReadsUntilFailure(before + [None] + after2)
  {
    var results1 := before + [None] + after1;
    var results2 := before + [None] + after2;
    var imgs := ReadsUntilFailure(results1);
    ReadsUntilFailureSpec(results1);
    assert |imgs| <= |before| by {
      assert results1[|before|] == None;
    }
    forall i | 0 <= i < |imgs| ensures results2[i] == Some(imgs[i]) {
      assert results2[i] == before[i] == results1[i];
    }
    assert |imgs| < |results2| && results2[|imgs|] == results1[|imgs|];
    ReadsUntilFailureUnique(results2, imgs);
  }

  /**
   * How many read results a read loop consumes: every successful read, and the
   * failed read that stops it when there is one.
   */
  function Consumed(results: seq<Option<Image>>): (n: nat)
    ensures n <= |results|
    ensures forall i :: 0 <= i < n - 1 ==> results[i].Some?
    ensures n < |results| ==> n > 0 && results[n - 1].None?
  {
    ReadsUntilFailureSpec(results);
    var k := |ReadsUntilFailure(results)|;
    if k < |results| then k + 1 else k
  }

  /** One data frame per picture, in the same order. */
  function DataFrames(imgs: seq<Image>, videoId: string, encode: Image -> Bytes): seq<VideoFrame>
  {
    if imgs == [] then []
    else [DataFrame(imgs[0], videoId, encode)] + DataFrames(imgs[1..], videoId, encode)
  }

  /** Frame i is the data frame of picture i, and there are as many frames as pictures. */
  lemma {:induction false} DataFramesSpec(imgs: seq<Image>, videoId: string, encode: Image -> Bytes)
    ensures var frames := DataFrames(imgs, videoId, encode);
      |frames| == |imgs| &&
      forall i :: 0 <= i < |imgs| ==> frames[i] == DataFrame(imgs[i], videoId, encode)
  {
    if imgs != [] {
      DataFramesSpec(imgs[1..], videoId, encode);
    }
  }

  /** One more picture adds one more data frame, at the end. */
  lemma {:induction false} DataFramesSnoc(imgs: seq<Image>, img: Image, videoId: string, encode: Image -> Bytes)
    ensures DataFrames(imgs + [img], videoId, encode) == DataFrames(imgs, videoId, encode) + [DataFrame(img, videoId, encode)]
  {
    if imgs != [] {
      assert (imgs + [img])[1..] == imgs[1..] + [img];
      DataFramesSnoc(imgs[1..], img, videoId, encode);
    }
  }

  /**
   * One turn of a read loop that has sent the data frames of `taken` so far and
   * whose next read succeeds with `img`: it sends one more data frame.
   */
  lemma ReadLoopStep(start: seq<Option<Image>>, rest: seq<Option<Image>>, taken: seq<Image>, img: Image,
                     videoId: string, encode: Image -> Bytes)
    requires ReadsUntilFailure(start) == taken + ReadsUntilFailure(rest)
    requires rest != [] && rest[0] == Some(img)
    ensures ReadsUntilFailure(start) == (taken + [img]) + ReadsUntilFailure(rest[1..])
    ensures DataFrames(taken + [img], videoId, encode) == DataFrames(taken, videoId, encode) + [DataFrame(img, videoId, encode)]
  {
    ReadsUntilFailureStep(rest);
    DataFramesSnoc(taken, img, videoId, encode);
  }

  /** A read loop that stops at a failed read (or the end) has obtained every picture before it. */
  lemma ReadLoopStop(start: seq<Option<Image>>, rest: seq<Option<Image>>, taken: seq<Image>)
    requires ReadsUntilFailure(start) == taken + ReadsUntilFailure(rest)
    requires rest == [] || rest[0].None?
    ensures ReadsUntilFailure(start) == taken
  {
  }

  /** Data frames for the pictures, then the terminal frame. */
  function FrameSequence(imgs: seq<Image>, videoId: string, fps: real, encode: Image -> Bytes): seq<VideoFrame>
  {
    DataFrames(imgs, videoId, encode) + [TerminalFrame(videoId, fps)]
  }

  /**
   * One data frame per picture, in order, then exactly one terminal frame, last;
   * every frame carries the job identifier.
   */
  lemma FrameSequenceSpec(imgs: seq<Image>, videoId: string, fps: real, encode: Image -> Bytes)
    ensures var frames := FrameSequence(imgs, videoId, fps, encode);
      |frames| == |imgs| + 1 &&
      (forall i :: 0 <= i < |imgs| ==> frames[i] == DataFrame(imgs[i], videoId, encode)) &&
      frames[|imgs|] == TerminalFrame(videoId, fps) &&
      (forall i :: 0 <= i < |frames| ==> (frames[i].isFinal <==> i == |imgs|)) &&
      (forall i :: 0 <= i < |frames| ==> frames[i].videoId == videoId)
  {
    DataFramesSpec(imgs, videoId, encode);
  }

  /** The request stream a read loop produces from the decoder's read results. */
  function RequestsFor(results: seq<Option<Image>>, videoId: string, fps: real, encode: Image -> Bytes): seq<VideoFrame>
  {
    FrameSequence(ReadsUntilFailure(results), videoId, fps, encode)
  }

  /**
   * Frame i carries the encoding of read i for every frame but the last, the
   * read after the data frames (if any) is the failed one, and the last frame
   * is the only terminal frame.
   */
  lemma RequestsForSpec(results: seq<Option<Image>>, videoId: string, fps: real, encode: Image -> Bytes)
    ensures var frames := RequestsFor(results, videoId, fps, encode);
      1 <= |frames| <= |results| + 1 &&
      (forall i :: 0 <= i < |frames| - 1 ==>
        results[i].Some? && frames[i] == DataFrame(results[i].value, videoId, encode)) &&
      (|frames| - 1 < |results| ==> results[|frames| - 1].None?) &&
      frames[|frames| - 1] == TerminalFrame(videoId, fps) &&
      (forall i :: 0 <= i < |frames| ==> (frames[i].isFinal <==> i == |frames| - 1)) &&
      (forall i :: 0 <= i < |frames| ==> frames[i].videoId == videoId)
  {
    ReadsUntilFailureSpec(results);
    FrameSequenceSpec(ReadsUntilFailure(results), videoId, fps, encode);
  }

  /** Request streams agree whatever follows the first failed read. */
  lemma RequestsIgnoreReadsAfterFailure(before: seq<Option<Image>>, after1: seq<Option<Image>>, after2: seq<Option<Image>>,
                                        videoId: string, fps: real, encode: Image -> Bytes)
    ensures RequestsFor(before + [None] + after1, videoId, fps, encode)
         == RequestsFor(before + [None] + after2, videoId, fps, encode)
  {
    FailureHidesLaterReads(before, after1, after2);
  }
}
