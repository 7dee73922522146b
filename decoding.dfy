/**
 * The video decoder the stages open on a stored file: whether it opened, the
 * frame rate its container reports, and the results of successive reads.
 */
module Decoding {
  import opened Wrappers
  import opened Frames

  /**
   * What a path holds, as the decoder sees it: nothing it can open, or a video
   * with a reported frame rate and a finite sequence of read results (a read
   * past the end fails).
   */
  datatype Media = Unreadable | Video(fps: real, results: seq<Option<Image>>)

  /** The stored files, by path. */
  type FileSystem = string -> Media

  /** The frame rate a capture reports: 0 when it did not open. */
  function ReportedFps(media: Media): real
  {
    if media.Video? then media.fps else 0.0
  }

  /**
   * The decoder handles of the process. The ghost count says how many captures
   * are open and not yet released.
   */
  class Decoders {
    ghost var live: nat

    constructor ()
      ensures live == 0
    {
      live := 0;
    }
  }

  /** One decoder handle over a file; while open it is counted among the live ones. */
  class VideoCapture {
    const decoders: Decoders
    var isOpen: bool
    const reportedFps: real
    const results: seq<Option<Image>>
    var pos: nat

    ghost predicate Valid()
      reads this
    {
      pos <= |results|
    }

    /** The read results not yet consumed. */
    ghost function Pending(): seq<Option<Image>>
      reads this
      requires Valid()
    {
      results[pos..]
    }

    /** Opens the decoder on what the file holds; an opened handle becomes live. */
    constructor (media: Media, decoders: Decoders)
      modifies decoders
      ensures this.decoders == decoders
      ensures decoders.live == old(decoders.live) + (if media.Video? then 1 else 0)
      ensures Valid() && pos == 0
      ensures isOpen == media.Video?
      ensures reportedFps == ReportedFps(media)
      ensures results == (if media.Video? then media.results else [])
    {
      this.decoders := decoders;
      isOpen := media.Video?;
      reportedFps := ReportedFps(media);
      results := if media.Video? then media.results else [];
      pos := 0;
      new;
      if media.Video? {
        decoders.live := decoders.live + 1;
      }
    }

    /**
     * Reads the next picture. A read on a released capture, or past the end,
     * fails without consuming anything; otherwise one result is consumed.
     */
    method Read() returns (ok: bool, frame: Image)
      requires Valid()
      modifies this`pos
      ensures Valid()
      ensures pos == if old(isOpen) && old(pos) < |results| then old(pos) + 1 else old(pos)
      ensures ok == (isOpen && old(pos) < |results| && results[old(pos)].Some?)
      ensures ok ==> frame == results[old(pos)].value
    {
      if !isOpen || pos == |results| {
        return false, Image([]);
      }
      var r := results[pos];
      pos := pos + 1;
      if r.Some? {
        return true, r.value;
      }
      return false, Image([]);
    }

    /**
     * Releases the decoder handle: it no longer reports itself open, and an open
     * handle stops being live.
     */
    method Release()
      requires isOpen ==> decoders.live > 0
      modifies this`isOpen, decoders
      ensures !isOpen
      ensures decoders.live == old(decoders.live) - (if old(isOpen) then 1 else 0)
    {
      if isOpen {
        decoders.live := decoders.live - 1;
      }
      isOpen := false;
    }
  }
}
