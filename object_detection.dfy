/**
 * The object-detection API's stage logic: build the request stream from a
 * decoder, call the pre-processing or object-detection procedure, record the
 * responses on the job, and chain the two stages.
 */
module ObjectDetectionApi {
  import opened Wrappers
  import opened Frames
  import opened Decoding
  import opened Video
  import Grpc

  const PreProcessPath: string := "video_data/pre_process"
  const ObjectDetectionPath: string := "video_data/object_detection"

  /** The stage's frame rate: the reported one, limited to 30 (Python's `min(30, fps)`). */
  function CappedFps(reported: real): (fps: real)
    ensures fps <= 30.0 && fps <= reported
    ensures fps == 30.0 || fps == reported
  {
    if reported < 30.0 then reported else 30.0
  }

  /**
   * The procedure a stub name selects. Any other name leaves the response stream
   * unbound, which the stage's error handler swallows.
   */
  function SelectRpc(stubName: string): (rpc: Option<Grpc.Rpc>)
    ensures rpc == Some(Grpc.ProcessVideo) <==> stubName == Grpc.PreService
    ensures rpc == Some(Grpc.ObjectDetection) <==> stubName == Grpc.ObjectDetectService
    ensures rpc == None <==> stubName != Grpc.PreService && stubName != Grpc.ObjectDetectService
  {
    if stubName == Grpc.PreService then Some(Grpc.ProcessVideo)
    else if stubName == Grpc.ObjectDetectService then Some(Grpc.ObjectDetection)
    else None
  }

  /**
   * What `process_video_with_grpc` does to a job. The frame rate is overwritten
   * first; an unopenable file then ends the stage with None. Otherwise the stub
   * is acquired, the request stream is sent, the collected payloads replace
   * `data` only when the response stream completes, and the job moves to
   * `updatePath`, is saved, and its new location is returned, whether or not
   * the call failed.
   */
  function DetectStage(files: FileSystem, encode: Image -> Bytes, remote: Grpc.Remote,
                       job: Job, stubName: string, updatePath: string): (run: StageRun)
    ensures var media := files(SourceOf(job));
      run.job.id == job.id && run.job.filename == job.filename &&
      run.job.fps == CappedFps(ReportedFps(media)) && run.job.fps <= 30.0
    ensures !files(SourceOf(job)).Video? ==>
      run.result == None && run.acquired == [] && run.calls == [] &&
      run.job == job.(fps := run.job.fps)
    ensures files(SourceOf(job)).Video? ==>
      run.result == Some(updatePath + "/" + job.filename) && run.job.path == updatePath &&
      run.job.saved && run.acquired == [stubName]
    ensures run.calls != [] <==> files(SourceOf(job)).Video? && SelectRpc(stubName).Some?
    ensures run.calls != [] ==>
      run.calls == [Grpc.Call(SelectRpc(stubName).value,
                              RequestsFor(files(SourceOf(job)).results, job.id, run.job.fps, encode))]
    ensures run.calls == [] ==> run.job.data == job.data
    ensures run.calls != [] ==>
      var stream := remote(run.calls[0].rpc, run.calls[0].requests);
      run.job.data == if stream.failed then job.data else stream.payloads
  {
    var media := files(SourceOf(job));
    var fps := CappedFps(ReportedFps(media));
    if !media.Video? then StageRun(job.(fps := fps), None, [], [])
    else
      var rpc := SelectRpc(stubName);
      var calls := if rpc.Some? then [Grpc.Call(rpc.value, RequestsFor(media.results, job.id, fps, encode))] else [];
      var data :=
        if rpc.None? then job.data
        else
          var stream := remote(calls[0].rpc, calls[0].requests);
          if stream.failed then job.data else stream.payloads;
      StageRun(job.(fps := fps, data := data, path := updatePath, saved := true),
               Some(updatePath + "/" + job.filename), [stubName], calls)
  }

  /** `process_video`: the object-detection stage alone. */
  function SingleStageChain(files: FileSystem, encode: Image -> Bytes, remote: Grpc.Remote, job: Job): (run: StageRun)
    ensures files(SourceOf(job)).Video? ==>
      run.result == Some(ObjectDetectionPath + "/" + job.filename) &&
      run.acquired == [Grpc.ObjectDetectService] &&
      run.calls == [Grpc.Call(Grpc.ObjectDetection, RequestsFor(files(SourceOf(job)).results, job.id, run.job.fps, encode))]
    ensures !files(SourceOf(job)).Video? ==> run.result == None && run.acquired == [] && run.calls == []
  {
    DetectStage(files, encode, remote, job, Grpc.ObjectDetectService, ObjectDetectionPath)
  }

  /**
   * `process_video_withpre`: the pre-processing stage, then the object-detection
   * stage only when the first returned a truthy path.
   */
  function TwoStageChain(files: FileSystem, encode: Image -> Bytes, remote: Grpc.Remote, job: Job): (run: StageRun)
    ensures run.job.fps <= 30.0
    ensures !files(SourceOf(job)).Video? ==>
      run.job.fps == CappedFps(ReportedFps(files(SourceOf(job)))) &&
      run.result == None && run.acquired == [] && run.calls == [] &&
      run.job == job.(fps := run.job.fps) && run.job.path == job.path && run.job.data == job.data
    ensures files(SourceOf(job)).Video? ==>
      var second := files(PreProcessPath + "/" + job.filename);
      run.acquired == [Grpc.PreService] + (if second.Video? then [Grpc.ObjectDetectService] else []) &&
      run.job.fps == CappedFps(ReportedFps(second)) &&
      run.result == (if second.Video? then Some(ObjectDetectionPath + "/" + job.filename) else None) &&
      run.job.id == job.id && run.job.filename == job.filename && run.job.saved &&
      run.job.path == (if second.Video? then ObjectDetectionPath else PreProcessPath)
    ensures files(SourceOf(job)).Video? ==>
      var upload := files(SourceOf(job));
      var second := files(PreProcessPath + "/" + job.filename);
      var preCall := Grpc.Call(Grpc.ProcessVideo, RequestsFor(upload.results, job.id, CappedFps(upload.fps), encode));
      var preStream := remote(preCall.rpc, preCall.requests);
      var preData := if preStream.failed then job.data else preStream.payloads;
      if !second.Video? then run.calls == [preCall] && run.job.data == preData
      else
        var detCall := Grpc.Call(Grpc.ObjectDetection, RequestsFor(second.results, job.id, run.job.fps, encode));
        var detStream := remote(detCall.rpc, detCall.requests);
        run.calls == [preCall, detCall] &&
        run.job.data == (if detStream.failed then preData else detStream.payloads)
  {
    var pre := DetectStage(files, encode, remote, job, Grpc.PreService, PreProcessPath);
    if Truthy(pre.result) then
      var det := SingleStageChain(files, encode, remote, pre.job);
      StageRun(det.job, det.result, pre.acquired + det.acquired, pre.calls + det.calls)
    else pre
  }

  /** A stage that returns a path returns a truthy one, so the two-stage chain goes on. */
  lemma StageResultTruthy(files: FileSystem, encode: Image -> Bytes, remote: Grpc.Remote,
                          job: Job, stubName: string, updatePath: string)
    ensures var run := DetectStage(files, encode, remote, job, stubName, updatePath);
      Truthy(run.result) <==> files(SourceOf(job)).Video?
  {
    var run := DetectStage(files, encode, remote, job, stubName, updatePath);
    if files(SourceOf(job)).Video? {
      assert run.result.value[|updatePath|] == '/';
    }
  }

  /**
   * Decoder content after the first failed read never influences a stage: two
   * files that agree up to and including that read give the same stage outcome.
   */
  lemma StageIgnoresReadsAfterFailure(files1: FileSystem, files2: FileSystem, encode: Image -> Bytes, remote: Grpc.Remote,
                                      job: Job, stubName: string, updatePath: string,
                                      fps: real, before: seq<Option<Image>>, after1: seq<Option<Image>>, after2: seq<Option<Image>>)
    requires files1(SourceOf(job)) == Video(fps, before + [None] + after1)
    requires files2(SourceOf(job)) == Video(fps, before + [None] + after2)
    ensures DetectStage(files1, encode, remote, job, stubName, updatePath)
         == DetectStage(files2, encode, remote, job, stubName, updatePath)
  {
    RequestsIgnoreReadsAfterFailure(before, after1, after2, job.id, CappedFps(fps), encode);
  }

  /**
   * Rerunning the object-detection chain on the same stored file with another job
   * record of the same identity and location gives the same result, stubs, calls,
   * rate and location, and, when the stream completes, the same payloads: what
   * the record held before does not influence the outcome.
   */
  lemma RerunGivesSameOutcome(files: FileSystem, encode: Image -> Bytes, remote: Grpc.Remote, job1: Job, job2: Job)
    requires job1.id == job2.id && job1.path == job2.path && job1.filename == job2.filename
    ensures var run1 := SingleStageChain(files, encode, remote, job1);
      var run2 := SingleStageChain(files, encode, remote, job2);
      run1.result == run2.result && run1.acquired == run2.acquired && run1.calls == run2.calls &&
      run1.job.fps == run2.job.fps && run1.job.path == run2.job.path &&
      (run1.calls != [] && !remote(run1.calls[0].rpc, run1.calls[0].requests).failed ==> run1.job.data == run2.job.data)
  {
  }

  /**
   * A request stream as the remote services expect it: non-empty, its last frame
   * the only terminal one, carrying the job identifier and a rate of at most 30.
   */
  ghost predicate EndsWithCappedTerminal(requests: seq<VideoFrame>, videoId: string)
  {
    var n := |requests|;
    n >= 1 && requests[n - 1].isFinal && requests[n - 1].videoId == videoId && requests[n - 1].fps <= 30.0 &&
    forall i :: 0 <= i < n - 1 ==> !requests[i].isFinal
  }

  /** The one call a stage makes, if any, sends a well-terminated request stream. */
  lemma StageCallsEndWithCappedTerminal(files: FileSystem, encode: Image -> Bytes, remote: Grpc.Remote,
                                        job: Job, stubName: string, updatePath: string)
    ensures forall c :: c in DetectStage(files, encode, remote, job, stubName, updatePath).calls ==>
      EndsWithCappedTerminal(c.requests, job.id)
  {
    var run := DetectStage(files, encode, remote, job, stubName, updatePath);
    if run.calls != [] {
      RequestsForSpec(files(SourceOf(job)).results, job.id, run.job.fps, encode);
    }
  }

  /** Every call either chain makes sends a well-terminated request stream. */
  lemma ChainCallsEndWithCappedTerminal(files: FileSystem, encode: Image -> Bytes, remote: Grpc.Remote, job: Job)
    ensures forall c :: c in TwoStageChain(files, encode, remote, job).calls ==> EndsWithCappedTerminal(c.requests, job.id)
    ensures forall c :: c in SingleStageChain(files, encode, remote, job).calls ==> EndsWithCappedTerminal(c.requests, job.id)
  {
    var pre := DetectStage(files, encode, remote, job, Grpc.PreService, PreProcessPath);
    StageCallsEndWithCappedTerminal(files, encode, remote, job, Grpc.PreService, PreProcessPath);
    StageCallsEndWithCappedTerminal(files, encode, remote, pre.job, Grpc.ObjectDetectService, ObjectDetectionPath);
    StageCallsEndWithCappedTerminal(files, encode, remote, job, Grpc.ObjectDetectService, ObjectDetectionPath);
  }

  /**
   * `generate_video_frames`: while the capture is open, read a picture, stop at
   * the first failed read, otherwise send its encoding; then send the terminal
   * frame with the given rate.
   */
  method GenerateVideoFrames(cap: VideoCapture, videoId: string, fps: real, encode: Image -> Bytes)
    returns (frames: seq<VideoFrame>)
    requires cap.Valid()
    modifies cap`pos
    ensures cap.Valid()
    ensures cap.pos == old(cap.pos) + if cap.isOpen then Consumed(old(cap.Pending())) else 0
    ensures frames == RequestsFor(if cap.isOpen then old(cap.Pending()) else [], videoId, fps, encode)
  {
    frames := [];
    ghost var start := cap.Pending();
    ghost var taken: seq<Image> := [];
    while cap.isOpen
      invariant cap.Valid()
      invariant !cap.isOpen ==> taken == []
      invariant ReadsUntilFailure(start) == taken + ReadsUntilFailure(cap.Pending())
      invariant frames == DataFrames(taken, videoId, encode)
      invariant cap.pos == old(cap.pos) + |taken|
      decreases |cap.results| - cap.pos
    {
      ghost var rest := cap.Pending();
      var ok, frame := cap.Read();
      if !ok {
        ReadLoopStop(start, rest, taken);
        break;
      }
      ReadLoopStep(start, rest, taken, frame, videoId, encode);
      taken := taken + [frame];
      frames := frames + [DataFrame(frame, videoId, encode)];
    }
    frames := frames + [TerminalFrame(videoId, fps)];
  }

  /**
   * The list comprehension over the response stream: every payload in arrival
   * order when the stream completes, nothing at all when it raises.
   */
  method CollectResponses(stream: Grpc.ResponseStream) returns (collected: Option<seq<Bytes>>)
    ensures stream.failed ==> collected == None
    ensures !stream.failed ==> collected == Some(stream.payloads)
  {
    var list := [];
    var i := 0;
    while i < |stream.payloads|
      invariant i <= |stream.payloads|
      invariant list == stream.payloads[..i]
    {
      list := list + [stream.payloads[i]];
      i := i + 1;
    }
    if stream.failed {
      return None;
    }
    assert list == stream.payloads;
    return Some(list);
  }

  /**
   * `process_video_with_grpc`: runs one stage on the job in place, as
   * `DetectStage` describes. The capture it opens is released, so no decoder
   * handle stays live, and every stub it acquires is returned.
   */
  method ProcessVideoWithGrpc(vm: VideoModel, mgr: Grpc.GrpcManager, decoders: Decoders, files: FileSystem,
                              encode: Image -> Bytes, stubName: string, updatePath: string)
    returns (result: Option<string>)
    modifies vm, mgr, decoders
    ensures var run := DetectStage(files, encode, mgr.remote, old(vm.Snapshot()), stubName, updatePath);
      vm.Snapshot() == run.job && result == run.result &&
      mgr.acquired == old(mgr.acquired) + run.acquired && mgr.calls == old(mgr.calls) + run.calls
    ensures mgr.held == old(mgr.held)
    ensures decoders.live == old(decoders.live)
  {
    ghost var job := vm.Snapshot();
    ghost var media := files(SourceOf(job));
    var c := new VideoCapture(files(vm.path + "/" + vm.filename), decoders);
    vm.fps := CappedFps(c.reportedFps);
    if !c.isOpen {
      return None;
    }
    mgr.GetStub(stubName);
    var rpc := SelectRpc(stubName);
    if rpc.Some? {
      assert c.Pending() == media.results;
      var requests := GenerateVideoFrames(c, vm.id, vm.fps, encode);
      assert requests == RequestsFor(media.results, job.id, vm.fps, encode);
      var stream := mgr.Invoke(rpc.value, requests);
      var collected := CollectResponses(stream);
      if collected.Some? {
        vm.data := collected.value;
      }
    }
    c.Release();
    mgr.ReturnStub();
    vm.path := updatePath;
    vm.Save();
    result := Some(vm.path + "/" + vm.filename);
  }

  /** `process_video`: the object-detection stage alone. */
  method ProcessVideo(vm: VideoModel, mgr: Grpc.GrpcManager, decoders: Decoders, files: FileSystem, encode: Image -> Bytes)
    returns (result: Option<string>)
    modifies vm, mgr, decoders
    ensures var run := SingleStageChain(files, encode, mgr.remote, old(vm.Snapshot()));
      vm.Snapshot() == run.job && result == run.result &&
      mgr.acquired == old(mgr.acquired) + run.acquired && mgr.calls == old(mgr.calls) + run.calls
    ensures mgr.held == old(mgr.held)
    ensures decoders.live == old(decoders.live)
  {
    result := ProcessVideoWithGrpc(vm, mgr, decoders, files, encode, Grpc.ObjectDetectService, ObjectDetectionPath);
  }

  /** `process_video_withpre`: pre-processing, then object detection if the first returned a truthy path. */
  method ProcessVideoWithPre(vm: VideoModel, mgr: Grpc.GrpcManager, decoders: Decoders, files: FileSystem, encode: Image -> Bytes)
    returns (result: Option<string>)
    modifies vm, mgr, decoders
    ensures var run := TwoStageChain(files, encode, mgr.remote, old(vm.Snapshot()));
      vm.Snapshot() == run.job && result == run.result &&
      mgr.acquired == old(mgr.acquired) + run.acquired && mgr.calls == old(mgr.calls) + run.calls
    ensures mgr.held == old(mgr.held)
    ensures decoders.live == old(decoders.live)
  {
    var fileName := ProcessVideoWithGrpc(vm, mgr, decoders, files, encode, Grpc.PreService, PreProcessPath);
    if Truthy(fileName) {
      result := ProcessVideo(vm, mgr, decoders, files, encode);
      return;
    }
    result := fileName;
  }
}
