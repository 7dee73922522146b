/**
 * The face API's stage logic: build the request stream from a decoder, call the
 * face-detection procedure, and append the responses to the job as they arrive.
 */
module FaceApi {
  import opened Wrappers
  import opened Frames
  import opened Decoding
  import opened Video
  import Grpc

  const FaceDetectionPath: string := "video_data/face_detection"

  /**
   * The face stage's frame rate (`fps > 100 and 30 or fps`): a reported rate
   * above 100 is replaced by 30; any other rate, including one between 30 and
   * 100 or one that is not positive, is kept as reported.
   */
  function FaceFps(reported: real): (fps: real)
    ensures fps <= 100.0
    ensures fps == 30.0 || fps == reported
    ensures reported > 100.0 ==> fps == 30.0
    ensures reported <= 100.0 ==> fps == reported
  {
    if reported > 100.0 then 30.0 else reported
  }

  /**
   * What the face `process_video` does to a job. The frame rate is overwritten
   * first; an unopenable file then ends the stage with None and no stub. Otherwise
   * the face-detection stub is acquired and called once, every payload that
   * arrives is appended to `data` after what it held, also when the stream then
   * raises, and the job moves to the face-detection directory, is saved, and
   * its new location is returned.
   */
  function FaceStage(files: FileSystem, encode: Image -> Bytes, remote: Grpc.Remote, job: Job): (run: StageRun)
    ensures var media := files(SourceOf(job));
      run.job.id == job.id && run.job.filename == job.filename &&
      run.job.fps == FaceFps(ReportedFps(media))
    ensures !files(SourceOf(job)).Video? ==>
      run.result == None && run.acquired == [] && run.calls == [] &&
      run.job == job.(fps := run.job.fps)
    ensures files(SourceOf(job)).Video? ==>
      var requests := RequestsFor(files(SourceOf(job)).results, job.id, run.job.fps, encode);
      run.calls == [Grpc.Call(Grpc.FaceDetection, requests)] &&
      run.acquired == [Grpc.FaceDetectService] &&
      run.job.data == job.data + remote(Grpc.FaceDetection, requests).payloads &&
      run.job.path == FaceDetectionPath && run.job.saved &&
      run.result == Some(FaceDetectionPath + "/" + job.filename)
  {
    var media := files(SourceOf(job));
    var fps := FaceFps(ReportedFps(media));
    if !media.Video? then StageRun(job.(fps := fps), None, [], [])
    else
      var requests := RequestsFor(media.results, job.id, fps, encode);
      var stream := remote(Grpc.FaceDetection, requests);
      StageRun(job.(fps := fps, data := job.data + stream.payloads, path := FaceDetectionPath, saved := true),
               Some(FaceDetectionPath + "/" + job.filename), [Grpc.FaceDetectService], [Grpc.Call(Grpc.FaceDetection, requests)])
  }

  /**
   * When the face stream raises after k payloads, the job keeps exactly those k
   * payloads after its earlier data and the stage still completes with a path.
   */
  lemma PartialResponsesKept(files: FileSystem, encode: Image -> Bytes, remote: Grpc.Remote, job: Job, k: nat)
    requires files(SourceOf(job)).Video?
    requires var run := FaceStage(files, encode, remote, job);
      remote(run.calls[0].rpc, run.calls[0].requests).failed &&
      |remote(run.calls[0].rpc, run.calls[0].requests).payloads| == k
    ensures var run := FaceStage(files, encode, remote, job);
      |run.job.data| == |job.data| + k && run.job.data[..|job.data|] == job.data &&
      run.result == Some(FaceDetectionPath + "/" + job.filename)
  {
    var run := FaceStage(files, encode, remote, job);
    assert run.job.data[..|job.data|] == job.data;
  }

  /**
   * Rerunning the face stage on the same stored file with another job record of
   * the same identity and location appends the same payloads, whatever each
   * record held before, and returns the same path.
   */
  lemma RerunAppendsSamePayloads(files: FileSystem, encode: Image -> Bytes, remote: Grpc.Remote, job1: Job, job2: Job)
    requires job1.id == job2.id && job1.path == job2.path && job1.filename == job2.filename
    ensures var run1 := FaceStage(files, encode, remote, job1);
      var run2 := FaceStage(files, encode, remote, job2);
      run1.result == run2.result && run1.calls == run2.calls && run1.job.fps == run2.job.fps &&
      |job1.data| <= |run1.job.data| && |job2.data| <= |run2.job.data| &&
      run1.job.data[|job1.data|..] == run2.job.data[|job2.data|..]
  {
    var run1 := FaceStage(files, encode, remote, job1);
    var run2 := FaceStage(files, encode, remote, job2);
    if files(SourceOf(job1)).Video? {
      var payloads := remote(run1.calls[0].rpc, run1.calls[0].requests).payloads;
      assert run1.job.data[|job1.data|..] == payloads;
      assert run2.job.data[|job2.data|..] == payloads;
    }
  }

  /**
   * The nested `request_generator`: while the capture is open, read a picture,
   * stop at the first failed read, otherwise send its encoding with the job's
   * identifier; then send the terminal frame with the job's frame rate.
   */
  method RequestGenerator(cap: VideoCapture, vm: VideoModel, encode: Image -> Bytes) returns (frames: seq<VideoFrame>)
    requires cap.Valid()
    modifies cap`pos
    ensures cap.Valid()
    ensures cap.pos == old(cap.pos) + if cap.isOpen then Consumed(old(cap.Pending())) else 0
    ensures frames == RequestsFor(if cap.isOpen then old(cap.Pending()) else [], vm.id, vm.fps, encode)
  {
    frames := [];
    ghost var start := cap.Pending();
    ghost var taken: seq<Image> := [];
    while cap.isOpen
      invariant cap.Valid()
      invariant !cap.isOpen ==> taken == []
      invariant ReadsUntilFailure(start) == taken + ReadsUntilFailure(cap.Pending())
      invariant frames == DataFrames(taken, vm.id, encode)
      invariant cap.pos == old(cap.pos) + |taken|
      decreases |cap.results| - cap.pos
    {
      ghost var rest := cap.Pending();
      var ok, frame := cap.Read();
      if !ok {
        ReadLoopStop(start, rest, taken);
        break;
      }
      ReadLoopStep(start, rest, taken, frame, vm.id, encode);
      taken := taken + [frame];
      frames := frames + [DataFrame(frame, vm.id, encode)];
    }
    frames := frames + [TerminalFrame(vm.id, vm.fps)];
  }

  /**
   * The `async for` loop over the response stream: each payload is appended to
   * the job's data as it arrives, after what the data already held. An error
   * after the last payload ends the loop and is swallowed by the caller.
   */
  method AppendResponses(vm: VideoModel, stream: Grpc.ResponseStream)
    modifies vm`data
    ensures vm.Snapshot() == old(vm.Snapshot()).(data := old(vm.data) + stream.payloads)
  {
    var i := 0;
    while i < |stream.payloads|
      invariant i <= |stream.payloads|
      invariant vm.data == old(vm.data) + stream.payloads[..i]
    {
      vm.data := vm.data + [stream.payloads[i]];
      i := i + 1;
    }
    assert stream.payloads[..i] == stream.payloads;
  }

  /**
   * The face `process_video`: runs the stage on the job in place, as `FaceStage`
   * describes. The capture it opens is released, so no decoder handle stays
   * live, and the stub it acquires is returned.
   */
  method ProcessVideo(vm: VideoModel, mgr: Grpc.GrpcManager, decoders: Decoders, files: FileSystem, encode: Image -> Bytes)
    returns (result: Option<string>)
    modifies vm, mgr, decoders
    ensures var run := FaceStage(files, encode, mgr.remote, old(vm.Snapshot()));
      vm.Snapshot() == run.job && result == run.result &&
      mgr.acquired == old(mgr.acquired) + run.acquired && mgr.calls == old(mgr.calls) + run.calls
    ensures mgr.held == old(mgr.held)
    ensures decoders.live == old(decoders.live)
  {
    ghost var job := vm.Snapshot();
    ghost var media := files(SourceOf(job));
    var c := new VideoCapture(files(vm.path + "/" + vm.filename), decoders);
    vm.fps := FaceFps(c.reportedFps);
    if !c.isOpen {
      return None;
    }
    mgr.GetStub(Grpc.FaceDetectService);
    assert c.Pending() == media.results;
    var requests := RequestGenerator(c, vm, encode);
    assert requests == RequestsFor(media.results, job.id, vm.fps, encode);
    var stream := mgr.Invoke(Grpc.FaceDetection, requests);
    AppendResponses(vm, stream);
    // An error after the last payload is caught and logged; the stage carries on.
    vm.path := FaceDetectionPath;
    vm.Save();
    c.Release();
    mgr.ReturnStub();
    result := Some(vm.path + "/" + vm.filename);
  }
}
