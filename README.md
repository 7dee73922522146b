# Video-processing stages of the video service, modelled in Dafny

This project models the stage logic of the video service's two processing APIs:
the object-detection API (`web/object_detection/object_detection_api.py`) and the
face API (`web/face/face_api.py`). A stage opens a decoder on the job's stored
file. It sets the job's frame rate and turns the decoded pictures into a stream
of `VideoFrame` requests: one data frame per successful read, in file order,
then exactly one terminal frame. It sends that stream to a remote streaming
procedure and records the response payloads on the job. Then it moves the job
to a new directory, saves it and returns the new file path. The
object-detection API also chains two stages: pre-processing, then object
detection.

Structure:

- `frames.dfy` (`Frames`): the request message and the pure description of
  the request stream a read loop produces (`ReadsUntilFailure`, `DataFrames`,
  `FrameSequence`, `RequestsFor`), with a lemma stating what each one yields.
- `decoding.dfy` (`Decoding`): the decoder as a class `VideoCapture`. It has an
  open flag, a reported frame rate and a finite sequence of read results; a
  read past the end fails. A `Decoders` object counts, in ghost state, the
  captures that are open and not yet released. Stored files are a function from
  path to `Media`.
- `grpc.dfy` (`Grpc`): the connection manager as a class `GrpcManager`. Ghost
  fields log the stub acquisitions, the stubs currently held and the calls
  made. The remote services are a function from procedure and request stream
  to a `ResponseStream`: k payloads, then either the end or an error.
- `video.dfy` (`Video`): the job record `VideoModel` (a class updated in place),
  its value `Job`, and `StageRun`, the outcome of a stage or chain.
- `object_detection.dfy` (`ObjectDetectionApi`) and `face.dfy` (`FaceApi`): the
  stage methods and chains. Each method is proved against a pure function of
  the job's old value (`DetectStage`, `SingleStageChain`, `TwoStageChain`,
  `FaceStage`), and the properties are stated on those functions.

Three behaviours of the code shape the model:

- An RPC error is caught and logged (`web/object_detection/object_detection_api.py:69-70`,
  `web/face/face_api.py:61-62`). A stage whose call failed therefore still moves
  the job, saves it and returns a path. As a result, the two-stage chain runs
  object detection after a failed pre-processing call
  (`web/object_detection/object_detection_api.py:102-103`). Only an unopenable
  file stops a stage (it returns None, lines 57-59 and `web/face/face_api.py:37-41`),
  and, in the chain, the second stage.
- Object detection replaces `data` by a list built from the whole response
  stream (`web/object_detection/object_detection_api.py:68`), so partial
  payloads are dropped when the stream raises. The face stage appends each
  payload as it arrives (`web/face/face_api.py:59-60`), so partial payloads stay.
- Object detection sets the rate to `min(30, reported)`
  (`web/object_detection/object_detection_api.py:54`). A non-positive rate is
  kept, and a capture that did not open reports 0, which the job then keeps.
  The face stage replaces only rates above 100, by 30 (`web/face/face_api.py:35`),
  and keeps every other rate, including rates between 30 and 100.

## Model

| member | source | states |
|---|---|---|
| `Frames.ReadsUntilFailureSpec` | web/object_detection/object_detection_api.py:34-37 | the pictures sent are the successful reads in read order, up to the first failed read, which is not passed over |
| `Frames.ReadsUntilFailureUnique` | web/object_detection/object_detection_api.py:34-37 | those properties determine the pictures sent: any sequence satisfying them is exactly what the loop obtains |
| `Frames.FailureHidesLaterReads` | web/object_detection/object_detection_api.py:35-37 | whatever the decoder would yield after a failed read never changes the pictures sent |
| `Frames.Consumed` | web/object_detection/object_detection_api.py:34-37 | the read loop consumes at most the available results, all but the last of them successful, and, when it stops before the end, the last one consumed is the failed read |
| `Frames.DataFramesSpec` | web/object_detection/object_detection_api.py:38-40 | one data frame per picture, same order, each carrying the picture's encoding, `is_final` false and the job identifier |
| `Frames.FrameSequenceSpec` | web/object_detection/object_detection_api.py:34-41 | data frames first, then exactly one terminal frame, last, with no data, the given rate and the identifier; only it is final |
| `Frames.RequestsForSpec` | web/object_detection/object_detection_api.py:27-41 | frame i is the encoding of successful read i for all but the last frame, the read after them failed or is past the end, and the last frame is the only terminal one |
| `Frames.RequestsIgnoreReadsAfterFailure` | web/object_detection/object_detection_api.py:35-37 | request streams are identical whatever follows the first failed read |
| `Decoding.VideoCapture.constructor` | web/object_detection/object_detection_api.py:53-54 | a capture is open exactly when the file holds a video, and it then reports that video's rate (0 otherwise); an opened capture adds one live decoder handle |
| `Decoding.VideoCapture.Read` | web/object_detection/object_detection_api.py:35 | a read succeeds exactly when the capture is open and the next result is a picture, which it returns; an open capture consumes one result |
| `Decoding.VideoCapture.Release` | web/object_detection/object_detection_api.py:71-72 | after release the capture is no longer open, and an open capture stops being a live decoder handle |
| `Grpc.GrpcManager.GetStub` | web/object_detection/object_detection_api.py:61 | entering the scoped acquisition logs the service name and holds one more stub |
| `Grpc.GrpcManager.ReturnStub` | web/object_detection/object_detection_api.py:61 | leaving the scoped acquisition returns the stub |
| `Grpc.GrpcManager.Invoke` | web/object_detection/object_detection_api.py:64-67 | a call yields the remote service's response to exactly the requests sent, and is logged |
| `Video.VideoModel.Save` | web/object_detection/object_detection_api.py:76 | saving marks the record saved and changes nothing else |
| `ObjectDetectionApi.CappedFps` | web/object_detection/object_detection_api.py:54 | the rate is at most 30 and at most the reported rate, and is one of the two |
| `ObjectDetectionApi.SelectRpc` | web/object_detection/object_detection_api.py:64-67 | `video_pre_service` selects ProcessVideo, `object_detect_service` selects ObjectDetection, any other name selects nothing |
| `ObjectDetectionApi.DetectStage` | web/object_detection/object_detection_api.py:53-77 | rate capped at 30 in every case; unopenable file: None, no stub, no call, path and data kept; otherwise one acquisition of the named stub, at most one call with the file's request stream, data replaced by the payloads only if the stream completed, path moved, saved, new path returned even after a failed call |
| `ObjectDetectionApi.SingleStageChain` | web/object_detection/object_detection_api.py:80-89 | uses `object_detect_service` and returns `video_data/object_detection/<filename>`, or None with no stub when the file does not open |
| `ObjectDetectionApi.TwoStageChain` | web/object_detection/object_detection_api.py:92-104 | the rate is at most 30 in every case; unopenable upload: rate `min(30, 0)` as reported by the unopened capture, None, no stub, no call, nothing else changed; otherwise the pre-process call with the upload's request stream at the capped rate, then the detection call with the pre-processed file's request stream exactly when that file opens; the stubs, the rate recomputed from the second file, data replaced by each completed stream in turn and kept on a failed one, the final directory, the saved flag and the returned path |
| `ObjectDetectionApi.StageResultTruthy` | web/object_detection/object_detection_api.py:99-104 | a stage's result passes the chain's truth test exactly when its file opened |
| `ObjectDetectionApi.StageIgnoresReadsAfterFailure` | web/object_detection/object_detection_api.py:53-77 | two files that agree up to and including the first failed read give identical stage outcomes |
| `ObjectDetectionApi.StageCallsEndWithCappedTerminal` | web/object_detection/object_detection_api.py:54-67 | the call a stage makes, if any, sends a stream whose only terminal frame is last, with the job identifier and a rate of at most 30 |
| `ObjectDetectionApi.ChainCallsEndWithCappedTerminal` | web/object_detection/object_detection_api.py:41-67 | every call of either chain sends one terminal frame, last, with the job identifier and a rate of at most 30 |
| `ObjectDetectionApi.RerunGivesSameOutcome` | web/object_detection/object_detection_api.py:53-89 | two job records with the same identifier, directory and filename get the same result, stubs, calls, rate and directory from the single-stage chain, and the same data when the stream completes |
| `ObjectDetectionApi.GenerateVideoFrames` | web/object_detection/object_detection_api.py:27-41 | the frames yielded are the request stream of the capture's unread results when it is open, and the terminal frame alone otherwise; an open capture consumes exactly the successful reads and the failed read that stops the loop |
| `ObjectDetectionApi.CollectResponses` | web/object_detection/object_detection_api.py:68 | all payloads in arrival order when the stream completes, nothing when it raises |
| `ObjectDetectionApi.ProcessVideoWithGrpc` | web/object_detection/object_detection_api.py:44-77 | the job, result, acquisitions and calls are those of `DetectStage`; every stub acquired is returned; the capture opened on the job's file is released, so the number of live decoder handles is unchanged |
| `ObjectDetectionApi.ProcessVideo` | web/object_detection/object_detection_api.py:80-89 | the job, result, acquisitions and calls are those of `SingleStageChain`; every stub is returned and no decoder handle stays live |
| `ObjectDetectionApi.ProcessVideoWithPre` | web/object_detection/object_detection_api.py:92-104 | the job, result, acquisitions and calls are those of `TwoStageChain`; every stub is returned and no decoder handle stays live |
| `FaceApi.FaceFps` | web/face/face_api.py:35 | the rate is at most 100 and is either 30 or the reported rate: a reported rate above 100 becomes 30, every other rate is kept unchanged, with no cap at 30 and no lower bound |
| `FaceApi.FaceStage` | web/face/face_api.py:27-67 | unopenable file: None, no stub, no call, only the rate changed; otherwise one `face_detect_service` acquisition and one FaceDetection call with the file's request stream carrying the job's rate, payloads appended after the old data whether or not the stream failed, path `video_data/face_detection`, saved, that path plus the filename returned |
| `FaceApi.PartialResponsesKept` | web/face/face_api.py:56-67 | after an error following k payloads, data is the old data followed by exactly k payloads and the stage still returns its path |
| `FaceApi.RerunAppendsSamePayloads` | web/face/face_api.py:34-67 | two job records with the same identifier, directory and filename get the same result, call and rate, and the payloads appended after their earlier data are the same |
| `FaceApi.AppendResponses` | web/face/face_api.py:59-60 | the job's data becomes its old data followed by every payload in arrival order; nothing else changes |
| `FaceApi.RequestGenerator` | web/face/face_api.py:42-54 | the frames yielded are the request stream of the capture's unread results with the job's identifier and rate; an open capture consumes exactly the successful reads and the failed read that stops the loop |
| `FaceApi.ProcessVideo` | web/face/face_api.py:27-67 | the job, result, acquisitions and calls are those of `FaceStage`; the stub is returned; the capture opened on the job's file is released, so the number of live decoder handles is unchanged |

## Left out

- The HTTP routers and upload handlers (`upload_video`, `upload_video_with_pre`, the face `upload_video`, `FileResponse`): request plumbing around the stages.
- `VideoModel.http_video_save` and the internals of `VideoModel.save`: `utils/model/video.py` is not part of this model; saving is a flag, and a failing save is not modelled.
- OpenCV: decoding is an abstract sequence of read results per stored path, and JPEG encoding is an arbitrary function from picture to bytes passed in as `encode`.
- `GrpcManager.get_stub` and the channel itself: `utils/tools/gRPCManager.py` is not part of this model. Acquisition always succeeds, including for a stub name outside the two the callers use.
- Concurrency of the bidirectional stream: the model is sequential. The whole request stream is produced, then the response outcome is consumed. A remote error that stops the consumption of requests early is therefore not modelled; the decoder is released afterwards in either case.
- The stored files are one fixed map from path to decoder content for a whole chain: what `save` writes is not linked to what the second stage of the two-stage chain decodes from the pre-processing directory, so the chain lemmas hold for whatever that file holds.
- Floating-point frame rates are `real`; rounding and NaN are not modelled.
- Logging calls.
- The admin CRUD module, its HTTP handlers and the server wiring (service registration, heartbeat, startup): not part of the stage logic.
