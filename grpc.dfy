/**
 * The connection manager and the remote streaming procedures, seen from the
 * caller: a call consumes a request stream and yields some response payloads,
 * after which the stream either ends or raises an error.
 */
module Grpc {
  import opened Frames

  /** The remote procedures the stages call. */
  datatype Rpc = ProcessVideo | ObjectDetection | FaceDetection

  /** The response payloads in arrival order; `failed` when an error follows the last one. */
  datatype ResponseStream = ResponseStream(payloads: seq<Bytes>, failed: bool)

  /** One remote call: the procedure and the request stream it was sent. */
  datatype Call = Call(rpc: Rpc, requests: seq<VideoFrame>)

  /** The remote services' behaviour, as a function of the procedure and the requests. */
  type Remote = (Rpc, seq<VideoFrame>) -> ResponseStream

  const PreService: string := "video_pre_service"
  const ObjectDetectService: string := "object_detect_service"
  const FaceDetectService: string := "face_detect_service"

  /**
   * Hands out stubs by service name. The ghost fields record every acquisition,
   * how many stubs are currently held, and every call made through a stub.
   */
  class GrpcManager {
    const remote: Remote
    ghost var acquired: seq<string>
    ghost var held: nat
    ghost var calls: seq<Call>

    constructor (remote: Remote)
      ensures this.remote == remote
      ensures acquired == [] && held == 0 && calls == []
    {
      this.remote := remote;
      acquired, held, calls := [], 0, [];
    }

    /** Enters the scoped acquisition of the stub for the named service. */
    method GetStub(name: string)
      modifies this
      ensures acquired == old(acquired) + [name]
      ensures held == old(held) + 1
      ensures calls == old(calls)
    {
      acquired := acquired + [name];
      held := held + 1;
    }

    /** Leaves the scoped acquisition: the stub goes back to the manager. */
    method ReturnStub()
      requires held > 0
      modifies this
      ensures held == old(held) - 1
      ensures acquired == old(acquired) && calls == old(calls)
    {
      held := held - 1;
    }

    /** Calls a streaming procedure through a held stub. */
    method Invoke(rpc: Rpc, requests: seq<VideoFrame>) returns (stream: ResponseStream)
      requires held > 0
      modifies this
      ensures stream == remote(rpc, requests)
      ensures calls == old(calls) + [Call(rpc, requests)]
      ensures acquired == old(acquired) && held == old(held)
    {
      stream := remote(rpc, requests);
      calls := calls + [Call(rpc, requests)];
    }
  }
}
