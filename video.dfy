/** The job record a stage works on, and the outcome of running a stage on it. */
module Video {
  import opened Wrappers
  import opened Frames
  import Grpc

  /** The value of a job record at one moment. */
  datatype Job = Job(id: string, filename: string, path: string, fps: real, data: seq<Bytes>, saved: bool)

  /** Where a job's current file is stored. */
  function SourceOf(job: Job): string
  {
    job.path + "/" + job.filename
  }

  /**
   * What one stage (or chain of stages) does: the job record afterwards, the path
   * returned (None for Python's None), the stubs acquired and the calls made.
   */
  datatype StageRun = StageRun(job: Job, result: Option<string>, acquired: seq<string>, calls: seq<Grpc.Call>)

  /** Python's truth test on a returned path: a path that is present and non-empty. */
  predicate Truthy(result: Option<string>)
  {
    result.Some? && result.value != ""
  }

  /** The job record (`VideoModel`) the stages update in place. */
  class VideoModel {
    const id: string
    const filename: string
    var path: string
    var fps: real
    var data: seq<Bytes>
    var saved: bool

    function Snapshot(): Job
      reads this
    {
      Job(id, filename, path, fps, data, saved)
    }

    constructor (job: Job)
      ensures Snapshot() == job
    {
      id, filename, path, fps, data, saved := job.id, job.filename, job.path, job.fps, job.data, job.saved;
    }

    /** Persists the record; only the fact that it was saved is modelled. */
    method Save()
      modifies this`saved
      ensures Snapshot() == old(Snapshot()).(saved := true)
    {
      saved := true;
    }
  }
}
