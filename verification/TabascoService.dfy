/** The service that hands out a submission's scripts and a task's batches. */
module TabascoService {
  import opened Wrappers
  import opened Naming
  import opened Storage

  datatype GetScriptsReply = GetScriptsReply(initScript: string, executeScript: string, batchCount: nat)

  class TabascoGrpcService {
    const storageClient: StorageClient

    constructor (storageClient: StorageClient)
      ensures this.storageClient == storageClient
    {
      this.storageClient := storageClient;
    }

    /** The batch count comes from the metadata; both documents have to be there. */
    method GetScripts(taskId: nat, buildId: nat) returns (r: Result<GetScriptsReply, string>)
      ensures r.Success? <==> buildId in storageClient.builds && taskId in storageClient.taskMeta
      ensures r.Success? ==>
                && r.value.initScript == storageClient.builds[buildId].initScript
                && r.value.executeScript == storageClient.builds[buildId].executeScript
                && r.value.batchCount == |storageClient.taskMeta[taskId].batches|
      ensures r.Failure? ==>
                r.error == if buildId !in storageClient.builds then "404 Not Found Build for id: " + ToString(buildId)
                           else "404 Not Found TaskMetaData for id: " + ToString(taskId)
    {
      var expectedBuild := storageClient.GetBuild(buildId);
      if expectedBuild.Failure? {
        return Failure(expectedBuild.error.msg);
      }
      var build := expectedBuild.value;
      var expectedTaskMetaData := storageClient.GetTaskMetaData(taskId);
      if expectedTaskMetaData.Failure? {
        return Failure(expectedTaskMetaData.error.msg);
      }
      var taskMetaData := expectedTaskMetaData.value;
      return Success(GetScriptsReply(build.initScript, build.executeScript, |taskMetaData.batches|));
    }

    method GetBatch(taskId: nat, batchId: nat) returns (r: Result<TaskTests, string>)
      requires Fetchable(storageClient.taskMeta, taskId, batchId)
      ensures match Fetch(storageClient.State(), taskId, batchId)
              case Success(tests) => r == Success(tests)
              case Failure(e) => r == Failure(e.msg)
    {
      var expectedTaskTestsBatch := storageClient.GetTaskBatch(taskId, batchId);
      if expectedTaskTestsBatch.Failure? {
        return Failure(expectedTaskTestsBatch.error.msg);
      }
      return Success(expectedTaskTestsBatch.value);
    }
  }
}
