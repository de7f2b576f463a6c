/** The chapter download task of Tranga/TrangaTasks/DownloadChapterTask.cs:
    a one-shot task that downloads one chapter, reports its progress to the
    task that spawned it, and does nothing once cancellation is requested. */
module ChapterTasks {
  import opened Platform

  /** The kind of task the base class records, by name. */
  datatype TaskKind = TaskKind(name: string)

  /** The publication and the chapter to download, by the fields the task shows. */
  datatype Publication = Publication(sortName: string, internalId: string)
  datatype TaskChapter = TaskChapter(volumeNumber: string, chapterNumber: string)

  /** The calls `ExecuteTask` makes on the task manager and the connector, in order. */
  datatype TaskEffect =
    | GetConnector(connectorName: string)
    | DownloadChapter(publication: Publication, chapter: TaskChapter)
    | DeleteTask

  const DefaultLanguage: string := "en"

  /** The task that spawned the download, seen as the progress counter it is to its children. */
  class DownloadNewChaptersTask {
    var progress: real

    constructor (progress: real)
      ensures this.progress == progress
    {
      this.progress := progress;
    }

    method IncrementProgress(amount: real)
      modifies this`progress
      ensures progress == old(progress) + amount
    {
      progress := progress + amount;
    }
  }

  class DownloadChapterTask {
    const task: TaskKind
    /** The recurrence handed to the base class, in ticks. */
    const recurrence: Ticks
    var progress: real
    /** The time of the last progress change, in milliseconds. */
    var lastChange: int
    const connectorName: string
    const publication: Publication
    const language: string
    const chapter: TaskChapter
    const parentTask: DownloadNewChaptersTask?

    /** A one-shot task storing what it is given. */
    constructor (task: TaskKind, connectorName: string, publication: Publication, chapter: TaskChapter,
                 language: string := DefaultLanguage, parentTask: DownloadNewChaptersTask? := null)
      ensures this.task == task && recurrence == 0
      ensures this.connectorName == connectorName && this.publication == publication && this.chapter == chapter
      ensures this.language == language && this.parentTask == parentTask
    {
      this.task := task;
      this.recurrence := 0;
      this.chapter := chapter;
      this.connectorName := connectorName;
      this.publication := publication;
      this.language := language;
      this.parentTask := parentTask;
    }

    /** Adds `amount` to this task's progress and the same amount to the
        parent's, stamps the change with `now`, and returns the new progress. */
    method IncrementProgress(amount: real, now: int) returns (p: real)
      modifies this`progress, this`lastChange, parentTask
      ensures progress == old(progress) + amount && p == progress
      ensures lastChange == now
      ensures parentTask != null ==> parentTask.progress == old(parentTask.progress) + amount
    {
      progress := progress + amount;
      lastChange := now;
      if parentTask != null {
        parentTask.IncrementProgress(amount);
      }
      p := progress;
    }

    /** Runs the download unless cancellation has already been requested
        (`None` is the absent token). Once it runs, the task fetches its
        connector, has it download the chapter, and only then deletes
        itself from the task manager. */
    method ExecuteTask(cancellationRequested: Option<bool> := None) returns (effects: seq<TaskEffect>)
      ensures effects == [] <==> cancellationRequested == Some(true)
      ensures effects != [] ==>
        effects == [GetConnector(connectorName), DownloadChapter(publication, chapter), DeleteTask]
    {
      if cancellationRequested.GetOr(false) {
        return [];
      }
      effects := [GetConnector(connectorName)];
      effects := effects + [DownloadChapter(publication, chapter)];
      effects := effects + [DeleteTask];
    }
  }
}
