# Tranga archive naming and job construction, in Dafny

This project models the part of Tranga that keeps downloaded chapter
archives in step with changing metadata, and the jobs that do the moving.

- **Chapter** (`Chapters.Chapter`). A chapter's `.cbz` archive name is built
  from four things: its manga's name, its volume (0 when it has none), its
  chapter number and its title. A missing title adds nothing. A present title,
  even an empty one, adds `" - " + title`. Each of the three setters stores its
  field and rebuilds the name. When the chapter is downloaded, the setter also
  returns a move job from the old archive path to the new one. Chapters are
  ordered by volume first. Ties go to a component-wise comparison of the
  dotted chapter numbers, and that comparison calls two numbers equal as soon
  as one of them runs out of components.
- **Manga** (`Mangas.Manga`). The folder name is the manga's name. Renaming
  the folder always returns a folder-level move job. Merging freshly fetched
  metadata copies ten descriptive fields. It leaves the identity, the folder
  name and the rest alone. A new name therefore renames neither the folder
  nor the chapters' archives.
- **Job** (`Jobs`). A new job starts at the Unix epoch, not completed, with
  no return value. Its recurrence is converted to whole milliseconds, and a
  recurrence below -0.5 ms throws. The jobs it depends on become its children.
  Jobs live in an arena keyed by id (`Jobs.JobArena`) and refer to each other
  only by id. A move job is a one-shot job of type `MoveFileJob` with a from
  path and a to path.
- **Chapter download task** (`ChapterTasks.DownloadChapterTask`). This is a
  one-shot task. Progress it reports is added to its own counter and to its
  parent's. It does nothing when cancellation has already been requested.

`Platform` holds the .NET calls the code relies on: `Path.Join`, `int`
formatting, `int.Parse`, `string.Split` and `Convert.ToUInt64` of a
`TimeSpan`'s milliseconds. Nullable values are `Option`, and exceptions are
the `Err` side of `Result`. The download root, the token generator's fresh
ids and the current time are parameters.

For a chapter that has its manga, the archive name is current after the
constructor `OfManga` and after every setter (`Chapter.ArchiveNameCurrent`).
A chapter built from the manga id alone has no manga. Its setters store the
new field and then throw, and its archive name stays unset. Changing the
manga's name through `UpdateWithInfo` does not rebuild any archive name.

The move jobs that the renaming methods return are built with the corrected
job constructor (see Findings and Left out).

## Model

| member | source | states |
|---|---|---|
| Chapters.Chapter.OfManga | API/Schema/Chapter.cs:24-39 | the constructor taking a manga stores the metadata, takes the manga's id as parent id, is not downloaded, and its archive name is the one built from its manga's name and its metadata |
| Chapters.Chapter.constructor | API/Schema/Chapter.cs:31-39 | the id-only constructor stores the metadata and leaves both the manga and the archive name unset |
| Chapters.Chapter.UpdateChapterNumber | API/Schema/Chapter.cs:41-45 | changes only the chapter number and the archive name; the new name is built from the new metadata; a move job from the old path to the new path comes back exactly when downloaded, and, when the stored archive name was current before the call, that job moves the archive onto itself exactly when the number did not change (after a manga rename through `UpdateWithInfo` the stored name is stale, and even an unchanged number moves the archive to the new name); without a manga object it throws and the name stays |
| Chapters.Chapter.UpdateVolumeNumber | API/Schema/Chapter.cs:47-51 | the same for the volume; when the stored archive name was current before the call, the move is onto itself exactly when the volume, with none counting as 0, did not change |
| Chapters.Chapter.UpdateTitle | API/Schema/Chapter.cs:53-57 | the same for the title; when the stored archive name was current before the call, the move is onto itself exactly when the title, null and empty told apart, did not change |
| Chapters.Chapter.UpdateArchiveFileName | API/Schema/Chapter.cs:64-73 | captures the old path, rebuilds the name, and returns a move job from the old path to the new path if and only if the chapter is downloaded, null otherwise |
| Chapters.ArchiveFileName | API/Schema/Chapter.cs:59-62 | an archive name starts with the manga's name and ends in ".cbz" |
| Chapters.ArchiveFileNameExample | API/Schema/Chapter.cs:59-62 | manga "Foo", no volume, chapter "3", no title gives exactly "Foo - Vol.0 Ch.3.cbz" |
| Chapters.ArchiveFileNameEmptyTitleExample | API/Schema/Chapter.cs:61 | an empty title still adds " - ": "Foo - Vol.2 Ch.3 - .cbz" |
| Chapters.ArchiveFileNameTitleInjective | API/Schema/Chapter.cs:61 | for fixed manga, volume and number, two titles give the same archive name if and only if they are equal, so null and "" give different names |
| Chapters.ArchiveFileNameChapterNumberInjective | API/Schema/Chapter.cs:61 | for fixed manga, volume and title, two chapter numbers give the same name if and only if they are equal |
| Chapters.ArchiveFileNameVolumeInjective | API/Schema/Chapter.cs:61 | for fixed manga, number and title, two volumes give the same name if and only if they are equal once null is read as 0 |
| Chapters.Chapter.GetArchiveFilePath | API/Schema/Chapter.cs:79-82 | the path is the download location, the manga's folder and the archive name joined; without a manga object it throws a NullReferenceException |
| Chapters.ArchiveFilePath | API/Schema/Chapter.cs:81 | an archive path lies under the download location and ends in a separator followed by the archive name |
| Chapters.ArchiveFilePathInjective | API/Schema/Chapter.cs:81 | within one folder, two archive paths are equal if and only if the names are |
| Chapters.ParseComponents | API/Schema/Chapter.cs:92-93 | parsing yields one integer per component, and the only exceptions are `int.Parse`'s format and overflow exceptions |
| Chapters.ParseChapterNumber | API/Schema/Chapter.cs:92-93 | a parsed chapter number has at least one component; the empty chapter number is a format exception; only format and overflow exceptions escape |
| Chapters.ParseComponentsValues | API/Schema/Chapter.cs:92-93 | when parsing succeeds, the integer at each position is the `int.Parse` of the component at that position |
| Chapters.ParseComponentsFirstFailure | API/Schema/Chapter.cs:92-93 | when parsing fails, the exception is that of a component before which every component parses |
| Chapters.ParseComponentsMeaning | API/Schema/Chapter.cs:92-93 | each component's integer is the `int.Parse` of that component; parsing fails if and only if some component does not parse, and then with the exception of the first component that does not |
| Chapters.CompareComponents | API/Schema/Chapter.cs:95-107 | the component comparison is always -1, 0 or 1 |
| Chapters.ChapterNumberOrder | API/Schema/Chapter.cs:90-108 | the comparison of two chapter numbers succeeds if and only if both parse, is then -1, 0 or 1, and otherwise fails with a format or overflow exception |
| Chapters.CompareComponentArrays | API/Schema/Chapter.cs:95-107 | the loop stepping `i` and `j` together returns the component comparison of the two arrays |
| Chapters.CompareChapterNumbers | API/Schema/Chapter.cs:90-108 | the index loop returns the component comparison of the two parsed numbers, or the parse exception of the first component that fails |
| Chapters.CompareComponentsZeroIff | API/Schema/Chapter.cs:97-107 | the result is 0 if and only if the shorter list is a prefix of the longer, e.g. "12" against "12.5" |
| Chapters.CompareComponentsAtFirstDifference | API/Schema/Chapter.cs:99-102 | at the first differing component the result is -1 or 1 by that component's order |
| Chapters.CompareComponentsAntisymmetric | API/Schema/Chapter.cs:97-107 | swapping the arguments negates the result |
| Chapters.CompareComponentsLessTransitive | API/Schema/Chapter.cs:97-107 | "comes before" (-1) is transitive |
| Chapters.ChapterNumberEqualityNotTransitive | API/Schema/Chapter.cs:90-108 | "equal" (0) is not transitive: "12.5" and "12.3" both equal "12" but "12.5" is after "12.3" |
| Chapters.ChapterNumberOrderAntisymmetric | API/Schema/Chapter.cs:90-108 | swapping two chapter numbers keeps success or failure and negates the result |
| Chapters.CompareChapters | API/Schema/Chapter.cs:114-119 | different volumes order by volume (-1 or 1); a volume against no volume gives 1; no volume on this side, or equal volumes, defers to the chapter numbers; only parse exceptions escape |
| Chapters.Chapter.CompareTo | API/Schema/Chapter.cs:110-120 | comparing with null, and nothing else, throws an ArgumentException; otherwise the volume-then-number comparison |
| Chapters.CompareChaptersAntisymmetric | API/Schema/Chapter.cs:114-119 | when both chapters have a volume or neither has, swapping them negates the result |
| Chapters.CompareChaptersNotAntisymmetric | API/Schema/Chapter.cs:114-119 | (no volume, "3") against (volume 1, "2") gives 1 in both directions |
| Chapters.CompareNullVolumeFirst | API/Schema/Chapter.cs:114-119 | the corrected order: no volume sorts before any volume; every other pair is compared as in the source |
| Chapters.CompareNullVolumeFirstAntisymmetric | API/Schema/Chapter.cs:114-119 | the corrected order is antisymmetric on every pair of chapters |
| Chapters.ChapterOrderExample | API/Schema/Chapter.cs:110-120 | (1, "2") comes before (1, "10"), which comes before (2, "1") |
| Mangas.Manga.constructor | API/Schema/Manga.cs:17-59 | stores every argument and starts with the folder name equal to the name |
| Mangas.Manga.WithoutRelations | API/Schema/Manga.cs:61-69 | the same, with no connector and no related entities |
| Mangas.BuildFolderName | API/Schema/Manga.cs:92-95 | the folder name is the manga name unchanged |
| Mangas.Manga.UpdateFolderName | API/Schema/Manga.cs:71-76 | sets the folder name, changes nothing else, and always returns a move job from the old folder path to the new one under the download location |
| Mangas.FolderMoveStaysPutIff | API/Schema/Manga.cs:71-76 | that job moves the folder onto itself if and only if the name did not change |
| Mangas.Manga.UpdateWithInfo | API/Schema/Manga.cs:78-90 | afterwards the name, year, description, cover URL, language, authors, links, tags, alternative titles and release status are those `other` had before; its frame lets no other field change, so id, connector id, folder name, website, cached cover, chapter threshold and connector stay as they were |
| Jobs.NewJob | API/Schema/Jobs/Job.cs:24-36 | stores id, parent id, dependency ids and type as passed; starts at the epoch, not completed, with no return value; the recurrence is converted to whole milliseconds within half a millisecond (exactly for whole milliseconds), and the conversion throws if and only if the recurrence is below -0.5 ms |
| Jobs.NewJobAsWritten | API/Schema/Jobs/Job.cs:29-40 | as written, every construction throws: an OverflowException for a recurrence below -0.5 ms, otherwise a NullReferenceException from the loop over the unassigned `DependsOnJobs` |
| Jobs.JobArena.Construct | API/Schema/Jobs/Job.cs:29-40 | the corrected constructor: after it, every listed dependency in the arena has the new job as parent, no other field of any job changed, no unlisted job changed, and ids still key their jobs; when the conversion throws, no job is touched |
| Jobs.NewMoveFileOrFolderJob | API/Schema/Jobs/MoveFileOrFolderJob.cs:3-7 | a move job has type MoveFileJob, recurrence 0, the given from and to locations, the parent and dependency ids passed on unchanged, a fresh 64-character id, and the initial job state |
| Jobs.JobArena.ConstructMoveFileOrFolderJob | API/Schema/Jobs/MoveFileOrFolderJob.cs:3-4 | constructing a move job adopts its dependencies as the base constructor does |
| Platform.ToUInt64Milliseconds | API/Schema/Jobs/Job.cs:36 | `Convert.ToUInt64(recurrence.TotalMilliseconds)`: succeeds if and only if the recurrence is at least -0.5 ms, is within half a millisecond of it and fits an unsigned 64-bit value |
| Platform.IntToString | API/Schema/Chapter.cs:61 | an `int` is written as a non-empty text that starts with '-' if and only if the number is negative |
| Platform.ParseInt | API/Schema/Chapter.cs:92-93 | `int.Parse` returns a 32-bit value from a non-empty text, and fails only with a format or overflow exception |
| Platform.ParseIntOfIntToString | API/Schema/Chapter.cs:61 | `int.Parse` reads back every `int` as it is written into an archive name |
| Platform.Split | API/Schema/Chapter.cs:92-93 | `Split('.')` returns at least one piece, and no piece contains a dot |
| Platform.JoinWithSplit | API/Schema/Chapter.cs:92 | splitting a chapter number at dots loses nothing: joining the pieces gives it back |
| Platform.SplitAtFirstSeparator | API/Schema/Chapter.cs:92 | the first dot separates the first piece from the pieces of the rest |
| Platform.PathJoinCancel | API/Schema/Manga.cs:75 | joining onto one directory gives equal paths if and only if the last components are equal |
| ChapterTasks.DownloadChapterTask.constructor | Tranga/TrangaTasks/DownloadChapterTask.cs:14-21 | one-shot (zero recurrence); stores chapter, connector name, publication, language (default "en") and parent as given |
| ChapterTasks.DownloadChapterTask.IncrementProgress | Tranga/TrangaTasks/DownloadChapterTask.cs:32-38 | adds the amount to the progress, stamps the change with the given time, returns the new progress, and adds the same amount to the parent when there is one; nothing else changes |
| ChapterTasks.DownloadNewChaptersTask.IncrementProgress | Tranga/TrangaTasks/DownloadChapterTask.cs:36 | the parent's progress grows by exactly the amount forwarded |
| ChapterTasks.DownloadChapterTask.ExecuteTask | Tranga/TrangaTasks/DownloadChapterTask.cs:23-30 | does nothing if and only if cancellation was already requested; otherwise it gets the connector, downloads the chapter, and only then deletes the task |

## Findings

| source | as written | input that shows it | evidently intended | confidence | as-written member | corrected member |
|---|---|---|---|---|---|---|
| API/Schema/Jobs/Job.cs:38-39 | the constructor loops over `DependsOnJobs`, which nothing assigns, so the loop dereferences null | any job, e.g. a `MoveFileOrFolderJob` from a chapter or folder rename | make the jobs named by `DependsOnJobIds` children of the new job | high, not executed | Jobs.NewJobAsWritten | Jobs.JobArena.Construct |
| API/Schema/Chapter.cs:114-119 | a chapter without a volume compares by chapter number, but one with a volume compares greater than any chapter without | (no volume, "3") and (volume 1, "2"): each compares greater than the other | a missing volume sorts before every volume, as for nullable ints, so the order is antisymmetric | medium, not executed | Chapters.CompareChaptersNotAntisymmetric | Chapters.CompareNullVolumeFirst |

`Chapter.CompareTo` keeps the order as written. `CompareNullVolumeFirst` is
the corrected order, and its antisymmetry is proved.

## Left out

- The chapter-number comparison is kept as written. "Equal" is not transitive
  there, and the model proves that rather than changing it.
- `Chapter.IsDownloaded` (a file-system check) and `Chapter.GetComicInfoXmlString` (XML serialisation).
- `Manga.SaveCoverImageToCache` (HTTP and file system), `Manga.CreatePublicationFolder` (directory creation and Unix file modes) and `Manga.GetRSS` (feed rendering).
- The site connectors, the library connectors, the task manager, the scheduler, the rate limiter and the file move itself. None of them is part of this model.
- Platform.PathJoin: `Path.Join` is modelled as joining with one `/`. .NET's skipping of empty components and of doubled separators is not modelled.
- Platform.IntToString: an `int` is written as the invariant culture writes it, with '-' as the negative sign. The current culture that the interpolated string at Chapter.cs:61 uses may write another sign, and that is not modelled. Only negative volumes are affected.
- Platform.ParseInt: only an optional sign and decimal digits are accepted. The white space and culture-specific signs that `int.Parse` also accepts are not modelled.
- Platform.ToUInt64Milliseconds: the recurrence goes through a `double`. The model computes with exact rationals and does not model IEEE rounding. It also does not model the clamp of `TimeSpan.TotalMilliseconds` at `long.MaxValue / 10000` = 922337203685477 ms: for `TimeSpan.MaxValue` .NET gives 922337203685477, where the model rounds to 922337203685478.
- Jobs.NewJob: the half-millisecond bound between the recurrence and its milliseconds holds for the model. Because of that clamp, .NET does not meet it in the last 0.28 ms of the `TimeSpan` range.
- `float` progress and `IgnoreChapterBefore` are modelled as `real`, without IEEE rounding.
- The token generator, `DateTime.Now` and `TrangaSettings.downloadLocation` are parameters.
- ChapterTasks.DownloadChapterTask.constructor: the `TrangaTask` base class is not part of this model. The task's initial progress and last-change time are left unspecified.
- ChapterTasks.DownloadNewChaptersTask.IncrementProgress: the parent task's own method is not part of this model. The parent is a counter that receives the forwarded amount, and any propagation beyond it is not modelled.
- ChapterTasks.DownloadChapterTask.ExecuteTask: the connector's download, the task manager's deletion and any exception they raise are calls into code that is not part of this model. They are recorded as the sequence of calls made. The recorded `DownloadChapter` call keeps the publication and the chapter but leaves out its other two arguments (DownloadChapterTask.cs:28): the task itself, which receives the progress, and the cancellation token. `DeleteTask` is recorded without the task it deletes, which is always this task.
- Jobs.JobArena.Construct: dependency ids that name no job in the arena are skipped.
- Chapters.Chapter.UpdateChapterNumber, Chapters.Chapter.UpdateVolumeNumber, Chapters.Chapter.UpdateTitle, Chapters.Chapter.UpdateArchiveFileName and Mangas.Manga.UpdateFolderName: the move job they return is built with the corrected job constructor (`Jobs.NewMoveFileOrFolderJob`). As written, `new MoveFileOrFolderJob` reaches the loop over the unassigned `DependsOnJobs` (API/Schema/Jobs/Job.cs:38) and throws a NullReferenceException. By then the new chapter number (Chapter.cs:43), volume (Chapter.cs:49) or title (Chapter.cs:55) and the rebuilt archive name (Chapter.cs:67) or folder name (Manga.cs:74) are already stored, so the code as written changes the state and then throws instead of returning a job.
- The `ParentJob` navigation, the Entity Framework annotations (`MaxLength`, `PrimaryKey`, `ForeignKey`) and JSON attributes are not modelled, because the code does not enforce them.
- The `JobType` and `MangaReleaseStatus` enumerations are not part of this model. Only `MoveFileJob` is named; other members are carried by name or value.
- Authors, tags, links and alternative titles are each represented by one text field.
- Mangas.Manga.UpdateWithInfo: the source assigns the same collection objects (Manga.cs:85-88), so afterwards both mangas share their author, link, tag and alternative-title collections. The model copies sequence values, so that sharing is not modelled. Nothing in the modelled code mutates those collections.
- Setters outside the modelled methods are not modelled: `Downloaded`, `Url`, `ParentMangaId`, `Completed`, `RecurrenceMs`, `LastExecution` and `returnValue`. The model starts these from the constructors' values and treats them as state.
