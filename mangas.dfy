/** The `Manga` entity of API/Schema/Manga.cs: its folder name, the folder
    rename that emits a move job, and the merge of freshly fetched metadata. */
module Mangas {
  import opened Platform
  import opened Jobs

  /** The related entities, represented by the one field the manga code reads
      from each (an alternative title by its text). */
  datatype Author = Author(authorName: string)
  datatype MangaTag = MangaTag(tag: string)
  datatype Link = Link(linkUrl: string)
  datatype MangaAltTitle = MangaAltTitle(title: string)

  /** A member of the release-status enumeration, by its underlying value. */
  datatype MangaReleaseStatus = MangaReleaseStatus(code: nat)

  /** The folder a manga's archives live in is named after the manga itself. */
  function BuildFolderName(mangaName: string): (folderName: string)
    ensures folderName == mangaName
  {
    mangaName
  }

  /** A folder rename always yields a move job; it moves the folder onto
      itself exactly when the name did not change. */
  lemma FolderMoveStaysPutIff(jobId: Token, downloadLocation: string, oldName: string, newName: string)
    ensures var job := NewMoveFileOrFolderJob(jobId, PathJoin(downloadLocation, oldName),
                                               PathJoin(downloadLocation, newName), None, None);
      job.details.fromLocation == job.details.toLocation <==> oldName == newName
  {
    PathJoinCancel(downloadLocation, oldName, newName);
  }

  /** The descriptive metadata a fresh fetch supplies, as `UpdateWithInfo` copies it. */
  datatype MangaInfo = MangaInfo(
    name: string,
    year: UInt32,
    description: string,
    coverUrl: string,
    originalLanguage: Option<string>,
    authors: Option<seq<Author>>,
    links: Option<seq<Link>>,
    tags: Option<seq<MangaTag>>,
    altTitles: Option<seq<MangaAltTitle>>,
    releaseStatus: MangaReleaseStatus)

  class Manga {
    const mangaId: Token
    const connectorId: string
    var name: string
    var description: string
    var websiteUrl: string
    var coverUrl: string
    var coverFileNameInCache: Option<string>
    var year: UInt32
    var originalLanguage: Option<string>
    var releaseStatus: MangaReleaseStatus
    var folderName: string
    var ignoreChapterBefore: real
    /** The connector the manga was fetched with, by name. */
    var mangaConnector: Option<string>
    var authors: Option<seq<Author>>
    var tags: Option<seq<MangaTag>>
    var links: Option<seq<Link>>
    var altTitles: Option<seq<MangaAltTitle>>

    /** The primary constructor; `mangaId` is the fresh token the generator supplies. */
    constructor (mangaId: Token, connectorId: string, name: string, description: string, websiteUrl: string,
                 coverUrl: string, coverFileNameInCache: Option<string>, year: UInt32,
                 originalLanguage: Option<string>, releaseStatus: MangaReleaseStatus, ignoreChapterBefore: real,
                 mangaConnector: Option<string>, authors: Option<seq<Author>>, tags: Option<seq<MangaTag>>,
                 links: Option<seq<Link>>, altTitles: Option<seq<MangaAltTitle>>)
      ensures this.mangaId == mangaId && this.connectorId == connectorId
      ensures this.name == name && this.description == description && this.websiteUrl == websiteUrl
      ensures this.coverUrl == coverUrl && this.coverFileNameInCache == coverFileNameInCache
      ensures this.year == year && this.originalLanguage == originalLanguage
      ensures this.releaseStatus == releaseStatus && this.ignoreChapterBefore == ignoreChapterBefore
      ensures this.mangaConnector == mangaConnector && this.authors == authors && this.tags == tags
      ensures this.links == links && this.altTitles == altTitles
      ensures this.folderName == name
    {
      this.mangaId := mangaId;
      this.connectorId := connectorId;
      this.name := name;
      this.description := description;
      this.websiteUrl := websiteUrl;
      this.coverUrl := coverUrl;
      this.coverFileNameInCache := coverFileNameInCache;
      this.year := year;
      this.originalLanguage := originalLanguage;
      this.releaseStatus := releaseStatus;
      this.folderName := BuildFolderName(name);
      this.ignoreChapterBefore := ignoreChapterBefore;
      this.mangaConnector := mangaConnector;
      this.authors := authors;
      this.tags := tags;
      this.links := links;
      this.altTitles := altTitles;
    }

    /** The secondary constructor: no connector and no related entities. */
    constructor WithoutRelations(mangaId: Token, connectorId: string, name: string, description: string,
                                 websiteUrl: string, coverUrl: string, coverFileNameInCache: Option<string>,
                                 year: UInt32, originalLanguage: Option<string>, releaseStatus: MangaReleaseStatus,
                                 ignoreChapterBefore: real)
      ensures this.mangaId == mangaId && this.connectorId == connectorId
      ensures this.name == name && this.description == description && this.websiteUrl == websiteUrl
      ensures this.coverUrl == coverUrl && this.coverFileNameInCache == coverFileNameInCache
      ensures this.year == year && this.originalLanguage == originalLanguage
      ensures this.releaseStatus == releaseStatus && this.ignoreChapterBefore == ignoreChapterBefore
      ensures mangaConnector == None && authors == None && tags == None && links == None && altTitles == None
      ensures this.folderName == name
    {
      this.mangaId := mangaId;
      this.connectorId := connectorId;
      this.name := name;
      this.description := description;
      this.websiteUrl := websiteUrl;
      this.coverUrl := coverUrl;
      this.coverFileNameInCache := coverFileNameInCache;
      this.year := year;
      this.originalLanguage := originalLanguage;
      this.releaseStatus := releaseStatus;
      this.folderName := BuildFolderName(name);
      this.ignoreChapterBefore := ignoreChapterBefore;
      this.mangaConnector := None;
      this.authors := None;
      this.tags := None;
      this.links := None;
      this.altTitles := None;
    }

    /** Renames the manga's folder and returns the job that moves the folder
        under `downloadLocation` from its old name to the new one. The job is
        returned whether or not anything was downloaded and even when the
        name is unchanged; `jobId` is the move job's fresh token. */
    method UpdateFolderName(downloadLocation: string, newName: string, jobId: Token) returns (job: Job)
      modifies this`folderName
      ensures folderName == newName
      ensures job == NewMoveFileOrFolderJob(jobId, PathJoin(downloadLocation, old(folderName)),
                                            PathJoin(downloadLocation, newName), None, None)
    {
      var oldName := folderName;
      folderName := newName;
      job := NewMoveFileOrFolderJob(jobId, PathJoin(downloadLocation, oldName), PathJoin(downloadLocation, folderName),
                                    None, None);
    }

    /** This manga's descriptive metadata. */
    function Info(): MangaInfo
      reads this
    {
      MangaInfo(name, year, description, coverUrl, originalLanguage, authors, links, tags, altTitles, releaseStatus)
    }

    /** Copies the descriptive metadata of `other` into this manga. The
        identity, the website, the cached cover, the chapter threshold, the
        connector and the folder name stay as they were: a new `name` does not
        rename the folder. */
    method UpdateWithInfo(other: Manga)
      modifies this`name, this`year, this`description, this`coverUrl, this`originalLanguage, this`authors,
               this`links, this`tags, this`altTitles, this`releaseStatus
      ensures Info() == old(other.Info())
    {
      name, year, description, coverUrl, originalLanguage, authors, links, tags, altTitles, releaseStatus :=
        other.name, other.year, other.description, other.coverUrl, other.originalLanguage,
        other.authors, other.links, other.tags, other.altTitles, other.releaseStatus;
    }
  }
}
