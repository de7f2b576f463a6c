/** The `Chapter` entity of API/Schema/Chapter.cs: the archive name derived
    from the chapter's metadata, the setters that keep it derived and emit a
    move job for an archive already on disk, and the chapter ordering. */
module Chapters {
  import opened Platform
  import opened Jobs
  import opened Mangas

  // ---------------------------------------------------------------------
  // Archive names and paths

  /** The title segment of an archive name: nothing for a missing title,
      otherwise the separator and the title, even when the title is empty. */
  function TitlePart(title: Option<string>): string {
    match title
    case None => ""
    case Some(t) => " - " + t
  }

  /** The name of a chapter's `.cbz` archive; a missing volume is written as 0. */
  function ArchiveFileName(mangaName: string, volumeNumber: Option<Int32>, chapterNumber: string,
                           title: Option<string>): (name: string)
    ensures |name| > |mangaName| + 4 && name[..|mangaName|] == mangaName
    ensures name[|name| - 4..] == ".cbz"
  {
    mangaName + " - Vol." + IntToString(volumeNumber.GetOr(0)) + " Ch." + chapterNumber + TitlePart(title) + ".cbz"
  }

  /** Where an archive lives: `Path.Join(downloadLocation, folderName, archiveFileName)`. */
  function ArchiveFilePath(downloadLocation: string, folderName: string, archiveFileName: string): (path: string)
    ensures |path| > |downloadLocation| && path[..|downloadLocation|] == downloadLocation
    ensures path[|downloadLocation|] == DirectorySeparator
    ensures |path| > |archiveFileName| && path[|path| - |archiveFileName|..] == archiveFileName
    ensures path[|path| - |archiveFileName| - 1] == DirectorySeparator
  {
    PathJoin(PathJoin(downloadLocation, folderName), archiveFileName)
  }

  /** A chapter without volume or title is filed as volume 0 with nothing after the number. */
  lemma ArchiveFileNameExample()
    ensures ArchiveFileName("Foo", None, "3", None) == "Foo - Vol.0 Ch.3.cbz"
  {
    assert IntToString(0) == "0";
    assert "Foo" + " - Vol." + "0" + " Ch." + "3" + "" + ".cbz" == "Foo - Vol.0 Ch.3.cbz";
  }

  /** An empty title still adds its separator. */
  lemma ArchiveFileNameEmptyTitleExample()
    ensures ArchiveFileName("Foo", Some(2), "3", Some("")) == "Foo - Vol.2 Ch.3 - .cbz"
  {
    assert IntToString(2) == "2" && TitlePart(Some("")) == " - ";
    assert "Foo" + " - Vol." + "2" + " Ch." + "3" + " - " + ".cbz" == "Foo - Vol.2 Ch.3 - .cbz";
  }

  lemma CancelAround(p: string, x: string, y: string, s: string)
    ensures p + x + s == p + y + s <==> x == y
  {
    if p + x + s == p + y + s {
      assert x == (p + x + s)[|p|..|p| + |x|];
      assert y == (p + y + s)[|p|..|p| + |y|];
    }
  }

  lemma AppendAssociative(p: string, v: string, a: string, b: string, c: string, d: string)
    ensures p + v + a + b + c + d == p + v + (a + b + c + d)
  {
  }

  lemma AppendAssociativeTail(p: string, x: string, a: string, b: string)
    ensures p + x + a + b == p + x + (a + b)
  {
  }

  /** Within one manga, volume and number, the archive name determines the
      title; in particular an empty title and a missing one give different names. */
  lemma ArchiveFileNameTitleInjective(mangaName: string, volumeNumber: Option<Int32>, chapterNumber: string,
                                      title1: Option<string>, title2: Option<string>)
    ensures (ArchiveFileName(mangaName, volumeNumber, chapterNumber, title1)
             == ArchiveFileName(mangaName, volumeNumber, chapterNumber, title2))
        <==> title1 == title2
  {
    var p := mangaName + " - Vol." + IntToString(volumeNumber.GetOr(0)) + " Ch." + chapterNumber;
    CancelAround(p, TitlePart(title1), TitlePart(title2), ".cbz");
    if TitlePart(title1) == TitlePart(title2) && title1 != title2 {
      if title1.Some? && title2.Some? {
        CancelAround(" - ", title1.value, title2.value, "");
      }
    }
  }

  /** Within one manga, volume and title, the archive name determines the chapter number. */
  lemma ArchiveFileNameChapterNumberInjective(mangaName: string, volumeNumber: Option<Int32>,
                                              chapterNumber1: string, chapterNumber2: string, title: Option<string>)
    ensures (ArchiveFileName(mangaName, volumeNumber, chapterNumber1, title)
             == ArchiveFileName(mangaName, volumeNumber, chapterNumber2, title))
        <==> chapterNumber1 == chapterNumber2
  {
    var p := mangaName + " - Vol." + IntToString(volumeNumber.GetOr(0)) + " Ch.";
    var s := TitlePart(title) + ".cbz";
    AppendAssociativeTail(p, chapterNumber1, TitlePart(title), ".cbz");
    AppendAssociativeTail(p, chapterNumber2, TitlePart(title), ".cbz");
    CancelAround(p, chapterNumber1, chapterNumber2, s);
  }

  /** Within one manga, number and title, the archive name determines the
      volume, a missing volume counting as volume 0. */
  lemma ArchiveFileNameVolumeInjective(mangaName: string, volumeNumber1: Option<Int32>, volumeNumber2: Option<Int32>,
                                       chapterNumber: string, title: Option<string>)
    ensures (ArchiveFileName(mangaName, volumeNumber1, chapterNumber, title)
             == ArchiveFileName(mangaName, volumeNumber2, chapterNumber, title))
        <==> volumeNumber1.GetOr(0) == volumeNumber2.GetOr(0)
  {
    var p := mangaName + " - Vol.";
    var s := " Ch." + chapterNumber + TitlePart(title) + ".cbz";
    var v1, v2 := IntToString(volumeNumber1.GetOr(0)), IntToString(volumeNumber2.GetOr(0));
    AppendAssociative(p, v1, " Ch.", chapterNumber, TitlePart(title), ".cbz");
    AppendAssociative(p, v2, " Ch.", chapterNumber, TitlePart(title), ".cbz");
    CancelAround(p, v1, v2, s);
    IntToStringInjective(volumeNumber1.GetOr(0), volumeNumber2.GetOr(0));
  }

  /** Two archives of the same manga folder share a path exactly when they share a name. */
  lemma ArchiveFilePathInjective(downloadLocation: string, folderName: string, name1: string, name2: string)
    ensures (ArchiveFilePath(downloadLocation, folderName, name1) == ArchiveFilePath(downloadLocation, folderName, name2))
        <==> name1 == name2
  {
    PathJoinCancel(PathJoin(downloadLocation, folderName), name1, name2);
  }

  // ---------------------------------------------------------------------
  // Chapter numbers and the chapter ordering

  /** `parts.Select(int.Parse).ToArray()`: the first part that does not parse
      decides the exception. */
  function ParseComponents(parts: seq<string>): (r: Result<seq<int>, Fault>)
    ensures r.Ok? ==> |r.value| == |parts|
    ensures r.Err? ==> r.error == Format || r.error == Overflow
  {
    if parts == [] then Ok([])
    else
      match ParseInt(parts[0])
      case Err(e) => Err(e)
      case Ok(n) =>
        match ParseComponents(parts[1..])
        case Err(e) => Err(e)
        case Ok(ns) => Ok([n] + ns)
  }

  /** A successful parse holds each part's own value. */
  lemma {:induction false} ParseComponentsValues(parts: seq<string>)
    requires ParseComponents(parts).Ok?
    ensures forall i :: 0 <= i < |parts| ==> ParseInt(parts[i]) == Ok(ParseComponents(parts).value[i])
  {
    if parts != [] {
      ParseComponentsValues(parts[1..]);
      var r := ParseComponents(parts);
      forall i | 0 <= i < |parts|
        ensures ParseInt(parts[i]) == Ok(r.value[i])
      {
        if i > 0 {
          assert parts[i] == parts[1..][i - 1];
        }
      }
    }
  }

  /** A failed parse carries the exception of the first part that does not parse. */
  lemma {:induction false} ParseComponentsFirstFailure(parts: seq<string>)
    requires ParseComponents(parts).Err?
    ensures exists i :: && 0 <= i < |parts| && ParseInt(parts[i]) == Err(ParseComponents(parts).error)
                        && forall j :: 0 <= j < i ==> ParseInt(parts[j]).Ok?
  {
    var r := ParseComponents(parts);
    if ParseInt(parts[0]).Err? {
      assert ParseInt(parts[0]) == Err(r.error);
    } else {
      ParseComponentsFirstFailure(parts[1..]);
      var rest := parts[1..];
      var i :| && 0 <= i < |rest| && ParseInt(rest[i]) == Err(r.error)
               && forall j :: 0 <= j < i ==> ParseInt(rest[j]).Ok?;
      assert ParseInt(parts[i + 1]) == Err(r.error);
      forall j | 0 <= j < i + 1
        ensures ParseInt(parts[j]).Ok?
      {
        if j > 0 {
          assert parts[j] == rest[j - 1];
        }
      }
    }
  }

  /** Parsing succeeds with each part's own value, and fails exactly when
      some part does not parse, with the exception of the first such part. */
  lemma ParseComponentsMeaning(parts: seq<string>)
    ensures var r := ParseComponents(parts);
      r.Ok? ==> forall i :: 0 <= i < |parts| ==> ParseInt(parts[i]) == Ok(r.value[i])
    ensures var r := ParseComponents(parts);
      r.Err? ==> exists i :: && 0 <= i < |parts| && ParseInt(parts[i]) == Err(r.error)
                             && forall j :: 0 <= j < i ==> ParseInt(parts[j]).Ok?
    ensures ParseComponents(parts).Err? <==> exists i :: 0 <= i < |parts| && ParseInt(parts[i]).Err?
  {
    if ParseComponents(parts).Ok? {
      ParseComponentsValues(parts);
    } else {
      ParseComponentsFirstFailure(parts);
    }
  }

  /** The dot-separated integer components of a chapter number. */
  function ParseChapterNumber(chapterNumber: string): (r: Result<seq<int>, Fault>)
    ensures r.Ok? ==> |r.value| > 0
    ensures r.Err? ==> r.error == Format || r.error == Overflow
    ensures chapterNumber == [] ==> r == Err(Format)
  {
    ParseComponents(Split(chapterNumber, '.'))
  }

  /** Component-wise comparison of two chapter numbers: the sign at the first
      position where they differ, and 0 when either runs out first. */
  function CompareComponents(a: seq<int>, b: seq<int>): (r: int)
    ensures -1 <= r <= 1
  {
    if a == [] || b == [] then 0
    else if a[0] < b[0] then -1
    else if a[0] > b[0] then 1
    else CompareComponents(a[1..], b[1..])
  }

  /** The comparison of two chapter numbers, an exception when a component is not an `int`. */
  function ChapterNumberOrder(chapterNumber1: string, chapterNumber2: string): (r: Result<int, Fault>)
    ensures r.Ok? <==> ParseChapterNumber(chapterNumber1).Ok? && ParseChapterNumber(chapterNumber2).Ok?
    ensures r.Ok? ==> -1 <= r.value <= 1
    ensures r.Err? ==> r.error == Format || r.error == Overflow
  {
    match ParseChapterNumber(chapterNumber1)
    case Err(e) => Err(e)
    case Ok(a) =>
      match ParseChapterNumber(chapterNumber2)
      case Err(e) => Err(e)
      case Ok(b) => Ok(CompareComponents(a, b))
  }

  /** `CompareChapterNumbers`: parse both numbers, then compare the components. */
  method CompareChapterNumbers(chapterNumber1: string, chapterNumber2: string) returns (r: Result<int, Fault>)
    ensures r == ChapterNumberOrder(chapterNumber1, chapterNumber2)
    ensures r.Ok? ==> -1 <= r.value <= 1
  {
    var parsed1 := ParseChapterNumber(chapterNumber1);
    if parsed1.Err? {
      return Err(parsed1.error);
    }
    var parsed2 := ParseChapterNumber(chapterNumber2);
    if parsed2.Err? {
      return Err(parsed2.error);
    }
    var c := CompareComponentArrays(parsed1.value, parsed2.value);
    return Ok(c);
  }

  /** The loop of `CompareChapterNumbers`, walking both component arrays in step. */
  method CompareComponentArrays(a: seq<int>, b: seq<int>) returns (c: int)
    ensures c == CompareComponents(a, b)
  {
    var i, j := 0, 0;
    while i < |a| && j < |b|
      invariant 0 <= i <= |a| && 0 <= j <= |b| && i == j
      invariant CompareComponents(a[i..], b[j..]) == CompareComponents(a, b)
    {
      assert a[i..][1..] == a[i + 1..] && b[j..][1..] == b[j + 1..];
      if a[i] < b[j] {
        return -1;
      }
      if a[i] > b[j] {
        return 1;
      }
      i, j := i + 1, j + 1;
    }
    return 0;
  }

  /** The comparison says "equal" exactly when the shorter number is a prefix of the longer. */
  lemma {:induction false} CompareComponentsZeroIff(a: seq<int>, b: seq<int>)
    ensures var m := if |a| < |b| then |a| else |b|;
      CompareComponents(a, b) == 0 <==> a[..m] == b[..m]
  {
    var m := if |a| < |b| then |a| else |b|;
    if a != [] && b != [] {
      CompareComponentsZeroIff(a[1..], b[1..]);
      if a[0] == b[0] {
        assert a[..m] == [a[0]] + a[1..][..m - 1];
        assert b[..m] == [b[0]] + b[1..][..m - 1];
      } else {
        assert a[..m][0] != b[..m][0];
      }
    }
  }

  /** At the first differing position, the comparison is the sign of that position. */
  lemma {:induction false} CompareComponentsAtFirstDifference(a: seq<int>, b: seq<int>, k: nat)
    requires k < |a| && k < |b| && a[..k] == b[..k] && a[k] != b[k]
    ensures CompareComponents(a, b) == if a[k] < b[k] then -1 else 1
  {
    if k > 0 {
      assert a[0] == a[..k][0] && b[0] == b[..k][0];
      assert a[1..][..k - 1] == a[..k][1..] && b[1..][..k - 1] == b[..k][1..];
      CompareComponentsAtFirstDifference(a[1..], b[1..], k - 1);
    }
  }

  lemma {:induction false} CompareComponentsAntisymmetric(a: seq<int>, b: seq<int>)
    ensures CompareComponents(b, a) == -CompareComponents(a, b)
  {
    if a != [] && b != [] && a[0] == b[0] {
      CompareComponentsAntisymmetric(a[1..], b[1..]);
    }
  }

  /** "Comes before" is transitive. */
  lemma {:induction false} CompareComponentsLessTransitive(a: seq<int>, b: seq<int>, c: seq<int>)
    requires CompareComponents(a, b) == -1 && CompareComponents(b, c) == -1
    ensures CompareComponents(a, c) == -1
  {
    if a[0] == b[0] && b[0] == c[0] {
      CompareComponentsLessTransitive(a[1..], b[1..], c[1..]);
    }
  }

  /** The integers the example lemmas below parse. */
  lemma IntegerLiterals()
    ensures ParseInt("1") == Ok(1) && ParseInt("2") == Ok(2) && ParseInt("3") == Ok(3) && ParseInt("5") == Ok(5)
    ensures ParseInt("10") == Ok(10) && ParseInt("12") == Ok(12)
  {
    ParseIntOfIntToString(1);
    ParseIntOfIntToString(2);
    ParseIntOfIntToString(3);
    ParseIntOfIntToString(5);
    ParseIntOfIntToString(10);
    ParseIntOfIntToString(12);
    assert IntToString(10) == "10";
    assert IntToString(12) == "12";
  }

  /** Parsing one more part in front puts its value in front. */
  lemma ParseComponentsCons(part: string, n: int, rest: seq<string>, ns: seq<int>)
    requires ParseInt(part) == Ok(n) && ParseComponents(rest) == Ok(ns)
    ensures ParseComponents([part] + rest) == Ok([n] + ns)
  {
    assert ([part] + rest)[0] == part && ([part] + rest)[1..] == rest;
  }

  /** One part parses to its one value. */
  lemma ParseSingleComponent(part: string, n: int)
    requires ParseInt(part) == Ok(n)
    ensures ParseComponents([part]) == Ok([n])
  {
    var none: seq<string>, noValues: seq<int> := [], [];
    assert ParseComponents(none) == Ok(noValues);
    assert [part][0] == part && [part][1..] == none && [n] + noValues == [n];
  }

  /** A chapter number without a dot is one component. */
  lemma ParseOneComponent(part: string, n: int)
    requires '.' !in part && ParseInt(part) == Ok(n)
    ensures ParseChapterNumber(part) == Ok([n])
  {
    SplitWithoutSeparator(part, '.');
    ParseSingleComponent(part, n);
  }

  /** A chapter number with one dot is two components. */
  lemma ParseTwoComponents(major: string, m: int, minor: string, n: int)
    requires '.' !in major && ParseInt(major) == Ok(m)
    requires '.' !in minor && ParseInt(minor) == Ok(n)
    ensures ParseChapterNumber(major + ['.'] + minor) == Ok([m, n])
  {
    SplitAtFirstSeparator(major, '.', minor);
    SplitWithoutSeparator(minor, '.');
    ParseSingleComponent(minor, n);
    ParseComponentsCons(major, m, [minor], [n]);
    assert [major] + [minor] == [major, minor] && [m] + [n] == [m, n];
  }

  /** The components of the chapter number "12". */
  lemma ParsedTwelve()
    ensures ParseChapterNumber("12") == Ok([12])
  {
    IntegerLiterals();
    ParseOneComponent("12", 12);
  }

  /** The components of the chapter number "12.5". */
  lemma ParsedTwelvePointFive()
    ensures ParseChapterNumber("12.5") == Ok([12, 5])
  {
    IntegerLiterals();
    ParseTwoComponents("12", 12, "5", 5);
    assert "12" + ['.'] + "5" == "12.5";
  }

  /** The components of the chapter number "12.3". */
  lemma ParsedTwelvePointThree()
    ensures ParseChapterNumber("12.3") == Ok([12, 3])
  {
    IntegerLiterals();
    ParseTwoComponents("12", 12, "3", 3);
    assert "12" + ['.'] + "3" == "12.3";
  }

  /** "Equal" is not transitive: 12.5 and 12.3 both compare equal to 12 but
      not to each other. */
  lemma ChapterNumberEqualityNotTransitive()
    ensures ChapterNumberOrder("12.5", "12") == Ok(0)
    ensures ChapterNumberOrder("12", "12.3") == Ok(0)
    ensures ChapterNumberOrder("12.5", "12.3") == Ok(1)
  {
    ParsedTwelve();
    ParsedTwelvePointFive();
    ParsedTwelvePointThree();
    assert CompareComponents([12, 5], [12]) == 0 by {
      assert [12, 5][1..] == [5] && [12][1..] == [];
    }
    assert CompareComponents([12], [12, 3]) == 0 by {
      assert [12, 3][1..] == [3] && [12][1..] == [];
    }
    assert CompareComponents([12, 5], [12, 3]) == 1 by {
      assert [12, 5][1..] == [5] && [12, 3][1..] == [3];
    }
  }

  /** Parsing the two numbers fails or succeeds regardless of their order,
      and swapping them negates the comparison. */
  lemma ChapterNumberOrderAntisymmetric(chapterNumber1: string, chapterNumber2: string)
    ensures ChapterNumberOrder(chapterNumber1, chapterNumber2).Ok? <==> ChapterNumberOrder(chapterNumber2, chapterNumber1).Ok?
    ensures ChapterNumberOrder(chapterNumber1, chapterNumber2).Ok? ==>
      ChapterNumberOrder(chapterNumber2, chapterNumber1).value == -ChapterNumberOrder(chapterNumber1, chapterNumber2).value
  {
    var p1, p2 := ParseChapterNumber(chapterNumber1), ParseChapterNumber(chapterNumber2);
    if p1.Ok? && p2.Ok? {
      CompareComponentsAntisymmetric(p1.value, p2.value);
    }
  }

  /** `CompareTo` once `other` is known not to be null, as written: a chapter
      with a volume compares by volume first and is greater than one without;
      a chapter without a volume, or with the same volume, compares by number. */
  function CompareChapters(volumeNumber1: Option<Int32>, chapterNumber1: string,
                           volumeNumber2: Option<Int32>, chapterNumber2: string): (r: Result<int, Fault>)
    ensures r.Ok? ==> -1 <= r.value <= 1
    ensures r.Err? ==> r.error == Format || r.error == Overflow
    ensures volumeNumber1.Some? && volumeNumber2.None? ==> r == Ok(1)
    ensures volumeNumber1.Some? && volumeNumber2.Some? && volumeNumber1 != volumeNumber2 ==>
      r == Ok(if volumeNumber1.value < volumeNumber2.value then -1 else 1)
    ensures volumeNumber1.None? || volumeNumber1 == volumeNumber2 ==>
      r == ChapterNumberOrder(chapterNumber1, chapterNumber2)
  {
    match volumeNumber1
    case None => ChapterNumberOrder(chapterNumber1, chapterNumber2)
    case Some(v1) =>
      // int.CompareTo(object) is 1 against null, otherwise the sign of the difference
      if volumeNumber2.None? then Ok(1)
      else if v1 < volumeNumber2.value then Ok(-1)
      else if v1 > volumeNumber2.value then Ok(1)
      else ChapterNumberOrder(chapterNumber1, chapterNumber2)
  }

  /** When both chapters have a volume, or neither has, swapping them negates the result. */
  lemma CompareChaptersAntisymmetric(volumeNumber1: Option<Int32>, chapterNumber1: string,
                                     volumeNumber2: Option<Int32>, chapterNumber2: string)
    requires volumeNumber1.Some? == volumeNumber2.Some?
    ensures var r1, r2 := CompareChapters(volumeNumber1, chapterNumber1, volumeNumber2, chapterNumber2),
                          CompareChapters(volumeNumber2, chapterNumber2, volumeNumber1, chapterNumber1);
      (r1.Ok? <==> r2.Ok?) && (r1.Ok? ==> r2.value == -r1.value)
  {
    ChapterNumberOrderAntisymmetric(chapterNumber1, chapterNumber2);
  }

  /** As written, a chapter without a volume and one with a volume can each
      compare greater than the other. */
  lemma CompareChaptersNotAntisymmetric()
    ensures CompareChapters(None, "3", Some(1), "2") == Ok(1)
    ensures CompareChapters(Some(1), "2", None, "3") == Ok(1)
  {
    SplitWithoutSeparator("3", '.');
    SplitWithoutSeparator("2", '.');
    IntegerLiterals();
  }

  /** The chapter ordering with a missing volume sorting before every volume. */
  function CompareNullVolumeFirst(volumeNumber1: Option<Int32>, chapterNumber1: string,
                                  volumeNumber2: Option<Int32>, chapterNumber2: string): (r: Result<int, Fault>)
    ensures r.Ok? ==> -1 <= r.value <= 1
    ensures volumeNumber1.None? && volumeNumber2.Some? ==> r == Ok(-1)
    ensures !(volumeNumber1.None? && volumeNumber2.Some?) ==>
      r == CompareChapters(volumeNumber1, chapterNumber1, volumeNumber2, chapterNumber2)
  {
    if volumeNumber1.None? && volumeNumber2.Some? then Ok(-1)
    else CompareChapters(volumeNumber1, chapterNumber1, volumeNumber2, chapterNumber2)
  }

  /** The corrected ordering is antisymmetric on every pair of chapters. */
  lemma CompareNullVolumeFirstAntisymmetric(volumeNumber1: Option<Int32>, chapterNumber1: string,
                                            volumeNumber2: Option<Int32>, chapterNumber2: string)
    ensures var r1, r2 := CompareNullVolumeFirst(volumeNumber1, chapterNumber1, volumeNumber2, chapterNumber2),
                          CompareNullVolumeFirst(volumeNumber2, chapterNumber2, volumeNumber1, chapterNumber1);
      (r1.Ok? <==> r2.Ok?) && (r1.Ok? ==> r2.value == -r1.value)
  {
    if volumeNumber1.Some? == volumeNumber2.Some? {
      CompareChaptersAntisymmetric(volumeNumber1, chapterNumber1, volumeNumber2, chapterNumber2);
    }
  }

  /** Chapters (volume 1, "2"), (volume 1, "10") and (volume 2, "1") are in ascending order. */
  lemma ChapterOrderExample()
    ensures CompareChapters(Some(1), "2", Some(1), "10") == Ok(-1)
    ensures CompareChapters(Some(1), "10", Some(2), "1") == Ok(-1)
    ensures CompareChapters(Some(1), "2", Some(2), "1") == Ok(-1)
  {
    SplitWithoutSeparator("2", '.');
    SplitWithoutSeparator("1", '.');
    SplitWithoutSeparator("10", '.');
    IntegerLiterals();
  }

  // ---------------------------------------------------------------------
  // The chapter entity

  class Chapter {
    const chapterId: Token
    var volumeNumber: Option<Int32>
    var chapterNumber: string
    var url: string
    var title: Option<string>
    /** `None` stands for the null a chapter built from a manga id starts with. */
    var archiveFileName: Option<string>
    var downloaded: bool
    var parentMangaId: string
    const parentManga: Manga?

    /** Exactly the chapters that know their manga have an archive name. */
    ghost predicate Valid()
      reads this
    {
      archiveFileName.Some? <==> parentManga != null
    }

    /** The archive name is the one the current metadata builds. */
    ghost predicate ArchiveNameCurrent()
      reads this, parentManga
    {
      parentManga != null && archiveFileName == Some(ArchiveFileName(parentManga.name, volumeNumber, chapterNumber, title))
    }

    /** A chapter built from its manga's id only: no manga object, no archive name. */
    constructor (chapterId: Token, parentMangaId: string, url: string, chapterNumber: string,
                 volumeNumber: Option<Int32> := None, title: Option<string> := None)
      ensures Valid() && parentManga == null && archiveFileName == None
      ensures this.chapterId == chapterId && this.parentMangaId == parentMangaId && this.url == url
      ensures this.chapterNumber == chapterNumber && this.volumeNumber == volumeNumber && this.title == title
      ensures !downloaded
    {
      this.chapterId := chapterId;
      this.parentMangaId := parentMangaId;
      this.url := url;
      this.chapterNumber := chapterNumber;
      this.volumeNumber := volumeNumber;
      this.title := title;
      this.downloaded := false;
      this.parentManga := null;
      this.archiveFileName := None;
    }

    /** A chapter built from its manga: its archive name is derived at once. */
    constructor OfManga(chapterId: Token, parentManga: Manga, url: string, chapterNumber: string,
                        volumeNumber: Option<Int32> := None, title: Option<string> := None)
      ensures Valid() && ArchiveNameCurrent() && this.parentManga == parentManga
      ensures this.chapterId == chapterId && parentMangaId == parentManga.mangaId && this.url == url
      ensures this.chapterNumber == chapterNumber && this.volumeNumber == volumeNumber && this.title == title
      ensures !downloaded
    {
      this.chapterId := chapterId;
      this.parentMangaId := parentManga.mangaId;
      this.url := url;
      this.chapterNumber := chapterNumber;
      this.volumeNumber := volumeNumber;
      this.title := title;
      this.downloaded := false;
      this.parentManga := parentManga;
      this.archiveFileName := Some(ArchiveFileName(parentManga.name, volumeNumber, chapterNumber, title));
    }

    /** The full path of the chapter's archive; a chapter without its manga
        object throws a NullReferenceException. */
    function GetArchiveFilePath(downloadLocation: string): (r: Result<string, Fault>)
      reads this, parentManga
      requires Valid()
      ensures r.Err? <==> parentManga == null
      ensures r.Err? ==> r.error == NullReference
      ensures r.Ok? ==> r.value == ArchiveFilePath(downloadLocation, parentManga.folderName, archiveFileName.value)
    {
      if parentManga == null then Err(NullReference)
      else Ok(ArchiveFilePath(downloadLocation, parentManga.folderName, archiveFileName.value))
    }

    /** The outcome of rebuilding the archive name, given the name before:
        without a manga object, a NullReferenceException and no new name;
        otherwise the name built from the current metadata, and a move job
        from the old path to the new one exactly when the chapter is downloaded. */
    ghost predicate Renamed(oldArchiveFileName: Option<string>, downloadLocation: string, jobId: Token,
                            r: Result<Option<Job>, Fault>)
      reads this, parentManga
    {
      if parentManga == null then
        r == Err(NullReference) && archiveFileName == oldArchiveFileName
      else
        && ArchiveNameCurrent()
        && oldArchiveFileName.Some?
        && r.Ok?
        && (r.value.Some? <==> downloaded)
        && (downloaded ==> r.value.value == NewMoveFileOrFolderJob(jobId,
              ArchiveFilePath(downloadLocation, parentManga.folderName, oldArchiveFileName.value),
              ArchiveFilePath(downloadLocation, parentManga.folderName, archiveFileName.value), None, None))
    }

    method UpdateArchiveFileName(downloadLocation: string, jobId: Token) returns (r: Result<Option<Job>, Fault>)
      requires Valid()
      modifies this`archiveFileName
      ensures Valid()
      ensures Renamed(old(archiveFileName), downloadLocation, jobId, r)
    {
      var oldPath := GetArchiveFilePath(downloadLocation);
      if oldPath.Err? {
        return Err(oldPath.error);
      }
      archiveFileName := Some(ArchiveFileName(parentManga.name, volumeNumber, chapterNumber, title));
      if downloaded {
        var newPath := GetArchiveFilePath(downloadLocation);
        return Ok(Some(NewMoveFileOrFolderJob(jobId, oldPath.value, newPath.value, None, None)));
      }
      return Ok(None);
    }

    /** Sets the chapter number, then rebuilds the archive name. */
    method UpdateChapterNumber(chapterNumber: string, downloadLocation: string, jobId: Token)
      returns (r: Result<Option<Job>, Fault>)
      requires Valid()
      modifies this`chapterNumber, this`archiveFileName
      ensures Valid()
      ensures this.chapterNumber == chapterNumber
      ensures Renamed(old(archiveFileName), downloadLocation, jobId, r)
      ensures old(ArchiveNameCurrent()) && downloaded ==>
        (r.value.value.details.fromLocation == r.value.value.details.toLocation <==> old(this.chapterNumber) == chapterNumber)
    {
      this.chapterNumber := chapterNumber;
      r := UpdateArchiveFileName(downloadLocation, jobId);
      if parentManga != null {
        ArchiveFileNameChapterNumberInjective(parentManga.name, volumeNumber, old(this.chapterNumber), chapterNumber, title);
        ArchiveFilePathInjective(downloadLocation, parentManga.folderName, old(archiveFileName).value, archiveFileName.value);
      }
    }

    /** Sets the volume number, then rebuilds the archive name. */
    method UpdateVolumeNumber(volumeNumber: Option<Int32>, downloadLocation: string, jobId: Token)
      returns (r: Result<Option<Job>, Fault>)
      requires Valid()
      modifies this`volumeNumber, this`archiveFileName
      ensures Valid()
      ensures this.volumeNumber == volumeNumber
      ensures Renamed(old(archiveFileName), downloadLocation, jobId, r)
      ensures old(ArchiveNameCurrent()) && downloaded ==>
        (r.value.value.details.fromLocation == r.value.value.details.toLocation
         <==> old(this.volumeNumber).GetOr(0) == volumeNumber.GetOr(0))
    {
      this.volumeNumber := volumeNumber;
      r := UpdateArchiveFileName(downloadLocation, jobId);
      if parentManga != null {
        ArchiveFileNameVolumeInjective(parentManga.name, old(this.volumeNumber), volumeNumber, chapterNumber, title);
        ArchiveFilePathInjective(downloadLocation, parentManga.folderName, old(archiveFileName).value, archiveFileName.value);
      }
    }

    /** Sets the title, then rebuilds the archive name. */
    method UpdateTitle(title: Option<string>, downloadLocation: string, jobId: Token)
      returns (r: Result<Option<Job>, Fault>)
      requires Valid()
      modifies this`title, this`archiveFileName
      ensures Valid()
      ensures this.title == title
      ensures Renamed(old(archiveFileName), downloadLocation, jobId, r)
      ensures old(ArchiveNameCurrent()) && downloaded ==>
        (r.value.value.details.fromLocation == r.value.value.details.toLocation <==> old(this.title) == title)
    {
      this.title := title;
      r := UpdateArchiveFileName(downloadLocation, jobId);
      if parentManga != null {
        ArchiveFileNameTitleInjective(parentManga.name, volumeNumber, chapterNumber, old(this.title), title);
        ArchiveFilePathInjective(downloadLocation, parentManga.folderName, old(archiveFileName).value, archiveFileName.value);
      }
    }

    /** `CompareTo`: comparing with null throws an ArgumentException, and
        nothing else does. */
    function CompareTo(other: Chapter?): (r: Result<int, Fault>)
      reads this, other
      ensures r == Err(Argument) <==> other == null
      ensures other != null ==> r == CompareChapters(volumeNumber, chapterNumber, other.volumeNumber, other.chapterNumber)
    {
      if other == null then Err(Argument)
      else CompareChapters(volumeNumber, chapterNumber, other.volumeNumber, other.chapterNumber)
    }
  }
}
