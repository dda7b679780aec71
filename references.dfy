/**
 * File references: the record `get_file_reference` builds, and the three-way
 * answer of `get_file_by_reference`.
 */
module References {
  import opened Wrappers
  import opened PhpStrings
  import Urls

  /** What the client's `get_file_info` returns about a document. */
  datatype FileInfo = FileInfo(
    id: string, filename: string, title: string,
    docType: string, repository: string, size: string)

  /**
   * The outcome of a `get_file_info` call: an answer, `null`, a `moodle_exception`,
   * or an exception of another class.
   */
  datatype InfoLookup = Found(info: FileInfo) | Missing | MoodleException | OtherException

  /** The lookup threw, whatever the exception's class. */
  predicate Raised(lookup: InfoLookup) {
    lookup.MoodleException? || lookup.OtherException?
  }

  /** The reference record: source path, user, portal key, client URL and optional download URL. */
  datatype FileReference = FileReference(
    filepath: string, user: string, secretKey: string, urlNuxeo: string, downloadUrl: string)

  /** The plugin's exceptions on this path; `InfoException` is a lookup exception left to propagate. */
  datatype RefError =
    | CannotCreateReference
    | RepositoryError(debugInfo: string)
    | ErrorWhileDownload(debugInfo: string)
    | InfoException

  /** The title used for the download URL: the filename, or the title when that is `empty()`. */
  function ReferenceTitle(info: FileInfo): string {
    if PhpEmpty(info.filename) then info.title else info.filename
  }

  /**
   * `get_file_reference` up to serialisation: the record, with a download URL
   * when the caller asked for a file reference and the document was found.
   */
  function MakeReference(
    source: string, user: string, secretKey: string, urlNuxeo: string, urlBase: string,
    useFileReference: bool, lookup: InfoLookup): (r: Result<FileReference, RefError>)
    ensures r.Err? <==> useFileReference && Raised(lookup)
    ensures r == Err(CannotCreateReference) <==> useFileReference && lookup.MoodleException?
    ensures r == Err(InfoException) <==> useFileReference && lookup.OtherException?
    ensures r.Ok? ==> && r.value.filepath == source && r.value.user == user
                      && r.value.secretKey == secretKey && r.value.urlNuxeo == urlNuxeo
    ensures r.Ok? ==> (r.value.downloadUrl == "" <==> !(useFileReference && lookup.Found?))
    ensures r.Ok? && useFileReference && lookup.Found? ==>
      r.value.downloadUrl == Urls.DownloadUrl(urlBase, lookup.info.id, ReferenceTitle(lookup.info), lookup.info.repository)
  {
    var reference := FileReference(source, user, secretKey, urlNuxeo, "");
    if !useFileReference then Ok(reference)
    else
      match lookup
      case MoodleException => Err(CannotCreateReference)
      case OtherException => Err(InfoException)
      case Missing => Ok(reference)
      case Found(info) =>
        var url := Urls.DownloadUrl(urlBase, info.id, ReferenceTitle(info), info.repository);
        assert |url| > 0;
        Ok(reference.(downloadUrl := url))
  }

  /**
   * The last '/'-piece of a reference's download URL is the document's title
   * (the filename, or else the title), when that holds no slash.
   */
  lemma ReferenceDownloadName(
    source: string, user: string, secretKey: string, urlNuxeo: string, urlBase: string, info: FileInfo)
    requires '/' !in ReferenceTitle(info)
    ensures var r := MakeReference(source, user, secretKey, urlNuxeo, urlBase, true, Found(info));
      r.Ok? && LastPiece(r.value.downloadUrl) == ReferenceTitle(info)
  {
    Urls.DownloadUrlLastPiece(urlBase, info.id, ReferenceTitle(info), info.repository);
  }

  /** What `get_file_by_reference` hands back: a local copy, or only the remote size. */
  datatype ByReference = LocalCopy(filepath: string) | RemoteSize(filesize: string)

  /** What the client's `download` returns: an error message (empty on success) and the content. */
  datatype Download = Download(error: string, content: string)

  /**
   * `get_file_by_reference`: an exception of the info lookup propagates, as
   * `InfoException`; `null` for a vanished document; a picture is downloaded
   * into the temporary file `tmpPath` (which `tmpOpened` says could be opened);
   * any other type answers with its size only.
   */
  function FileByReference(lookup: InfoLookup, download: Download, tmpOpened: bool, tmpPath: string)
    : (r: Result<Option<ByReference>, RefError>)
    ensures r == Ok(None) <==> lookup.Missing?
    ensures r == Err(InfoException) <==> Raised(lookup)
    ensures lookup.Found? && lookup.info.docType != "Picture" ==> r == Ok(Some(RemoteSize(lookup.info.size)))
    ensures lookup.Found? && lookup.info.docType == "Picture" ==>
      (r.Ok? <==> PhpEmpty(download.error) && tmpOpened)
    ensures lookup.Found? && lookup.info.docType == "Picture" && r.Ok? ==> r.value == Some(LocalCopy(tmpPath))
    ensures lookup.Found? && lookup.info.docType == "Picture" && !PhpEmpty(download.error) ==>
      r == Err(RepositoryError(download.error))
    ensures lookup.Found? && lookup.info.docType == "Picture" && PhpEmpty(download.error) && !tmpOpened ==>
      r == Err(ErrorWhileDownload(download.content))
  {
    match lookup
    case MoodleException => Err(InfoException)
    case OtherException => Err(InfoException)
    case Missing => Ok(None)
    case Found(fileinfo) =>
      if fileinfo.docType == "Picture" then
        if !PhpEmpty(download.error) then Err(RepositoryError(download.error))
        else if tmpOpened then Ok(Some(LocalCopy(tmpPath)))
        else Err(ErrorWhileDownload(download.content))
      else Ok(Some(RemoteSize(fileinfo.size)))
  }

  /** For a document that is not a picture nothing is downloaded: the answer ignores the download. */
  lemma NonPictureIgnoresDownload(info: FileInfo, d1: Download, d2: Download, o1: bool, o2: bool, p1: string, p2: string)
    requires info.docType != "Picture"
    ensures FileByReference(Found(info), d1, o1, p1) == FileByReference(Found(info), d2, o2, p2)
  {
  }
}
