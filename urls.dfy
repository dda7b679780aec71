/**
 * The URLs the plugin builds by string concatenation: the "manage" link of a
 * listing (`getmanage_url`) and the download URL of a document
 * (`get_file_download_url`).
 */
module Urls {
  import opened PhpStrings

  /** The path with one leading slash removed, if it has one. */
  function Relative(path: string): string {
    if StartsWithSlash(path) then path[1..] else path
  }

  /** Paths for which the manage link is the configured manage URL itself. */
  predicate IsTopPath(path: string) {
    PhpEmpty(path) || path == "/"
  }

  /**
   * `getmanage_url` as written: a slash is added only when the manage URL lacks
   * a trailing one AND the path lacks a leading one, and then the path's leading
   * slash is dropped.
   */
  function ManageUrl(manage: string, path: string): (r: string)
    ensures IsTopPath(path) ==> r == manage
    ensures |manage| <= |r| && r[..|manage|] == manage
    ensures !IsTopPath(path) ==>
      r[|manage|..] == (if !EndsWithSlash(manage) && !StartsWithSlash(path) then "/" else "") + Relative(path)
  {
    if IsTopPath(path) then manage
    else
      var sep := if !EndsWithSlash(manage) && !StartsWithSlash(path) then "/" else "";
      manage + sep + Relative(path)
  }

  /**
   * `getmanage_url` as evidently intended: the manage URL, exactly one slash,
   * then the path without its leading slash.
   */
  function ManageUrlFixed(manage: string, path: string): (r: string)
    ensures IsTopPath(path) ==> r == manage
    ensures |manage| <= |r| && r[..|manage|] == manage
  {
    if IsTopPath(path) then manage
    else if EndsWithSlash(manage) then manage + Relative(path)
    else manage + "/" + Relative(path)
  }

  /** The as-written link drops the separator for a manage URL without a trailing slash and an absolute path. */
  lemma ManageUrlDropsSeparator(manage: string, path: string)
    requires !EndsWithSlash(manage) && StartsWithSlash(path) && path != "/"
    ensures ManageUrl(manage, path) == manage + path[1..]
    ensures ManageUrl(manage, path) != ManageUrlFixed(manage, path)
  {
    assert |ManageUrlFixed(manage, path)| == |manage| + |path|;
  }

  /** The concrete input that shows it: "http://h/m" and "/ws" give "http://h/mws". */
  lemma ManageUrlCounterexample()
    ensures ManageUrl("http://h/m", "/ws") == "http://h/mws"
    ensures ManageUrlFixed("http://h/m", "/ws") == "http://h/m/ws"
  {
    assert "/ws"[1..] == "ws";
  }

  /** The two definitions differ exactly on that case. */
  lemma ManageUrlAgreesWithFixed(manage: string, path: string)
    ensures ManageUrl(manage, path) == ManageUrlFixed(manage, path)
        <==> (IsTopPath(path) || EndsWithSlash(manage) || !StartsWithSlash(path))
  {
    if !IsTopPath(path) && !EndsWithSlash(manage) && StartsWithSlash(path) {
      ManageUrlDropsSeparator(manage, path);
    }
  }

  /** The corrected link is the manage URL, one slash, and the relative path, whatever the slashes given. */
  lemma ManageUrlFixedJoinsWithOneSlash(manage: string, path: string)
    requires !IsTopPath(path)
    ensures var base := if EndsWithSlash(manage) then manage[..|manage| - 1] else manage;
      ManageUrlFixed(manage, path) == base + "/" + Relative(path)
  {
    if EndsWithSlash(manage) {
      assert manage == manage[..|manage| - 1] + "/";
    }
  }

  /** The corrected link does not depend on a trailing slash of the manage URL or a leading slash of the path. */
  lemma ManageUrlFixedSlashInsensitive(manage: string, path: string)
    requires !EndsWithSlash(manage) && !StartsWithSlash(path) && !IsTopPath(path) && !IsTopPath("/" + path)
    ensures ManageUrlFixed(manage + "/", path) == ManageUrlFixed(manage, path)
    ensures ManageUrlFixed(manage, "/" + path) == ManageUrlFixed(manage, path)
  {
    assert ("/" + path)[1..] == path;
    assert EndsWithSlash(manage + "/");
  }

  /** The base with exactly one trailing slash added when it has none. */
  function SlashTerminated(base: string): (r: string)
    ensures EndsWithSlash(r)
    ensures EndsWithSlash(base) ==> r == base
    ensures !EndsWithSlash(base) ==> r == base + "/"
  {
    if EndsWithSlash(base) then base else base + "/"
  }

  /** `get_file_download_url`: base, "/" if needed, then `nxfile/<repository>/<uid>/blobholder:0/<filename>`. */
  function DownloadUrl(base: string, uid: string, fileName: string, repository: string): (r: string)
    ensures |base| <= |r| && r[..|base|] == base
    ensures var tail := "/blobholder:0/" + fileName; |tail| <= |r| && r[|r| - |tail|..] == tail
  {
    SlashTerminated(base) + "nxfile/" + repository + "/" + uid + "/blobholder:0/" + fileName
  }

  /** A trailing slash on the base does not change the download URL. */
  lemma DownloadUrlSlashInsensitive(base: string, uid: string, fileName: string, repository: string)
    requires !EndsWithSlash(base)
    ensures DownloadUrl(base + "/", uid, fileName, repository) == DownloadUrl(base, uid, fileName, repository)
  {
    assert EndsWithSlash(base + "/");
  }

  /** Five slash-free parts joined by slashes explode back into those parts. */
  lemma ExplodeFiveParts(p1: string, p2: string, p3: string, p4: string, p5: string)
    requires '/' !in p1 && '/' !in p2 && '/' !in p3 && '/' !in p4 && '/' !in p5
    ensures Explode(p1 + "/" + p2 + "/" + p3 + "/" + p4 + "/" + p5) == [p1, p2, p3, p4, p5]
  {
    var r4 := p4 + "/" + p5;
    var r3 := p3 + "/" + r4;
    var r2 := p2 + "/" + r3;
    assert p1 + "/" + p2 + "/" + p3 + "/" + p4 + "/" + p5 == p1 + "/" + r2;
    ExplodeNoSlash(p1);
    ExplodeNoSlash(p2);
    ExplodeNoSlash(p3);
    ExplodeNoSlash(p4);
    ExplodeNoSlash(p5);
    ExplodeConcat(p4, p5);
    ExplodeConcat(p3, r4);
    ExplodeConcat(p2, r3);
    ExplodeConcat(p1, r2);
  }

  /**
   * Split at its slashes, the download URL ends with the pieces `nxfile`, the
   * repository, the uid, `blobholder:0` and the file name, when none of the
   * three given parts holds a slash.
   */
  lemma DownloadUrlPieces(base: string, uid: string, fileName: string, repository: string)
    requires '/' !in uid && '/' !in fileName && '/' !in repository
    ensures var parts := Explode(DownloadUrl(base, uid, fileName, repository));
      |parts| >= 5 && parts[|parts| - 5..] == ["nxfile", repository, uid, "blobholder:0", fileName]
  {
    var b := WithoutTrailingSlash(base);
    var tail := "nxfile" + "/" + repository + "/" + uid + "/" + "blobholder:0" + "/" + fileName;
    DownloadUrlShape(base, uid, fileName, repository);
    ExplodeFiveParts("nxfile", repository, uid, "blobholder:0", fileName);
    ExplodeConcat(b, tail);
    var five := ["nxfile", repository, uid, "blobholder:0", fileName];
    var parts := Explode(b) + five;
    assert parts[|parts| - 5..] == five;
  }

  /** The base with one trailing slash removed, if it has one. */
  function WithoutTrailingSlash(base: string): string {
    if EndsWithSlash(base) then base[..|base| - 1] else base
  }

  /** The slash-terminated base is the base without its trailing slash, then a slash. */
  lemma SlashTerminatedSplit(base: string)
    ensures SlashTerminated(base) == WithoutTrailingSlash(base) + "/"
  {
    if EndsWithSlash(base) {
      assert base == base[..|base| - 1] + "/";
    }
  }

  /** The download URL is the base without its trailing slash, a slash, and the slash-joined tail. */
  lemma DownloadUrlShape(base: string, uid: string, fileName: string, repository: string)
    ensures DownloadUrl(base, uid, fileName, repository)
      == WithoutTrailingSlash(base) + "/" + ("nxfile" + "/" + repository + "/" + uid + "/" + "blobholder:0" + "/" + fileName)
  {
    SlashTerminatedSplit(base);
    assert "nxfile/" == "nxfile" + "/";
    assert "/blobholder:0/" == "/" + "blobholder:0" + "/";
    RegroupUrl(WithoutTrailingSlash(base), "/", "nxfile", repository, uid, "blobholder:0", fileName);
  }

  /** Regrouping the concatenation the download URL is built from. */
  lemma RegroupUrl(w: string, sep: string, nx: string, r: string, u: string, bh: string, f: string)
    ensures (w + sep) + (nx + sep) + r + sep + u + (sep + bh + sep) + f
      == w + sep + (nx + sep + r + sep + u + sep + bh + sep + f)
  {
  }

  /** The last piece of the download URL is the file name, when that holds no slash. */
  lemma DownloadUrlLastPiece(base: string, uid: string, fileName: string, repository: string)
    requires '/' !in fileName
    ensures LastPiece(DownloadUrl(base, uid, fileName, repository)) == fileName
  {
    var head := SlashTerminated(base) + "nxfile/" + repository + "/" + uid + "/blobholder:0";
    assert DownloadUrl(base, uid, fileName, repository) == head + "/" + fileName;
    ExplodeConcat(head, fileName);
    ExplodeNoSlash(fileName);
  }
}
