/**
 * The repository instance: its parameters, the cached user-workspace root,
 * and the listing and search calls that resolve a path, ask the remote
 * client, and record the last visited path in the user's session.
 */
module Repository {
  import opened Wrappers
  import opened PhpStrings
  import Config
  import Breadcrumb
  import Classifier
  import Urls

  /** What the client's folder listing or search returns: an error message (empty on success) and the content. */
  datatype RemoteResult = RemoteResult(error: string, content: Classifier.Payload)

  /** `repository_exception('repositoryerror', ...)` with its debug information. */
  datatype RepoError = RepositoryError(debugInfo: string)

  /** The array `get_listing` and `search` return to the file picker. */
  datatype Listing = Listing(
    list: seq<Classifier.Entry>,
    manage: string,
    dynload: bool,
    nosearch: bool,
    nologin: bool,
    path: seq<Breadcrumb.Crumb>)

  /** PHP `$root == null`: true for null and for "". */
  predicate IsNullRoot(root: Option<string>) {
    root.None? || root.value == ""
  }

  /** The root as `strlen` and `.` see it: null reads as "". */
  function RootText(root: Option<string>): string {
    if root.None? then "" else root.value
  }

  /** The cache after a call: the lookup result when the cache was null, otherwise unchanged. */
  function CachedRoot(cached: Option<string>, lookup: Option<string>): (r: Option<string>)
    ensures !IsNullRoot(cached) ==> r == cached
    ensures IsNullRoot(cached) ==> r == lookup
  {
    if IsNullRoot(cached) then lookup else cached
  }

  /** `getlastpath`: the session's last path, or "/" when it is unset or `empty()`. */
  function LastPath(lastPath: Option<string>): (r: string)
    ensures !PhpEmpty(r)
    ensures lastPath.Some? && !PhpEmpty(lastPath.value) ==> r == lastPath.value
    ensures lastPath.None? || PhpEmpty(lastPath.value) ==> r == "/"
  {
    if lastPath.Some? && !PhpEmpty(lastPath.value) then lastPath.value else "/"
  }

  /** The requested path, or the last visited one when the request is `empty()`. */
  function RequestedOrLast(path: string, lastPath: Option<string>): (r: string)
    ensures !PhpEmpty(r)
    ensures !PhpEmpty(path) ==> r == path
    ensures PhpEmpty(path) ==> r == LastPath(lastPath)
  {
    if PhpEmpty(path) then LastPath(lastPath) else path
  }

  /** The path `get_listing` lists: a top path stands for the workspace root, which must be known. */
  function ResolvePath(path: string, lastPath: Option<string>, root: Option<string>): (r: Result<string, RepoError>)
    ensures r.Err? ==> r.error == RepositoryError("")
  {
    var p := RequestedOrLast(path, lastPath);
    if PhpEmpty(p) || p == "/" then
      if IsNullRoot(root) then Err(RepositoryError("")) else Ok(root.value)
    else Ok(p)
  }

  /** The path a search is scoped to: the session's last path as it stands, null reading as "". */
  function SearchScope(lastPath: Option<string>): string {
    if lastPath.None? then "" else lastPath.value
  }

  /** The host's session object, holding `last_path`. */
  class Session {
    var lastPath: Option<string>

    constructor ()
      ensures lastPath == None
    {
      lastPath := None;
    }
  }

  class Nuxeo {
    /** Parameters read once from the settings; never changed afterwards. */
    const params: Config.Params
    /** The client's request URL, built from `params.url` by the client library. */
    const urlNuxeo: string
    const secretKey: string
    const userName: string
    /** The cached user-workspace root (`$this->userworspacepath`). */
    var userWorkspacePath: Option<string>

    /** The constructor: load the parameters and remember the connection data. */
    constructor (settings: Config.AdminSettings, urlNuxeo: string, secretKey: string, userName: string)
      ensures params.space == ["UserWorkspace"]
      ensures params.conteners == settings.conteners && params.contents == settings.contents
      ensures params.returntypes == Config.EnabledValues(settings.returntypes)
      ensures params.url == settings.url && params.urlBaseUserManage == settings.urlBaseUserManage
      ensures this.urlNuxeo == urlNuxeo && this.secretKey == secretKey && this.userName == userName
      ensures userWorkspacePath == None
    {
      var loaded := Config.LoadParams(settings);
      params := loaded;
      this.urlNuxeo := urlNuxeo;
      this.secretKey := secretKey;
      this.userName := userName;
      userWorkspacePath := None;
    }

    /** The container types the classifier tests against. */
    function Conteners(): seq<string> {
      params.conteners
    }

    /**
     * `get_listing`. `workspaceRoot` is what the client's workspace lookup
     * answers, consulted only while the cache is null; `listFolder` is the
     * client's folder listing.
     */
    method GetListing(session: Session, path: string, workspaceRoot: Option<string>,
                      listFolder: string -> RemoteResult)
      returns (r: Result<Listing, RepoError>)
      modifies this, session
      ensures userWorkspacePath == CachedRoot(old(userWorkspacePath), workspaceRoot)
      ensures match ResolvePath(path, old(session.lastPath), userWorkspacePath)
        case Err(e) => r == Err(e) && session.lastPath == old(session.lastPath)
        case Ok(p) =>
          if !PhpEmpty(listFolder(p).error) then
            r == Err(RepositoryError(listFolder(p).error)) && session.lastPath == old(session.lastPath)
          else
            && r == Ok(Listing(
                 Classifier.Entries(Conteners(), listFolder(p).content),
                 Urls.ManageUrl(params.urlBaseUserManage, RequestedOrLast(path, old(session.lastPath))),
                 true, false, true,
                 Breadcrumb.Trail(RootText(userWorkspacePath), p)))
            && session.lastPath == Some(p)
    {
      if IsNullRoot(userWorkspacePath) {
        userWorkspacePath := workspaceRoot;
      }
      var p := path;
      if PhpEmpty(p) {
        p := LastPath(session.lastPath);
      }
      assert p == RequestedOrLast(path, old(session.lastPath));
      var manage := Urls.ManageUrl(params.urlBaseUserManage, p);
      if PhpEmpty(p) || p == "/" {
        if IsNullRoot(userWorkspacePath) {
          return Err(RepositoryError(""));
        }
        p := userWorkspacePath.value;
      }
      var result := listFolder(p);
      if !PhpEmpty(result.error) {
        return Err(RepositoryError(result.error));
      }
      var trail := Breadcrumb.BuildPath(RootText(userWorkspacePath), p);
      var list: seq<Classifier.Entry> := [];
      if result.content.Docs? && result.content.docs != [] {
        list := Classifier.GetListing(Conteners(), result.content);
      } else {
        assert Classifier.Entries(Conteners(), result.content) == [];
      }
      session.lastPath := Some(p);
      r := Ok(Listing(list, manage, true, false, true, trail));
    }

    /**
     * `search`, scoped to the session's last path. `workspaceRoot` is consulted
     * only while the cache is null; `recherche` is the client's search.
     */
    method Search(session: Session, searchText: string, workspaceRoot: Option<string>,
                  recherche: (string, string) -> RemoteResult)
      returns (r: Result<Listing, RepoError>)
      modifies this
      ensures userWorkspacePath == CachedRoot(old(userWorkspacePath), workspaceRoot)
      ensures var p := SearchScope(session.lastPath);
        var result := recherche(searchText, p);
        if !PhpEmpty(result.error) then r == Err(RepositoryError(result.error))
        else r == Ok(Listing(
               Classifier.Entries(Conteners(), result.content),
               Urls.ManageUrl(params.urlBaseUserManage, p),
               true, false, true,
               Breadcrumb.Trail(RootText(userWorkspacePath), p)))
    {
      var p := SearchScope(session.lastPath);
      if IsNullRoot(userWorkspacePath) {
        userWorkspacePath := workspaceRoot;
      }
      var manage := Urls.ManageUrl(params.urlBaseUserManage, p);
      var result := recherche(searchText, p);
      if !PhpEmpty(result.error) {
        return Err(RepositoryError(result.error));
      }
      var trail := Breadcrumb.BuildPath(RootText(userWorkspacePath), p);
      var list := Classifier.GetListing(Conteners(), result.content);
      r := Ok(Listing(list, manage, true, false, true, trail));
    }
  }

  /** With no path requested and no usable history, the listing goes to the workspace root. */
  lemma ResolveToWorkspaceRoot(lastPath: Option<string>, root: Option<string>)
    requires lastPath.None? || PhpEmpty(lastPath.value)
    requires !IsNullRoot(root)
    ensures ResolvePath("", lastPath, root) == Ok(root.value)
  {
  }

  /**
   * A request that comes to "/" (the home crumb's path, or an empty request
   * when the history is "/" or unusable) lists the cached workspace root.
   */
  lemma ResolveSlashToRoot(path: string, lastPath: Option<string>, root: Option<string>)
    requires RequestedOrLast(path, lastPath) == "/"
    requires !IsNullRoot(root)
    ensures ResolvePath(path, lastPath, root) == Ok(root.value)
  {
  }

  /** An `empty()` request lists the session's last path when that is usable and not "/". */
  lemma ResolveEmptyToLastPath(path: string, lastPath: Option<string>, root: Option<string>)
    requires PhpEmpty(path)
    requires lastPath.Some? && !PhpEmpty(lastPath.value) && lastPath.value != "/"
    ensures ResolvePath(path, lastPath, root) == Ok(lastPath.value)
  {
  }

  /** An explicit path other than "/" is listed as given, whatever the history and root. */
  lemma ResolveExplicitPath(path: string, lastPath: Option<string>, root: Option<string>)
    requires !PhpEmpty(path) && path != "/"
    ensures ResolvePath(path, lastPath, root) == Ok(path)
  {
  }

  /** Resolution fails exactly when it reaches "/" and the workspace root is null. */
  lemma ResolveFailsIff(path: string, lastPath: Option<string>, root: Option<string>)
    ensures ResolvePath(path, lastPath, root).Err? <==>
      RequestedOrLast(path, lastPath) == "/" && IsNullRoot(root)
  {
  }

  /** A successful resolution is the requested path, the last path or the workspace root, and never null. */
  lemma ResolvedPathOrigin(path: string, lastPath: Option<string>, root: Option<string>)
    requires ResolvePath(path, lastPath, root).Ok?
    ensures var p := ResolvePath(path, lastPath, root).value;
      && p != ""
      && (p == path || (lastPath.Some? && p == lastPath.value) || (root.Some? && p == root.value))
  {
  }

  /** Once the cache holds a root, later lookups are ignored. */
  lemma CacheIsSticky(cached: Option<string>, lookup: Option<string>, later: Option<string>)
    requires !IsNullRoot(CachedRoot(cached, lookup))
    ensures CachedRoot(CachedRoot(cached, lookup), later) == CachedRoot(cached, lookup)
  {
  }

  /**
   * A successful listing followed by a search: the search is scoped to the
   * path just listed and, once the workspace root is cached, shows the same
   * breadcrumb trail. Each call gets its own answer to the root lookup.
   */
  method ListThenSearch(repo: Nuxeo, session: Session, path: string,
                        rootAtListing: Option<string>, listFolder: string -> RemoteResult,
                        searchText: string, rootAtSearch: Option<string>,
                        recherche: (string, string) -> RemoteResult)
    returns (listed: Result<Listing, RepoError>, found: Result<Listing, RepoError>)
    modifies repo, session
    ensures var root := CachedRoot(old(repo.userWorkspacePath), rootAtListing);
      listed.Ok? ==> && ResolvePath(path, old(session.lastPath), root).Ok?
                     && session.lastPath == Some(ResolvePath(path, old(session.lastPath), root).value)
    ensures listed.Ok? && !PhpEmpty(recherche(searchText, session.lastPath.value).error) ==>
      found == Err(RepositoryError(recherche(searchText, session.lastPath.value).error))
    ensures listed.Ok? && found.Ok? && !IsNullRoot(CachedRoot(old(repo.userWorkspacePath), rootAtListing)) ==>
      found.value.path == listed.value.path
  {
    listed := repo.GetListing(session, path, rootAtListing, listFolder);
    found := repo.Search(session, searchText, rootAtSearch, recherche);
  }
}
