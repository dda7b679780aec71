# Nuxeo user-workspace repository plugin: navigation and listing core

This project models the logic of the Moodle repository plugin
`repository_nuxeouworkspace` (`lib.php`), which lets Moodle's file picker browse,
search and fetch documents stored in a user's Nuxeo workspace. Nearly all of the
plugin forwards calls to the Nuxeo automation client; what it computes itself is
modelled here:

- the breadcrumb trail of a listing (`buildpath`), module `Breadcrumb`;
- the classification of remote documents into container and file entries
  (`getlisting`), module `Classifier`;
- path resolution, the cached user-workspace root and the session's `last_path`
  in `get_listing` and `search`, module `Repository` (classes `Nuxeo` and `Session`);
- the manage link and the download URL (`getmanage_url`,
  `get_file_download_url`), module `Urls`;
- the parameters and declared return types (`set_params_options` on already
  parsed settings, `supported_returntypes`), module `Config`;
- the reference record of `get_file_reference` and the three-way answer of
  `get_file_by_reference`, module `References`;
- the PHP string primitives they rely on (`empty()`, `substr`, `explode`,
  `strtolower`), module `PhpStrings`.

PHP `empty()` on a string is true for `""` and `"0"`, and the model keeps that:
a path segment `"0"` is skipped, a request for path `"0"` falls back to the last
path, a picture filename `"0"` falls back to the title. PHP's `$x == null` on the
cached workspace root is true for `null` and `""`, so both count as "no root";
`strlen(null)` is 0, so a null root behaves as `""` when building the trail.

The remote client is not modelled. Its answers are parameters: the workspace
root lookup is an `Option<string>` that `get_listing` and `search` use only while
the cache is null; the folder listing and the search are functions from their
arguments to a `RemoteResult` (an error message, empty on success, and a payload
that is a document array or something else); `get_file_info` is an
`InfoLookup` (found, `null`, a `moodle_exception`, or an exception of another class); `download` is a `Download` value
and whether the temporary file could be opened is a boolean.

The trail does not check that the path starts with the workspace root: it drops
the first `strlen(root)` bytes of the path whatever they are. `search` uses the
session's `last_path` as it stands, not the `getlastpath` fallback.

## Model

| member | source | states |
|---|---|---|
| `PhpStrings.Substr` | lib.php:439 | `substr($path, strlen($root))` drops the first n characters (PHP counts bytes, see Left out); the result is "" when the path is not longer |
| `PhpStrings.Explode` | lib.php:443 | `explode('/')` always yields at least one piece |
| `PhpStrings.ExplodeSplitsIffSlash` | lib.php:443-444 | `count($parts) > 1` holds exactly when the suffix contains a slash |
| `PhpStrings.ImplodeExplode` | lib.php:443 | joining the exploded pieces with '/' gives the suffix back |
| `PhpStrings.ExplodePiecesHaveNoSlash` | lib.php:443 | no exploded piece holds a slash |
| `PhpStrings.ExplodeConcat` | lib.php:443 | exploding x + "/" + y gives the pieces of x followed by those of y |
| `Breadcrumb.Segments` | lib.php:445-446 | the segments the loop keeps are not `empty()` and are no more than the pieces |
| `Breadcrumb.SegmentsKeepNonEmpty` | lib.php:445-446 | a piece is kept exactly when it is not `empty()` |
| `Breadcrumb.Trail` | lib.php:426-462 | every trail starts with the entry {`home`, "/"} |
| `Breadcrumb.BuildPath` | lib.php:426-462 | the loop that accumulates `$trail` and `$pathbuild` returns exactly `Trail(root, path)` |
| `Breadcrumb.CrumbsAt` | lib.php:441-453 | one entry per non-empty segment, in order; entry k is named segment k and leads to root + "/" + seg1 + ... + "/" + segk |
| `Breadcrumb.TrailOfRoot` | lib.php:429-442 | when the suffix beyond the root is `empty()` (in particular a path no longer in bytes than the root) the trail is the home entry alone |
| `Breadcrumb.TrailWithSlash` | lib.php:441-453 | a suffix with a slash gives 1 + (number of non-empty segments) entries, entry k+1 leading to root + the first k+1 segments |
| `Breadcrumb.TrailWithoutSlash` | lib.php:454-458 | a non-empty suffix without a slash gives exactly one more entry, name and path both the bare suffix |
| `Breadcrumb.TrailSingleSegmentNotPrefixed` | lib.php:454-458 | for root + seg with no slash the added entry's path is seg, not prefixed by the root |
| `Breadcrumb.TrailOfDescendant` | lib.php:436-453 | for root + "/s1/.../sn" the trail has n + 1 entries, the last leading to the path itself |
| `Breadcrumb.TrailOfTwoLevels` | lib.php:441-453 | root + "/A/B" gives home, {A, root/A}, {B, root/A/B} |
| `Classifier.DisplayType` | lib.php:485-489 | `UserWorkspace` shows as `Workspace`, `OrderedFolder` as `Folder`, any other type unchanged |
| `Classifier.ToEntry` | lib.php:482-534 | a document is a container entry exactly when its type is a configured container type or `UserWorkspace`, tested before `Picture`; containers keep title and path, have no children and the lowercased display type as icon; pictures are titled by the picture filename, others by `file:filename`, each falling back to the title when `empty()`; pictures get the `.png` icon, other files the icon of their title; files carry size, creator, creation and modification dates from the document's properties, containers the creation date; every thumbnail is 64 by 64 |
| `Classifier.GetListing` | lib.php:470-539 | the loop that appends to `$dirslist` or `$fileslist` returns containers then files, and nothing for a non-array |
| `Classifier.AllEntriesAt` | lib.php:480 | the reference list of entries holds document k's entry at position k |
| `Classifier.DirsAreContainers` | lib.php:491-533 | the container list holds only container entries, the file list only file entries |
| `Classifier.GroupsPartition` | lib.php:478-537 | the two lists together hold every document's entry exactly once (as multisets) |
| `Classifier.ListingPartition` | lib.php:537 | the listing has as many entries as there are documents, each document's entry exactly once |
| `Classifier.ListingContainersFirst` | lib.php:537 | all container entries come before all file entries |
| `Classifier.GroupsOfConcat` | lib.php:480-535 | grouping a concatenation concatenates the groups, so each group keeps input order |
| `Classifier.ListingOfContainersOnly` | lib.php:482-499 | a listing of containers only is their entries in input order |
| `Classifier.UserWorkspaceScenario` | lib.php:485-495 | a `UserWorkspace` document is a container with icon `workspace` |
| `Classifier.OrderedFolderScenario` | lib.php:487-495 | a configured `OrderedFolder` is a container with icon `folder` |
| `Urls.ManageUrl` | lib.php:558-574 | as written: a top path gives the manage URL unchanged; otherwise the result starts with the manage URL, then a slash only when the URL lacks a trailing one and the path a leading one, then the path without one leading slash |
| `Urls.ManageUrlDropsSeparator` | lib.php:564-568 | as written, a manage URL without a trailing slash and a path with a leading slash are glued with no separator |
| `Urls.ManageUrlCounterexample` | lib.php:564-568 | "http://h/m" and "/ws" give "http://h/mws" as written and "http://h/m/ws" as intended |
| `Urls.ManageUrlAgreesWithFixed` | lib.php:558-574 | the as-written and the corrected link agree exactly outside that case |
| `Urls.ManageUrlFixed` | lib.php:558-574 | corrected: a top path gives the manage URL; any other result starts with it |
| `Urls.ManageUrlFixedJoinsWithOneSlash` | lib.php:564-571 | corrected: the manage URL without its trailing slash, one slash, then the relative path |
| `Urls.ManageUrlFixedSlashInsensitive` | lib.php:564-571 | corrected: a trailing slash on the manage URL or a leading slash on the path changes nothing |
| `Urls.SlashTerminated` | lib.php:579-581 | a base that ends with a slash is kept as it is; any other base gets exactly one slash appended |
| `Urls.DownloadUrl` | lib.php:576-584 | the download URL starts with the base and ends with `/blobholder:0/<filename>` |
| `Urls.DownloadUrlSlashInsensitive` | lib.php:579-582 | a base with or without its trailing slash gives the same download URL |
| `Urls.DownloadUrlPieces` | lib.php:576-584 | split at its slashes, the URL ends with `nxfile`, the repository, the uid, `blobholder:0` and the file name, when those hold no slash |
| `Urls.DownloadUrlLastPiece` | lib.php:582 | the last '/'-piece of the download URL is the file name when that holds no slash |
| `Config.LoadParams` | lib.php:593-617 | the parameters copy the container and content types, keep the values of the entries enabled with "true" in order, and take the two URLs; `space` is `UserWorkspace` |
| `Config.SupportedReturnTypes` | lib.php:349-354 | the sum of the configured values, or FILE_EXTERNAL + FILE_REFERENCE + FILE_INTERNAL (7) when none is configured |
| `Config.EnabledValuesMembers` | lib.php:609-613 | a value is configured exactly when some entry enabled with "true" carries it |
| `Config.EnabledValuesOfConcat` | lib.php:609-613 | filtering keeps entry order: a concatenation filters to the concatenation of the filtered parts |
| `Config.SumOfEnabledConcat` | lib.php:349-352 | the declared types of two groups of entries add up |
| `Config.NoEnabledEntryMeansAllTypes` | lib.php:349-354 | with no entry enabled the plugin declares all three return types |
| `References.MakeReference` | lib.php:225-251 | the record carries source, user, key and client URL; when a file reference was asked for, a `moodle_exception` of the lookup becomes `cannotcreatereference` and any other exception propagates, and it fails in no other case; its download URL is set, from the filename or else the title, exactly when asked for and the document was found |
| `References.ReferenceDownloadName` | lib.php:240-244 | the last piece of a reference's download URL is the resolved title |
| `References.FileByReference` | lib.php:264-299 | an exception of the info lookup propagates, and only then; `null` exactly for a missing document; a picture gives the temporary path, or `repositoryerror` on a download error, or `errorwhiledownload` when the file cannot be opened; other types give only their size |
| `References.NonPictureIgnoresDownload` | lib.php:294-298 | for a non-picture the answer does not depend on the download or the temporary file |
| `Repository.CachedRoot` | lib.php:136-138 | the workspace root is looked up only while the cache is null (or ""); otherwise the cache is kept |
| `Repository.CacheIsSticky` | lib.php:136-138 | once the cache holds a root, later lookups are ignored |
| `Repository.LastPath` | lib.php:410-419 | the session's last path, or "/" when it is unset or `empty()`; never `empty()` |
| `Repository.RequestedOrLast` | lib.php:141-143 | an `empty()` request becomes `getlastpath()`; any other request is kept |
| `Repository.ResolvePath` | lib.php:141-159 | failure is always `repositoryerror` with no debug information |
| `Repository.ResolveToWorkspaceRoot` | lib.php:141-155 | an empty request with no usable history lists the workspace root |
| `Repository.ResolveSlashToRoot` | lib.php:141-154 | a request that comes to "/" (the home crumb's path, or an `empty()` request whose history is "/" or unusable) lists the cached workspace root when one is known |
| `Repository.ResolveEmptyToLastPath` | lib.php:141-143 | an `empty()` request (including "0") lists the session's last path when that is neither `empty()` nor "/" |
| `Repository.ResolveExplicitPath` | lib.php:141-159 | a request other than "/" and not `empty()` is listed as given |
| `Repository.ResolveFailsIff` | lib.php:153-158 | resolution fails exactly when it reaches "/" and the root is null |
| `Repository.ResolvedPathOrigin` | lib.php:141-155 | a resolved path is the request, the last path or the root, and never "" |
| `Repository.Nuxeo.constructor` | lib.php:109-123 | the instance takes its parameters from the settings, its space types are `UserWorkspace`, and it starts with no cached root |
| `Repository.Nuxeo.GetListing` | lib.php:133-177 | the cache is filled only while null; an unresolvable path or a remote error raises `repositoryerror` and leaves `last_path` unchanged; on success the listing holds the entries, the manage link of the requested path, the flags and the trail, and `last_path` becomes the resolved path |
| `Repository.Nuxeo.Search` | lib.php:379-403 | the search is scoped to the session's `last_path`, leaves it unchanged, raises on a remote error, and otherwise returns the entries, manage link and trail for that path |
| `Repository.ListThenSearch` | lib.php:133-403 | after a successful listing `last_path` is the resolved path, a search is scoped to it (failing with the search's error), and once the workspace root is cached the search shows the same trail |

## Findings

| source | as written | input that shows it | evidently intended | confidence | as-written member | corrected member |
|---|---|---|---|---|---|---|
| lib.php:564-568 | a slash is added only when the manage URL lacks a trailing slash and the path lacks a leading one, and then a leading slash is removed from the path | manage URL "http://h/m" and path "/ws" give "http://h/mws" | exactly one slash between the manage URL and the path: "http://h/m/ws" | medium, not executed | `Urls.ManageUrl`, `Urls.ManageUrlCounterexample` | `Urls.ManageUrlFixed` |

Repository paths from Nuxeo begin with a slash, so the as-written link is only
right when the configured manage URL ends with one. `Nuxeo.GetListing` and
`Nuxeo.Search` build the link as written, as the plugin does.

## Left out

- Nuxeo client calls (`getuserworkspacePath`, `getFilesFrom`, `recherche`, `get_file_info`, `download`, `fileExixt`, the client constructor, `construct_nuxeo_url`, `set_params`): network I/O in a library that is not part of this model; their answers are parameters.
- `get_file` and `send_file`: temporary files, HTTP headers, streaming and `die()` are file-system and response I/O; `get_file_by_reference` keeps only its branching, with the download and the file opening as parameters.
- `serialize`/`unserialize` of references: PHP runtime serialisation; the reference is a plain record.
- Parsing of the XML settings (`get_config`, `simplexml_load_string`) and the `configerror` exception: `Config.LoadParams` starts from the parsed `admin_config` section, and the `(int)`/`(string)` casts of XML nodes are taken as already done.
- `$OUTPUT->pix_url`, `file_extension_icon`, `strtotime`, `get_string`, `optional_param`, `$CFG`, `$USER`: host functions and globals; icons are keys, dates are wrapped raw strings, the `nuxeoRoot` label is the constant `home`, and the `usefilereference` flag, secret key and user name are parameters.
- `supported_filetypes`, `get_type_option_names`, `print_search`: constants or calls into the host's base class.
- `getbasename`: its body is commented out and it always returns "".
- PHP loose comparison: `in_array` and `==` on types compare strings strictly here; numeric-looking type names that PHP would compare as numbers are not modelled.
- `$fileinfo == null` is also true in PHP for an empty array; the lookup answer is an option here, so that case is not modelled.
- `strtolower` is modelled on ASCII letters only.
- `get_file_source_info`: a plain string concatenation for display, with nothing promised about it.
- `PhpStrings.Substr`: strings are sequences of characters, while PHP's `strlen` and `substr` count bytes; the suffix in `buildpath` differs only when the path does not start with the root and a non-ASCII character occurs in the root or in the path's first |root| characters.
- `Repository.SearchScope`: an unset `last_path` reaches the client's search as "" here, where PHP passes `null`; the trail and the manage link are the same for both, but the argument the search sees differs.
