/**
 * The listing builder (`getlisting`): each remote document becomes either a
 * container entry or a file entry; containers come first, each group in input
 * order.
 */
module Classifier {
  import opened PhpStrings

  /** A remote document as the client library hands it over. */
  datatype Document = Document(
    docType: string,
    title: string,
    path: string,
    pictureFilename: string,
    props: map<string, string>)

  /** What the listing call received: a proper array of documents, or anything else. */
  datatype Payload = Docs(docs: seq<Document>) | NotAList

  /** A thumbnail: a plugin picture keyed by name, or the host's icon for a file extension at a size. */
  datatype Icon = PluginIcon(name: string) | ExtensionIcon(filename: string, size: nat)

  /** `strtotime` of a raw date property; the conversion belongs to the host runtime. */
  datatype Timestamp = Timestamp(raw: string)

  /** One entry of the listing handed to the file picker. */
  datatype Entry =
    | Dir(title: string, path: string, date: string, thumbnail: Icon,
          thumbnailHeight: nat, thumbnailWidth: nat, children: seq<Entry>)
    | File(title: string, source: string, size: string,
           dateCreated: Timestamp, dateModified: Timestamp, author: string,
           thumbnail: Icon, thumbnailHeight: nat, thumbnailWidth: nat)

  /** Thumbnail height and width, in pixels. */
  const ThumbnailSize: nat := 64

  /** `params['space']`: the types that always count as containers. */
  const SpaceTypes: seq<string> := ["UserWorkspace"]

  /** `getProperty`: a missing property reads as "". */
  function Property(d: Document, key: string): string {
    if key in d.props then d.props[key] else ""
  }

  /** The container test: the type is a configured container type or a space type. */
  predicate IsContainer(conteners: seq<string>, d: Document) {
    d.docType in conteners + SpaceTypes
  }

  /** The display type of a container. */
  function DisplayType(t: string): (r: string)
    ensures t == "UserWorkspace" ==> r == "Workspace"
    ensures t == "OrderedFolder" ==> r == "Folder"
    ensures t != "UserWorkspace" && t != "OrderedFolder" ==> r == t
  {
    if t == "UserWorkspace" then "Workspace"
    else if t == "OrderedFolder" then "Folder"
    else t
  }

  /** A picture is titled by its picture filename, or by its title when that is `empty()`. */
  function PictureTitle(d: Document): string {
    if PhpEmpty(d.pictureFilename) then d.title else d.pictureFilename
  }

  /** Any other file is titled by its `file:filename` property, or by its title when that is `empty()`. */
  function FileTitle(d: Document): string {
    var name := Property(d, "file:filename");
    if PhpEmpty(name) then d.title else name
  }

  /** The fields a content entry takes from the document, given its title and icon. */
  function ContentEntry(d: Document, title: string, icon: Icon): Entry {
    File(title, d.path, Property(d, "common:size"),
         Timestamp(Property(d, "dc:created")), Timestamp(Property(d, "dc:modified")),
         Property(d, "dc:creator"), icon, ThumbnailSize, ThumbnailSize)
  }

  /** The entry of one document; the container test comes before the `Picture` test. */
  function ToEntry(conteners: seq<string>, d: Document): (e: Entry)
    ensures e.Dir? <==> IsContainer(conteners, d)
    ensures e.Dir? ==>
              && e.title == d.title && e.path == d.path && e.children == []
              && e.thumbnail == PluginIcon(ToLower(DisplayType(d.docType)))
              && e.date == Property(d, "dc:created")
              && e.thumbnailHeight == ThumbnailSize && e.thumbnailWidth == ThumbnailSize
    ensures e.File? ==>
              && e.source == d.path && e.size == Property(d, "common:size")
              && e.dateCreated == Timestamp(Property(d, "dc:created"))
              && e.dateModified == Timestamp(Property(d, "dc:modified"))
              && e.author == Property(d, "dc:creator")
              && e.thumbnailHeight == ThumbnailSize && e.thumbnailWidth == ThumbnailSize
    ensures e.File? && d.docType == "Picture" ==> e.thumbnail == ExtensionIcon(".png", ThumbnailSize)
    ensures e.File? && d.docType == "Picture" ==>
              e.title == (if PhpEmpty(d.pictureFilename) then d.title else d.pictureFilename)
    ensures e.File? && d.docType != "Picture" ==>
              && e.title == (if PhpEmpty(Property(d, "file:filename")) then d.title else Property(d, "file:filename"))
              && e.thumbnail == ExtensionIcon(e.title, ThumbnailSize)
  {
    if IsContainer(conteners, d) then
      Dir(d.title, d.path, Property(d, "dc:created"),
          PluginIcon(ToLower(DisplayType(d.docType))), ThumbnailSize, ThumbnailSize, [])
    else if d.docType == "Picture" then
      ContentEntry(d, PictureTitle(d), ExtensionIcon(".png", ThumbnailSize))
    else
      var title := FileTitle(d);
      ContentEntry(d, title, ExtensionIcon(title, ThumbnailSize))
  }

  /** `$dirslist` after the loop: the entries of the containers, in input order. */
  function Dirs(conteners: seq<string>, docs: seq<Document>): seq<Entry> {
    if docs == [] then []
    else
      var last := docs[|docs| - 1];
      Dirs(conteners, docs[..|docs| - 1])
        + (if IsContainer(conteners, last) then [ToEntry(conteners, last)] else [])
  }

  /** `$fileslist` after the loop: the entries of the other documents, in input order. */
  function Files(conteners: seq<string>, docs: seq<Document>): seq<Entry> {
    if docs == [] then []
    else
      var last := docs[|docs| - 1];
      Files(conteners, docs[..|docs| - 1])
        + (if IsContainer(conteners, last) then [] else [ToEntry(conteners, last)])
  }

  /** What `getlisting` returns for a payload: containers, then files; nothing for a non-array. */
  function Entries(conteners: seq<string>, payload: Payload): seq<Entry> {
    match payload
    case NotAList => []
    case Docs(docs) => Dirs(conteners, docs) + Files(conteners, docs)
  }

  /** Every document's entry, in input order, before grouping. */
  function AllEntries(conteners: seq<string>, docs: seq<Document>): seq<Entry> {
    if docs == [] then []
    else AllEntries(conteners, docs[..|docs| - 1]) + [ToEntry(conteners, docs[|docs| - 1])]
  }

  /** AllEntries lists document k's entry at position k. */
  lemma {:induction false} AllEntriesAt(conteners: seq<string>, docs: seq<Document>)
    ensures |AllEntries(conteners, docs)| == |docs|
    ensures forall k :: 0 <= k < |docs| ==> AllEntries(conteners, docs)[k] == ToEntry(conteners, docs[k])
  {
    if docs != [] {
      AllEntriesAt(conteners, docs[..|docs| - 1]);
    }
  }

  /** `getlisting`: one pass that appends each document to the container list or the file list. */
  method GetListing(conteners: seq<string>, documents: Payload) returns (listing: seq<Entry>)
    ensures listing == Entries(conteners, documents)
  {
    listing := [];
    if documents.NotAList? {
      return;
    }
    var docs := documents.docs;
    var dirslist: seq<Entry> := [];
    var fileslist: seq<Entry> := [];
    for i := 0 to |docs|
      invariant dirslist == Dirs(conteners, docs[..i])
      invariant fileslist == Files(conteners, docs[..i])
    {
      var file := docs[i];
      assert docs[..i + 1][..i] == docs[..i];
      if IsContainer(conteners, file) {
        dirslist := dirslist + [ToEntry(conteners, file)];
      } else if file.docType == "Picture" {
        fileslist := fileslist + [ToEntry(conteners, file)];
      } else {
        fileslist := fileslist + [ToEntry(conteners, file)];
      }
    }
    assert docs[..|docs|] == docs;
    listing := dirslist + fileslist;
  }

  /** Dirs keeps exactly the container documents, as entries. */
  lemma {:induction false} DirsAreContainers(conteners: seq<string>, docs: seq<Document>)
    ensures forall e :: e in Dirs(conteners, docs) ==> e.Dir?
    ensures forall e :: e in Files(conteners, docs) ==> e.File?
  {
    if docs != [] {
      DirsAreContainers(conteners, docs[..|docs| - 1]);
    }
  }

  /** Grouping loses and duplicates nothing: the two groups together hold every document's entry. */
  lemma {:induction false} GroupsPartition(conteners: seq<string>, docs: seq<Document>)
    ensures |Dirs(conteners, docs)| + |Files(conteners, docs)| == |docs|
    ensures multiset(Dirs(conteners, docs)) + multiset(Files(conteners, docs))
              == multiset(AllEntries(conteners, docs))
  {
    if docs != [] {
      var init := docs[..|docs| - 1];
      var last := docs[|docs| - 1];
      var e := ToEntry(conteners, last);
      GroupsPartition(conteners, init);
      assert multiset(AllEntries(conteners, docs)) == multiset(AllEntries(conteners, init)) + multiset{e};
      if IsContainer(conteners, last) {
        assert Dirs(conteners, docs) == Dirs(conteners, init) + [e];
        assert Files(conteners, docs) == Files(conteners, init);
        assert multiset(Dirs(conteners, docs)) == multiset(Dirs(conteners, init)) + multiset{e};
      } else {
        assert Dirs(conteners, docs) == Dirs(conteners, init);
        assert Files(conteners, docs) == Files(conteners, init) + [e];
        assert multiset(Files(conteners, docs)) == multiset(Files(conteners, init)) + multiset{e};
      }
    }
  }

  /** The listing has one entry per document, every document's entry exactly once. */
  lemma ListingPartition(conteners: seq<string>, docs: seq<Document>)
    ensures |Entries(conteners, Docs(docs))| == |docs|
    ensures multiset(Entries(conteners, Docs(docs))) == multiset(AllEntries(conteners, docs))
  {
    GroupsPartition(conteners, docs);
  }

  /** Containers first: the first |Dirs| entries are containers, the rest are files. */
  lemma ListingContainersFirst(conteners: seq<string>, docs: seq<Document>)
    ensures var listing := Entries(conteners, Docs(docs));
      var n := |Dirs(conteners, docs)|;
      && (forall k :: 0 <= k < n ==> listing[k].Dir?)
      && (forall k :: n <= k < |listing| ==> listing[k].File?)
  {
    DirsAreContainers(conteners, docs);
    var listing := Entries(conteners, Docs(docs));
    var n := |Dirs(conteners, docs)|;
    forall k | 0 <= k < |listing| ensures k < n ==> listing[k].Dir? ensures n <= k ==> listing[k].File? {
      if k < n {
        assert listing[k] in Dirs(conteners, docs);
      } else {
        assert listing[k] in Files(conteners, docs);
      }
    }
  }

  /** Input order within each group: grouping a concatenation concatenates the groups. */
  lemma {:induction false} GroupsOfConcat(conteners: seq<string>, a: seq<Document>, b: seq<Document>)
    ensures Dirs(conteners, a + b) == Dirs(conteners, a) + Dirs(conteners, b)
    ensures Files(conteners, a + b) == Files(conteners, a) + Files(conteners, b)
    decreases |b|
  {
    if b == [] {
      assert a + b == a;
    } else {
      var init := b[..|b| - 1];
      GroupsOfConcat(conteners, a, init);
      assert (a + b)[..|a + b| - 1] == a + init;
      assert (a + b)[|a + b| - 1] == b[|b| - 1];
    }
  }

  lemma {:induction false} GroupsOfContainersOnly(conteners: seq<string>, docs: seq<Document>)
    requires forall k :: 0 <= k < |docs| ==> IsContainer(conteners, docs[k])
    ensures Dirs(conteners, docs) == AllEntries(conteners, docs)
    ensures Files(conteners, docs) == []
  {
    if docs != [] {
      var init := docs[..|docs| - 1];
      GroupsOfContainersOnly(conteners, init);
      assert IsContainer(conteners, docs[|docs| - 1]);
    }
  }

  /** A listing of containers only is their entries in input order. */
  lemma ListingOfContainersOnly(conteners: seq<string>, docs: seq<Document>)
    requires forall k :: 0 <= k < |docs| ==> IsContainer(conteners, docs[k])
    ensures Entries(conteners, Docs(docs)) == AllEntries(conteners, docs)
    ensures forall e :: e in Entries(conteners, Docs(docs)) ==> e.Dir?
  {
    GroupsOfContainersOnly(conteners, docs);
    assert Entries(conteners, Docs(docs)) == Dirs(conteners, docs) + [];
  }

  /** A user workspace lists as a container with the `workspace` icon. */
  lemma UserWorkspaceScenario(conteners: seq<string>, d: Document)
    requires d.docType == "UserWorkspace"
    ensures ToEntry(conteners, d).Dir?
    ensures ToEntry(conteners, d).thumbnail == PluginIcon("workspace")
  {
    assert ToLower("Workspace") == "workspace";
  }

  /** A configured ordered folder lists as a container with the `folder` icon. */
  lemma OrderedFolderScenario(conteners: seq<string>, d: Document)
    requires d.docType == "OrderedFolder" && "OrderedFolder" in conteners
    ensures ToEntry(conteners, d).Dir?
    ensures ToEntry(conteners, d).thumbnail == PluginIcon("folder")
  {
    assert ToLower("Folder") == "folder";
  }
}
