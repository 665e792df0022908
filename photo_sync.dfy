/** The entry points of the OneDrive to Google Photos transfer tool around
    the batch orchestrator: the album resolver, the whole sync run, and the
    token-cache write. */
module PhotoSync {
  import opened Wrappers
  import opened Albums
  import opened PhotoSyncer

  // ----- find_or_create_album ----------------------------------------------

  /** One answer of albums.list: an exception, or a page of albums (a page
      without an 'albums' key is an empty page). The sequence of pages is the
      one list_next walks through until it returns None. */
  datatype AlbumPage = PageRaised | Page(albums: seq<Album>)

  /** The answer of albums.create: an exception, or a body whose 'id' key
      may be missing. */
  datatype AlbumCreation = CreateAlbumRaised | CreatedAlbum(id: Option<string>)

  /** The page-by-page first-match search, stopping at the first page that
      raises or that holds a match. */
  function SearchPages(pages: seq<AlbumPage>, title: string): TitleSearch
  {
    if pages == [] then NoMatch
    else match pages[0]
      case PageRaised => Raised
      case Page(albums) =>
        var r := FirstTitleMatch(albums, title);
        if r == NoMatch then SearchPages(pages[1..], title) else r
  }

  predicate NoPageRaised(pages: seq<AlbumPage>) {
    forall k :: 0 <= k < |pages| ==> pages[k].Page?
  }

  /** All albums of the pages, in page order. */
  function AllAlbums(pages: seq<AlbumPage>): seq<Album>
    requires NoPageRaised(pages)
  {
    if pages == [] then [] else pages[0].albums + AllAlbums(pages[1..])
  }

  /** When no request raises, the page-by-page search is the first-match
      search over all the albums of all pages. */
  lemma {:induction false} SearchPagesFlat(pages: seq<AlbumPage>, title: string)
    requires NoPageRaised(pages)
    ensures SearchPages(pages, title) == FirstTitleMatch(AllAlbums(pages), title)
  {
    if pages != [] {
      assert pages[0].Page?;
      assert NoPageRaised(pages[1..]) by {
        forall k | 0 <= k < |pages| - 1 ensures pages[1..][k].Page? {
          assert pages[1..][k] == pages[k + 1];
        }
      }
      SearchPagesFlat(pages[1..], title);
      FirstTitleMatchAppend(pages[0].albums, AllAlbums(pages[1..]), title);
    }
  }

  /** Hence, with no failed request, the resolver finds `id` exactly when
      the first album titled `title` across the pages carries it. */
  lemma SearchPagesFound(pages: seq<AlbumPage>, title: string, id: string)
    requires NoPageRaised(pages)
    ensures SearchPages(pages, title) == Found(id) <==>
              exists k :: FirstMatchAt(AllAlbums(pages), title, k) && AllAlbums(pages)[k].id == id
  {
    SearchPagesFlat(pages, title);
    FirstTitleMatchFound(AllAlbums(pages), title, id);
  }

  /** The resolver's result once the search is over: the found id; None
      after an exception in the search, in the create call or in the share
      call; otherwise the created album's 'id', which may be absent. */
  function ResolvedAlbum(search: TitleSearch, creation: AlbumCreation, shareOk: bool): (r: Option<string>)
    ensures search.Found? ==> r == Some(search.id)
    ensures search.Raised? ==> r == None
    ensures search.NoMatch? ==> (r.Some? <==> creation.CreatedAlbum? && creation.id.Some? && shareOk)
    ensures search.NoMatch? && r.Some? ==> r == creation.id
  {
    match search
    case Found(id) => Some(id)
    case Raised => None
    case NoMatch =>
      if creation.CreateAlbumRaised? || !shareOk then None else creation.id
  }

  /** find_or_create_album: the pages are searched in order with an early
      return on the first exact title match; an untitled album met first
      raises (KeyError), which like any exception yields None; only when no
      page matched is an album created and shared. */
  method FindOrCreateAlbum(pages: seq<AlbumPage>, title: string, creation: AlbumCreation, shareOk: bool)
    returns (albumId: Option<string>, createCalled: bool)
    ensures albumId == ResolvedAlbum(SearchPages(pages, title), creation, shareOk)
    ensures createCalled <==> SearchPages(pages, title) == NoMatch
  {
    var p := 0;
    while p < |pages|
      invariant 0 <= p <= |pages|
      invariant SearchPages(pages, title) == SearchPages(pages[p..], title)
    {
      assert pages[p..][0] == pages[p] && pages[p..][1..] == pages[p + 1..];
      if pages[p].PageRaised? {
        return None, false;
      }
      var albums := pages[p].albums;
      var j := 0;
      while j < |albums|
        invariant 0 <= j <= |albums|
        invariant FirstTitleMatch(albums, title) == FirstTitleMatch(albums[j..], title)
      {
        assert albums[j..][0] == albums[j] && albums[j..][1..] == albums[j + 1..];
        if albums[j].title.None? {
          return None, false;
        }
        if albums[j].title.value == title {
          return Some(albums[j].id), false;
        }
        j := j + 1;
      }
      assert albums[j..] == [];
      p := p + 1;
    }
    assert pages[p..] == [];
    createCalled := true;
    if creation.CreateAlbumRaised? || !shareOk {
      return None, createCalled;
    }
    albumId := creation.id;
  }

  /** An album is created only after every album of every page was looked
      at and none of them is titled `title`. */
  lemma CreateOnlyWithoutMatch(pages: seq<AlbumPage>, title: string)
    requires SearchPages(pages, title) == NoMatch
    ensures NoPageRaised(pages) && PassedOver(AllAlbums(pages), title, |AllAlbums(pages)|)
  {
    NoMatchNoRaise(pages, title);
    SearchPagesFlat(pages, title);
    FirstTitleMatchNone(AllAlbums(pages), title);
  }

  lemma {:induction false} NoMatchNoRaise(pages: seq<AlbumPage>, title: string)
    requires SearchPages(pages, title) == NoMatch
    ensures NoPageRaised(pages)
  {
    if pages != [] {
      NoMatchNoRaise(pages[1..], title);
      forall k | 0 <= k < |pages| ensures pages[k].Page? {
        if k > 0 { assert pages[k] == pages[1..][k - 1]; }
      }
    }
  }

  // ----- sync_photos -------------------------------------------------------

  /** How a sync run ends. Every failure is an exception that sync_photos
      catches and logs. */
  datatype SyncOutcome = AuthFailed | NoAlbum | ListingFailed(status: int) | Synced

  /** `if not album_id` aborts on None and on the empty string. */
  predicate AlbumUsable(albumId: Option<string>) {
    albumId.Some? && albumId.value != ""
  }

  /** sync_photos: authenticate, resolve the album, list the transfers
      folder, then process the files in batches. `authOk` is false when
      either authentication raised. A run that fails before the batches
      leaves the environment as it was. */
  method SyncPhotos(env: Environment, authOk: bool, pages: seq<AlbumPage>, title: string,
                    creation: AlbumCreation, shareOk: bool,
                    status: int, value: Option<seq<RemoteItem>>, oracles: seq<BatchOracle>)
    returns (outcome: SyncOutcome)
    requires ListFiles(status, value).Success? ==> BatchesFit(Slices(ListFiles(status, value).value), oracles)
    modifies env
    ensures var album := ResolvedAlbum(SearchPages(pages, title), creation, shareOk);
            outcome == (if !authOk then AuthFailed
                        else if !AlbumUsable(album) then NoAlbum
                        else if ListFiles(status, value).Failure? then ListingFailed(status)
                        else Synced)
    ensures outcome == Synced ==>
              env.State() == RunEffect(old(env.State()), Slices(ListFiles(status, value).value), oracles)
    ensures outcome != Synced ==> env.State() == old(env.State())
  {
    if !authOk {
      return AuthFailed;
    }
    var albumId, _ := FindOrCreateAlbum(pages, title, creation, shareOk);
    if !AlbumUsable(albumId) {
      return NoAlbum;
    }
    var files := ListFiles(status, value);
    if files.Failure? {
      return ListingFailed(files.error);
    }
    env.ProcessFilesInBatches(files.value, oracles);
    outcome := Synced;
  }

  // ----- save_cache --------------------------------------------------------

  /** The OneDrive token-cache file, as an opaque text. */
  class CacheFile {
    var contents: string

    constructor (initial: string)
      ensures contents == initial
    {
      contents := initial;
    }

    /** save_cache: the cache is written only when its state changed. */
    method SaveCache(hasStateChanged: bool, serialized: string)
      modifies this
      ensures contents == if hasStateChanged then serialized else old(contents)
    {
      if hasStateChanged {
        contents := serialized;
      }
    }
  }
}
