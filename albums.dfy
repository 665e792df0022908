/** Album entries of the photo-library API and the first-match search by
    title that both transfer tools run over them. */
module Albums {
  import opened Wrappers

  /** One entry of an albums.list page. An untitled album has no title key. */
  datatype Album = Album(id: string, title: Option<string>)

  /** How a first-match search ends: the id of the matching album, no match,
      or an exception (Raised): the KeyError that album['title'] raises on an
      untitled album met before any match, or a failed list request. */
  datatype TitleSearch = Found(id: string) | NoMatch | Raised

  /** `for album in albums: if album['title'] == title: return album['id']`. */
  function FirstTitleMatch(albums: seq<Album>, title: string): TitleSearch
  {
    if albums == [] then NoMatch
    else if albums[0].title.None? then Raised
    else if albums[0].title.value == title then Found(albums[0].id)
    else FirstTitleMatch(albums[1..], title)
  }

  /** Every album before index k has a title, and none of them is `title`. */
  ghost predicate PassedOver(albums: seq<Album>, title: string, k: int)
    requires 0 <= k <= |albums|
  {
    forall j :: 0 <= j < k ==> albums[j].title.Some? && albums[j].title.value != title
  }

  /** Index k holds the first album, in list order, titled exactly `title`. */
  ghost predicate FirstMatchAt(albums: seq<Album>, title: string, k: int) {
    0 <= k < |albums| && PassedOver(albums, title, k) && albums[k].title == Some(title)
  }

  /** The search finds `id` exactly when the first exact title match carries it. */
  lemma {:induction false} FirstTitleMatchFound(albums: seq<Album>, title: string, id: string)
    ensures FirstTitleMatch(albums, title) == Found(id) <==>
              exists k :: FirstMatchAt(albums, title, k) && albums[k].id == id
  {
    if albums != [] {
      FirstTitleMatchFound(albums[1..], title, id);
      if FirstTitleMatch(albums, title) == Found(id) {
        if albums[0].title != Some(title) {
          var k :| FirstMatchAt(albums[1..], title, k) && albums[1..][k].id == id;
          assert FirstMatchAt(albums, title, k + 1);
        } else {
          assert FirstMatchAt(albums, title, 0);
        }
      }
      if exists k :: FirstMatchAt(albums, title, k) && albums[k].id == id {
        var k :| FirstMatchAt(albums, title, k) && albums[k].id == id;
        if k > 0 {
          assert FirstMatchAt(albums[1..], title, k - 1);
        }
      }
    }
  }

  /** No match exactly when every album has a title and none equals `title`. */
  lemma {:induction false} FirstTitleMatchNone(albums: seq<Album>, title: string)
    ensures FirstTitleMatch(albums, title) == NoMatch <==> PassedOver(albums, title, |albums|)
  {
    if albums != [] {
      FirstTitleMatchNone(albums[1..], title);
      if PassedOver(albums, title, |albums|) {
        assert PassedOver(albums[1..], title, |albums| - 1);
      }
      if FirstTitleMatch(albums, title) == NoMatch {
        assert albums[0].title.Some? && albums[0].title.value != title;
        forall j | 0 <= j < |albums|
          ensures albums[j].title.Some? && albums[j].title.value != title
        {
          if j > 0 { assert albums[1..][j - 1] == albums[j]; }
        }
      }
    }
  }

  /** Searching a concatenation searches the first part, then the second. */
  lemma {:induction false} FirstTitleMatchAppend(a: seq<Album>, b: seq<Album>, title: string)
    ensures FirstTitleMatch(a + b, title) ==
              if FirstTitleMatch(a, title) == NoMatch then FirstTitleMatch(b, title)
              else FirstTitleMatch(a, title)
  {
    if a != [] {
      assert (a + b)[0] == a[0];
      assert (a + b)[1..] == a[1..] + b;
      FirstTitleMatchAppend(a[1..], b, title);
    } else {
      assert a + b == b;
    }
  }
}
