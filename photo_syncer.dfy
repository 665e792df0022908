/** The asynchronous OneDrive to Google Photos transfer tool: the folder
    listing, the batch orchestrator, the download loop and the upload
    generator; the album resolver and sync_photos are in PhotoSync. Every
    HTTP and SDK call is replaced by the answer it gave, supplied as a
    parameter, and the files, remote deletions and pauses the run causes
    are the fields of an Environment object. */
module PhotoSyncer {
  import opened Wrappers
  import opened Text
  import opened Albums
  import CreationTime

  const MaxBatchSize: nat := 20
  const TransfersFolder: string := "transfers"

  /** One entry of the folder listing. The download URL only feeds the GET
      request, whose answer is supplied separately. */
  datatype RemoteItem = RemoteItem(id: string, name: string, createdDateTime: string)

  // ----- list_files_from_onedrive -----------------------------------------

  /** The listing for a response status and the response's 'value' entry (if
      any); every status but 200 and 404 raises, carrying the status. */
  function ListFiles(status: int, value: Option<seq<RemoteItem>>): (r: Result<seq<RemoteItem>, int>)
    ensures r.Failure? <==> status != 200 && status != 404
    ensures r.Failure? ==> r.error == status
    ensures r.Success? && status == 200 && value.Some? ==> r.value == value.value
    ensures r.Success? && (status == 404 || value.None?) ==> r.value == []
  {
    if status == 200 then Success(value.GetOr([]))
    else if status == 404 then Success([])
    else Failure(status)
  }

  // ----- slicing into batches ----------------------------------------------

  function Flatten<T>(ss: seq<seq<T>>): seq<T> {
    if ss == [] then [] else ss[0] + Flatten(ss[1..])
  }

  /** The number of batches `range(0, n, size)` produces: one per started
      run of MaxBatchSize files. */
  function SliceCount(n: nat): nat {
    if n == 0 then 0 else 1 + SliceCount(n - Min(n, MaxBatchSize))
  }

  /** files[i:i+20] for i in range(0, len(files), 20). */
  function Slices<T>(s: seq<T>): (r: seq<seq<T>>)
    ensures Flatten(r) == s
    ensures forall k :: 0 <= k < |r| ==> 0 < |r[k]| <= MaxBatchSize
    ensures forall k :: 0 <= k < |r| - 1 ==> |r[k]| == MaxBatchSize
    ensures |r| == SliceCount(|s|)
    decreases |s|
  {
    if s == [] then []
    else if |s| <= MaxBatchSize then
      assert Flatten([s]) == s + Flatten<T>([]);
      [s]
    else
      var rest := Slices(s[MaxBatchSize..]);
      var r := [s[..MaxBatchSize]] + rest;
      assert r[0] == s[..MaxBatchSize] && r[1..] == rest;
      assert s == s[..MaxBatchSize] + s[MaxBatchSize..];
      r
  }

  /** The batch total in the log line, -(-n // 20) with Python's floor
      division, is the number of batches the loop runs. */
  lemma {:induction false} BatchCountMatchesLog(n: nat)
    ensures -((-(n as int)) / (MaxBatchSize as int)) == SliceCount(n)
    decreases n
  {
    var m: int := n;
    if m > 20 {
      BatchCountMatchesLog(n - 20);
      assert (-m) / 20 == (-(m - 20)) / 20 - 1;
    } else if m > 0 {
      assert (-m) / 20 == -1;
    }
  }

  // ----- routing by suffix ---------------------------------------------------

  datatype Route = Transfer | Purge | Leave

  /** The suffix rule of the download loop: names ending ".png" in any case
      are downloaded, names ending ".xjr" are deleted from the source
      without a download, anything else is left alone. */
  function RouteOf(name: string): (r: Route)
    ensures r == Transfer <==> EndsWith(Lower(name), ".png")
    ensures r == Purge <==> EndsWith(Lower(name), ".xjr")
  {
    if EndsWith(Lower(name), ".png") then Transfer
    else if EndsWith(Lower(name), ".xjr") then Purge
    else Leave
  }

  lemma LowerIdempotent(s: string)
    ensures Lower(Lower(s)) == Lower(s)
  {
  }

  /** Routing ignores letter case: a name and its lower-cased form (and so
      "IMG.PNG" and "img.png") take the same route. */
  lemma RouteIgnoresCase(a: string, b: string)
    requires Lower(a) == Lower(b)
    ensures RouteOf(a) == RouteOf(b)
    ensures RouteOf(a) == RouteOf(Lower(a))
  {
    LowerIdempotent(a);
  }

  // ----- local paths and media item names -------------------------------------

  /** os.path.join(TRANSFERS_FOLDER, name) on a POSIX system. */
  function LocalPath(name: string): string {
    if |name| > 0 && name[0] == '/' then name else TransfersFolder + "/" + name
  }

  /** Index of the last occurrence of c in s. */
  function LastIndexOf(s: string, c: char): (r: Option<nat>)
    ensures r.Some? ==> r.value < |s| && s[r.value] == c && forall i :: r.value < i < |s| ==> s[i] != c
    ensures r.None? ==> forall i :: 0 <= i < |s| ==> s[i] != c
  {
    if s == [] then None
    else if s[|s| - 1] == c then Some(|s| - 1)
    else LastIndexOf(s[..|s| - 1], c)
  }

  /** os.path.basename: the text after the last '/'. */
  function BaseName(p: string): (r: string)
    ensures '/' !in r
  {
    match LastIndexOf(p, '/')
    case None => p
    case Some(i) => p[i + 1..]
  }

  /** os.path.splitext(b)[0] for a name without '/': the text before the last
      '.', unless that dot is preceded only by dots (".png" stays ".png"). */
  function StripExtension(b: string): string {
    match LastIndexOf(b, '.')
    case None => b
    case Some(i) => if exists j :: 0 <= j < i && b[j] != '.' then b[..i] else b
  }

  /** The 'fileName' sent with an upload token. */
  function MediaFileName(path: string): string { StripExtension(BaseName(path)) }

  /** For a listed name without '/', the media item is named after the stem:
      the name without its last extension. */
  lemma MediaFileNameOfStem(stem: string, ext: string)
    requires '/' !in stem && '/' !in ext && '.' !in ext
    requires exists j :: 0 <= j < |stem| && stem[j] != '.'
    ensures MediaFileName(LocalPath(stem + "." + ext)) == stem
  {
    var name := stem + "." + ext;
    var j :| 0 <= j < |stem| && stem[j] != '.';
    assert name[0] == stem[0];
    var p := TransfersFolder + "/" + name;
    assert LocalPath(name) == p;
    assert p[|TransfersFolder|] == '/';
    assert forall i :: |TransfersFolder| < i < |p| ==> p[i] == name[i - |TransfersFolder| - 1];
    assert BaseName(p) == name by {
      var k := LastIndexOf(p, '/');
      assert k.Some? && k.value == |TransfersFolder|;
      assert p[k.value + 1..] == name;
    }
    var d := LastIndexOf(name, '.');
    assert name[|stem|] == '.';
    assert d == Some(|stem|);
    assert name[j] != '.';
    assert name[..|stem|] == stem;
  }

  /** A name without any dot is sent unchanged. */
  lemma MediaFileNameWithoutDot(name: string)
    requires '/' !in name && '.' !in name && name != []
    ensures MediaFileName(LocalPath(name)) == name
  {
    var p := TransfersFolder + "/" + name;
    assert LocalPath(name) == p;
    assert forall i :: |TransfersFolder| < i < |p| ==> p[i] == name[i - |TransfersFolder| - 1];
    var k := LastIndexOf(p, '/');
    assert p[|TransfersFolder|] == '/';
    assert k.Some? && k.value == |TransfersFolder|;
    assert p[k.value + 1..] == name;
  }

  // ----- upload_to_google_photos: tokens and results -------------------------

  /** What resize_image and upload_single_file gave for one file: an
      exception or a non-200 answer (UploadFailed), or the response text. */
  datatype UploadOutcome = UploadFailed | UploadReturned(body: string)

  /** `if upload_token:` - an empty response text is falsy and counts as no token. */
  function TokenOf(u: UploadOutcome): Option<string> {
    if u.UploadReturned? && u.body != "" then Some(u.body) else None
  }

  datatype Tokened = Tokened(path: string, token: string)
  datatype MediaItemRequest = MediaItemRequest(uploadToken: string, fileName: string)

  /** One value the upload generator yields. */
  datatype UploadResult = UploadResult(path: string, success: bool)

  /** One entry of 'newMediaItemResults': with a 'mediaItem' (which may lack
      its 'filename' key) or without one. */
  datatype CreateEntry = WithMediaItem(hasFilename: bool) | WithoutMediaItem

  /** The answer to mediaItems.batchCreate: an exception, or the list of
      results ('newMediaItemResults', [] when absent). */
  datatype CreateOutcome = CreateRaised | CreateReturned(entries: seq<CreateEntry>)

  /** The upload_tokens list of one batch: the files that got a token, in order. */
  function Tokens(paths: seq<string>, uploads: seq<UploadOutcome>): (r: seq<Tokened>)
    requires |paths| == |uploads|
    ensures |r| <= |paths|
    decreases |paths|
  {
    if paths == [] then []
    else
      var n := |paths| - 1;
      Tokens(paths[..n], uploads[..n]) +
        (match TokenOf(uploads[n]) case Some(t) => [Tokened(paths[n], t)] case None => [])
  }

  /** The new_media_items of the batchCreate body. */
  function MediaItems(ts: seq<Tokened>): seq<MediaItemRequest> {
    seq(|ts|, k requires 0 <= k < |ts| => MediaItemRequest(ts[k].token, MediaFileName(ts[k].path)))
  }

  /** What the except branch yields: False for every tokened file. */
  function AllFailed(ts: seq<Tokened>): seq<UploadResult> {
    seq(|ts|, k requires 0 <= k < |ts| => UploadResult(ts[k].path, false))
  }

  /** The yields of `for (file_path, _), result in zip(upload_tokens, results)`
      from position k on. A media item without 'filename' raises KeyError
      inside the loop; the yields already made stand, and the except branch
      then yields False for every tokened file of the batch. */
  function ZipResults(ts: seq<Tokened>, k: nat, es: seq<CreateEntry>): seq<UploadResult>
    requires k <= |ts|
    decreases |ts| - k
  {
    if k == |ts| || k >= |es| then []
    else
      match es[k]
      case WithoutMediaItem => [UploadResult(ts[k].path, false)] + ZipResults(ts, k + 1, es)
      case WithMediaItem(named) =>
        if named then [UploadResult(ts[k].path, true)] + ZipResults(ts, k + 1, es)
        else AllFailed(ts)
  }

  /** The yields of one batch's create step. */
  function ConfirmResults(ts: seq<Tokened>, create: CreateOutcome): seq<UploadResult> {
    match create
    case CreateRaised => AllFailed(ts)
    case CreateReturned(es) => ZipResults(ts, 0, es)
  }

  /** No entry before position n raises KeyError. */
  predicate NamedUpTo(es: seq<CreateEntry>, n: int) {
    forall k :: 0 <= k < n && k < |es| ==> es[k] != WithMediaItem(false)
  }

  function Min(a: int, b: int): int { if a <= b then a else b }

  lemma {:induction false} ZipResultsPositional(ts: seq<Tokened>, k: nat, es: seq<CreateEntry>)
    requires k <= |ts| && NamedUpTo(es, |ts|)
    ensures |ZipResults(ts, k, es)| == if k >= |es| then 0 else Min(|ts|, |es|) - k
    ensures forall j :: 0 <= j < |ZipResults(ts, k, es)| ==>
              ZipResults(ts, k, es)[j] == UploadResult(ts[k + j].path, es[k + j].WithMediaItem?)
    decreases |ts| - k
  {
    if k < |ts| && k < |es| {
      ZipResultsPositional(ts, k + 1, es);
    }
  }

  lemma {:induction false} ZipResultsRaise(ts: seq<Tokened>, k: nat, es: seq<CreateEntry>, j: nat)
    requires k <= j < |ts| && j < |es| && es[j] == WithMediaItem(false) && NamedUpTo(es, j)
    ensures ZipResults(ts, k, es) == ZipResults(ts[..j], k, es) + AllFailed(ts)
    decreases j - k
  {
    if k < j {
      ZipResultsRaise(ts, k + 1, es, j);
      assert ts[..j][k] == ts[k];
    }
  }

  /** Result generation. With batchCreate raising, every tokened file yields
      False. Otherwise, while no media item lacks its filename, the i-th
      yield belongs to the i-th tokened file and is True exactly when the
      i-th entry has a 'mediaItem', and there are as many yields as the
      shorter of the two lists. A media item without filename at position j
      yields the first j results and then False for every tokened file. */
  lemma ConfirmResultsShape(ts: seq<Tokened>, create: CreateOutcome)
    ensures create.CreateRaised? ==> ConfirmResults(ts, create) == AllFailed(ts)
    ensures create.CreateReturned? && NamedUpTo(create.entries, |ts|) ==>
              var r := ConfirmResults(ts, create);
              && |r| == Min(|ts|, |create.entries|)
              && forall i :: 0 <= i < |r| ==> r[i] == UploadResult(ts[i].path, create.entries[i].WithMediaItem?)
    ensures forall j :: (create.CreateReturned? && 0 <= j < |ts| && j < |create.entries| &&
                         create.entries[j] == WithMediaItem(false) && NamedUpTo(create.entries, j)) ==>
              ConfirmResults(ts, create) == ZipResults(ts[..j], 0, create.entries) + AllFailed(ts)
  {
    if create.CreateReturned? {
      if NamedUpTo(create.entries, |ts|) {
        ZipResultsPositional(ts, 0, create.entries);
      }
      forall j | 0 <= j < |ts| && j < |create.entries| &&
                 create.entries[j] == WithMediaItem(false) && NamedUpTo(create.entries, j)
        ensures ConfirmResults(ts, create) == ZipResults(ts[..j], 0, create.entries) + AllFailed(ts)
      {
        ZipResultsRaise(ts, 0, create.entries, j);
      }
    }
  }

  /** upload_to_google_photos over all its batches: each batch's tokens are
      confirmed with that batch's create answer. */
  function UploadResults(paths: seq<string>, uploads: seq<UploadOutcome>, creates: seq<CreateOutcome>): seq<UploadResult>
    requires |paths| == |uploads| && |creates| >= SliceCount(|paths|)
    decreases |paths|
  {
    if paths == [] then []
    else
      var e := Min(|paths|, MaxBatchSize);
      ConfirmResults(Tokens(paths[..e], uploads[..e]), creates[0]) +
        UploadResults(paths[e..], uploads[e..], creates[1..])
  }

  /** The batchCreate bodies sent: one per batch that has tokens. */
  function CreateRequests(paths: seq<string>, uploads: seq<UploadOutcome>): seq<seq<MediaItemRequest>>
    requires |paths| == |uploads|
    decreases |paths|
  {
    if paths == [] then []
    else
      var e := Min(|paths|, MaxBatchSize);
      var ts := Tokens(paths[..e], uploads[..e]);
      (if ts == [] then [] else [MediaItems(ts)]) + CreateRequests(paths[e..], uploads[e..])
  }

  lemma TokensStep(paths: seq<string>, uploads: seq<UploadOutcome>, i: nat, j: nat)
    requires |paths| == |uploads| && i <= j < |paths|
    ensures Tokens(paths[i..j + 1], uploads[i..j + 1]) ==
              Tokens(paths[i..j], uploads[i..j]) +
              (match TokenOf(uploads[j]) case Some(t) => [Tokened(paths[j], t)] case None => [])
  {
    var ps, us := paths[i..j + 1], uploads[i..j + 1];
    assert ps[..j - i] == paths[i..j] && ps[j - i] == paths[j];
    assert us[..j - i] == uploads[i..j] && us[j - i] == uploads[j];
  }

  /** The upload_tokens list of the batch paths[i..end]. */
  method BatchTokens(paths: seq<string>, uploads: seq<UploadOutcome>, i: nat, end: nat)
    returns (tokens: seq<Tokened>)
    requires |paths| == |uploads| && i <= end <= |paths|
    ensures tokens == Tokens(paths[i..end], uploads[i..end])
  {
    tokens := [];
    var j := i;
    while j < end
      invariant i <= j <= end
      invariant tokens == Tokens(paths[i..j], uploads[i..j])
    {
      TokensStep(paths, uploads, i, j);
      var t := TokenOf(uploads[j]);
      if t.Some? {
        tokens := tokens + [Tokened(paths[j], t.value)];
      }
      j := j + 1;
    }
  }

  /** Unfolding SliceCount, UploadResults and CreateRequests by one batch. */
  lemma SliceCountStep(n: nat, i: nat)
    requires i < n
    ensures SliceCount(n - i) == 1 + SliceCount(n - Min(i + MaxBatchSize, n))
  {
  }

  lemma UploadResultsStep(paths: seq<string>, uploads: seq<UploadOutcome>, creates: seq<CreateOutcome>, i: nat, k: nat)
    requires |paths| == |uploads| && i < |paths| && k < |creates|
    requires SliceCount(|paths| - i) <= |creates| - k
    ensures var end := Min(i + MaxBatchSize, |paths|);
            SliceCount(|paths| - end) <= |creates| - (k + 1) &&
            UploadResults(paths[i..], uploads[i..], creates[k..]) ==
              ConfirmResults(Tokens(paths[i..end], uploads[i..end]), creates[k]) +
              UploadResults(paths[end..], uploads[end..], creates[k + 1..])
  {
    var end := Min(i + MaxBatchSize, |paths|);
    SliceCountStep(|paths|, i);
    var ps, us, cs := paths[i..], uploads[i..], creates[k..];
    assert ps[..end - i] == paths[i..end] && us[..end - i] == uploads[i..end];
    assert ps[end - i..] == paths[end..] && us[end - i..] == uploads[end..];
    assert cs[0] == creates[k] && cs[1..] == creates[k + 1..];
  }

  lemma CreateRequestsStep(paths: seq<string>, uploads: seq<UploadOutcome>, i: nat)
    requires |paths| == |uploads| && i < |paths|
    ensures var end := Min(i + MaxBatchSize, |paths|);
            var ts := Tokens(paths[i..end], uploads[i..end]);
            CreateRequests(paths[i..], uploads[i..]) ==
              (if ts == [] then [] else [MediaItems(ts)]) + CreateRequests(paths[end..], uploads[end..])
  {
    var end := Min(i + MaxBatchSize, |paths|);
    var ps, us := paths[i..], uploads[i..];
    assert ps[..end - i] == paths[i..end] && us[..end - i] == uploads[i..end];
    assert ps[end - i..] == paths[end..] && us[end - i..] == uploads[end..];
  }

  /** No tokens in a batch: the generator yields nothing for it. */
  lemma ConfirmNothing(create: CreateOutcome)
    ensures ConfirmResults([], create) == []
  {
  }

  /** upload_to_google_photos as the loop it is; the yields are collected
      into a list, and the pauses between batches are counted. */
  method UploadToGooglePhotos(paths: seq<string>, uploads: seq<UploadOutcome>, creates: seq<CreateOutcome>)
    returns (results: seq<UploadResult>, requests: seq<seq<MediaItemRequest>>, sleeps: nat)
    requires |paths| == |uploads| && |creates| >= SliceCount(|paths|)
    ensures results == UploadResults(paths, uploads, creates)
    ensures requests == CreateRequests(paths, uploads)
    ensures sleeps == SliceCount(|paths|)
  {
    results, requests, sleeps := [], [], 0;
    var i, k := 0, 0;
    while i < |paths|
      invariant 0 <= i <= |paths| && k <= |creates|
      invariant SliceCount(|paths| - i) <= |creates| - k
      invariant SliceCount(|paths|) == k + SliceCount(|paths| - i)
      invariant results + UploadResults(paths[i..], uploads[i..], creates[k..]) == UploadResults(paths, uploads, creates)
      invariant requests + CreateRequests(paths[i..], uploads[i..]) == CreateRequests(paths, uploads)
      invariant sleeps == k
    {
      var end := Min(i + MaxBatchSize, |paths|);
      var yielded, sent := UploadBatch(paths, uploads, i, end, creates[k]);
      SliceCountStep(|paths|, i);
      UploadResultsStep(paths, uploads, creates, i, k);
      CreateRequestsStep(paths, uploads, i);
      AppendAssoc(results, yielded, UploadResults(paths[end..], uploads[end..], creates[k + 1..]));
      AppendAssoc(requests, sent, CreateRequests(paths[end..], uploads[end..]));
      results, requests := results + yielded, requests + sent;
      sleeps := sleeps + 1;
      i, k := end, k + 1;
    }
  }

  lemma AppendAssoc<T>(a: seq<T>, b: seq<T>, c: seq<T>)
    ensures a + (b + c) == (a + b) + c
  {
  }

  /** One batch of the generator: the tokens of paths[i..end], the
      batchCreate body sent when there are any, and the yields. */
  method UploadBatch(paths: seq<string>, uploads: seq<UploadOutcome>, i: nat, end: nat, create: CreateOutcome)
    returns (yielded: seq<UploadResult>, sent: seq<seq<MediaItemRequest>>)
    requires |paths| == |uploads| && i <= end <= |paths|
    ensures var ts := Tokens(paths[i..end], uploads[i..end]);
            yielded == ConfirmResults(ts, create) && sent == (if ts == [] then [] else [MediaItems(ts)])
  {
    var tokens := BatchTokens(paths, uploads, i, end);
    if tokens != [] {
      sent := [MediaItems(tokens)];
      yielded := ConfirmResults(tokens, create);
    } else {
      ConfirmNothing(create);
      sent, yielded := [], [];
    }
  }

  // ----- process_files_in_batches ------------------------------------------

  /** The answers one file of a batch gets: whether the GET of its content
      succeeded, and how its resize and upload ended. */
  datatype ItemOracle = ItemOracle(fetchOk: bool, upload: UploadOutcome)

  /** The answers for one batch: one per listed file, and the batchCreate answer. */
  datatype BatchOracle = BatchOracle(items: seq<ItemOracle>, create: CreateOutcome)

  /** An entry of downloaded_files, with the upload answer its file will get. */
  datatype Downloaded = Downloaded(item: RemoteItem, path: string, upload: UploadOutcome)

  /** download_file returns the path when the GET succeeded and the
      creation time parsed; the content is written before the parse. */
  predicate DownloadSucceeds(item: RemoteItem, o: ItemOracle) {
    o.fetchOk && CreationTime.Parse(item.createdDateTime).Some?
  }

  /** The per-file decisions of the download loop: a ".png" whose download
      returned a path is kept in downloaded_files, a ".xjr" is deleted, and
      a ".png" whose GET succeeded has its content written. */
  predicate KeepsItem(item: RemoteItem, o: ItemOracle) {
    RouteOf(item.name) == Transfer && DownloadSucceeds(item, o)
  }

  predicate WritesItem(item: RemoteItem, o: ItemOracle) {
    RouteOf(item.name) == Transfer && o.fetchOk
  }

  /** downloaded_files after the download loop over a batch. */
  function DownloadedFiles(batch: seq<RemoteItem>, os: seq<ItemOracle>): (r: seq<Downloaded>)
    requires |batch| == |os|
    ensures |r| <= |batch|
    decreases |batch|
  {
    if batch == [] then []
    else
      var n := |batch| - 1;
      DownloadedFiles(batch[..n], os[..n]) +
        (if KeepsItem(batch[n], os[n]) then [Downloaded(batch[n], LocalPath(batch[n].name), os[n].upload)] else [])
  }

  /** Ids deleted during the download loop: the ".xjr" files, in order. */
  function PurgedIds(batch: seq<RemoteItem>): seq<string>
    decreases |batch|
  {
    if batch == [] then []
    else
      var n := |batch| - 1;
      PurgedIds(batch[..n]) + (if RouteOf(batch[n].name) == Purge then [batch[n].id] else [])
  }

  /** Local files the download loop writes: every ".png" whose GET succeeded,
      whether or not its creation time then parses. */
  function WrittenPaths(batch: seq<RemoteItem>, os: seq<ItemOracle>): set<string>
    requires |batch| == |os|
    decreases |batch|
  {
    if batch == [] then {}
    else
      var n := |batch| - 1;
      WrittenPaths(batch[..n], os[..n]) + (if WritesItem(batch[n], os[n]) then {LocalPath(batch[n].name)} else {})
  }

  /** The decisions as flags, one per position. */
  function KeptFlags(batch: seq<RemoteItem>, os: seq<ItemOracle>): (r: seq<bool>)
    requires |batch| == |os|
    ensures |r| == |batch|
  {
    seq(|batch|, i requires 0 <= i < |batch| => KeepsItem(batch[i], os[i]))
  }

  function PurgedFlags(batch: seq<RemoteItem>): (r: seq<bool>)
    ensures |r| == |batch|
  {
    seq(|batch|, i requires 0 <= i < |batch| => RouteOf(batch[i].name) == Purge)
  }

  /** The downloaded_files entries of the flagged positions, in order. */
  function Collected(batch: seq<RemoteItem>, os: seq<ItemOracle>, kept: seq<bool>): (r: seq<Downloaded>)
    requires |batch| == |os| == |kept|
    decreases |batch|
  {
    if batch == [] then []
    else
      var n := |batch| - 1;
      Collected(batch[..n], os[..n], kept[..n]) +
        (if kept[n] then [Downloaded(batch[n], LocalPath(batch[n].name), os[n].upload)] else [])
  }

  /** The ids of the flagged positions, in order. */
  function IdsWhere(batch: seq<RemoteItem>, flags: seq<bool>): seq<string>
    requires |batch| == |flags|
    decreases |batch|
  {
    if batch == [] then []
    else
      var n := |batch| - 1;
      IdsWhere(batch[..n], flags[..n]) + (if flags[n] then [batch[n].id] else [])
  }

  function PathsOf(dl: seq<Downloaded>): (r: seq<string>)
    ensures |r| == |dl| && forall k :: 0 <= k < |dl| ==> r[k] == dl[k].path
  {
    seq(|dl|, k requires 0 <= k < |dl| => dl[k].path)
  }

  function UploadsOf(dl: seq<Downloaded>): (r: seq<UploadOutcome>)
    ensures |r| == |dl| && forall k :: 0 <= k < |dl| ==> r[k] == dl[k].upload
  {
    seq(|dl|, k requires 0 <= k < |dl| => dl[k].upload)
  }

  predicate FitsBatch(batch: seq<RemoteItem>, o: BatchOracle) {
    |o.items| == |batch| <= MaxBatchSize
  }

  lemma SliceCountAtMostOne(n: nat)
    requires n <= MaxBatchSize
    ensures SliceCount(n) <= 1
  {
  }

  /** upload_results for a batch: the yields of the generator over the
      downloaded paths, which fit in one upload batch. */
  function DlResults(dl: seq<Downloaded>, create: CreateOutcome): seq<UploadResult>
    requires |dl| <= MaxBatchSize
  {
    SliceCountAtMostOne(|dl|);
    UploadResults(PathsOf(dl), UploadsOf(dl), [create])
  }

  /** A batch's downloads make a single upload batch. */
  lemma DlResultsOneBatch(dl: seq<Downloaded>, create: CreateOutcome)
    requires |dl| <= MaxBatchSize
    ensures DlResults(dl, create) == ConfirmResults(Tokens(PathsOf(dl), UploadsOf(dl)), create)
  {
    var paths, uploads := PathsOf(dl), UploadsOf(dl);
    SliceCountAtMostOne(|dl|);
    if dl != [] {
      var e := Min(|paths|, MaxBatchSize);
      assert e == |paths|;
      assert paths[..e] == paths && uploads[..e] == uploads;
      assert paths[e..] == [] && uploads[e..] == [];
      assert [create][0] == create && [create][1..] == [];
      assert UploadResults(paths, uploads, [create]) ==
             ConfirmResults(Tokens(paths, uploads), create) + UploadResults([], [], []);
    }
  }

  function BatchResults(batch: seq<RemoteItem>, o: BatchOracle): seq<UploadResult>
    requires FitsBatch(batch, o)
  {
    DlResults(DownloadedFiles(batch, o.items), o.create)
  }

  /** The source deletes of `zip(downloaded_files, upload_results)` over the
      first n pairs: the file at position k is deleted when the k-th yield
      is True, whichever file that yield was about. */
  function PairedDeletes(dl: seq<Downloaded>, rs: seq<UploadResult>, n: nat): seq<string>
    requires n <= |dl| && n <= |rs|
  {
    if n == 0 then []
    else PairedDeletes(dl, rs, n - 1) + (if rs[n - 1].success then [dl[n - 1].item.id] else [])
  }

  /** The local files the same zip removes: those of the first n downloads. */
  function PairedRemovals(dl: seq<Downloaded>, n: nat): set<string>
    requires n <= |dl|
  {
    if n == 0 then {} else PairedRemovals(dl, n - 1) + {dl[n - 1].path}
  }

  /** The observable state of a run: the DELETE requests sent to OneDrive
      (item ids, in order), the files in the local transfers folder, the
      batchCreate bodies sent, and the pauses taken between upload batches. */
  datatype EnvState = EnvState(deletes: seq<string>, local: set<string>,
                               creates: seq<seq<MediaItemRequest>>, pauses: nat)

  /** The effect of a batch once its download loop is over: the ids the
      loop deleted, the files it wrote, and the downloaded files that go on
      to the upload and the clean-up loop. */
  function DlEffect(st: EnvState, purged: seq<string>, written: set<string>, dl: seq<Downloaded>, create: CreateOutcome): EnvState
    requires |dl| <= MaxBatchSize
  {
    var rs := DlResults(dl, create);
    var n := Min(|dl|, |rs|);
    EnvState(st.deletes + purged + PairedDeletes(dl, rs, n),
             (st.local + written) - PairedRemovals(dl, n),
             st.creates + CreateRequests(PathsOf(dl), UploadsOf(dl)),
             st.pauses + SliceCount(|dl|))
  }

  /** What process_files_in_batches does to the environment for one batch. */
  function BatchEffect(st: EnvState, batch: seq<RemoteItem>, o: BatchOracle): EnvState
    requires FitsBatch(batch, o)
  {
    DlEffect(st, PurgedIds(batch), WrittenPaths(batch, o.items), DownloadedFiles(batch, o.items), o.create)
  }

  predicate BatchesFit(slices: seq<seq<RemoteItem>>, os: seq<BatchOracle>) {
    |slices| == |os| && forall k :: 0 <= k < |slices| ==> FitsBatch(slices[k], os[k])
  }

  /** process_files_in_batches over a sequence of batches. */
  function RunEffect(st: EnvState, slices: seq<seq<RemoteItem>>, os: seq<BatchOracle>): EnvState
    requires BatchesFit(slices, os)
    decreases |slices|
  {
    if slices == [] then st
    else RunEffect(BatchEffect(st, slices[0], os[0]), slices[1..], os[1..])
  }

  lemma PrefixStep(batch: seq<RemoteItem>, os: seq<ItemOracle>, j: nat)
    requires |os| == |batch| && j < |batch|
    ensures DownloadedFiles(batch[..j + 1], os[..j + 1]) == DownloadedFiles(batch[..j], os[..j]) +
              (if KeepsItem(batch[j], os[j]) then [Downloaded(batch[j], LocalPath(batch[j].name), os[j].upload)] else [])
    ensures PurgedIds(batch[..j + 1]) == PurgedIds(batch[..j]) +
              (if RouteOf(batch[j].name) == Purge then [batch[j].id] else [])
    ensures WrittenPaths(batch[..j + 1], os[..j + 1]) == WrittenPaths(batch[..j], os[..j]) +
              (if WritesItem(batch[j], os[j]) then {LocalPath(batch[j].name)} else {})
  {
    assert batch[..j + 1][..j] == batch[..j] && os[..j + 1][..j] == os[..j];
    assert batch[..j + 1][j] == batch[j] && os[..j + 1][j] == os[j];
  }

  lemma SlicesStep<T>(s: seq<T>, i: nat)
    requires i < |s|
    ensures Slices(s[i..]) == [s[i..Min(i + MaxBatchSize, |s|)]] + Slices(s[Min(i + MaxBatchSize, |s|)..])
  {
    var end := Min(i + MaxBatchSize, |s|);
    if |s| - i <= MaxBatchSize {
      assert s[i..] == s[i..end];
      assert s[end..] == [];
    } else {
      assert s[i..][..MaxBatchSize] == s[i..end];
      assert s[i..][MaxBatchSize..] == s[end..];
    }
  }

  // ----- what a batch can and cannot do ------------------------------------

  /** A file gets a token exactly when its upload answered with a non-empty text. */
  lemma {:induction false} TokensMembers(paths: seq<string>, uploads: seq<UploadOutcome>)
    requires |paths| == |uploads|
    ensures forall t :: t in Tokens(paths, uploads) <==>
              exists i :: 0 <= i < |paths| && paths[i] == t.path && TokenOf(uploads[i]) == Some(t.token)
    decreases |paths|
  {
    if paths != [] {
      var n := |paths| - 1;
      TokensMembers(paths[..n], uploads[..n]);
      forall t: Tokened | exists i :: 0 <= i < |paths| && paths[i] == t.path && TokenOf(uploads[i]) == Some(t.token)
        ensures t in Tokens(paths, uploads)
      {
        var i :| 0 <= i < |paths| && paths[i] == t.path && TokenOf(uploads[i]) == Some(t.token);
        if i < n {
          assert paths[..n][i] == paths[i] && uploads[..n][i] == uploads[i];
        }
      }
    }
  }

  /** Every yield of a batch is about a file that got a token. */
  lemma {:induction false} ZipResultsPaths(ts: seq<Tokened>, k: nat, es: seq<CreateEntry>)
    requires k <= |ts|
    ensures forall r :: r in ZipResults(ts, k, es) ==> exists t :: t in ts && t.path == r.path
    decreases |ts| - k
  {
    if k < |ts| && k < |es| {
      ZipResultsPaths(ts, k + 1, es);
    }
  }

  lemma ConfirmResultsPaths(ts: seq<Tokened>, create: CreateOutcome)
    ensures forall r :: r in ConfirmResults(ts, create) ==> exists t :: t in ts && t.path == r.path
  {
    ZipResultsPaths(ts, 0, if create.CreateReturned? then create.entries else []);
  }

  /** Only files that obtained a token produce a result: a file whose resize
      or upload failed, or returned an empty text, yields nothing unless
      another tokened file has the same path. */
  lemma ResultsOnlyTokened(dl: seq<Downloaded>, create: CreateOutcome, r: UploadResult)
    requires |dl| <= MaxBatchSize && r in DlResults(dl, create)
    ensures exists d :: d in dl && d.path == r.path && TokenOf(d.upload).Some?
  {
    var paths, uploads := PathsOf(dl), UploadsOf(dl);
    DlResultsOneBatch(dl, create);
    TokensMembers(paths, uploads);
    ConfirmResultsPaths(Tokens(paths, uploads), create);
    var t :| t in Tokens(paths, uploads) && t.path == r.path;
    var i :| 0 <= i < |paths| && paths[i] == t.path && TokenOf(uploads[i]) == Some(t.token);
    assert dl[i] in dl;
  }

  lemma {:induction false} IdsWhereMembers(batch: seq<RemoteItem>, flags: seq<bool>)
    requires |batch| == |flags|
    ensures forall id :: id in IdsWhere(batch, flags) <==>
              exists i :: 0 <= i < |batch| && flags[i] && batch[i].id == id
    decreases |batch|
  {
    if batch != [] {
      var n := |batch| - 1;
      IdsWhereMembers(batch[..n], flags[..n]);
      assert forall i :: 0 <= i < n ==> batch[..n][i] == batch[i] && flags[..n][i] == flags[i];
    }
  }

  lemma {:induction false} PurgedFlagsCollect(batch: seq<RemoteItem>)
    ensures PurgedIds(batch) == IdsWhere(batch, PurgedFlags(batch))
    decreases |batch|
  {
    if batch != [] {
      var n := |batch| - 1;
      PurgedFlagsCollect(batch[..n]);
      assert PurgedFlags(batch)[..n] == PurgedFlags(batch[..n]);
    }
  }

  /** The ids the download loop deletes are exactly those of the ".xjr" files. */
  lemma PurgedIdsMembers(batch: seq<RemoteItem>)
    ensures forall id :: id in PurgedIds(batch) <==>
              exists i :: 0 <= i < |batch| && PurgedFlags(batch)[i] && batch[i].id == id
    ensures forall i :: 0 <= i < |batch| ==> PurgedFlags(batch)[i] == (RouteOf(batch[i].name) == Purge)
  {
    PurgedFlagsCollect(batch);
    IdsWhereMembers(batch, PurgedFlags(batch));
  }

  lemma {:induction false} CollectedMembers(batch: seq<RemoteItem>, os: seq<ItemOracle>, kept: seq<bool>)
    requires |batch| == |os| == |kept|
    ensures forall d :: d in Collected(batch, os, kept) <==>
              exists i :: 0 <= i < |batch| && kept[i] && d == Downloaded(batch[i], LocalPath(batch[i].name), os[i].upload)
    decreases |batch|
  {
    if batch != [] {
      var n := |batch| - 1;
      CollectedMembers(batch[..n], os[..n], kept[..n]);
      assert forall i :: 0 <= i < n ==> batch[..n][i] == batch[i] && os[..n][i] == os[i] && kept[..n][i] == kept[i];
    }
  }

  lemma {:induction false} KeptFlagsCollect(batch: seq<RemoteItem>, os: seq<ItemOracle>)
    requires |batch| == |os|
    ensures DownloadedFiles(batch, os) == Collected(batch, os, KeptFlags(batch, os))
    decreases |batch|
  {
    if batch != [] {
      var n := |batch| - 1;
      KeptFlagsCollect(batch[..n], os[..n]);
      assert KeptFlags(batch, os)[..n] == KeptFlags(batch[..n], os[..n]);
    }
  }

  /** An entry of downloaded_files stands for a ".png" of the batch whose
      download returned a path, and every such file has one. */
  lemma DownloadedFilesMembers(batch: seq<RemoteItem>, os: seq<ItemOracle>)
    requires |batch| == |os|
    ensures forall d :: d in DownloadedFiles(batch, os) <==>
              exists i :: 0 <= i < |batch| && KeptFlags(batch, os)[i] &&
                          d == Downloaded(batch[i], LocalPath(batch[i].name), os[i].upload)
    ensures forall i :: 0 <= i < |batch| ==> KeptFlags(batch, os)[i] == KeepsItem(batch[i], os[i])
  {
    KeptFlagsCollect(batch, os);
    CollectedMembers(batch, os, KeptFlags(batch, os));
  }

  lemma {:induction false} PairedDeletesMembers(dl: seq<Downloaded>, rs: seq<UploadResult>, n: nat)
    requires n <= |dl| && n <= |rs|
    ensures forall id :: id in PairedDeletes(dl, rs, n) <==>
              exists k :: 0 <= k < n && rs[k].success && dl[k].item.id == id
  {
    if n > 0 {
      PairedDeletesMembers(dl, rs, n - 1);
    }
  }

  lemma {:induction false} PairedRemovalsMembers(dl: seq<Downloaded>, n: nat)
    requires n <= |dl|
    ensures forall p :: p in PairedRemovals(dl, n) <==> exists k :: 0 <= k < n && dl[k].path == p
  {
    if n > 0 {
      PairedRemovalsMembers(dl, n - 1);
    }
  }

  /** Suffix routing, as far as the source drive sees it: every ".xjr" file
      of the batch is deleted, and every id a batch deletes belongs to a
      ".png" or ".xjr" file of that batch; a ".png" is deleted only through
      a pair whose flag is True. */
  lemma BatchDeletesRouted(st: EnvState, batch: seq<RemoteItem>, o: BatchOracle)
    requires FitsBatch(batch, o)
    ensures var after := BatchEffect(st, batch, o);
            && |after.deletes| >= |st.deletes| && after.deletes[..|st.deletes|] == st.deletes
            && (forall i :: 0 <= i < |batch| && RouteOf(batch[i].name) == Purge ==>
                  batch[i].id in after.deletes[|st.deletes|..])
            && (forall id :: id in after.deletes[|st.deletes|..] ==>
                  exists i :: 0 <= i < |batch| && batch[i].id == id && RouteOf(batch[i].name) != Leave)
  {
    var dl := DownloadedFiles(batch, o.items);
    var after := BatchEffect(st, batch, o);
    DlDeletesOrigin(st, PurgedIds(batch), WrittenPaths(batch, o.items), dl, o.create);
    PurgedIdsMembers(batch);
    DownloadedFromBatch(batch, o.items);
    forall id | id in after.deletes[|st.deletes|..]
      ensures exists i :: 0 <= i < |batch| && batch[i].id == id && RouteOf(batch[i].name) != Leave
    {
      if id !in PurgedIds(batch) {
        var k :| 0 <= k < |dl| && dl[k].item.id == id;
        assert dl[k] in dl;
      }
    }
  }

  /** The deletions of a batch after its download loop: the old ones are
      kept in front, then come the loop's own, then ids of downloaded files. */
  lemma DlDeletesOrigin(st: EnvState, purged: seq<string>, written: set<string>, dl: seq<Downloaded>, create: CreateOutcome)
    requires |dl| <= MaxBatchSize
    ensures var after := DlEffect(st, purged, written, dl, create);
            && |after.deletes| >= |st.deletes| && after.deletes[..|st.deletes|] == st.deletes
            && (forall id :: id in purged ==> id in after.deletes[|st.deletes|..])
            && (forall id :: id in after.deletes[|st.deletes|..] ==>
                  id in purged || exists k :: 0 <= k < |dl| && dl[k].item.id == id)
  {
    var rs := DlResults(dl, create);
    var n := Min(|dl|, |rs|);
    var after := DlEffect(st, purged, written, dl, create);
    var added := purged + PairedDeletes(dl, rs, n);
    AppendAssoc(st.deletes, purged, PairedDeletes(dl, rs, n));
    assert after.deletes[|st.deletes|..] == added;
    PairedDeletesMembers(dl, rs, n);
  }

  /** Every downloaded entry is a ".png" file of the batch. */
  lemma {:induction false} DownloadedFromBatch(batch: seq<RemoteItem>, os: seq<ItemOracle>)
    requires |batch| == |os|
    ensures forall d :: d in DownloadedFiles(batch, os) ==> d.item in batch && RouteOf(d.item.name) == Transfer
    decreases |batch|
  {
    if batch != [] {
      var n := |batch| - 1;
      DownloadedFromBatch(batch[..n], os[..n]);
      assert forall x :: x in batch[..n] ==> x in batch;
    }
  }

  /** A file left alone by the suffix rule is not fetched, not written and,
      unless it shares its id with a routed file, not deleted. */
  lemma LeftAloneUntouched(st: EnvState, batch: seq<RemoteItem>, o: BatchOracle, i: nat)
    requires FitsBatch(batch, o) && i < |batch| && RouteOf(batch[i].name) == Leave
    requires forall j :: 0 <= j < |batch| && RouteOf(batch[j].name) != Leave ==> batch[j].id != batch[i].id
    ensures batch[i].id !in BatchEffect(st, batch, o).deletes[|st.deletes|..]
    ensures forall d :: d in DownloadedFiles(batch, o.items) ==> d.item != batch[i]
  {
    BatchDeletesRouted(st, batch, o);
    DownloadedFilesMembers(batch, o.items);
  }

  /** A ".png" whose content was written but whose creation time does not
      parse stays in the local folder. */
  lemma BadTimestampLeavesFile(st: EnvState, item: RemoteItem, o: BatchOracle)
    requires FitsBatch([item], o) && RouteOf(item.name) == Transfer
    requires o.items[0].fetchOk && CreationTime.Parse(item.createdDateTime).None?
    ensures LocalPath(item.name) in BatchEffect(st, [item], o).local
  {
    assert [item][..0] == [] && o.items[..0] == [];
    assert DownloadedFiles([item], o.items) == [];
    assert PairedRemovals([], 0) == {};
  }

  /** Tokens of a batch in which every upload answered with a token. */
  lemma {:induction false} TokensAllTokened(paths: seq<string>, uploads: seq<UploadOutcome>)
    requires |paths| == |uploads| && forall k :: 0 <= k < |uploads| ==> TokenOf(uploads[k]).Some?
    ensures |Tokens(paths, uploads)| == |paths|
    ensures forall k :: 0 <= k < |paths| ==> Tokens(paths, uploads)[k].path == paths[k]
    decreases |paths|
  {
    if paths != [] {
      var n := |paths| - 1;
      TokensAllTokened(paths[..n], uploads[..n]);
    }
  }

  /** When every downloaded file got a token and no media item lacks its
      filename, the positional pairing is right: the k-th flag is about the
      k-th downloaded file, a source file is deleted exactly when its own
      create entry has a 'mediaItem', and every downloaded file is removed.
      (With fewer create entries than tokens, the pairing stops early.) */
  lemma AlignedPairing(dl: seq<Downloaded>, create: CreateOutcome)
    requires |dl| <= MaxBatchSize
    requires forall d :: d in dl ==> TokenOf(d.upload).Some?
    requires create.CreateRaised? || (|create.entries| >= |dl| && NamedUpTo(create.entries, |dl|))
    ensures var rs := DlResults(dl, create);
            && |rs| == |dl|
            && (forall k :: 0 <= k < |dl| ==>
                  rs[k].path == dl[k].path &&
                  (rs[k].success <==> create.CreateReturned? && create.entries[k].WithMediaItem?))
            && PairedRemovals(dl, |dl|) == set d | d in dl :: d.path
  {
    var paths, uploads := PathsOf(dl), UploadsOf(dl);
    assert forall k :: 0 <= k < |uploads| ==> TokenOf(uploads[k]).Some? by {
      forall k | 0 <= k < |uploads| ensures TokenOf(uploads[k]).Some? {
        assert dl[k] in dl;
      }
    }
    TokensAllTokened(paths, uploads);
    ConfirmResultsShape(Tokens(paths, uploads), create);
    DlResultsOneBatch(dl, create);
    AllPairedRemoved(dl);
  }

  lemma AllPairedRemoved(dl: seq<Downloaded>)
    ensures PairedRemovals(dl, |dl|) == set d | d in dl :: d.path
  {
    PairedRemovalsMembers(dl, |dl|);
    forall p | p in set d | d in dl :: d.path
      ensures p in PairedRemovals(dl, |dl|)
    {
      var d :| d in dl && d.path == p;
      var k :| 0 <= k < |dl| && dl[k] == d;
    }
  }

  // ----- the positional pairing, and pairing by path ------------------------

  /** The two-file batch of the misalignment: both are ".png" files whose
      download succeeds; the first upload fails, the second returns a token,
      and batchCreate confirms the one media item it was sent. */
  predicate MisalignedBatch(a: RemoteItem, b: RemoteItem, o: BatchOracle) {
    && RouteOf(a.name) == Transfer && RouteOf(b.name) == Transfer
    && CreationTime.Parse(a.createdDateTime).Some? && CreationTime.Parse(b.createdDateTime).Some?
    && LocalPath(a.name) != LocalPath(b.name)
    && |o.items| == 2 && o.items[0] == ItemOracle(true, UploadFailed)
    && o.items[1].fetchOk && o.items[1].upload.UploadReturned? && o.items[1].upload.body != ""
    && o.create == CreateReturned([WithMediaItem(true)])
  }

  lemma PairDownloads(a: RemoteItem, b: RemoteItem, o: BatchOracle)
    requires MisalignedBatch(a, b, o)
    ensures DownloadedFiles([a, b], o.items) ==
              [Downloaded(a, LocalPath(a.name), o.items[0].upload), Downloaded(b, LocalPath(b.name), o.items[1].upload)]
    ensures PurgedIds([a, b]) == []
    ensures WrittenPaths([a, b], o.items) == {LocalPath(a.name), LocalPath(b.name)}
  {
    PairKept(a, b, o);
    PairWritten(a, b, o);
    var batch := [a, b];
    assert batch[..1] == [a] && batch[..1][..0] == [];
    assert PurgedIds(batch[..1]) == [];
  }

  lemma PairKept(a: RemoteItem, b: RemoteItem, o: BatchOracle)
    requires MisalignedBatch(a, b, o)
    ensures DownloadedFiles([a, b], o.items) ==
              [Downloaded(a, LocalPath(a.name), o.items[0].upload), Downloaded(b, LocalPath(b.name), o.items[1].upload)]
  {
    var batch := [a, b];
    assert KeepsItem(a, o.items[0]) && KeepsItem(b, o.items[1]);
    assert batch[..1] == [a] && o.items[..1] == [o.items[0]];
    assert batch[..1][..0] == [] && o.items[..1][..0] == [];
    assert DownloadedFiles(batch[..1], o.items[..1]) == [Downloaded(a, LocalPath(a.name), o.items[0].upload)];
  }

  lemma PairWritten(a: RemoteItem, b: RemoteItem, o: BatchOracle)
    requires MisalignedBatch(a, b, o)
    ensures WrittenPaths([a, b], o.items) == {LocalPath(a.name), LocalPath(b.name)}
  {
    var batch := [a, b];
    assert WritesItem(a, o.items[0]) && WritesItem(b, o.items[1]);
    assert batch[..1] == [a] && o.items[..1] == [o.items[0]];
    assert batch[..1][..0] == [] && o.items[..1][..0] == [];
    assert WrittenPaths(batch[..1], o.items[..1]) == {LocalPath(a.name)};
  }

  lemma PairTokens(pa: string, pb: string, tb: string)
    requires tb != ""
    ensures Tokens([pa, pb], [UploadFailed, UploadReturned(tb)]) == [Tokened(pb, tb)]
  {
    var paths, uploads := [pa, pb], [UploadFailed, UploadReturned(tb)];
    assert paths[..1] == [pa] && uploads[..1] == [UploadFailed];
    assert paths[..1][..0] == [] && uploads[..1][..0] == [];
  }

  lemma PairConfirm(pb: string, tb: string)
    ensures ConfirmResults([Tokened(pb, tb)], CreateReturned([WithMediaItem(true)])) == [UploadResult(pb, true)]
  {
    assert ZipResults([Tokened(pb, tb)], 1, [WithMediaItem(true)]) == [];
  }

  lemma PairResultsOf(da: Downloaded, db: Downloaded, create: CreateOutcome)
    requires da.upload == UploadFailed && db.upload.UploadReturned? && db.upload.body != ""
    requires create == CreateReturned([WithMediaItem(true)])
    ensures DlResults([da, db], create) == [UploadResult(db.path, true)]
  {
    var dl := [da, db];
    DlResultsOneBatch(dl, create);
    assert PathsOf(dl) == [da.path, db.path];
    assert UploadsOf(dl) == [UploadFailed, UploadReturned(db.upload.body)];
    PairTokens(da.path, db.path, db.upload.body);
    PairConfirm(db.path, db.upload.body);
  }

  lemma MisalignedDlEffect(st: EnvState, da: Downloaded, db: Downloaded, create: CreateOutcome)
    requires da.upload == UploadFailed && db.upload.UploadReturned? && db.upload.body != ""
    requires create == CreateReturned([WithMediaItem(true)]) && da.path != db.path
    ensures var after := DlEffect(st, [], {da.path, db.path}, [da, db], create);
            && after.deletes == st.deletes + [da.item.id]
            && db.path in after.local && da.path !in after.local
  {
    PairResultsOf(da, db, create);
    assert PairedDeletes([da, db], [UploadResult(db.path, true)], 1) == [da.item.id];
    assert PairedRemovals([da, db], 1) == {da.path};
    assert st.deletes + [] == st.deletes;
  }

  lemma MisalignedPairingDeletesUnuploaded(st: EnvState, a: RemoteItem, b: RemoteItem, o: BatchOracle)
    requires MisalignedBatch(a, b, o)
    ensures var after := BatchEffect(st, [a, b], o);
            && after.deletes == st.deletes + [a.id]
            && LocalPath(b.name) in after.local
            && LocalPath(a.name) !in after.local
  {
    PairDownloads(a, b, o);
    MisalignedDlEffect(st, Downloaded(a, LocalPath(a.name), o.items[0].upload),
                       Downloaded(b, LocalPath(b.name), o.items[1].upload), o.create);
  }

  /** The first downloaded entry for a path. */
  function FindByPath(dl: seq<Downloaded>, path: string): (r: Option<Downloaded>)
    ensures r.Some? ==> r.value in dl && r.value.path == path
    ensures r.None? ==> forall d :: d in dl ==> d.path != path
  {
    if dl == [] then None
    else if dl[0].path == path then Some(dl[0])
    else FindByPath(dl[1..], path)
  }

  /** The intended clean-up: each result is matched to the downloaded file
      it names, instead of to the file at the same position. */
  function PathPairedDeletes(dl: seq<Downloaded>, rs: seq<UploadResult>): seq<string>
    decreases |rs|
  {
    if rs == [] then []
    else
      var n := |rs| - 1;
      var m := FindByPath(dl, rs[n].path);
      PathPairedDeletes(dl, rs[..n]) + (if rs[n].success && m.Some? then [m.value.item.id] else [])
  }

  /** Pairing by path deletes a source file only when a True result names
      its own local path. */
  lemma {:induction false} PathPairingDeletesOnlyConfirmed(dl: seq<Downloaded>, rs: seq<UploadResult>)
    ensures forall id :: id in PathPairedDeletes(dl, rs) ==>
              exists d, j :: d in dl && 0 <= j < |rs| && d.item.id == id && rs[j] == UploadResult(d.path, true)
    decreases |rs|
  {
    if rs != [] {
      var n := |rs| - 1;
      PathPairingDeletesOnlyConfirmed(dl, rs[..n]);
      forall id | id in PathPairedDeletes(dl, rs)
        ensures exists d, j :: d in dl && 0 <= j < |rs| && d.item.id == id && rs[j] == UploadResult(d.path, true)
      {
        if id in PathPairedDeletes(dl, rs[..n]) {
          var d, j :| d in dl && 0 <= j < n && d.item.id == id && rs[..n][j] == UploadResult(d.path, true);
          assert rs[j] == rs[..n][j];
        } else {
          var m := FindByPath(dl, rs[n].path);
          assert m.Some? && m.value.item.id == id && rs[n] == UploadResult(m.value.path, true);
        }
      }
    }
  }

  /** Pairing by path deletes every file a True result names. */
  lemma {:induction false} PathPairingDeletesAllConfirmed(dl: seq<Downloaded>, rs: seq<UploadResult>)
    ensures forall j :: 0 <= j < |rs| && rs[j].success && FindByPath(dl, rs[j].path).Some? ==>
              FindByPath(dl, rs[j].path).value.item.id in PathPairedDeletes(dl, rs)
    decreases |rs|
  {
    if rs != [] {
      var n := |rs| - 1;
      PathPairingDeletesAllConfirmed(dl, rs[..n]);
      assert forall j :: 0 <= j < n ==> rs[..n][j] == rs[j];
    }
  }

  /** A batch cleaned up by path: the ".xjr" deletes, the deletes of the
      confirmed files, and the removal of every downloaded file. */
  function CorrectedDlEffect(st: EnvState, purged: seq<string>, written: set<string>, dl: seq<Downloaded>, create: CreateOutcome): EnvState
    requires |dl| <= MaxBatchSize
  {
    var rs := DlResults(dl, create);
    EnvState(st.deletes + purged + PathPairedDeletes(dl, rs),
             (st.local + written) - (set d | d in dl :: d.path),
             st.creates + CreateRequests(PathsOf(dl), UploadsOf(dl)),
             st.pauses + SliceCount(|dl|))
  }

  function CorrectedBatchEffect(st: EnvState, batch: seq<RemoteItem>, o: BatchOracle): EnvState
    requires FitsBatch(batch, o)
  {
    CorrectedDlEffect(st, PurgedIds(batch), WrittenPaths(batch, o.items), DownloadedFiles(batch, o.items), o.create)
  }

  lemma CorrectedBatchDeletesOnlyUploaded(st: EnvState, batch: seq<RemoteItem>, o: BatchOracle)
    requires FitsBatch(batch, o)
    ensures var after := CorrectedBatchEffect(st, batch, o);
            var dl := DownloadedFiles(batch, o.items);
            && (forall id :: id in after.deletes && id !in st.deletes && id !in PurgedIds(batch) ==>
                  exists d :: d in dl && d.item.id == id && UploadResult(d.path, true) in BatchResults(batch, o))
            && (forall d :: d in dl ==> d.path !in after.local)
  {
    var dl := DownloadedFiles(batch, o.items);
    var rs := BatchResults(batch, o);
    PathPairingDeletesOnlyConfirmed(dl, rs);
    forall id | id in PathPairedDeletes(dl, rs)
      ensures exists d :: d in dl && d.item.id == id && UploadResult(d.path, true) in rs
    {
      var d, j :| d in dl && 0 <= j < |rs| && d.item.id == id && rs[j] == UploadResult(d.path, true);
    }
  }

  lemma PathPairedTwo(da: Downloaded, db: Downloaded)
    requires da.path != db.path
    ensures PathPairedDeletes([da, db], [UploadResult(db.path, true)]) == [db.item.id]
  {
    assert [da, db][1..] == [db];
    assert FindByPath([da, db], db.path) == Some(db);
    assert [UploadResult(db.path, true)][..0] == [];
  }

  /** The same two-file batch as in MisalignedPairingDeletesUnuploaded,
      cleaned up by path: the confirmed second file is the one deleted, and
      both local files are removed. */
  lemma PathPairedDlEffect(st: EnvState, da: Downloaded, db: Downloaded, create: CreateOutcome)
    requires da.upload == UploadFailed && db.upload.UploadReturned? && db.upload.body != ""
    requires create == CreateReturned([WithMediaItem(true)]) && da.path != db.path
    ensures var after := CorrectedDlEffect(st, [], {da.path, db.path}, [da, db], create);
            && after.deletes == st.deletes + [db.item.id]
            && da.path !in after.local && db.path !in after.local
  {
    PairResultsOf(da, db, create);
    PathPairedTwo(da, db);
    assert st.deletes + [] == st.deletes;
    assert (set d | d in [da, db] :: d.path) == {da.path, db.path};
  }

  lemma PathPairingFixesMisalignment(st: EnvState, a: RemoteItem, b: RemoteItem, o: BatchOracle)
    requires MisalignedBatch(a, b, o)
    ensures var after := CorrectedBatchEffect(st, [a, b], o);
            && after.deletes == st.deletes + [b.id]
            && LocalPath(a.name) !in after.local && LocalPath(b.name) !in after.local
  {
    PairDownloads(a, b, o);
    PathPairedDlEffect(st, Downloaded(a, LocalPath(a.name), o.items[0].upload),
                       Downloaded(b, LocalPath(b.name), o.items[1].upload), o.create);
  }

  /** The local folder, the OneDrive drive and the Google Photos library, as
      far as the transfer can observe and change them. */
  class Environment {
    var deleteRequests: seq<string>
    var localFiles: set<string>
    var createRequests: seq<seq<MediaItemRequest>>
    var pauses: nat

    function State(): EnvState
      reads this
    {
      EnvState(deleteRequests, localFiles, createRequests, pauses)
    }

    constructor (files: set<string>)
      ensures State() == EnvState([], files, [], 0)
    {
      deleteRequests, localFiles, createRequests, pauses := [], files, [], 0;
    }

    /** delete_file_from_onedrive: the DELETE is sent; a status other than
        204 is only logged, so the call always returns normally. */
    method DeleteFromOneDrive(item: RemoteItem)
      modifies this
      ensures State() == old(State()).(deletes := old(deleteRequests) + [item.id])
    {
      deleteRequests := deleteRequests + [item.id];
    }

    /** download_file: the content is written when the GET succeeds; the path
        is returned only when the creation time also parses. Tagging the EXIF
        time afterwards swallows its own errors, so it cannot change the
        outcome. */
    method DownloadFile(item: RemoteItem, fetchOk: bool) returns (path: Option<string>)
      modifies this
      ensures State() == old(State()).(local := old(localFiles) + (if fetchOk then {LocalPath(item.name)} else {}))
      ensures path == if DownloadSucceeds(item, ItemOracle(fetchOk, UploadFailed)) then Some(LocalPath(item.name)) else None
    {
      if !fetchOk {
        return None;
      }
      var filePath := LocalPath(item.name);
      localFiles := localFiles + {filePath};
      var created := CreationTime.Parse(item.createdDateTime);
      if created.None? {
        return None;
      }
      return Some(filePath);
    }

    /** One turn of the download loop. */
    method DownloadStep(item: RemoteItem, o: ItemOracle) returns (d: Option<Downloaded>)
      modifies this
      ensures d == if RouteOf(item.name) == Transfer && DownloadSucceeds(item, o)
                   then Some(Downloaded(item, LocalPath(item.name), o.upload)) else None
      ensures deleteRequests == old(deleteRequests) + (if RouteOf(item.name) == Purge then [item.id] else [])
      ensures localFiles == old(localFiles) +
                (if RouteOf(item.name) == Transfer && o.fetchOk then {LocalPath(item.name)} else {})
      ensures createRequests == old(createRequests) && pauses == old(pauses)
    {
      d := None;
      var route := RouteOf(item.name);
      if route == Transfer {
        var path := DownloadFile(item, o.fetchOk);
        if path.Some? {
          d := Some(Downloaded(item, path.value, o.upload));
        }
      } else if route == Purge {
        DeleteFromOneDrive(item);
      }
    }

    /** The download loop of one batch: ".png" files are fetched, ".xjr"
        files are deleted from the source, and the paths that downloaded
        are collected. */
    method DownloadBatch(batch: seq<RemoteItem>, os: seq<ItemOracle>) returns (dl: seq<Downloaded>)
      requires |os| == |batch|
      modifies this
      ensures dl == DownloadedFiles(batch, os)
      ensures State() == old(State()).(deletes := old(deleteRequests) + PurgedIds(batch),
                                       local := old(localFiles) + WrittenPaths(batch, os))
    {
      dl := [];
      var j := 0;
      while j < |batch|
        invariant 0 <= j <= |batch|
        invariant dl == DownloadedFiles(batch[..j], os[..j])
        invariant deleteRequests == old(deleteRequests) + PurgedIds(batch[..j])
        invariant localFiles == old(localFiles) + WrittenPaths(batch[..j], os[..j])
        invariant createRequests == old(createRequests) && pauses == old(pauses)
      {
        PrefixStep(batch, os, j);
        AppendAssoc(old(deleteRequests), PurgedIds(batch[..j]),
                    if RouteOf(batch[j].name) == Purge then [batch[j].id] else []);
        var d := DownloadStep(batch[j], os[j]);
        if d.Some? {
          dl := dl + [d.value];
        }
        j := j + 1;
      }
      assert batch[..|batch|] == batch && os[..|batch|] == os;
    }

    /** The clean-up loop: `zip(downloaded_files, upload_results)` deletes the
        source of each pair whose flag is True and removes each paired local
        file. */
    method CleanUp(dl: seq<Downloaded>, rs: seq<UploadResult>)
      modifies this
      ensures State() == old(State()).(deletes := old(deleteRequests) + PairedDeletes(dl, rs, Min(|dl|, |rs|)),
                                       local := old(localFiles) - PairedRemovals(dl, Min(|dl|, |rs|)))
    {
      var n := Min(|dl|, |rs|);
      var k := 0;
      while k < n
        invariant 0 <= k <= n
        invariant deleteRequests == old(deleteRequests) + PairedDeletes(dl, rs, k)
        invariant localFiles == old(localFiles) - PairedRemovals(dl, k)
        invariant createRequests == old(createRequests) && pauses == old(pauses)
      {
        if rs[k].success {
          DeleteFromOneDrive(dl[k].item);
        }
        if dl[k].path in localFiles {
          localFiles := localFiles - {dl[k].path};
        }
        k := k + 1;
      }
    }

    /** One iteration of process_files_in_batches: the download loop, the
        upload generator, and the positional clean-up loop. */
    method ProcessBatch(batch: seq<RemoteItem>, o: BatchOracle)
      requires FitsBatch(batch, o)
      modifies this
      ensures State() == BatchEffect(old(State()), batch, o)
    {
      var dl := DownloadBatch(batch, o.items);
      SliceCountAtMostOne(|dl|);
      var rs, reqs, sleeps := UploadToGooglePhotos(PathsOf(dl), UploadsOf(dl), [o.create]);
      createRequests := createRequests + reqs;
      pauses := pauses + sleeps;
      CleanUp(dl, rs);
    }

    /** process_files_in_batches: one ProcessBatch per slice of at most
        MaxBatchSize files, with that slice's answers. */
    method ProcessFilesInBatches(files: seq<RemoteItem>, oracles: seq<BatchOracle>)
      requires BatchesFit(Slices(files), oracles)
      modifies this
      ensures State() == RunEffect(old(State()), Slices(files), oracles)
    {
      var i, k := 0, 0;
      while i < |files|
        invariant 0 <= i <= |files| && 0 <= k <= |oracles|
        invariant BatchesFit(Slices(files[i..]), oracles[k..])
        invariant RunEffect(State(), Slices(files[i..]), oracles[k..]) == RunEffect(old(State()), Slices(files), oracles)
        decreases |files| - i
      {
        var end := Min(i + MaxBatchSize, |files|);
        SlicesStep(files, i);
        var batch := files[i..end];
        assert Slices(files[i..])[0] == batch && Slices(files[i..])[1..] == Slices(files[end..]);
        assert oracles[k..][0] == oracles[k] && oracles[k..][1..] == oracles[k + 1..];
        ProcessBatch(batch, oracles[k]);
        i, k := end, k + 1;
      }
      assert files[i..] == [];
    }
  }
}
