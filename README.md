# Photo transfer, avatar crop and NAT gateway rules, modelled in Dafny

This project models a collection of personal automation scripts. Only the
decision logic is modelled. Every SDK or HTTP answer becomes an input (a
status code, a token or its absence, a per-position create result), and
every side effect becomes a state change that the methods spell out.

- **OneDrive → Google Photos batch transfer** (the asynchronous tool,
  `photo_syncer.dfy`, `photo_sync.dfy`, `albums.dfy`,
  `creation_time.dfy`). The listing is cut into slices of 20. Files are
  routed by their lower-cased suffix: `.png` is downloaded, EXIF-stamped,
  uploaded and deleted at the source; `.xjr` is deleted without a
  download; anything else is left alone. Upload tokens become
  batch-create requests, the create answer becomes a stream of
  `(path, success)` results, and a positional `zip` pairs those results
  back with the downloads, deleting source files and removing local
  copies. Also modelled: the album resolver (first exact title match
  across pages, else create and share), the listing status rule, the
  `%Y-%m-%dT%H:%M:%S.%fZ` parse, the EXIF `%Y:%m:%d %H:%M:%S` text, and
  the dirty check of the token cache.
- **The older synchronous tool** (`sync_tool.dfy`). It covers:
  - token validity and `expires_at` stamping;
  - the OneDrive sign-in precedence (cached token, then refresh token, then the device flow and its polling loop);
  - the Google sign-in decisions;
  - case-insensitive user matching and first-page album lookup;
  - `main`'s upload-the-PNGs-then-purge-everything rule.
- **SoundCloud banner measurer** (`measurer.dfy`, with JavaScript numbers
  in `js_number.dfy` and string helpers in `text.dfy`). It covers:
  - `takeFirst`, `keywordToPercent` and `parseLenOrPercent`;
  - CSS `background-size` (`cover`/`contain`/lengths/percentages/`auto`) and `background-position`;
  - `clampBox`;
  - the `url(...)` extractor and the `-t<w>x<h>.` size guess;
  - the mapping of the avatar's on-screen centre into the banner's natural pixels.
- **Avatar cropper** (`avatar_crop.dfy`): `clamp`, and the integer crop
  box built with Python's half-even `round`.
- **NAT gateway manager** (`nat_gateway.dfy`):
  - the "exactly one tagged match" selection of the VPC and the NAT subnet;
  - the route-table and gateway lookups;
  - the fixed step order of deletion (route → gateway → address) and creation (address → gateway → route);
  - how identifiers flow from each step to the next.
  Each EC2 request is an entry in the call log of a `Client` object.

Numbers follow the source languages, written out explicitly:
- Python floats are exact reals, and `round` is half-even.
- JavaScript numbers are `Fin(real)`, the two infinities and NaN, with the
  IEEE rules for the special values.
- `parseFloat` is a parameter.
- Strings are `seq<char>`.

## Model

| member | source | states |
|---|---|---|
| PhotoSyncer.ListFiles | storage/onedrive_to_google_photos/photo_syncer_standalone.py:129-151 | The listing fails with the status exactly when the status is neither 200 nor 404; 200 gives the response's `value` list (or [] when it is absent); 404 gives [] |
| PhotoSyncer.Slices | storage/onedrive_to_google_photos/photo_syncer_standalone.py:411-412 | The slices concatenate back to the listing in order; each holds 1 to 20 files, every slice but the last holds exactly 20, and there are SliceCount(n) of them |
| PhotoSyncer.BatchCountMatchesLog | storage/onedrive_to_google_photos/photo_syncer_standalone.py:413 | The logged batch total `-(-n//20)` (Python floor division) equals the number of batches the loop runs |
| PhotoSyncer.RouteOf | storage/onedrive_to_google_photos/photo_syncer_standalone.py:417-423 | A file is transferred exactly when its lower-cased name ends in ".png", purged exactly when it ends in ".xjr", and left alone otherwise |
| PhotoSyncer.LowerIdempotent | storage/onedrive_to_google_photos/photo_syncer_standalone.py:418 | Lower-casing a lower-cased name changes nothing |
| PhotoSyncer.RouteIgnoresCase | storage/onedrive_to_google_photos/photo_syncer_standalone.py:418-422 | Two names equal up to case take the same route, which is the route of the lower-cased name |
| PhotoSyncer.LastIndexOf | storage/onedrive_to_google_photos/photo_syncer_standalone.py:282 | The index found holds the character and no later index does; None means the character does not occur |
| PhotoSyncer.BaseName | storage/onedrive_to_google_photos/photo_syncer_standalone.py:282 | The basename contains no '/' |
| PhotoSyncer.MediaFileNameOfStem | storage/onedrive_to_google_photos/photo_syncer_standalone.py:282 | For a listed name stem.ext (no '/' in it, no '.' in ext, stem not all dots), the `fileName` sent with the token is the stem |
| PhotoSyncer.MediaFileNameWithoutDot | storage/onedrive_to_google_photos/photo_syncer_standalone.py:282 | A listed name without '.' or '/' is sent unchanged as the `fileName` |
| PhotoSyncer.Tokens | storage/onedrive_to_google_photos/photo_syncer_standalone.py:262-275 | A batch yields at most one upload token per file |
| PhotoSyncer.TokensMembers | storage/onedrive_to_google_photos/photo_syncer_standalone.py:264-275 | A (path, token) pair is in upload_tokens exactly when that file's upload answered with that non-empty text |
| PhotoSyncer.TokensAllTokened | storage/onedrive_to_google_photos/photo_syncer_standalone.py:264-275 | When every upload answers with a token, upload_tokens has one entry per file, in file order |
| PhotoSyncer.ZipResultsPositional | storage/onedrive_to_google_photos/photo_syncer_standalone.py:299-306 | With no media item missing its filename, the zip from position k yields the results from k up to the shorter list, each naming the tokened path at its position, True exactly when the entry there has a mediaItem |
| PhotoSyncer.ZipResultsRaise | storage/onedrive_to_google_photos/photo_syncer_standalone.py:299-311 | A media item without 'filename' at position j keeps the yields before j and then yields False for every tokened file of the batch |
| PhotoSyncer.ConfirmResultsShape | storage/onedrive_to_google_photos/photo_syncer_standalone.py:295-311 | A raising batchCreate yields False for every tokened file. Otherwise the i-th result is the i-th tokened path, with the flag of the i-th entry, up to the shorter list. A KeyError at j gives the prefix, then all False |
| PhotoSyncer.ConfirmNothing | storage/onedrive_to_google_photos/photo_syncer_standalone.py:277 | A batch without tokens yields nothing |
| PhotoSyncer.ZipResultsPaths | storage/onedrive_to_google_photos/photo_syncer_standalone.py:299-306 | Every result the zip yields names a tokened path |
| PhotoSyncer.ConfirmResultsPaths | storage/onedrive_to_google_photos/photo_syncer_standalone.py:299-311 | Every result of a batch, raising or not, names a tokened path |
| PhotoSyncer.ResultsOnlyTokened | storage/onedrive_to_google_photos/photo_syncer_standalone.py:264-311 | Every upload result names a downloaded file that obtained a token: files whose resize or upload failed yield nothing of their own |
| PhotoSyncer.BatchTokens | storage/onedrive_to_google_photos/photo_syncer_standalone.py:262-275 | The token loop over one batch builds exactly the upload_tokens list |
| PhotoSyncer.UploadBatch | storage/onedrive_to_google_photos/photo_syncer_standalone.py:260-311 | One batch sends a batchCreate body exactly when it has tokens, that body lists the tokens with their media file names, and its yields are the batch's confirmed results |
| PhotoSyncer.UploadToGooglePhotos | storage/onedrive_to_google_photos/photo_syncer_standalone.py:251-314 | The generator's yields are the per-batch results concatenated, the batchCreate bodies are one per batch with tokens, and it pauses once per batch |
| PhotoSyncer.DlResultsOneBatch | storage/onedrive_to_google_photos/photo_syncer_standalone.py:427-430 | The downloads of one listing slice (at most 20) form a single upload batch |
| PhotoSyncer.DownloadedFiles | storage/onedrive_to_google_photos/photo_syncer_standalone.py:416-421 | downloaded_files has at most one entry per file of the batch |
| PhotoSyncer.DownloadedFilesMembers | storage/onedrive_to_google_photos/photo_syncer_standalone.py:416-421 | An entry is in downloaded_files exactly when a ".png" of the batch downloaded and its creation time parsed; the entry carries that file and its local path |
| PhotoSyncer.DownloadedFromBatch | storage/onedrive_to_google_photos/photo_syncer_standalone.py:417-421 | Every downloaded entry is a ".png" file of its batch |
| PhotoSyncer.PurgedIdsMembers | storage/onedrive_to_google_photos/photo_syncer_standalone.py:422-423 | The ids the download loop deletes are exactly those of the ".xjr" files |
| PhotoSyncer.PairedDeletesMembers | storage/onedrive_to_google_photos/photo_syncer_standalone.py:433-436 | The zip deletes the source of the k-th download exactly when the k-th result, whichever file it names, is True, for k below the shorter list |
| PhotoSyncer.PairedRemovalsMembers | storage/onedrive_to_google_photos/photo_syncer_standalone.py:433-443 | The zip removes the local file of each of the first n downloads and no other |
| PhotoSyncer.BatchDeletesRouted | storage/onedrive_to_google_photos/photo_syncer_standalone.py:417-436 | A batch keeps earlier deletes in front, deletes every ".xjr" file, and deletes nothing that is not a ".png" or ".xjr" file of the batch |
| PhotoSyncer.DlDeletesOrigin | storage/onedrive_to_google_photos/photo_syncer_standalone.py:422-436 | After the download loop, the deletes are the old ones, then every purged id, then only ids of downloaded files |
| PhotoSyncer.LeftAloneUntouched | storage/onedrive_to_google_photos/photo_syncer_standalone.py:417-423 | A file neither ".png" nor ".xjr" is not downloaded and, unless it shares its id with a routed file, not deleted |
| PhotoSyncer.BadTimestampLeavesFile | storage/onedrive_to_google_photos/photo_syncer_standalone.py:351-367 | A ".png" whose content was written but whose createdDateTime does not parse stays in the local folder |
| PhotoSyncer.AlignedPairing | storage/onedrive_to_google_photos/photo_syncer_standalone.py:433-443 | When every download got a token and the create answer covers them all, the k-th result is about the k-th download, and its flag is True exactly when entry k has a mediaItem; every local file is removed |
| PhotoSyncer.AllPairedRemoved | storage/onedrive_to_google_photos/photo_syncer_standalone.py:440-443 | Pairing all downloads removes exactly their local files |
| PhotoSyncer.MisalignedPairingDeletesUnuploaded | storage/onedrive_to_google_photos/photo_syncer_standalone.py:433-443 | As written: with two ".png" files, where the first upload fails and the second is confirmed, the source of the first (never uploaded) file is deleted and the second's local file stays |
| PhotoSyncer.FindByPath | storage/onedrive_to_google_photos/photo_syncer_standalone.py:433 | The entry found carries the path; None means no downloaded entry has it |
| PhotoSyncer.PathPairingDeletesOnlyConfirmed | storage/onedrive_to_google_photos/photo_syncer_standalone.py:433-436 | Corrected pairing: a source is deleted only when a True result names its own local path |
| PhotoSyncer.PathPairingDeletesAllConfirmed | storage/onedrive_to_google_photos/photo_syncer_standalone.py:433-436 | Corrected pairing: every downloaded file named by a True result is deleted |
| PhotoSyncer.CorrectedBatchDeletesOnlyUploaded | storage/onedrive_to_google_photos/photo_syncer_standalone.py:416-443 | With pairing by path, every new delete is a ".xjr" or a download with a True result for its own path, and every downloaded local file is removed |
| PhotoSyncer.PathPairingFixesMisalignment | storage/onedrive_to_google_photos/photo_syncer_standalone.py:433-443 | On the misaligned batch, pairing by path deletes the confirmed second file and removes both local files |
| PhotoSyncer.Environment.constructor | storage/onedrive_to_google_photos/photo_syncer_standalone.py:408 | A fresh environment has no requests, no pauses and the given local files |
| PhotoSyncer.Environment.DeleteFromOneDrive | storage/onedrive_to_google_photos/photo_syncer_standalone.py:327-336 | The DELETE is logged and nothing else changes; a status other than 204 is not an error |
| PhotoSyncer.Environment.DownloadFile | storage/onedrive_to_google_photos/photo_syncer_standalone.py:338-367 | The content is written when the GET succeeds; the path is returned only when the creation time also parses, None otherwise |
| PhotoSyncer.Environment.DownloadStep | storage/onedrive_to_google_photos/photo_syncer_standalone.py:417-423 | One turn of the download loop: a ".png" is fetched and kept when it downloads, a ".xjr" is deleted, other names change nothing |
| PhotoSyncer.Environment.DownloadBatch | storage/onedrive_to_google_photos/photo_syncer_standalone.py:416-423 | The loop returns downloaded_files; it appends the ".xjr" deletes to the requests and adds the written files to the folder |
| PhotoSyncer.Environment.CleanUp | storage/onedrive_to_google_photos/photo_syncer_standalone.py:433-443 | The positional zip: deletes appended for True pairs, paired local files removed, over the shorter of the two lists |
| PhotoSyncer.Environment.ProcessBatch | storage/onedrive_to_google_photos/photo_syncer_standalone.py:416-443 | One batch changes the environment exactly as the batch's download, upload and clean-up effects compose |
| PhotoSyncer.Environment.ProcessFilesInBatches | storage/onedrive_to_google_photos/photo_syncer_standalone.py:408-445 | The whole run is the batch effects applied in turn over the slices of 20 |
| Albums.FirstTitleMatchFound | storage/onedrive_to_google_photos/photo_syncer_standalone.py:183-186 | The search returns an id exactly when the first album titled exactly `title` carries it, every album before it having another title |
| Albums.FirstTitleMatchNone | storage/onedrive_to_google_photos/photo_syncer_standalone.py:183-187 | No id is returned and nothing raises exactly when every album has a title and none of them equals `title` |
| Albums.FirstTitleMatchAppend | storage/onedrive_to_google_photos/photo_syncer_standalone.py:180-187 | Searching two lists in turn is searching the first, and the second only when the first gives no match |
| PhotoSync.SearchPagesFlat | storage/onedrive_to_google_photos/photo_syncer_standalone.py:179-187 | With no failed request, the page-by-page search equals the first-match search over all albums in page order |
| PhotoSync.SearchPagesFound | storage/onedrive_to_google_photos/photo_syncer_standalone.py:179-187 | With no failed request, the resolver finds an id exactly when the first album titled `title` across the pages carries it |
| PhotoSync.ResolvedAlbum | storage/onedrive_to_google_photos/photo_syncer_standalone.py:176-207 | A match gives its id; an exception gives None; without a match, a value exactly when the album was created with an id and shared |
| PhotoSync.FindOrCreateAlbum | storage/onedrive_to_google_photos/photo_syncer_standalone.py:176-207 | The page loop returns the resolved album, and calls create exactly when no page matched and none raised |
| PhotoSync.CreateOnlyWithoutMatch | storage/onedrive_to_google_photos/photo_syncer_standalone.py:180-191 | An album is created only after every page was read and no album on them is titled `title` |
| PhotoSync.NoMatchNoRaise | storage/onedrive_to_google_photos/photo_syncer_standalone.py:180-189 | A finished search without a match read every page without error |
| PhotoSync.SyncPhotos | storage/onedrive_to_google_photos/photo_syncer_standalone.py:448-468 | The sync aborts on failed sign-in, an unusable album (None or ""), or a listing error, changing nothing; otherwise it runs the batches over the listing's slices |
| PhotoSync.CacheFile.constructor | storage/onedrive_to_google_photos/photo_syncer_standalone.py:75-81 | The cache file starts with the given contents |
| PhotoSync.CacheFile.SaveCache | storage/onedrive_to_google_photos/photo_syncer_standalone.py:83-87 | The cache is written exactly when its state changed |
| CreationTime.DaysInMonth | storage/onedrive_to_google_photos/photo_syncer_standalone.py:355 | A month has 28 to 31 days |
| CreationTime.SplitAt | storage/onedrive_to_google_photos/photo_syncer_standalone.py:355 | A split is at the first separator, with a separator between the two parts, and none before; None means no separator occurs |
| CreationTime.Parse | storage/onedrive_to_google_photos/photo_syncer_standalone.py:355 | strptime with `%Y-%m-%dT%H:%M:%S.%fZ` gives only valid datetimes, and only for texts the format's cuts accept with every field matching its pattern |
| CreationTime.SplitJoin | storage/onedrive_to_google_photos/photo_syncer_standalone.py:355 | Cutting a spelling of matched fields, with 'T'/'t' and 'Z'/'z', at the format's literals gives the fields back |
| CreationTime.SplitFieldsJoined | storage/onedrive_to_google_photos/photo_syncer_standalone.py:355 | Every text the cuts accept is a spelling of the fields they give |
| CreationTime.ParseAccepted | storage/onedrive_to_google_photos/photo_syncer_standalone.py:355 | Every accepted text spells matched fields whose values form a valid datetime, and the parse gives those values |
| CreationTime.ParseJoined | storage/onedrive_to_google_photos/photo_syncer_standalone.py:355 | Every spelling of matched fields (one- or two-digit fields, a fraction of one to six digits read as microseconds padded on the right, either case of 'T' and 'Z') parses to the fields' values when they form a valid datetime, and is refused otherwise |
| CreationTime.ParseNeedsFraction | storage/onedrive_to_google_photos/photo_syncer_standalone.py:355 | A text without the '.' before the fraction is refused |
| CreationTime.ParseRender | storage/onedrive_to_google_photos/photo_syncer_standalone.py:355 | Parsing the canonical listing text of a valid timestamp gives it back |
| CreationTime.ExifTimeOfRender | storage/onedrive_to_google_photos/photo_syncer_standalone.py:379 | The EXIF text is 19 characters: the listing's date and time with ':' for the date separators, a space for 'T', and the fraction and 'Z' dropped |
| CreationTime.AddCreationTime | storage/onedrive_to_google_photos/photo_syncer_standalone.py:369-404 | No EXIF gives a new dictionary holding only DateTimeOriginal. Unreadable EXIF gives no write. Loaded EXIF is written exactly when it has an Exif IFD, with DateTimeOriginal set and all other tags kept |
| SyncTool.IsTokenValid | storage/onedrive_to_google_photos/main.py:87-99 | Valid exactly when the token has an access token and now < expires_at; it raises exactly when an access token has no expires_at |
| SyncTool.Stamped | storage/onedrive_to_google_photos/main.py:80-82 | Stamping succeeds exactly when expires_in is present, and changes only expires_at |
| SyncTool.StampedValidUntilExpiry | storage/onedrive_to_google_photos/main.py:80-99 | A token saved at time t is valid at `now` exactly when now < t + expires_in |
| SyncTool.TokenFile.constructor | storage/onedrive_to_google_photos/main.py:36-38 | The token file starts with the given contents |
| SyncTool.TokenFile.SaveToken | storage/onedrive_to_google_photos/main.py:80-85 | The stamped token is written, or the file is left as it was when stamping raises |
| SyncTool.FirstDecisive | storage/onedrive_to_google_photos/main.py:68-78 | The polling ends at the first answer that is not `authorization_pending`; every earlier answer is pending |
| SyncTool.FirstDecisiveAt | storage/onedrive_to_google_photos/main.py:68-78 | That first decisive position is unique |
| SyncTool.AuthenticateOneDrive | storage/onedrive_to_google_photos/main.py:35-78 | A valid cached token is returned first, with no refresh or flow. A refresh is tried exactly when the cache is unusable and holds a refresh token, and a successful refresh is saved. The flow starts only after both; it polls, sleeping per pending answer, and saves the first token or raises. The cached and raising paths sleep zero times |
| SyncTool.Loaded | storage/onedrive_to_google_photos/main.py:224-229 | Credentials are loaded exactly when a saved file loads without error |
| SyncTool.GoogleAuthAsWritten | storage/onedrive_to_google_photos/main.py:213-258 | Sign-in succeeds only with valid credentials; valid loaded credentials are returned with the file untouched; a changed file is emptied or holds the refreshed or flow credentials |
| SyncTool.RefreshFailureTruncates | storage/onedrive_to_google_photos/main.py:233-252 | As written: refreshable expired credentials whose refresh raises end in an exception with the token file emptied, whatever the OAuth flow would give |
| SyncTool.RefreshFailureIgnoresWorkingFlow | storage/onedrive_to_google_photos/main.py:233-252 | A concrete stale credential with a failing refresh and a working flow ends in an exception and an empty token file |
| SyncTool.GoogleAuthRetrying | storage/onedrive_to_google_photos/main.py:213-258 | Corrected version: sign-in succeeds only with valid credentials, and valid loaded credentials are returned untouched. The file ends up empty only if it was already empty |
| SyncTool.RetryingRefreshFailureRunsFlow | storage/onedrive_to_google_photos/main.py:238-248 | With the fallback, a failed refresh and a working flow sign in with the flow's credentials and save them; in every other case the two versions agree |
| SyncTool.GoogleTokenFile.constructor | storage/onedrive_to_google_photos/main.py:224 | The Google token file starts with the given contents |
| SyncTool.GoogleTokenFile.AuthenticateGooglePhotos | storage/onedrive_to_google_photos/main.py:213-258 | The outcome and new file are those of the function. A refresh is tried exactly when the loaded credentials are not valid and are refreshable; the flow is run exactly when they are not valid and no refresh was tried |
| SyncTool.GetUserIdInTenant | storage/onedrive_to_google_photos/main.py:120-154 | A status other than 200 fails with it; otherwise the id of the first user whose principal name equals the name ignoring case, and a failure exactly when none does |
| SyncTool.NameMatchIgnoresCase | storage/onedrive_to_google_photos/main.py:146 | Two user names equal up to case match the same users |
| SyncTool.FindAlbumByName | storage/onedrive_to_google_photos/main.py:184-197 | The loop over the first page only gives the first-match search result |
| SyncTool.WalkAsWritten | storage/onedrive_to_google_photos/main.py:276-282 | As written: walking the parsed listing object goes over its keys and fails unless the object has no keys, in which case it walks nothing |
| SyncTool.ListingWalkNeverReachesFiles | storage/onedrive_to_google_photos/main.py:276-282 | Any listing with a 'value' key fails the walk, and a walk that succeeds reaches no file |
| SyncTool.Walk | storage/onedrive_to_google_photos/main.py:276-282 | Corrected walk: the files under 'value', in order |
| SyncTool.PngNames | storage/onedrive_to_google_photos/main.py:279-280 | At most one uploaded name per listed file |
| SyncTool.Ids | storage/onedrive_to_google_photos/main.py:203-204 | One delete per listed file, in order |
| SyncTool.PngNamesMembers | storage/onedrive_to_google_photos/main.py:279-290 | A name is uploaded exactly when it is a listed file's name ending ".png" in any case |
| SyncTool.TransferEnv.constructor | storage/onedrive_to_google_photos/main.py:261 | A fresh environment has nothing uploaded or deleted |
| SyncTool.TransferEnv.UploadPngs | storage/onedrive_to_google_photos/main.py:279-293 | The loop completes exactly when every PNG uploads. It then uploads the PNG names in order and removes their local files. Otherwise it stops at the first failing PNG: the earlier PNGs are uploaded and removed, that file is left behind, and the other local files are untouched. It never deletes |
| SyncTool.TransferEnv.RemovedAfterUpload | storage/onedrive_to_google_photos/main.py:286-293 | Writing a file and removing it leaves the other local files unchanged |
| SyncTool.TransferEnv.DeleteFilesFromOneDrive | storage/onedrive_to_google_photos/main.py:200-210 | Every listed file, PNG or not, is deleted in order; a failed delete is not an error |
| SyncTool.TransferEnv.UploadThenPurge | storage/onedrive_to_google_photos/main.py:279-296 | When every PNG uploads, the PNG names are uploaded and every listed file is deleted. Otherwise the run stops at the first failing PNG with nothing deleted, the earlier PNGs uploaded and removed, and that file left behind |
| SyncTool.PngNamesConcat | storage/onedrive_to_google_photos/main.py:279-280 | Filtering PNGs distributes over concatenation |
| SyncTool.RunMain | storage/onedrive_to_google_photos/main.py:261-297 | main fails at the first failing step, in order: OneDrive sign-in, user lookup, Google sign-in, album, listing, upload. A run that fails before the upload changes nothing. A completed run uploads the PNGs and deletes every listed file. A failed upload deletes nothing, uploads and removes the PNGs before the first failing one, and leaves that file behind |
| Measurer.TakeFirst | music/soundcloud/soundcloud_cover_cutter/soundcloud_measurer.js:3 | A null or undefined style value gives '' |
| Measurer.TakeFirstLayer | music/soundcloud/soundcloud_cover_cutter/soundcloud_measurer.js:3 | The result is the text before the first comma with the white space around it cut, so it holds no comma and no white space at either end |
| Measurer.TakeFirstIdempotent | music/soundcloud/soundcloud_cover_cutter/soundcloud_measurer.js:3 | Taking the first layer of a taken layer gives it back |
| Measurer.KeywordToPercent | music/soundcloud/soundcloud_cover_cutter/soundcloud_measurer.js:100-105 | undefined stays undefined, and a token that is not a keyword of the axis is returned unchanged |
| Measurer.KeywordToPercentValue | music/soundcloud/soundcloud_cover_cutter/soundcloud_measurer.js:100-105 | A keyword becomes its table value (0, 50, 100) written as a decimal followed by '%' |
| Measurer.PercentTextOf | music/soundcloud/soundcloud_cover_cutter/soundcloud_measurer.js:104 | `n + '%'` is the percentage text of n |
| Measurer.ParseLenOrPercent | music/soundcloud/soundcloud_cover_cutter/soundcloud_measurer.js:107-113 | On the trimmed token: '%' exactly when it ends in '%', auto exactly when it is 'auto' (value NaN), px otherwise; the value is parseFloat of the trimmed text |
| Measurer.ParseIgnoresSpace | music/soundcloud/soundcloud_cover_cutter/soundcloud_measurer.js:108 | White space around a token does not change how it parses |
| Measurer.KeywordIsPercent | music/soundcloud/soundcloud_cover_cutter/soundcloud_measurer.js:100-113 | A position keyword parses as the percentage of its table value |
| Measurer.AutoParses | music/soundcloud/soundcloud_cover_cutter/soundcloud_measurer.js:110 | 'auto' parses as auto with value NaN |
| Measurer.PercentParses | music/soundcloud/soundcloud_cover_cutter/soundcloud_measurer.js:109 | A trimmed token ending in '%' parses as a percentage of parseFloat's reading |
| Measurer.CoverFillsElement | music/soundcloud/soundcloud_cover_cutter/soundcloud_measurer.js:117-122 | cover keeps the aspect ratio and reaches both element sides, one of them exactly |
| Measurer.ContainFitsElement | music/soundcloud/soundcloud_cover_cutter/soundcloud_measurer.js:117-122 | contain keeps the aspect ratio and stays within both element sides, touching one of them exactly |
| Measurer.OneAutoKeepsAspect | music/soundcloud/soundcloud_cover_cutter/soundcloud_measurer.js:131-140 | A length or percentage on one axis with auto on the other keeps the natural aspect ratio |
| Measurer.UnlistedPairCovers | music/soundcloud/soundcloud_cover_cutter/soundcloud_measurer.js:141-144 | auto with auto, or a length with a percentage, falls back to cover: aspect kept, element covered |
| Measurer.NoWordsIsEmpty | music/soundcloud/soundcloud_cover_cutter/soundcloud_measurer.js:124 | A taken layer with no words is the empty string |
| Measurer.EmptySizeIsCover | music/soundcloud/soundcloud_cover_cutter/soundcloud_measurer.js:115-143 | A background-size with no words reads as 'auto auto' and is drawn as cover |
| Measurer.SingleTokenKeepsAspect | music/soundcloud/soundcloud_cover_cutter/soundcloud_measurer.js:124-140 | A single finite length or percentage sets its side and keeps the natural aspect ratio |
| Measurer.PercentPairScalesElement | music/soundcloud/soundcloud_cover_cutter/soundcloud_measurer.js:135-136 | Two percentages are those fractions of the element's sides, and '100% 100%' is the element's size |
| Measurer.FullPercentFillsElement | music/soundcloud/soundcloud_cover_cutter/soundcloud_measurer.js:115-136 | A background-size of '100% 100%' draws the image at exactly the element's size |
| Measurer.ResolveSizeOfTokens | music/soundcloud/soundcloud_cover_cutter/soundcloud_measurer.js:122-126 | Past cover and contain, the size depends only on the two parsed tokens |
| Measurer.PositionTokens | music/soundcloud/soundcloud_cover_cutter/soundcloud_measurer.js:149-151 | The y token is always present |
| Measurer.MissingYIsHalf | music/soundcloud/soundcloud_cover_cutter/soundcloud_measurer.js:150-151 | A position of a single word gets '50%' as its y token |
| Measurer.PercentOffsetAligns | music/soundcloud/soundcloud_cover_cutter/soundcloud_measurer.js:158-159 | A percentage p puts the point p% across the image on the point p% across the element |
| Measurer.UnparsedOffsetIsZero | music/soundcloud/soundcloud_cover_cutter/soundcloud_measurer.js:158-159 | A non-percentage token whose number is NaN gives offset 0 |
| Measurer.HalfPercentCenters | music/soundcloud/soundcloud_cover_cutter/soundcloud_measurer.js:151-159 | The default y of '50%' centres the image in the room left by the element |
| Measurer.ClampBoxBounds | music/soundcloud/soundcloud_cover_cutter/soundcloud_measurer.js:164-169 | In an image of non-negative size, x is NaN exactly when its input is, otherwise in [0,W] (likewise y). s is NaN exactly when an input is. A finite s fits right of and below the origin, and s is never +Infinity |
| Measurer.ClampOrigin | music/soundcloud/soundcloud_cover_cutter/soundcloud_measurer.js:165-166 | A clamped coordinate is NaN exactly when its input is, and otherwise lies in [0, W] |
| Measurer.ClampSide | music/soundcloud/soundcloud_cover_cutter/soundcloud_measurer.js:167 | The clamped side is NaN exactly when an input is, and a finite side is at most W−x and H−y |
| Measurer.ClampBoxKeepsFitting | music/soundcloud/soundcloud_cover_cutter/soundcloud_measurer.js:164-169 | A box already inside the image is returned unchanged |
| Measurer.ClampBoxIdempotent | music/soundcloud/soundcloud_cover_cutter/soundcloud_measurer.js:164-169 | Clamping a clamped box changes nothing |
| Measurer.ContentEnd | music/soundcloud/soundcloud_cover_cutter/soundcloud_measurer.js:77 | The lazy `(.*?)` ends at the first index where the closing `["']?\)` matches with no line break in between, and there is no other end |
| Measurer.BannerUrlOfQuoted | music/soundcloud/soundcloud_cover_cutter/soundcloud_measurer.js:76-78 | The computed form `url("u")` gives back u when u has no quote, parenthesis or line break |
| Measurer.DigitRun | music/soundcloud/soundcloud_cover_cutter/soundcloud_measurer.js:84 | The greedy `\d+` run: all digits, and not followed by a digit |
| Measurer.SizeAt | music/soundcloud/soundcloud_cover_cutter/soundcloud_measurer.js:84 | A reported match at i is the pattern `-t(\d+)x(\d+)\.` there |
| Measurer.SizeAtComplete | music/soundcloud/soundcloud_cover_cutter/soundcloud_measurer.js:84 | Every match of the pattern at i is found, with its run lengths |
| Measurer.FirstSize | music/soundcloud/soundcloud_cover_cutter/soundcloud_measurer.js:84 | A reported match from i is a match of the pattern |
| Measurer.FirstSizeLeftmost | music/soundcloud/soundcloud_cover_cutter/soundcloud_measurer.js:84 | The match found is the leftmost one, and none is reported only when none exists |
| Measurer.GuessSizeRoundTrip | music/soundcloud/soundcloud_cover_cutter/soundcloud_measurer.js:84-93 | A name carrying `-t<w>x<h>.`, with no '-' before it, gives back w and h |
| Measurer.GuessSizeOfLayout | music/soundcloud/soundcloud_cover_cutter/soundcloud_measurer.js:84-85 | For any two digit strings in that layout, the guess is their decimal values |
| Measurer.GuessSizeAt | music/soundcloud/soundcloud_cover_cutter/soundcloud_measurer.js:84-85 | A match with no '-' before it is the one the guess reads, as the decimal values of its two runs |
| Measurer.Guessed | music/soundcloud/soundcloud_cover_cutter/soundcloud_measurer.js:84-85 | A guessed size is marked guessed_from_url |
| Measurer.NaturalSizeOf | music/soundcloud/soundcloud_cover_cutter/soundcloud_measurer.js:81-98 | No URL (null or '') guesses from the raw style value; otherwise the loaded size; or, when loading fails, a guess from the URL |
| Measurer.Measure | music/soundcloud/soundcloud_cover_cutter/soundcloud_measurer.js:171-209 | The measurement fails with no_natural_size exactly when no natural size is found |
| Measurer.NaturalCenterRoundTrip | music/soundcloud/soundcloud_cover_cutter/soundcloud_measurer.js:184-200 | Mapping the natural centre back through the drawn scale and offset lands on the avatar's on-screen centre |
| Measurer.CropInsideImage | music/soundcloud/soundcloud_cover_cutter/soundcloud_measurer.js:203-209 | A recommended crop with a numeric side lies inside the natural image |
| Measurer.CropCenteredWhenInside | music/soundcloud/soundcloud_cover_cutter/soundcloud_measurer.js:199-209 | When the avatar's square fits in the image, the crop is that square, centred on the avatar |
| JsNumber.Add | music/soundcloud/soundcloud_cover_cutter/soundcloud_measurer.js:184-189 | Finite sums are exact, and NaN is contagious |
| JsNumber.Sub | music/soundcloud/soundcloud_cover_cutter/soundcloud_measurer.js:192-193 | Finite differences are exact, and NaN is contagious |
| JsNumber.Mul | music/soundcloud/soundcloud_cover_cutter/soundcloud_measurer.js:199-201 | Finite products are exact, and NaN is contagious |
| JsNumber.Div | music/soundcloud/soundcloud_cover_cutter/soundcloud_measurer.js:196-197 | Division by a non-zero finite number is exact, and NaN is contagious |
| JsNumber.Max | music/soundcloud/soundcloud_cover_cutter/soundcloud_measurer.js:165 | Math.max is NaN exactly when an argument is, and otherwise one of its arguments, the larger on finite ones |
| JsNumber.Min | music/soundcloud/soundcloud_cover_cutter/soundcloud_measurer.js:165-167 | Math.min is NaN exactly when an argument is, and otherwise one of its arguments, the smaller on finite ones |
| JsNumber.InfinityBounds | music/soundcloud/soundcloud_cover_cutter/soundcloud_measurer.js:165-167 | Math.min and Math.max at the infinities |
| Text.Lower | storage/onedrive_to_google_photos/main.py:146 | Lower-casing keeps the length and lower-cases every character on its own |
| Text.TrimBoundsSpec | music/soundcloud/soundcloud_cover_cutter/soundcloud_measurer.js:108 | trim() cuts exactly the white space at both ends |
| Text.TrimTrimmed | music/soundcloud/soundcloud_cover_cutter/soundcloud_measurer.js:108 | trim() leaves a string without white space at its ends unchanged |
| Text.BeforeFirstSpec | music/soundcloud/soundcloud_cover_cutter/soundcloud_measurer.js:3 | split(',')[0] is the text before the first comma, or all of it |
| Text.WordsOfPair | music/soundcloud/soundcloud_cover_cutter/soundcloud_measurer.js:124 | Two words separated by a space split into those two words |
| Text.DecimalRoundTrip | music/soundcloud/soundcloud_cover_cutter/soundcloud_measurer.js:85 | Reading back the decimal rendering of n gives n |
| Text.PadDecimal | storage/onedrive_to_google_photos/photo_syncer_standalone.py:379 | The padded rendering is all digits, of the padded width when n fits, and reads back as n |
| AvatarCrop.Clamp | music/soundcloud/soundcloud_cover_cutter/crop_soundcloud_avatar.py:29-30 | The result lies in [lo, hi] when lo ≤ hi, equals v when v is in range, and is always one of v, lo and hi |
| AvatarCrop.Round | music/soundcloud/soundcloud_cover_cutter/crop_soundcloud_avatar.py:45-48 | Python's round: an integer within 0.5 of x, and an even one on a tie |
| AvatarCrop.RoundOfInteger | music/soundcloud/soundcloud_cover_cutter/crop_soundcloud_avatar.py:45-48 | An integer rounds to itself |
| AvatarCrop.RoundMonotone | music/soundcloud/soundcloud_cover_cutter/crop_soundcloud_avatar.py:45-48 | Rounding never reverses an order |
| AvatarCrop.ClampSquare | music/soundcloud/soundcloud_cover_cutter/crop_soundcloud_avatar.py:40-42 | The clamped origin lies in [0,W]×[0,H], x+s ≤ W and y+s ≤ H, and s is the smallest of the measured size, W−x and H−y |
| AvatarCrop.CropBoxInsideImage | music/soundcloud/soundcloud_cover_cutter/crop_soundcloud_avatar.py:45-48 | The rounded box stays inside the image: left, top ≥ 0, right ≤ W, bottom ≤ H |
| AvatarCrop.CropBoxNearlySquare | music/soundcloud/soundcloud_cover_cutter/crop_soundcloud_avatar.py:45-48 | For a measured size ≥ 0, each side is within one pixel of the clamped side, both are ≥ 0, and they differ by at most two |
| AvatarCrop.CropBoxNotSquare | music/soundcloud/soundcloud_cover_cutter/crop_soundcloud_avatar.py:44-48 | As written: the crop at x = 1.5, y = 0.5 with size 405 in a 1000×1000 image is 404 wide and 406 high |
| AvatarCrop.SquareCropBoxIsSquare | music/soundcloud/soundcloud_cover_cutter/crop_soundcloud_avatar.py:44-48 | Corrected box: an exact square inside the image whose side is round(s), or one less where the rounded origin leaves less room |
| NatGateway.TagHits | databricks/aws/nat_gateway_manager.py:17-19 | An item is appended once per qualifying tag, and only that item |
| NatGateway.Matches | databricks/aws/nat_gateway_manager.py:15-19 | The matched list holds one entry per qualifying tag over all items |
| NatGateway.MatchesMembers | databricks/aws/nat_gateway_manager.py:15-19 | An item is in the matched list exactly when it has a tag with Key 'Name' whose value contains the searched text |
| NatGateway.NoHits | databricks/aws/nat_gateway_manager.py:15-22 | Nothing matches exactly when no item has a qualifying tag |
| NatGateway.OneHit | databricks/aws/nat_gateway_manager.py:15-22 | Exactly one match exactly when one item has one qualifying tag and all others none |
| NatGateway.SelectOneExactly | databricks/aws/nat_gateway_manager.py:21-24 | The lookup succeeds exactly when one item carries one qualifying tag and no other any, and then gives that item's id; otherwise it fails with the match count |
| NatGateway.TwoTagsFail | databricks/aws/nat_gateway_manager.py:17-22 | An item with two qualifying tags counts twice, so the lookup fails |
| NatGateway.CollectMatches | databricks/aws/nat_gateway_manager.py:41-44 | The nested loop builds exactly the matched list |
| NatGateway.Client.constructor | databricks/aws/nat_gateway_manager.py:6 | A new client has sent nothing |
| NatGateway.Client.Send | databricks/aws/nat_gateway_manager.py:12 | A request is appended to the call log |
| NatGateway.FindVpcIdByName | databricks/aws/nat_gateway_manager.py:11-24 | One describe_vpcs request; the result is the exactly-one selection of the VPCs named after the workspace |
| NatGateway.FindDefaultRouteTable | databricks/aws/nat_gateway_manager.py:26-32 | One describe_route_tables request; the first main route table, and a fault exactly when there is none |
| NatGateway.FindSubnetIdForNatgw | databricks/aws/nat_gateway_manager.py:34-49 | One describe_subnets request; the exactly-one selection of the subnets named 'nat-gateway-subnet' |
| NatGateway.LocateNetworkSucceeds | databricks/aws/nat_gateway_manager.py:5-9 | The network is found exactly when VPC and subnet are single matches and a main route table exists; then three requests were sent and the ids are those of the single matches |
| NatGateway.Locate | databricks/aws/nat_gateway_manager.py:5-9 | The constructor's lookups send the located calls and give the located network or its first fault |
| NatGateway.Deleter.constructor | databricks/aws/nat_gateway_manager.py:52-56 | The deleter holds the given client, network, gateway and allocation ids |
| NatGateway.Deleter.DeleteRouteToNatgw | databricks/aws/nat_gateway_manager.py:77-85 | The default route of the route table is deleted; a status other than 200 fails |
| NatGateway.Deleter.DeleteNatgw | databricks/aws/nat_gateway_manager.py:87-97 | The gateway is deleted and, on 200 only, waited for; any other status fails |
| NatGateway.Deleter.ReleaseEip | databricks/aws/nat_gateway_manager.py:99-106 | The address is released; a status other than 200 fails |
| NatGateway.Deleter.Run | databricks/aws/nat_gateway_manager.py:108-111 | The calls sent are the deletion plan up to the first failing step, and the outcome is that step's fault or success |
| NatGateway.DeletionOrder | databricks/aws/nat_gateway_manager.py:77-111 | The calls are a prefix of route → gateway → release. The gateway is deleted exactly when the route step answered 200, and the address released exactly when both earlier steps did. Success exactly when all three answer 200 |
| NatGateway.FindNatgwIdBySubnetId | databricks/aws/nat_gateway_manager.py:58-66 | One describe_nat_gateways request; success exactly when one available gateway is listed, giving its id, and otherwise the count and subnet |
| NatGateway.FindEipAssociationId | databricks/aws/nat_gateway_manager.py:68-75 | One describe_nat_gateways request; success exactly when one gateway with an address is listed, giving its first allocation id; the count fault names the subnet; no address is a fault |
| NatGateway.NewDeleter | databricks/aws/nat_gateway_manager.py:52-75 | The shared lookups, then the gateway and its address. It succeeds exactly when the network is located, one available gateway is in the subnet, and one gateway with an address is listed by id; the deleter then holds the located network and that gateway's ids. Otherwise it ends with the first fault: the lookup's, the subnet count, the by-id count (naming the subnet) or NoAddress. The calls sent on each path are given |
| NatGateway.Creator.constructor | databricks/aws/nat_gateway_manager.py:114-116 | The creator holds the given client and network |
| NatGateway.Creator.CreateEip | databricks/aws/nat_gateway_manager.py:118-126 | An address is allocated; 200 gives its allocation id, any other status fails |
| NatGateway.Creator.CreateNatgw | databricks/aws/nat_gateway_manager.py:128-139 | The gateway is created in the NAT subnet with the given allocation id and waited for before the status is checked |
| NatGateway.Creator.CreateRouteToNatgw | databricks/aws/nat_gateway_manager.py:141-150 | The default route to the given gateway is created in the route table; a status other than 200 fails |
| NatGateway.Creator.Run | databricks/aws/nat_gateway_manager.py:152-155 | The calls sent are the creation plan up to the first failing step, and the outcome is that step's fault or success |
| NatGateway.CreationOrder | databricks/aws/nat_gateway_manager.py:128-155 | The calls are a prefix of allocate → create → route. The gateway is created only after a 200 allocation, with that allocation id, in the NAT subnet. The route goes to the new gateway id in the route table. Success exactly when all three answer 200 |
| NatGateway.NewCreator | databricks/aws/nat_gateway_manager.py:114-116 | The shared lookups only: their calls, and a creator for the located network exactly when the lookups succeed, their fault otherwise |

## Left out

- HTTP and SDK traffic (msal, google-auth, the Photos client, aiohttp,
  requests, boto3) is not modelled. Each answer is an input: a status, a
  token or its absence, a create entry, a `describe_*` reply.
- Async execution and `asyncio.to_thread` are not modelled, because the
  code awaits one item at a time. The pauses between upload batches are
  only counted.
- The clock is a `real` parameter.
- Image work in PIL is not modelled: the resize, the RGB and JPEG
  conversion, `piexif.dump` and the circle mask of the cropper. A failed
  resize or upload is the oracle answer "no token".
- The token and cache files are opaque contents. Only that a save replaces
  the contents, and the `has_state_changed` check, are modelled.
- The OneDrive and Google sign-in of the asynchronous tool
  (photo_syncer_standalone.py:89-174) is left out. Only its outcome enters,
  as the `authOk` input of `PhotoSync.SyncPhotos`.
- The `if not album_id` branch inside `upload_to_google_photos`
  (photo_syncer_standalone.py:255-257) is left out. The batch loop always
  receives the album `sync_photos` checked.
- The DOM side of the measurer is not modelled: `guessBg`, `guessAvatar`,
  `getComputedStyle`, the `Image` load, the clipboard and
  `window._scMeasure`. The rectangles, style strings and load outcome are
  inputs.
- `parseFloat` is a parameter. The lemmas that need it assume only how it
  reads the few texts involved.
- JavaScript numbers have no rounding and no signed zero.
- `kw in map` only looks at the own keys of the keyword tables. The
  prototype keys of a JavaScript object (`toString` and so on) are not
  modelled.
- Measurer.EmptySizeIsCover: this follows the code, where `auto auto` falls
  back to cover. CSS itself would draw the image at its natural size; the
  model states what the code does.
- The boto3 waiters are modelled as entries in the call log
  (`AwaitDeleted`, `AwaitAvailable`). Their polling and timeouts are not.
- The profile and region arguments are left out.
- A tag without 'Key' or 'Value' (a KeyError in the source) is not
  modelled: tags always carry both.
- A reply without `RouteTables` or `NatGatewayAddresses` entries is
  modelled as an empty list, giving a fault.
- The usage snippet at the end of nat_gateway_manager.py is left out. It
  is not part of the module.
- The WSL/minikube watcher and the SoundCloud playlist downloaders are not
  part of this model. They are thin wrappers around an event loop,
  youtube_dl and ID3 tagging.
- SyncTool.TransferEnv.UploadPngs: main.py's `upload_to_google_photos`
  (main.py:158-181) is a sequence of SDK calls, modelled by the `uploadOk`
  input. As written, line 159 raises NameError on every call, because
  main.py:13 binds only `build` and never the name `googleapiclient`; so
  every real PNG upload fails on its first call. `uploadOk` models the
  upload with the intended `build(...)` call.
- `get_file_creation_time` (photo_syncer_standalone.py:317-324) is not part
  of this model, because it is defined but never called.
- Text.Lower, SyncTool.GetUserIdInTenant: lower-casing changes only ASCII
  letters. Python's `str.lower()` at main.py:146 lower-cases all of
  Unicode, so a principal name with non-ASCII letters that Python would
  match up to case is not matched by the model.
- PhotoSyncer.Environment.DownloadFile: every listing item is assumed to
  carry `@microsoft.graph.downloadUrl`. The source reads it at
  photo_syncer_standalone.py:339, outside the `try`, so an item without it
  raises KeyError and aborts the whole run.
- SyncTool.GetUserIdInTenant: every user record is assumed to carry `id`
  and `userPrincipalName`. main.py:136-137 index both, so a record without
  them raises KeyError.
- AvatarCrop.CropBoxNearlySquare: the bound proved is a difference of at
  most two pixels between the sides, not one. With half-even rounding,
  `CropBoxNotSquare` exhibits a difference of two.
- PhotoSync.ResolvedAlbum: the share call sits inside the `try`, so a
  failed share after a successful create returns None. A reading in which
  the created album's id is still returned does not match the code; the
  model follows the code.
- CreationTime.Parse: only the ASCII digits for `%Y`, `%m` and so on are
  modelled, and `%Y` takes four digits. Time zones are not modelled: the
  `Z` is a literal and the value is naive UTC.
- SyncTool.AuthenticateOneDrive: the endless polling loop is modelled over
  a finite sequence of answers. When every answer is pending, the outcome
  is `StillPolling`.
- SyncTool.RunMain: a OneDrive sign-in that is `StillPolling` is reported
  as a failed sign-in. The source raises nothing there: it goes on
  polling, and main never gets past its first step.

## Findings

| source | as written | input that shows it | evidently intended | confidence | as-written member | corrected member |
|---|---|---|---|---|---|---|
| storage/onedrive_to_google_photos/photo_syncer_standalone.py:433-443 | `zip(downloaded_files, upload_results)` pairs the k-th download with the k-th result, but a download whose upload fails yields no result | a batch of two ".png" files where the first upload returns no token and the second is confirmed: the result (second, True) is paired with the first file, which is deleted from OneDrive although never uploaded, and the second file's local copy stays | pair each result with the download whose path it names | not executed | PhotoSyncer.MisalignedPairingDeletesUnuploaded | PhotoSyncer.PathPairingFixesMisalignment, PhotoSyncer.CorrectedBatchDeletesOnlyUploaded |
| music/soundcloud/soundcloud_cover_cutter/crop_soundcloud_avatar.py:44-48 | the four edges are rounded independently with half-even `round`, so the "exact square crop" can be 404×406 | measured x = 1.5, y = 0.5, size = 405 in a 1000×1000 banner gives the box (2, 0, 406, 406) | round the origin once and use one rounded side for both directions | not executed | AvatarCrop.CropBoxNotSquare | AvatarCrop.SquareCropBoxIsSquare |
| storage/onedrive_to_google_photos/main.py:276-282 | `files` is the parsed listing object, so `for file in files` walks its keys and `file['name']` on a key string raises TypeError | any listing answer such as `{"value": [...]}`: the first key "value" raises, so no file is ever uploaded or deleted | walk the files under 'value' | not executed | SyncTool.ListingWalkNeverReachesFiles | SyncTool.Walk, SyncTool.RunMain |
| storage/onedrive_to_google_photos/main.py:238-252 | a failed refresh sets `creds = None` (the comment says the OAuth flow should start), then the token file is opened for writing and `None.to_json()` raises | saved credentials that are expired and carry a refresh token, with a refresh that raises: the token file is emptied and the call fails, although the OAuth flow would have succeeded | fall back to the OAuth flow after a failed refresh | not executed | SyncTool.RefreshFailureTruncates, SyncTool.RefreshFailureIgnoresWorkingFlow | SyncTool.GoogleAuthRetrying, SyncTool.RetryingRefreshFailureRunsFlow |
