/** The synchronous OneDrive to Google Photos transfer script: the OneDrive
    token file and its validity test, the OneDrive and Google sign-in
    precedence, the user and album lookups, and the upload-then-purge run.
    Every HTTP and SDK answer is a parameter; the two token files and the
    remote effects are objects whose fields the methods update. */
module SyncTool {
  import opened Wrappers
  import opened Text
  import opened Albums

  // ----- the OneDrive token dictionary -------------------------------------

  /** The keys of a OneDrive token dictionary that the script reads or
      writes; an absent key is None. 'expires_in' is None also when int()
      refuses its value. */
  datatype TokenData = TokenData(accessToken: Option<string>, refreshToken: Option<string>,
                                 expiresIn: Option<int>, expiresAt: Option<real>, error: Option<string>)

  /** is_token_valid at clock reading `now`; None when it raises, which it
      does (KeyError) for an access token stored without 'expires_at'. */
  function IsTokenValid(token: TokenData, now: real): (r: Option<bool>)
    ensures r == Some(true) <==> token.accessToken.Some? && token.expiresAt.Some? && now < token.expiresAt.value
    ensures r.None? <==> token.accessToken.Some? && token.expiresAt.None?
  {
    if token.accessToken.None? then Some(false)
    else if token.expiresAt.None? then None
    else Some(now < token.expiresAt.value)
  }

  /** The dictionary save_token writes at clock reading `now`: the same keys,
      with 'expires_at' set to now + int('expires_in'); None when that
      raises (no 'expires_in', or a value int() refuses). */
  function Stamped(token: TokenData, now: real): (r: Option<TokenData>)
    ensures r.Some? <==> token.expiresIn.Some?
    ensures r.Some? ==> r.value.(expiresAt := token.expiresAt) == token
  {
    if token.expiresIn.None? then None
    else Some(token.(expiresAt := Some(now + token.expiresIn.value as real)))
  }

  /** A token saved at time t with an access token and a lifetime is valid
      exactly until t plus that lifetime. */
  lemma StampedValidUntilExpiry(token: TokenData, t: real, now: real)
    requires token.accessToken.Some? && token.expiresIn.Some?
    ensures Stamped(token, t).Some?
    ensures IsTokenValid(Stamped(token, t).value, now) == Some(now < t + token.expiresIn.value as real)
  {
  }

  /** The OneDrive token file; None when it does not exist. */
  class TokenFile {
    var stored: Option<TokenData>

    constructor (initial: Option<TokenData>)
      ensures stored == initial
    {
      stored := initial;
    }

    /** save_token: the argument gets its 'expires_at' and is written; when
        the stamp raises, the file is not opened. */
    method SaveToken(token: TokenData, now: real) returns (saved: Option<TokenData>)
      modifies this
      ensures saved == Stamped(token, now)
      ensures stored == if saved.Some? then saved else old(stored)
    {
      saved := Stamped(token, now);
      if saved.Some? {
        stored := saved;
      }
    }
  }

  // ----- authenticate_onedrive ---------------------------------------------

  /** How a sign-in ends. StillPolling: every device-flow answer supplied
      said 'authorization_pending', so the script is still polling. */
  datatype AuthOutcome = AccessToken(token: string) | AuthRaised | StillPolling

  predicate IsPending(answer: TokenData) {
    answer.accessToken.None? && answer.error == Some("authorization_pending")
  }

  /** The position of the first device-flow answer that ends the polling:
      every answer before it is pending, and it is not. |polls| if none. */
  function FirstDecisive(polls: seq<TokenData>): (k: nat)
    ensures k <= |polls|
    ensures forall j :: 0 <= j < k ==> IsPending(polls[j])
    ensures k < |polls| ==> !IsPending(polls[k])
  {
    if polls == [] then 0
    else if IsPending(polls[0]) then 1 + FirstDecisive(polls[1..])
    else 0
  }

  /** The stored token is usable as it is: it exists and is unexpired. */
  predicate CachedValid(stored: Option<TokenData>, now: real) {
    stored.Some? && IsTokenValid(stored.value, now) == Some(true)
  }

  /** The stored token cannot be used and testing it did not raise. */
  predicate CachedUnusable(stored: Option<TokenData>, now: real) {
    stored.None? || IsTokenValid(stored.value, now) == Some(false)
  }

  /** authenticate_onedrive. `now` is the clock when the cache is tested,
      `saveTime` when a new token is saved; `refreshAnswer` is what
      acquire_token_by_refresh_token returns, `userCode` whether the
      device-flow answer holds a 'user_code', and `polls` the successive
      answers of acquire_token_by_device_flow. `sleeps` counts the 5-second
      pauses between polls. Precedence: the cached token, then a refresh,
      then the device flow. */
  method AuthenticateOneDrive(file: TokenFile, now: real, saveTime: real, refreshAnswer: TokenData,
                              userCode: bool, polls: seq<TokenData>)
    returns (outcome: AuthOutcome, refreshTried: bool, flowStarted: bool, sleeps: nat)
    modifies file
    ensures CachedValid(old(file.stored), now) ==>
              outcome == AccessToken(old(file.stored).value.accessToken.value) &&
              !refreshTried && !flowStarted && sleeps == 0 && file.stored == old(file.stored)
    ensures old(file.stored).Some? && IsTokenValid(old(file.stored).value, now).None? ==>
              outcome == AuthRaised && !refreshTried && !flowStarted && sleeps == 0 && file.stored == old(file.stored)
    ensures refreshTried <==> CachedUnusable(old(file.stored), now) && old(file.stored).Some? &&
                              old(file.stored).value.refreshToken.Some?
    ensures refreshTried && refreshAnswer.accessToken.Some? ==>
              !flowStarted && sleeps == 0 &&
              file.stored == (if Stamped(refreshAnswer, saveTime).Some? then Stamped(refreshAnswer, saveTime) else old(file.stored)) &&
              outcome == (if Stamped(refreshAnswer, saveTime).Some? then AccessToken(refreshAnswer.accessToken.value) else AuthRaised)
    ensures flowStarted <==> CachedUnusable(old(file.stored), now) && !(refreshTried && refreshAnswer.accessToken.Some?)
    ensures flowStarted && !userCode ==> outcome == AuthRaised && sleeps == 0 && file.stored == old(file.stored)
    ensures flowStarted && userCode ==>
              var k := FirstDecisive(polls);
              && sleeps == k
              && (k == |polls| ==> outcome == StillPolling && file.stored == old(file.stored))
              && (k < |polls| && polls[k].accessToken.None? ==> outcome == AuthRaised && file.stored == old(file.stored))
              && (k < |polls| && polls[k].accessToken.Some? ==>
                    file.stored == (if Stamped(polls[k], saveTime).Some? then Stamped(polls[k], saveTime) else old(file.stored)) &&
                    outcome == (if Stamped(polls[k], saveTime).Some? then AccessToken(polls[k].accessToken.value) else AuthRaised))
  {
    refreshTried, flowStarted, sleeps := false, false, 0;
    if file.stored.Some? {
      var valid := IsTokenValid(file.stored.value, now);
      if valid.None? {
        return AuthRaised, false, false, 0;
      }
      if valid.value {
        return AccessToken(file.stored.value.accessToken.value), false, false, 0;
      }
    }
    if file.stored.Some? && file.stored.value.refreshToken.Some? {
      refreshTried := true;
      if refreshAnswer.accessToken.Some? {
        var saved := file.SaveToken(refreshAnswer, saveTime);
        if saved.None? {
          return AuthRaised, refreshTried, false, 0;
        }
        return AccessToken(refreshAnswer.accessToken.value), refreshTried, false, 0;
      }
    }
    flowStarted := true;
    if !userCode {
      return AuthRaised, refreshTried, flowStarted, 0;
    }
    var i := 0;
    while i < |polls|
      invariant 0 <= i <= |polls|
      invariant forall j :: 0 <= j < i ==> IsPending(polls[j])
      invariant sleeps == i && file.stored == old(file.stored)
    {
      var answer := polls[i];
      if answer.accessToken.Some? {
        FirstDecisiveAt(polls, i);
        var saved := file.SaveToken(answer, saveTime);
        if saved.None? {
          return AuthRaised, refreshTried, flowStarted, sleeps;
        }
        return AccessToken(answer.accessToken.value), refreshTried, flowStarted, sleeps;
      } else if answer.error == Some("authorization_pending") {
        sleeps := sleeps + 1;
      } else {
        FirstDecisiveAt(polls, i);
        return AuthRaised, refreshTried, flowStarted, sleeps;
      }
      i := i + 1;
    }
    FirstDecisiveAt(polls, i);
    outcome := StillPolling;
  }

  /** FirstDecisive is the only position with its two defining properties. */
  lemma {:induction false} FirstDecisiveAt(polls: seq<TokenData>, i: nat)
    requires i <= |polls|
    requires forall j :: 0 <= j < i ==> IsPending(polls[j])
    requires i < |polls| ==> !IsPending(polls[i])
    ensures FirstDecisive(polls) == i
  {
    if i > 0 {
      assert IsPending(polls[0]);
      FirstDecisiveAt(polls[1..], i - 1);
    }
  }

  // ----- authenticate_google_photos ----------------------------------------

  /** The three attributes of a Credentials object the script tests. */
  datatype Creds = Creds(valid: bool, expired: bool, hasRefreshToken: bool)

  /** The Google token file: missing, emptied (opened for writing, then the
      write raised), or holding saved credentials. */
  datatype GoogleFile = NoFile | Truncated | Saved(creds: Creds)

  datatype GoogleAuth = Authenticated(creds: Creds) | GoogleRaised

  /** The credentials loaded from the token file; loading an emptied file,
      or any load error (`loadOk` false), is caught and leaves None. */
  function Loaded(content: GoogleFile, loadOk: bool): (r: Option<Creds>)
    ensures r.Some? <==> content.Saved? && loadOk
  {
    if content.Saved? && loadOk then Some(content.creds) else None
  }

  predicate Refreshable(creds: Option<Creds>) {
    creds.Some? && creds.value.expired && creds.value.hasRefreshToken
  }

  /** authenticate_google_photos as written. `refreshed` is the credentials
      after creds.refresh (None: it raised), `flow` the result of the OAuth
      flow (None: it raised). When a refresh fails, creds becomes None and
      the OAuth flow is not started: the token file is opened for writing
      and creds.to_json() then raises, leaving the file emptied. */
  function GoogleAuthAsWritten(content: GoogleFile, loadOk: bool, refreshed: Option<Creds>, flow: Option<Creds>)
    : (r: (GoogleAuth, GoogleFile))
    ensures r.0.Authenticated? ==> r.0.creds.valid
    ensures Loaded(content, loadOk).Some? && Loaded(content, loadOk).value.valid ==>
              r == (Authenticated(Loaded(content, loadOk).value), content)
    ensures r.1 != content ==>
              (r.1 == Truncated ||
               (r.1.Saved? && Some(r.1.creds) == if Refreshable(Loaded(content, loadOk)) then refreshed else flow))
  {
    var creds := Loaded(content, loadOk);
    if creds.Some? && creds.value.valid then (Authenticated(creds.value), content)
    else
      var repaired :=
        if Refreshable(creds) then Success(refreshed)
        else if flow.None? then Failure(())
        else Success(flow);
      if repaired.Failure? then (GoogleRaised, content)
      else if repaired.value.None? then (GoogleRaised, Truncated)
      else if !repaired.value.value.valid then (GoogleRaised, Saved(repaired.value.value))
      else (Authenticated(repaired.value.value), Saved(repaired.value.value))
  }

  /** The refresh-failure path of the source: credentials that are expired
      but refreshable, whose refresh raises, end in an exception with the
      token file emptied, whatever the OAuth flow would have given. */
  lemma RefreshFailureTruncates(content: GoogleFile, loadOk: bool, flow: Option<Creds>)
    requires Refreshable(Loaded(content, loadOk)) && !Loaded(content, loadOk).value.valid
    ensures GoogleAuthAsWritten(content, loadOk, None, flow) == (GoogleRaised, Truncated)
  {
  }

  /** A concrete instance: a saved, expired, refreshable credential whose
      refresh fails, with an OAuth flow that would have succeeded. */
  lemma RefreshFailureIgnoresWorkingFlow()
    ensures var stale := Creds(false, true, true);
            GoogleAuthAsWritten(Saved(stale), true, None, Some(Creds(true, false, true))) == (GoogleRaised, Truncated)
  {
  }

  /** The evidently intended reading of the comment at the refresh: a failed
      refresh falls back to the OAuth flow. */
  function GoogleAuthRetrying(content: GoogleFile, loadOk: bool, refreshed: Option<Creds>, flow: Option<Creds>)
    : (r: (GoogleAuth, GoogleFile))
    ensures r.0.Authenticated? ==> r.0.creds.valid
    ensures r.1 == Truncated ==> content == Truncated
    ensures Loaded(content, loadOk).Some? && Loaded(content, loadOk).value.valid ==>
              r == (Authenticated(Loaded(content, loadOk).value), content)
  {
    var creds := Loaded(content, loadOk);
    if creds.Some? && creds.value.valid then (Authenticated(creds.value), content)
    else
      var repaired := if Refreshable(creds) && refreshed.Some? then refreshed else flow;
      if repaired.None? then (GoogleRaised, content)
      else if !repaired.value.valid then (GoogleRaised, Saved(repaired.value))
      else (Authenticated(repaired.value), Saved(repaired.value))
  }

  /** With the fallback, a failed refresh followed by a working OAuth flow
      signs in with the flow's credentials and saves them; otherwise the
      two versions agree. */
  lemma RetryingRefreshFailureRunsFlow(content: GoogleFile, loadOk: bool, refreshed: Option<Creds>, flow: Option<Creds>)
    ensures Refreshable(Loaded(content, loadOk)) && !Loaded(content, loadOk).value.valid &&
            refreshed.None? && flow.Some? && flow.value.valid ==>
              GoogleAuthRetrying(content, loadOk, refreshed, flow) == (Authenticated(flow.value), Saved(flow.value))
    ensures !(Refreshable(Loaded(content, loadOk)) && refreshed.None?) ==>
              GoogleAuthRetrying(content, loadOk, refreshed, flow) == GoogleAuthAsWritten(content, loadOk, refreshed, flow)
  {
  }

  /** The Google token file as an object the sign-in writes. */
  class GoogleTokenFile {
    var content: GoogleFile

    constructor (initial: GoogleFile)
      ensures content == initial
    {
      content := initial;
    }

    /** authenticate_google_photos, step by step. Valid loaded credentials
        are returned with no write; a refresh is tried only for expired
        credentials with a refresh token; the call raises unless the final
        credentials are valid. */
    method AuthenticateGooglePhotos(loadOk: bool, refreshed: Option<Creds>, flow: Option<Creds>)
      returns (outcome: GoogleAuth, refreshTried: bool, flowRun: bool)
      modifies this
      ensures (outcome, content) == GoogleAuthAsWritten(old(content), loadOk, refreshed, flow)
      ensures refreshTried <==> !(Loaded(old(content), loadOk).Some? && Loaded(old(content), loadOk).value.valid) &&
                                Refreshable(Loaded(old(content), loadOk))
      ensures flowRun <==> !(Loaded(old(content), loadOk).Some? && Loaded(old(content), loadOk).value.valid) && !refreshTried
    {
      var creds := Loaded(content, loadOk);
      refreshTried, flowRun := false, false;
      if creds.None? || !creds.value.valid {
        if creds.Some? && creds.value.expired && creds.value.hasRefreshToken {
          refreshTried := true;
          creds := refreshed;
        } else {
          flowRun := true;
          if flow.None? {
            return GoogleRaised, refreshTried, flowRun;
          }
          creds := flow;
        }
        if creds.None? {
          content := Truncated;
          return GoogleRaised, refreshTried, flowRun;
        }
        content := Saved(creds.value);
      }
      if creds.None? || !creds.value.valid {
        return GoogleRaised, refreshTried, flowRun;
      }
      outcome := Authenticated(creds.value);
    }
  }

  // ----- get_user_id_in_tenant ---------------------------------------------

  datatype User = User(id: string, userPrincipalName: string)

  datatype UserLookupError = UsersNotListed(status: int) | UserNotFound

  /** userPrincipalName.lower() == user_name.lower(). */
  predicate NameMatches(u: User, name: string) {
    Lower(u.userPrincipalName) == Lower(name)
  }

  /** get_user_id_in_tenant: the id of the first listed user whose principal
      name equals `name` ignoring case. A status other than 200 raises, and
      so does a listing with no match. */
  method GetUserIdInTenant(status: int, value: Option<seq<User>>, name: string)
    returns (r: Result<string, UserLookupError>)
    ensures status != 200 ==> r == Failure(UsersNotListed(status))
    ensures status == 200 ==>
              var users := value.GetOr([]);
              && (r.Success? <==> exists k :: 0 <= k < |users| && NameMatches(users[k], name))
              && (r.Failure? ==> r.error == UserNotFound)
              && (r.Success? ==> exists k :: 0 <= k < |users| && NameMatches(users[k], name) &&
                                            users[k].id == r.value &&
                                            forall j :: 0 <= j < k ==> !NameMatches(users[j], name))
  {
    if status != 200 {
      return Failure(UsersNotListed(status));
    }
    var users := value.GetOr([]);
    var i := 0;
    while i < |users|
      invariant 0 <= i <= |users|
      invariant forall j :: 0 <= j < i ==> !NameMatches(users[j], name)
    {
      if Lower(users[i].userPrincipalName) == Lower(name) {
        return Success(users[i].id);
      }
      i := i + 1;
    }
    return Failure(UserNotFound);
  }

  /** Matching ignores the case of both names: two spellings that differ
      only in case pick the same user. */
  lemma NameMatchIgnoresCase(u: User, a: string, b: string)
    requires Lower(a) == Lower(b)
    ensures NameMatches(u, a) <==> NameMatches(u, b)
  {
  }

  // ----- find_google_photos_album_by_name ----------------------------------

  /** find_google_photos_album_by_name: only the first page is read; the
      first album titled exactly `name` gives its id; an untitled album met
      first raises (KeyError); otherwise None. */
  method FindAlbumByName(firstPage: Option<seq<Album>>, name: string) returns (r: TitleSearch)
    ensures r == FirstTitleMatch(firstPage.GetOr([]), name)
  {
    var albums := firstPage.GetOr([]);
    var i := 0;
    while i < |albums|
      invariant 0 <= i <= |albums|
      invariant FirstTitleMatch(albums, name) == FirstTitleMatch(albums[i..], name)
    {
      assert albums[i..][0] == albums[i] && albums[i..][1..] == albums[i + 1..];
      if albums[i].title.None? {
        return Raised;
      }
      if albums[i].title.value == name {
        return Found(albums[i].id);
      }
      i := i + 1;
    }
    assert albums[i..] == [];
    return NoMatch;
  }

  // ----- main --------------------------------------------------------------

  /** One entry under the listing's 'value'. */
  datatype DriveFile = DriveFile(id: string, name: string)

  /** The JSON object the listing returns: its keys in order, and the
      files under 'value'. */
  datatype ListingBody = ListingBody(keys: seq<string>, value: seq<DriveFile>)

  /** What `for file in files` walks over as written: files is the parsed
      JSON object, so the walk goes over its keys, and `file['name']` on a
      key string raises TypeError at the first step. */
  function WalkAsWritten(body: ListingBody): (r: Result<seq<DriveFile>, string>)
    ensures r.Success? <==> body.keys == []
    ensures r.Success? ==> r.value == []
  {
    if body.keys == [] then Success([]) else Failure("TypeError")
  }

  /** Every listing that carries its files under 'value' makes the walk fail
      before any file is looked at; one without keys walks over nothing. So
      as written no file is ever uploaded or deleted. */
  lemma ListingWalkNeverReachesFiles(body: ListingBody)
    ensures "value" in body.keys ==> WalkAsWritten(body).Failure?
    ensures WalkAsWritten(body).Success? ==> WalkAsWritten(body).value == []
  {
  }

  /** The evidently intended walk: over the files under 'value'. */
  function Walk(body: ListingBody): (r: seq<DriveFile>)
    ensures |r| == |body.value| && forall k :: 0 <= k < |r| ==> r[k] == body.value[k]
  {
    body.value
  }

  /** `file['name'].lower().endswith('.png')`. */
  predicate IsPng(name: string) {
    EndsWith(Lower(name), ".png")
  }

  /** The names of the PNG files, in listing order. */
  function PngNames(files: seq<DriveFile>): (r: seq<string>)
    ensures |r| <= |files|
  {
    if files == [] then []
    else (if IsPng(files[0].name) then [files[0].name] else []) + PngNames(files[1..])
  }

  function Ids(files: seq<DriveFile>): (r: seq<string>)
    ensures |r| == |files| && forall k :: 0 <= k < |files| ==> r[k] == files[k].id
  {
    if files == [] then [] else [files[0].id] + Ids(files[1..])
  }

  /** A name is uploaded exactly when it is the name of a listed PNG file. */
  lemma {:induction false} PngNamesMembers(files: seq<DriveFile>)
    ensures forall n :: n in PngNames(files) <==> exists k :: 0 <= k < |files| && files[k].name == n && IsPng(n)
  {
    if files != [] {
      PngNamesMembers(files[1..]);
      assert forall k :: 0 < k < |files| ==> files[k] == files[1..][k - 1];
    }
  }

  lemma PngNamesStep(files: seq<DriveFile>, i: nat)
    requires i < |files|
    ensures PngNames(files[i..]) == (if IsPng(files[i].name) then [files[i].name] else []) + PngNames(files[i + 1..])
  {
    assert files[i..][0] == files[i] && files[i..][1..] == files[i + 1..];
  }

  function Members(s: seq<string>): (r: set<string>)
    ensures forall n :: n in r <==> n in s
  {
    set n | n in s
  }

  /** The remote and local effects of the script. */
  class TransferEnv {
    var uploaded: seq<string>
    var deleted: seq<string>
    var local: set<string>

    constructor (files: set<string>)
      ensures uploaded == [] && deleted == [] && local == files
    {
      uploaded, deleted, local := [], [], files;
    }

    /** Step 5 and 6 of main over the files walked: every PNG, in any case,
        is downloaded to a file named after it, uploaded and removed; then
        every listed file, PNG or not, is deleted from OneDrive (a failed
        delete is only printed). `uploadOk[k]` is false when the upload of
        file k raises, which ends the run with its file left behind and
        nothing deleted. */
    method UploadThenPurge(files: seq<DriveFile>, uploadOk: seq<bool>) returns (completed: bool)
      requires |uploadOk| == |files|
      modifies this
      ensures completed <==> PngsUploaded(files, uploadOk)
      ensures completed ==> uploaded == old(uploaded) + PngNames(files) && deleted == old(deleted) + Ids(files)
      ensures completed ==> local == old(local) - Members(PngNames(files))
      ensures !completed ==>
                (deleted == old(deleted) &&
                 exists k :: 0 <= k < |files| && IsPng(files[k].name) && !uploadOk[k] &&
                             (forall j :: 0 <= j < k && IsPng(files[j].name) ==> uploadOk[j]) &&
                             uploaded == old(uploaded) + PngNames(files[..k]) &&
                             local == (old(local) - Members(PngNames(files[..k]))) + {files[k].name})
    {
      completed := UploadPngs(files, uploadOk);
      if completed {
        DeleteFilesFromOneDrive(files);
      }
    }

    /** Step 5 of main: the PNG files in listing order, each downloaded,
        uploaded and removed, the first failed upload ending the loop with
        its file left behind. */
    method UploadPngs(files: seq<DriveFile>, uploadOk: seq<bool>) returns (completed: bool)
      requires |uploadOk| == |files|
      modifies this
      ensures completed <==> PngsUploaded(files, uploadOk)
      ensures deleted == old(deleted)
      ensures completed ==> uploaded == old(uploaded) + PngNames(files) && local == old(local) - Members(PngNames(files))
      ensures !completed ==>
                exists k :: 0 <= k < |files| && IsPng(files[k].name) && !uploadOk[k] &&
                            UploadedBefore(files, uploadOk, k) &&
                            uploaded == old(uploaded) + PngNames(files[..k]) &&
                            local == (old(local) - Members(PngNames(files[..k]))) + {files[k].name}
    {
      var i := 0;
      while i < |files|
        invariant 0 <= i <= |files|
        invariant UploadedBefore(files, uploadOk, i)
        invariant uploaded == old(uploaded) + PngNames(files[..i]) && deleted == old(deleted)
        invariant local == old(local) - Members(PngNames(files[..i]))
      {
        PngNamesPrefix(files, i);
        var name := files[i].name;
        if IsPng(name) {
          local := local + {name};
          if !uploadOk[i] {
            return false;
          }
          uploaded := uploaded + [name];
          RemovedAfterUpload(old(local), Members(PngNames(files[..i])), name);
          local := local - {name};
        }
        i := i + 1;
      }
      assert files[..i] == files;
      completed := true;
    }

    /** A file written and then removed leaves the other local files as
        they were. */
    static lemma RemovedAfterUpload(files: set<string>, gone: set<string>, name: string)
      ensures (files - gone) + {name} - {name} == files - (gone + {name})
    {
    }

    /** delete_files_from_onedrive: every listed file, PNG or not, in order;
        a failed delete is only printed. */
    method DeleteFilesFromOneDrive(files: seq<DriveFile>)
      modifies this
      ensures deleted == old(deleted) + Ids(files)
      ensures uploaded == old(uploaded) && local == old(local)
    {
      var d := 0;
      while d < |files|
        invariant 0 <= d <= |files|
        invariant deleted == old(deleted) + Ids(files[..d])
        invariant uploaded == old(uploaded) && local == old(local)
      {
        IdsPrefix(files, d);
        deleted := deleted + [files[d].id];
        d := d + 1;
      }
      assert files[..d] == files;
    }
  }

  lemma PngNamesPrefix(files: seq<DriveFile>, i: nat)
    requires i < |files|
    ensures PngNames(files[..i + 1]) == PngNames(files[..i]) + (if IsPng(files[i].name) then [files[i].name] else [])
    ensures Members(PngNames(files[..i + 1])) ==
              Members(PngNames(files[..i])) + (if IsPng(files[i].name) then {files[i].name} else {})
  {
    assert files[..i + 1] == files[..i] + [files[i]];
    PngNamesConcat(files[..i], [files[i]]);
    assert [files[i]][1..] == [];
    MembersConcat(PngNames(files[..i]), PngNames([files[i]]));
  }

  lemma {:induction false} PngNamesConcat(a: seq<DriveFile>, b: seq<DriveFile>)
    ensures PngNames(a + b) == PngNames(a) + PngNames(b)
    decreases |a|
  {
    if a != [] {
      assert (a + b)[0] == a[0] && (a + b)[1..] == a[1..] + b;
      PngNamesConcat(a[1..], b);
    } else {
      assert a + b == b;
    }
  }

  lemma MembersConcat(a: seq<string>, b: seq<string>)
    ensures Members(a + b) == Members(a) + Members(b)
  {
    assert forall n :: n in a + b <==> n in a || n in b;
  }

  lemma IdsPrefix(files: seq<DriveFile>, d: nat)
    requires d < |files|
    ensures Ids(files[..d + 1]) == Ids(files[..d]) + [files[d].id]
  {
  }

  /** How main ends. */
  datatype MainOutcome = Done | Failed(step: MainStep)

  /** The step whose exception ends main. */
  datatype MainStep = OneDriveSignIn | UserLookup | GoogleSignIn | AlbumLookup | Listing | Upload

  /** The user lookup succeeds: the listing answered 200 and holds a user
      whose principal name matches ignoring case. */
  predicate UserListed(status: int, users: Option<seq<User>>, name: string) {
    status == 200 && exists k :: 0 <= k < |users.GetOr([])| && NameMatches(users.GetOr([])[k], name)
  }

  /** Every PNG file of the walk uploads without raising. */
  predicate PngsUploaded(files: seq<DriveFile>, uploadOk: seq<bool>)
    requires |uploadOk| == |files|
  {
    UploadedBefore(files, uploadOk, |files|)
  }

  /** Every PNG file before index i uploads without raising. */
  predicate UploadedBefore(files: seq<DriveFile>, uploadOk: seq<bool>, i: nat)
    requires i <= |uploadOk| == |files|
  {
    forall k :: 0 <= k < i && IsPng(files[k].name) ==> uploadOk[k]
  }

  /** The album check of main: `if not album_id` raises on None and "". */
  predicate AlbumUsable(r: TitleSearch) {
    r.Found? && r.id != ""
  }

  /** main, with the listing walked over its 'value' files: sign in to
      OneDrive, find the user, sign in to Google, find the album (aborting
      on None), list the folder (any status but 200 raises), then upload
      and purge. A OneDrive sign-in still polling when the supplied
      device-flow answers run out is reported as a failed sign-in: the
      source raises nothing there and would go on polling, so the run
      never gets past its first step. */
  method RunMain(env: TransferEnv, oneDrive: AuthOutcome, userStatus: int, users: Option<seq<User>>,
                 principal: string, google: GoogleAuth, firstPage: Option<seq<Album>>, albumName: string,
                 listStatus: int, body: ListingBody, uploadOk: seq<bool>)
    returns (outcome: MainOutcome)
    requires |uploadOk| == |body.value|
    modifies env
    ensures outcome == (if !oneDrive.AccessToken? then Failed(OneDriveSignIn)
                        else if !UserListed(userStatus, users, principal) then Failed(UserLookup)
                        else if !google.Authenticated? then Failed(GoogleSignIn)
                        else if !AlbumUsable(FirstTitleMatch(firstPage.GetOr([]), albumName)) then Failed(AlbumLookup)
                        else if listStatus != 200 then Failed(Listing)
                        else if !PngsUploaded(body.value, uploadOk) then Failed(Upload)
                        else Done)
    ensures outcome == Done ==>
              env.uploaded == old(env.uploaded) + PngNames(body.value) &&
              env.deleted == old(env.deleted) + Ids(body.value) &&
              env.local == old(env.local) - Members(PngNames(body.value))
    ensures outcome != Done && outcome != Failed(Upload) ==>
              env.uploaded == old(env.uploaded) && env.deleted == old(env.deleted) && env.local == old(env.local)
    ensures outcome == Failed(Upload) ==>
              var files := body.value;
              && env.deleted == old(env.deleted)
              && exists k :: 0 <= k < |files| && IsPng(files[k].name) && !uploadOk[k] &&
                             (forall j :: 0 <= j < k && IsPng(files[j].name) ==> uploadOk[j]) &&
                             env.uploaded == old(env.uploaded) + PngNames(files[..k]) &&
                             env.local == (old(env.local) - Members(PngNames(files[..k]))) + {files[k].name}
  {
    if !oneDrive.AccessToken? {
      return Failed(OneDriveSignIn);
    }
    var user := GetUserIdInTenant(userStatus, users, principal);
    if user.Failure? {
      return Failed(UserLookup);
    }
    if !google.Authenticated? {
      return Failed(GoogleSignIn);
    }
    var album := FindAlbumByName(firstPage, albumName);
    if !AlbumUsable(album) {
      return Failed(AlbumLookup);
    }
    if listStatus != 200 {
      return Failed(Listing);
    }
    var completed := env.UploadThenPurge(Walk(body), uploadOk);
    if !completed {
      return Failed(Upload);
    }
    outcome := Done;
  }
}
