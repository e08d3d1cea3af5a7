/**
 * The REST endpoints of the Drive integration (`Drive_API`): saving the OAuth
 * client credentials, the OAuth start and callback, the token check every
 * Drive operation runs first, and the four Drive operations up to and around
 * their remote calls.
 *
 * Each endpoint is a method of `DriveApi` that works step by step on the
 * object's client fields and on the options table, and is proved equal to a
 * function of the request, the stored rows and Google's answers.
 */
module DriveRest {
  import opened Php
  import opened WordPress
  import opened GoogleApi
  import opened TokenLifecycle

  const DefaultPageSize := 20
  const DefaultQuery := "trashed=false"
  const MaxUploadSize := 10 * 1024 * 1024
  const UploadErrOk := 0
  const ListFields := "files(id,name,mimeType,size,modifiedTime,webViewLink),nextPageToken"
  const UploadFields := "id,name,mimeType,size,webViewLink"
  const MetadataFields := "id,name,mimeType,size"
  const FolderFields := "id,name,mimeType,webViewLink"

  /** One entry of `$_FILES` as `get_file_params` hands it over. */
  datatype UploadedFile = UploadedFile(name: string, mimeType: string, tmpName: string, error: int, size: int)

  /** A REST request: its parameters, and the uploaded `file` entry when there is a non-empty one. */
  datatype Request = Request(params: map<string, Value>, file: Option<UploadedFile>)

  /** `$request->get_param($name)`: null when absent. */
  function Param(req: Request, name: string): Value {
    if name in req.params then req.params[name] else Null
  }

  /** The `data` of a successful response (its `success => true` is implied). */
  datatype Body =
    | Saved(message: string)
    | AuthUrl(url: string)
    | FileList(files: seq<Value>, nextPageToken: Value)
    | Uploaded(file: Value)
    | Downloaded(content: string, filename: Value, mimeType: Value, size: Value)
    | FolderCreated(folder: Value)

  /** A `WP_REST_Response`, or a `WP_Error` with its code, message and HTTP status. */
  datatype Response = Ok(body: Body) | Error(code: string, message: string, status: int)

  /** What an operation answered and which remote calls it made, in order. */
  datatype Handled = Handled(resp: Response, calls: seq<RemoteCall>)

  const NoAccessToken := Error("no_access_token", "Not authenticated with Google Drive", 401)

  /** The auth preamble: a refused token check answers 401 and the operation does not run. */
  function Authorized(c: Check, op: Handled): (r: Handled)
    // refused: 401, and nothing of the operation happens
    ensures !c.ok ==> r.resp == NoAccessToken && r.calls == c.calls
    // accepted: the operation's answer, its calls after those of the check
    ensures c.ok ==> r.resp == op.resp && r.calls == c.calls + op.calls
  {
    if c.ok then Handled(op.resp, c.calls + op.calls) else Handled(NoAccessToken, c.calls)
  }

  // ---------------------------------------------------------------- list_files

  /** `absint(page_size) ?: 20`. */
  function PageSize(h: Host, v: Value): (r: nat)
    ensures r >= 1
    ensures IntVal(h, v) == 0 ==> r == DefaultPageSize
    ensures IntVal(h, v) != 0 ==> r == Abs(IntVal(h, v))
  {
    var n := AbsInt(h, v);
    if n == 0 then DefaultPageSize else n
  }

  /** The options `list_files` passes to `files->listFiles`. */
  function ListOptionsFor(req: Request, h: Host): (o: ListOptions)
    ensures o.pageSize == PageSize(h, Param(req, "page_size"))
    ensures var q := SanitizeTextField(h, Param(req, "query"));
      o.q == if EmptyString(q) then DefaultQuery else q
    ensures o.fields == ListFields
    ensures var t := SanitizeTextField(h, Param(req, "page_token"));
      (o.pageToken.Some? <==> !EmptyString(t)) && (o.pageToken.Some? ==> o.pageToken.value == t)
  {
    var pageToken := SanitizeTextField(h, Param(req, "page_token"));
    var query := SanitizeTextField(h, Param(req, "query"));
    ListOptions(
      PageSize(h, Param(req, "page_size")),
      if EmptyString(query) then DefaultQuery else query,
      ListFields,
      if EmptyString(pageToken) then None else Some(pageToken))
  }

  /** One element of the `files` list of the response. */
  function ListEntry(f: DriveFile): Value {
    Arr([("id", f.id), ("name", f.name), ("mimeType", f.mimeType), ("size", f.size),
         ("modifiedTime", f.modifiedTime), ("webViewLink", f.webViewLink)])
  }

  /** The `files` list for a page of results. */
  function ListEntries(files: seq<DriveFile>): (r: seq<Value>)
    ensures |r| == |files|
    ensures forall i :: 0 <= i < |files| ==> r[i] == ListEntry(files[i])
  {
    seq(|files|, i requires 0 <= i < |files| => ListEntry(files[i]))
  }

  /** The foreach of `list_files`: one entry per listed file, in the listed order. */
  method DescribeFiles(files: seq<DriveFile>) returns (list: seq<Value>)
    ensures |list| == |files|
    ensures forall i :: 0 <= i < |files| ==> list[i] == ListEntry(files[i])
  {
    list := [];
    for i := 0 to |files|
      invariant |list| == i
      invariant forall j :: 0 <= j < i ==> list[j] == ListEntry(files[j])
    {
      list := list + [ListEntry(files[i])];
    }
  }

  /** `list_files` after its auth preamble. */
  function ListFilesOp(req: Request, h: Host, g: Google): (r: Handled)
    ensures r.calls == [ListCall(ListOptionsFor(req, h))]
    ensures r.resp.Ok? <==> g.listFiles(ListOptionsFor(req, h)).Listed?
    ensures r.resp.Ok? ==>
      var l := g.listFiles(ListOptionsFor(req, h));
      r.resp.body == FileList(ListEntries(l.files), l.nextPageToken)
    ensures g.listFiles(ListOptionsFor(req, h)).ListThrew? ==>
      r.resp == Error("api_error", g.listFiles(ListOptionsFor(req, h)).message, 500)
  {
    var o := ListOptionsFor(req, h);
    var resp :=
      match g.listFiles(o)
      case ListThrew(m) => Error("api_error", m, 500)
      case Listed(files, next) => Ok(FileList(ListEntries(files), next));
    Handled(resp, [ListCall(o)])
  }

  // --------------------------------------------------------------- upload_file

  /** The checks of `upload_file`, in their order; `None` lets the upload go ahead. */
  function UploadCheck(file: Option<UploadedFile>): (r: Option<Response>)
    ensures r.None? <==> file.Some? && file.value.error == UploadErrOk && file.value.size <= MaxUploadSize
    ensures r.Some? ==> r.value.Error? && r.value.status == 400
    ensures file.None? ==> r == Some(Error("no_file", "No file provided", 400))
    ensures file.Some? && file.value.error != UploadErrOk ==>
      r == Some(Error("upload_error", "File upload error: " + Decimal(file.value.error), 400))
    ensures file.Some? && file.value.error == UploadErrOk && file.value.size > MaxUploadSize ==>
      r == Some(Error("file_too_large", "File size exceeds 10MB limit", 400))
  {
    if file.None? then Some(Error("no_file", "No file provided", 400))
    else if file.value.error != UploadErrOk then
      Some(Error("upload_error", "File upload error: " + Decimal(file.value.error), 400))
    else if file.value.size > MaxUploadSize then
      Some(Error("file_too_large", "File size exceeds 10MB limit", 400))
    else None
  }

  /** The multipart create request for an accepted upload. */
  function UploadRequest(h: Host, f: UploadedFile): CreateRequest {
    CreateRequest(h.sanitizeFileName(f.name), None, Some(Media(f.tmpName, f.mimeType, "multipart")), UploadFields)
  }

  function UploadEntry(f: DriveFile): Value {
    Arr([("id", f.id), ("name", f.name), ("mimeType", f.mimeType), ("size", f.size), ("webViewLink", f.webViewLink)])
  }

  /** `upload_file` after its auth preamble. */
  function UploadOp(req: Request, h: Host, g: Google): (r: Handled)
    ensures UploadCheck(req.file).Some? ==> r == Handled(UploadCheck(req.file).value, [])
    ensures UploadCheck(req.file).None? ==>
      var cr := UploadRequest(h, req.file.value);
      && r.calls == [CreateCall(cr)]
      && (r.resp.Ok? <==> g.create(cr).Got?)
      && (r.resp.Ok? ==> r.resp.body == Uploaded(UploadEntry(g.create(cr).file)))
      && (r.resp.Error? ==> r.resp == Error("upload_failed", g.create(cr).message, 500))
  {
    match UploadCheck(req.file)
    case Some(err) => Handled(err, [])
    case None =>
      var cr := UploadRequest(h, req.file.value);
      var resp :=
        match g.create(cr)
        case FileThrew(m) => Error("upload_failed", m, 500)
        case Got(f) => Ok(Uploaded(UploadEntry(f)));
      Handled(resp, [CreateCall(cr)])
  }

  // ------------------------------------------------------------- download_file

  /** `download_file` after its auth preamble: metadata first, then the content. */
  function DownloadOp(req: Request, h: Host, g: Google): (r: Handled)
    ensures var id := SanitizeTextField(h, Param(req, "file_id"));
      && (EmptyString(id) <==> r.calls == [])
      && (EmptyString(id) ==> r.resp == Error("missing_file_id", "File ID is required", 400))
      && (r.resp.Ok? <==> !EmptyString(id) && g.metadata(id, MetadataFields).Got? && g.media(id).Body?)
      && (r.resp.Ok? ==>
            var meta := g.metadata(id, MetadataFields).file;
            && r.calls == [MetadataCall(id, MetadataFields), MediaCall(id)]
            && r.resp.body == Downloaded(g.media(id).content, meta.name, meta.mimeType, meta.size))
      // the content is fetched only after the metadata came back
      && (MediaCall(id) in r.calls ==> !EmptyString(id) && g.metadata(id, MetadataFields).Got?)
      // either fetch throwing answers `download_failed` with the exception's message
      && (!EmptyString(id) && g.metadata(id, MetadataFields).FileThrew? ==>
            r == Handled(Error("download_failed", g.metadata(id, MetadataFields).message, 500),
                         [MetadataCall(id, MetadataFields)]))
      && (!EmptyString(id) && g.metadata(id, MetadataFields).Got? && g.media(id).MediaThrew? ==>
            r == Handled(Error("download_failed", g.media(id).message, 500),
                         [MetadataCall(id, MetadataFields), MediaCall(id)]))
  {
    var id := SanitizeTextField(h, Param(req, "file_id"));
    if EmptyString(id) then Handled(Error("missing_file_id", "File ID is required", 400), [])
    else
      var metaCall := MetadataCall(id, MetadataFields);
      match g.metadata(id, MetadataFields)
      case FileThrew(m) => Handled(Error("download_failed", m, 500), [metaCall])
      case Got(meta) =>
        match g.media(id)
        case MediaThrew(m) => Handled(Error("download_failed", m, 500), [metaCall, MediaCall(id)])
        case Body(content) =>
          Handled(Ok(Downloaded(content, meta.name, meta.mimeType, meta.size)), [metaCall, MediaCall(id)])
  }

  // ------------------------------------------------------------- create_folder

  function FolderRequest(name: string): CreateRequest {
    CreateRequest(name, Some(FolderMimeType), None, FolderFields)
  }

  function FolderEntry(f: DriveFile): Value {
    Arr([("id", f.id), ("name", f.name), ("mimeType", f.mimeType), ("webViewLink", f.webViewLink)])
  }

  /** `create_folder` after its auth preamble. */
  function CreateFolderOp(req: Request, h: Host, g: Google): (r: Handled)
    ensures var name := SanitizeTextField(h, Param(req, "name"));
      && (EmptyString(name) ==> r == Handled(Error("missing_name", "Folder name is required", 400), []))
      && (!EmptyString(name) ==> r.calls == [CreateCall(FolderRequest(name))])
      && (r.resp.Ok? <==> !EmptyString(name) && g.create(FolderRequest(name)).Got?)
      && (r.resp.Ok? ==> r.resp.body == FolderCreated(FolderEntry(g.create(FolderRequest(name)).file)))
      && (!EmptyString(name) && g.create(FolderRequest(name)).FileThrew? ==>
            r.resp == Error("create_failed", g.create(FolderRequest(name)).message, 500))
    // a folder is created with the folder mime type and a non-empty name, never with content
    ensures forall c <- r.calls ::
      && c.CreateCall?
      && c.request.mimeType == Some(FolderMimeType)
      && !EmptyString(c.request.name)
      && c.request.media.None?
  {
    var name := SanitizeTextField(h, Param(req, "name"));
    if EmptyString(name) then Handled(Error("missing_name", "Folder name is required", 400), [])
    else
      var cr := FolderRequest(name);
      var resp :=
        match g.create(cr)
        case FileThrew(m) => Error("create_failed", m, 500)
        case Got(f) => Ok(FolderCreated(FolderEntry(f)));
      Handled(resp, [CreateCall(cr)])
  }

  // -------------------------------------------------------------------- class

  class DriveApi {
    const options: Options
    const host: Host
    const redirectUri: string
    var client: Option<GoogleClient>
    var driveService: Option<DriveService>

    /** A Drive service exists exactly when a client does, and is built over it. */
    ghost predicate Valid()
      reads this
    {
      && (client.Some? <==> driveService.Some?)
      && (client.Some? ==> driveService.value.client == client.value)
    }

    /** `init`: remember the redirect URI and set the client up from the stored rows. */
    constructor (options: Options, host: Host, redirectUri: string)
      ensures this.options == options && this.host == host && this.redirectUri == redirectUri
      ensures Valid()
      ensures client == SetupClient(None, options.View(), redirectUri, host)
    {
      this.options := options;
      this.host := host;
      this.redirectUri := redirectUri;
      client := None;
      driveService := None;
      new;
      SetupGoogleClient();
    }

    /** `setup_google_client`. */
    method SetupGoogleClient()
      requires Valid()
      modifies this
      ensures Valid()
      ensures client == SetupClient(old(client), options.View(), redirectUri, host)
      ensures client == old(client) ==> driveService == old(driveService)
    {
      var creds := options.credentials.GetOr(Arr([]));
      if IsEmpty(Index(creds, "client_id")) || IsEmpty(Index(creds, "client_secret")) {
        return;
      }
      var c := GoogleClient(SanitizeTextField(host, Index(creds, "client_id")),
                            SanitizeTextField(host, Index(creds, "client_secret")),
                            "", [], "", "", None);
      c := c.(redirectUri := redirectUri);
      c := c.(scopes := [DriveFileScope, DriveReadonlyScope]);
      c := c.(accessType := "offline");
      c := c.(prompt := "consent");
      var accessToken := options.accessToken.GetOr(Str(""));
      if !IsEmpty(accessToken) && accessToken.Arr? {
        c := c.(accessToken := Some(accessToken));
      }
      client := Some(c);
      driveService := Some(DriveService(c));
    }

    /** `save_credentials`. */
    method SaveCredentials(req: Request) returns (resp: Response)
      requires Valid()
      modifies this, options
      ensures Valid()
      ensures var id := SanitizeTextField(host, Param(req, "client_id"));
              var secret := SanitizeTextField(host, Param(req, "client_secret"));
        && (EmptyString(id) || EmptyString(secret) ==>
              && resp == Error("missing_credentials", "Client ID and Client Secret are required", 400)
              && options.View() == old(options.View())
              && client == old(client))
        && (!EmptyString(id) && !EmptyString(secret) ==>
              && resp == Ok(Saved("Credentials saved successfully"))
              && options.View() == old(options.View()).(credentials := Some(CredentialsArray(id, secret)))
              && client == SetupClient(old(client), options.View(), redirectUri, host)
              && client.Some?
              && client.value.clientId == host.sanitizeTextField(id)
              && client.value.clientSecret == host.sanitizeTextField(secret))
    {
      var id := SanitizeTextField(host, Param(req, "client_id"));
      var secret := SanitizeTextField(host, Param(req, "client_secret"));
      if EmptyString(id) || EmptyString(secret) {
        return Error("missing_credentials", "Client ID and Client Secret are required", 400);
      }
      options.UpdateCredentials(CredentialsArray(id, secret));
      SetupGoogleClient();
      resp := Ok(Saved("Credentials saved successfully"));
    }

    /** `start_auth`: the consent URL, once a client exists. */
    method StartAuth(g: Google) returns (resp: Response)
      requires Valid()
      ensures client.None? ==> resp == Error("missing_credentials", "Google OAuth credentials not configured", 400)
      ensures client.Some? && g.authUrl.Url? ==> resp == Ok(AuthUrl(g.authUrl.url))
      ensures client.Some? && g.authUrl.UrlThrew? ==> resp == Error("auth_error", g.authUrl.message, 500)
    {
      if client.None? {
        return Error("missing_credentials", "Google OAuth credentials not configured", 400);
      }
      match g.authUrl
      case UrlThrew(m) => resp := Error("auth_error", m, 500);
      case Url(u) => resp := Ok(AuthUrl(u));
    }

    /** `handle_callback`; the source calls the client without checking that it exists. */
    method HandleCallback(req: Request, now: nat, g: Google) returns (end: CallbackEnd, calls: seq<RemoteCall>)
      requires Valid() && client.Some?
      modifies options
      ensures var r := Callback(old(options.View()), SanitizeTextField(host, Param(req, "code")),
                                SanitizeTextField(host, Param(req, "error")), now, g.exchange);
        end == r.end && options.View() == r.slots && calls == r.calls
    {
      var code := SanitizeTextField(host, Param(req, "code"));
      var error := SanitizeTextField(host, Param(req, "error"));
      if !EmptyString(error) {
        return Die(AuthorizationFailed(error)), [];
      }
      if EmptyString(code) {
        return Die(NoCode), [];
      }
      calls := [ExchangeCall(code)];
      match g.exchange(code)
      case Threw(m) =>
        end := Die(ExchangeThrew(m));
      case Returned(accessToken) =>
        if IsSet(Arr(accessToken), "error") {
          end := Die(ExchangeRejected(RejectionText(accessToken)));
          return;
        }
        options.UpdateAccessToken(Arr(accessToken));
        if IsSet(Arr(accessToken), "refresh_token") {
          options.UpdateRefreshToken(Index(Arr(accessToken), "refresh_token"));
        }
        options.UpdateTokenExpires(now + ExpiresIn(accessToken));
        end := Redirect(SuccessRedirect);
    }

    /** `ensure_valid_token`: at most one refresh, written back only when it succeeds. */
    method EnsureValidToken(now: nat, g: Google) returns (ok: bool, calls: seq<RemoteCall>)
      requires Valid()
      modifies options
      ensures Valid()
      // after a successful check the Drive service the operations go through exists
      ensures ok ==> client.Some? && driveService.Some?
      ensures var c := TokenCheck(client.Some?, g.accessTokenExpired, old(options.View()), now, g.refresh);
        ok == c.ok && options.View() == c.slots && calls == c.calls
    {
      if client.None? {
        return false, [];
      }
      if g.accessTokenExpired {
        var refreshToken := options.refreshToken.GetOr(Bool(false));
        if IsEmpty(refreshToken) {
          return false, [];
        }
        calls := [RefreshCall(refreshToken)];
        match g.refresh(refreshToken)
        case Threw(_) =>
          return false, calls;
        case Returned(newToken) =>
          if KeyExists(newToken, "error") {
            return false, calls;
          }
          options.UpdateAccessToken(Arr(newToken));
          if IsSet(Arr(newToken), "refresh_token") {
            options.UpdateRefreshToken(Index(Arr(newToken), "refresh_token"));
          }
          options.UpdateTokenExpires(now + ExpiresIn(newToken));
          return true, calls;
      }
      return true, [];
    }

    /** `list_files`. */
    method ListFiles(req: Request, now: nat, g: Google) returns (resp: Response, calls: seq<RemoteCall>)
      requires Valid()
      modifies options
      ensures var c := TokenCheck(client.Some?, g.accessTokenExpired, old(options.View()), now, g.refresh);
        options.View() == c.slots && Handled(resp, calls) == Authorized(c, ListFilesOp(req, host, g))
    {
      var ok, refreshCalls := EnsureValidToken(now, g);
      if !ok {
        return NoAccessToken, refreshCalls;
      }
      var pageSize := AbsInt(host, Param(req, "page_size"));
      if pageSize == 0 {
        pageSize := DefaultPageSize;
      }
      var pageToken := SanitizeTextField(host, Param(req, "page_token"));
      var query := SanitizeTextField(host, Param(req, "query"));
      if EmptyString(query) {
        query := DefaultQuery;
      }
      var opts := ListOptions(pageSize, query, ListFields, None);
      if !EmptyString(pageToken) {
        opts := opts.(pageToken := Some(pageToken));
      }
      assert opts == ListOptionsFor(req, host);
      calls := refreshCalls + [ListCall(opts)];
      match g.listFiles(opts)
      case ListThrew(m) =>
        resp := Error("api_error", m, 500);
      case Listed(files, next) =>
        var fileList := DescribeFiles(files);
        resp := Ok(FileList(fileList, next));
    }

    /** `upload_file`. */
    method UploadFile(req: Request, now: nat, g: Google) returns (resp: Response, calls: seq<RemoteCall>)
      requires Valid()
      modifies options
      ensures var c := TokenCheck(client.Some?, g.accessTokenExpired, old(options.View()), now, g.refresh);
        options.View() == c.slots && Handled(resp, calls) == Authorized(c, UploadOp(req, host, g))
    {
      var ok, refreshCalls := EnsureValidToken(now, g);
      if !ok {
        return NoAccessToken, refreshCalls;
      }
      calls := refreshCalls;
      if req.file.None? {
        return Error("no_file", "No file provided", 400), calls;
      }
      var file := req.file.value;
      if file.error != UploadErrOk {
        return Error("upload_error", "File upload error: " + Decimal(file.error), 400), calls;
      }
      if file.size > MaxUploadSize {
        return Error("file_too_large", "File size exceeds 10MB limit", 400), calls;
      }
      var driveFile := CreateRequest(host.sanitizeFileName(file.name), None, None, "");
      driveFile := driveFile.(media := Some(Media(file.tmpName, file.mimeType, "multipart")), fields := UploadFields);
      calls := calls + [CreateCall(driveFile)];
      match g.create(driveFile)
      case FileThrew(m) =>
        resp := Error("upload_failed", m, 500);
      case Got(result) =>
        resp := Ok(Uploaded(UploadEntry(result)));
    }

    /** `download_file`. */
    method DownloadFile(req: Request, now: nat, g: Google) returns (resp: Response, calls: seq<RemoteCall>)
      requires Valid()
      modifies options
      ensures var c := TokenCheck(client.Some?, g.accessTokenExpired, old(options.View()), now, g.refresh);
        options.View() == c.slots && Handled(resp, calls) == Authorized(c, DownloadOp(req, host, g))
    {
      var ok, refreshCalls := EnsureValidToken(now, g);
      if !ok {
        return NoAccessToken, refreshCalls;
      }
      calls := refreshCalls;
      var fileId := SanitizeTextField(host, Param(req, "file_id"));
      if EmptyString(fileId) {
        return Error("missing_file_id", "File ID is required", 400), calls;
      }
      calls := calls + [MetadataCall(fileId, MetadataFields)];
      match g.metadata(fileId, MetadataFields)
      case FileThrew(m) =>
        resp := Error("download_failed", m, 500);
      case Got(file) =>
        calls := calls + [MediaCall(fileId)];
        match g.media(fileId)
        case MediaThrew(m) =>
          resp := Error("download_failed", m, 500);
        case Body(content) =>
          resp := Ok(Downloaded(content, file.name, file.mimeType, file.size));
    }

    /** `create_folder`. */
    method CreateFolder(req: Request, now: nat, g: Google) returns (resp: Response, calls: seq<RemoteCall>)
      requires Valid()
      modifies options
      ensures var c := TokenCheck(client.Some?, g.accessTokenExpired, old(options.View()), now, g.refresh);
        options.View() == c.slots && Handled(resp, calls) == Authorized(c, CreateFolderOp(req, host, g))
    {
      var ok, refreshCalls := EnsureValidToken(now, g);
      if !ok {
        return NoAccessToken, refreshCalls;
      }
      calls := refreshCalls;
      var name := SanitizeTextField(host, Param(req, "name"));
      if EmptyString(name) {
        return Error("missing_name", "Folder name is required", 400), calls;
      }
      var folder := CreateRequest(name, None, None, "");
      folder := folder.(mimeType := Some(FolderMimeType), fields := FolderFields);
      calls := calls + [CreateCall(folder)];
      match g.create(folder)
      case FileThrew(m) =>
        resp := Error("create_failed", m, 500);
      case Got(result) =>
        resp := Ok(FolderCreated(FolderEntry(result)));
    }
  }

  // ----------------------------------------------------------------- properties

  /**
   * A refused token check answers `no_access_token`/401, and the only call the
   * request made is the failed refresh, if any: the Drive service is never
   * reached and the request parameters are never read.
   */
  lemma DeniedRequestsNeverReachDrive(configured: bool, s: Slots, now: nat, g: Google, op: Handled)
    requires !TokenCheck(configured, g.accessTokenExpired, s, now, g.refresh).ok
    ensures var r := Authorized(TokenCheck(configured, g.accessTokenExpired, s, now, g.refresh), op);
      && r.resp == NoAccessToken
      && |r.calls| <= 1
      && forall c <- r.calls :: !IsDriveCall(c)
  {
  }

  /** Without stored credentials no client exists, and every Drive operation answers 401 without any call. */
  lemma NoCredentialsMeansNoAccess(s: Slots, redirectUri: string, h: Host, now: nat, g: Google, op: Handled)
    requires !CredentialsPresent(s.credentials.GetOr(Arr([])))
    ensures var client := SetupClient(None, s, redirectUri, h);
      Authorized(TokenCheck(client.Some?, g.accessTokenExpired, s, now, g.refresh), op) == Handled(NoAccessToken, [])
  {
  }

  /** An accepted request makes its refresh (if any) first and its Drive calls after it. */
  lemma RefreshPrecedesDriveCalls(configured: bool, s: Slots, now: nat, g: Google, req: Request, h: Host)
    requires TokenCheck(configured, g.accessTokenExpired, s, now, g.refresh).ok
    ensures var c := TokenCheck(configured, g.accessTokenExpired, s, now, g.refresh);
      forall op <- [ListFilesOp(req, h, g), UploadOp(req, h, g), DownloadOp(req, h, g), CreateFolderOp(req, h, g)] ::
        var r := Authorized(c, op);
        && r.calls[..|c.calls|] == c.calls
        && (forall i :: 0 <= i < |c.calls| ==> r.calls[i].RefreshCall?)
        && (forall i :: |c.calls| <= i < |r.calls| ==> IsDriveCall(r.calls[i]))
  {
    var c := TokenCheck(configured, g.accessTokenExpired, s, now, g.refresh);
    forall op <- [ListFilesOp(req, h, g), UploadOp(req, h, g), DownloadOp(req, h, g), CreateFolderOp(req, h, g)]
      ensures forall c' <- op.calls :: IsDriveCall(c')
    {
    }
  }

  /** A file of exactly 10 MiB is accepted; one byte more is refused as too large. */
  lemma UploadSizeBoundary(f: UploadedFile)
    requires f.error == UploadErrOk
    ensures f.size == MaxUploadSize ==> UploadCheck(Some(f)).None?
    ensures f.size == MaxUploadSize + 1 ==> UploadCheck(Some(f)) == Some(Error("file_too_large", "File size exceeds 10MB limit", 400))
  {
  }

  /**
   * A request without parameters lists 20 files that are not in the trash,
   * from the first page (given that the text sanitizer leaves "" alone).
   */
  lemma ListDefaultsForEmptyRequest(h: Host)
    requires h.sanitizeTextField("") == ""
    ensures ListOptionsFor(Request(map[], None), h) == ListOptions(DefaultPageSize, DefaultQuery, ListFields, None)
  {
  }

  /** A negative page size is not replaced by the default: its absolute value is used. */
  lemma NegativePageSizeIsMirrored(h: Host, n: int)
    requires n < 0
    ensures PageSize(h, Int(n)) == -n
  {
  }
}
