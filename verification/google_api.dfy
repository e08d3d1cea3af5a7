/**
 * The Google client library and the Drive service, seen from the plugin:
 * the shapes of what it sends and receives. What the library answers is an
 * input of the model (a `Google` value fixed for one request); every call
 * the plugin makes to it is recorded as a `RemoteCall`.
 */
module GoogleApi {
  import opened Php

  const DriveFileScope := "https://www.googleapis.com/auth/drive.file"
  const DriveReadonlyScope := "https://www.googleapis.com/auth/drive.readonly"
  const FolderMimeType := "application/vnd.google-apps.folder"

  /** The token endpoint's JSON carries `expires_in`, when it carries it, as an integer. */
  predicate ExpiresInIsInt(t: Entries) {
    var e := Index(Arr(t), "expires_in");
    e.Null? || e.Int?
  }

  /** A token array as `fetchAccessTokenWith…` returns it: a PHP array, so no key is repeated. */
  type TokenArray = t: Entries | DistinctKeys(t) && ExpiresInIsInt(t) witness []

  /** A code exchange or refresh: the returned array (which may hold `error`), or an exception. */
  datatype TokenOutcome = Returned(token: TokenArray) | Threw(message: string)

  /** A Drive file resource, as its getters return each field (null when not requested). */
  datatype DriveFile = DriveFile(
    id: Value, name: Value, mimeType: Value, size: Value, modifiedTime: Value, webViewLink: Value)

  /** The options array handed to `files->listFiles`. */
  datatype ListOptions = ListOptions(pageSize: nat, q: string, fields: string, pageToken: Option<string>)

  datatype ListOutcome = Listed(files: seq<DriveFile>, nextPageToken: Value) | ListThrew(message: string)

  /** Upload parameters of `files->create`; `tmpName` stands for the bytes read from it. */
  datatype Media = Media(tmpName: string, mimeType: string, uploadType: string)

  /** Metadata (name, and a mime type for folders), optional content, and the fields requested. */
  datatype CreateRequest = CreateRequest(name: string, mimeType: Option<string>, media: Option<Media>, fields: string)

  datatype FileOutcome = Got(file: DriveFile) | FileThrew(message: string)

  datatype MediaOutcome = Body(content: string) | MediaThrew(message: string)

  datatype UrlOutcome = Url(url: string) | UrlThrew(message: string)

  /** One call into the library that reaches (or may reach) Google. */
  datatype RemoteCall =
    | ExchangeCall(code: string)
    | RefreshCall(refreshToken: Value)
    | ListCall(options: ListOptions)
    | CreateCall(request: CreateRequest)
    | MetadataCall(fileId: string, fields: string)
    | MediaCall(fileId: string)

  /** A call to the Drive service proper, as opposed to the OAuth endpoints. */
  predicate IsDriveCall(c: RemoteCall) {
    c.ListCall? || c.CreateCall? || c.MetadataCall? || c.MediaCall?
  }

  /** What the library and the service answer during one request. */
  datatype Google = Google(
    accessTokenExpired: bool,
    authUrl: UrlOutcome,
    exchange: string -> TokenOutcome,
    refresh: Value -> TokenOutcome,
    listFiles: ListOptions -> ListOutcome,
    create: CreateRequest -> FileOutcome,
    metadata: (string, string) -> FileOutcome,
    media: string -> MediaOutcome)

  /** The configuration the plugin gives a `Google_Client`. */
  datatype GoogleClient = GoogleClient(
    clientId: string,
    clientSecret: string,
    redirectUri: string,
    scopes: seq<string>,
    accessType: string,
    prompt: string,
    accessToken: Option<Value>)

  /** A `Google_Service_Drive` built over a client. */
  datatype DriveService = DriveService(client: GoogleClient)
}
