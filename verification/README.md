# Google Drive integration of the WPMU DEV plugin, modelled in Dafny

This project models the core of the plugin's Google Drive integration:

- The REST class `Drive_API`. It saves the OAuth client credentials, sets up the Google client and runs the OAuth start and callback. It checks (and if need be refreshes) the access token before every Drive operation. It runs four Drive operations: list, upload, download and create folder.
- The read-only logic of the admin page `Google_Drive`. This covers the connection status it shows and the "credentials saved" flag. It also covers the sanitizing of the data handed to the page script and the lookup in the script's asset data.

The persisted state is four WordPress option rows:

| row | option |
|---|---|
| credentials | `wpmudev_plugin_tests_auth` |
| access token | `wpmudev_drive_access_token` |
| refresh token | `wpmudev_drive_refresh_token` |
| expiry time | `wpmudev_drive_token_expires` |

`WordPress.Options` is a class over these four rows. Each `update_option` is a method that overwrites one row.

`DriveRest.DriveApi` is a class. It holds the object's `client` and `drive_service` fields and updates them as `setup_google_client` does. Each endpoint is a method of it that works step by step on the rows. Most methods are proved equal to a pure function of the request, the rows and Google's answers, which is also where the properties are proved:

- `TokenLifecycle.SetupClient`
- `TokenLifecycle.TokenCheck`
- `TokenLifecycle.Callback`
- `DriveRest.ListFilesOp`, `UploadOp`, `DownloadOp` and `CreateFolderOp`

`SaveCredentials` and `StartAuth` are the exceptions: their contracts state the response and the new state directly, without such a function.

**Google's answers.** The Google client library is foreign code, and its answers are inputs of the model. The `GoogleApi.Google` value holds, for one request:

- whether the library judges the token expired;
- the answer to a code exchange and to a refresh (an array, or a thrown exception);
- the answers of the Drive service.

Every call that reaches Google (code exchange, refresh, and the Drive service calls) is returned as a `RemoteCall` log. "No call to Google" is therefore a checkable statement. Calls that stay inside the library are not logged: the client setters, `createAuthUrl` and `isAccessTokenExpired`.

**Other inputs.**
- The WordPress sanitizers and PHP's string-to-integer conversion are uninterpreted functions (`WordPress.Host`).
- `time()` is a parameter `now`.

**Files.**
- `php.dfy`: PHP values and the language rules the code relies on. These are `empty()` (both `""` and `"0"` are empty), `isset`, `array_key_exists`, `??` on array reads, and the array write `$a[$k] = $v`.
- `wordpress.dfy`: the host helpers and the option rows.
- `google_api.dfy`: what is sent to and received from the Google library.
- `token_lifecycle.dfy`: client setup, token persistence, `ensure_valid_token` and `handle_callback`, as functions.
- `drive_rest.dfy`: the `Drive_API` class and its endpoints.
- `drive_settings.dfy`: the admin page's `get_auth_status`, `hasCredentials`, `script_data` and `sanitize_localize_data`.

**Behaviour of the code worth knowing.**
- `list_files` uses `absint(page_size) ?: 20`. A negative page size therefore becomes its absolute value; it does not become 20.
- The text fields are tested with PHP `empty()`. A client id, code, file id or folder name equal to `"0"` is therefore treated as missing, and an `error` parameter equal to `"0"` is ignored.
- The two notions of "token valid" are kept apart. The REST class asks the library (`isAccessTokenExpired`). The admin page compares the stored expiry row with `now`.

## Model

| member | source | states |
|---|---|---|
| TokenLifecycle.CredentialsArray | app/endpoints/v1/class-googledrive-rest.php:170-176 | the stored credentials array answers `client_id` and `client_secret` with the saved strings |
| TokenLifecycle.LoadedToken | app/endpoints/v1/class-googledrive-rest.php:89-93 | the stored access token is handed to the client exactly when it is a non-empty array, and then unchanged |
| TokenLifecycle.SetupClient | app/endpoints/v1/class-googledrive-rest.php:74-96 | without both credential fields non-empty the previous client stays. Otherwise the client has the sanitized id and secret, the redirect URI, the two Drive scopes, offline access, the consent prompt and the stored token if it is a non-empty array |
| TokenLifecycle.ExpiresIn | app/endpoints/v1/class-googledrive-rest.php:237 | the answer's integer `expires_in`, or 3600 when the key is missing or holds null |
| TokenLifecycle.StoreToken | app/endpoints/v1/class-googledrive-rest.php:230-238 | the answer becomes the access token. A set `refresh_token` replaces the stored one, otherwise the stored one stays. The expiry becomes `now + expires_in`, `now + 3600` when the key is missing or holds null. The credentials row is untouched |
| TokenLifecycle.TokenCheck | app/endpoints/v1/class-googledrive-rest.php:252-288 | no client: false. Token not expired: true, no write. Expired with an empty refresh token: false, no call. Otherwise exactly one refresh call, accepted iff it returned without an `error` key, and written back only then. A refusal writes nothing, the credentials row is never written, and there is at most one call |
| TokenLifecycle.RejectionText | app/endpoints/v1/class-googledrive-rest.php:227 | the rejection shows `error_description` when it is set, otherwise `error` |
| TokenLifecycle.Callback | app/endpoints/v1/class-googledrive-rest.php:210-247 | a non-empty `error` or an empty `code` dies before any call. Otherwise exactly one exchange. It redirects to the success page iff the answer carries no set `error`, and only a redirect writes the rows, as a refresh would. A thrown exchange dies with the exception's message; a rejected one dies with `RejectionText`, that is `error_description ?? error` |
| TokenLifecycle.TokenStepsKeepCredentials | app/endpoints/v1/class-googledrive-rest.php:210-288 | neither the callback nor the token check writes the credentials row, whatever Google answers |
| TokenLifecycle.CallbackAndRefreshStoreAlike | app/endpoints/v1/class-googledrive-rest.php:270-279 | the same accepted answer leaves the same rows whether it came from the callback or from a refresh. An answer without `refresh_token` keeps the stored refresh token |
| TokenLifecycle.NullErrorKeyDividesTheTwoTests | app/endpoints/v1/class-googledrive-rest.php:268 | for every token answer: the callback (`isset`, line 226) accepts it while the refresh (`array_key_exists`) refuses it exactly when its `error` key is present and holds null. Every answer the refresh accepts, the callback accepts too |
| TokenLifecycle.CheckIsIdempotentWhileValid | app/endpoints/v1/class-googledrive-rest.php:287 | with an unexpired token the check succeeds and repeating it gives the same result |
| TokenLifecycle.StoredTokenIsLoadedBySetup | app/endpoints/v1/class-googledrive-rest.php:89-93 | a non-empty token just persisted is the token the next client setup loads |
| DriveRest.Authorized | app/endpoints/v1/class-googledrive-rest.php:294-296 | a refused token check answers `no_access_token`/401 with only the check's calls. An accepted one answers the operation's response, its calls after the check's (the same preamble is at lines 343-345, 400-402 and 441-443) |
| DriveRest.PageSize | app/endpoints/v1/class-googledrive-rest.php:299 | the page size is at least 1: 20 when `intval` gives 0, otherwise the absolute value |
| DriveRest.ListOptionsFor | app/endpoints/v1/class-googledrive-rest.php:299-311 | page size as above. The query defaults to `trashed=false` when empty. The fields are fixed. `pageToken` is present iff the sanitized token is non-empty, and then equals it |
| DriveRest.ListEntries | app/endpoints/v1/class-googledrive-rest.php:316-327 | one response entry per listed file, in order |
| DriveRest.DescribeFiles | app/endpoints/v1/class-googledrive-rest.php:316-327 | the loop builds one entry per listed file, in the listed order |
| DriveRest.ListFilesOp | app/endpoints/v1/class-googledrive-rest.php:298-336 | exactly one list call with those options. Success iff the service listed, with the entries and the next page token. When the service throws: `api_error`/500 with the exception's message |
| DriveRest.UploadCheck | app/endpoints/v1/class-googledrive-rest.php:347-362 | checks in order `no_file`, `upload_error` (with the upload error code in its message), `file_too_large`, all 400 with their full responses. The upload goes ahead iff a file is there, without error, and at most 10 MiB |
| DriveRest.UploadOp | app/endpoints/v1/class-googledrive-rest.php:347-393 | a refused upload makes no call. An accepted one makes one multipart create with the sanitized name and answers its result or `upload_failed`/500 |
| DriveRest.DownloadOp | app/endpoints/v1/class-googledrive-rest.php:403-434 | an empty file id gives `missing_file_id`/400 and no call. The content is fetched only after the metadata came back. Success iff both came back, with the content and the metadata's name, type and size. When either fetch throws: `download_failed`/500 with that exception's message, and no media fetch after a failed metadata fetch |
| DriveRest.CreateFolderOp | app/endpoints/v1/class-googledrive-rest.php:444-472 | an empty name gives `missing_name`/400 and no call. Every call is one create with the folder mime type, a non-empty name and no content. Success iff the create came back, with the folder's id, name, mime type and link. When it throws: `create_failed`/500 with the exception's message |
| DriveRest.DriveApi.constructor | app/endpoints/v1/class-googledrive-rest.php:64-68 | the client is what setup yields from the stored rows, and the service matches it |
| DriveRest.DriveApi.SetupGoogleClient | app/endpoints/v1/class-googledrive-rest.php:74-96 | the client field becomes `SetupClient` of the rows. The service is rebuilt over it and untouched when the client is kept |
| DriveRest.DriveApi.SaveCredentials | app/endpoints/v1/class-googledrive-rest.php:162-185 | empty id or secret: `missing_credentials`/400, with the rows and the client unchanged. Otherwise exactly the credentials array is stored, nothing else is written, and a client with those credentials is configured |
| DriveRest.DriveApi.StartAuth | app/endpoints/v1/class-googledrive-rest.php:190-205 | no client: `missing_credentials`/400. Otherwise the consent URL, or `auth_error`/500 when the library throws |
| DriveRest.DriveApi.HandleCallback | app/endpoints/v1/class-googledrive-rest.php:210-247 | the end, the rows written and the calls made are those of `Callback` |
| DriveRest.DriveApi.EnsureValidToken | app/endpoints/v1/class-googledrive-rest.php:252-288 | the answer, the rows written and the calls made are those of `TokenCheck`. After a successful check the client and the Drive service the operations use both exist |
| DriveRest.DriveApi.ListFiles | app/endpoints/v1/class-googledrive-rest.php:293-337 | the token check, then `ListFilesOp` only when it succeeded. The rows are those the check left |
| DriveRest.DriveApi.UploadFile | app/endpoints/v1/class-googledrive-rest.php:342-394 | the token check, then `UploadOp` only when it succeeded |
| DriveRest.DriveApi.DownloadFile | app/endpoints/v1/class-googledrive-rest.php:399-435 | the token check, then `DownloadOp` only when it succeeded |
| DriveRest.DriveApi.CreateFolder | app/endpoints/v1/class-googledrive-rest.php:440-473 | the token check, then `CreateFolderOp` only when it succeeded |
| DriveRest.DeniedRequestsNeverReachDrive | app/endpoints/v1/class-googledrive-rest.php:293-296 | a refused check answers `no_access_token`/401 with at most the failed refresh as a call, and never a Drive call |
| DriveRest.NoCredentialsMeansNoAccess | app/endpoints/v1/class-googledrive-rest.php:252-255 | without stored credentials every Drive operation answers 401 without any call |
| DriveRest.RefreshPrecedesDriveCalls | app/endpoints/v1/class-googledrive-rest.php:293-312 | in an accepted request the refresh, if any, comes first and every later call is a Drive call |
| DriveRest.UploadSizeBoundary | app/endpoints/v1/class-googledrive-rest.php:359-362 | a file of exactly 10 MiB passes, one byte more is `file_too_large` |
| DriveRest.ListDefaultsForEmptyRequest | app/endpoints/v1/class-googledrive-rest.php:299-311 | a request without parameters lists 20 untrashed files from the first page |
| DriveRest.NegativePageSizeIsMirrored | app/endpoints/v1/class-googledrive-rest.php:299 | a negative page size `n` lists `-n` files, not 20 |
| DriveSettings.GetAuthStatus | app/admin-pages/class-googledrive-settings.php:219-236 | not connected without a stored token array. Connected before the expiry. From the expiry on (inclusive), connected iff a refresh token is stored |
| DriveSettings.MissingExpiryCountsAsExpired | app/admin-pages/class-googledrive-settings.php:227-232 | with no expiry row, only a refresh token makes the page connected |
| DriveSettings.AuthStatusBoundary | app/admin-pages/class-googledrive-settings.php:229 | one second before the expiry the page is connected, at the expiry (without refresh token) it is not |
| DriveSettings.DisconnectedStaysDisconnected | app/admin-pages/class-googledrive-settings.php:219-236 | waiting never turns a disconnected status into a connected one |
| DriveSettings.ConnectedAfterStoringToken | app/admin-pages/class-googledrive-settings.php:219-236 | after a non-empty token is persisted, the page shows connected for its whole `expires_in` period |
| DriveSettings.HasCredentials | app/admin-pages/class-googledrive-settings.php:185 | the flag is true iff both `client_id` and `client_secret` are non-empty, the same test the REST client setup uses |
| DriveSettings.SavedCredentialsAreReported | app/admin-pages/class-googledrive-settings.php:185 | credentials as `save_credentials` stores them set the flag |
| DriveSettings.ScriptData | app/admin-pages/class-googledrive-settings.php:245-253 | an empty key gives the whole data. A key that is absent or holds null gives `''`. A key holding a non-null value gives that value |
| DriveSettings.SanitizeValue | app/admin-pages/class-googledrive-settings.php:352-358 | an array stays an array (sanitized recursively), a string goes through the text sanitizer, any other value is copied |
| DriveSettings.SanitizePrefix | app/admin-pages/class-googledrive-settings.php:348-362 | the function the loop is proved equal to: entries written in order under sanitized keys, never more entries than were read (its keys and entries are stated by the lemmas below) |
| DriveSettings.SanitizeLocalizeData | app/admin-pages/class-googledrive-settings.php:348-362 | the loop, with its recursive call on nested arrays, computes `SanitizeEntries` of its input |
| DriveSettings.SanitizePrefixDistinct | app/admin-pages/class-googledrive-settings.php:348-362 | writing under sanitized keys never leaves a key twice in the output |
| DriveSettings.SanitizePrefixKeys | app/admin-pages/class-googledrive-settings.php:348-362 | the output keys are exactly the sanitized keys of the entries read |
| DriveSettings.SanitizePrefixEntries | app/admin-pages/class-googledrive-settings.php:348-362 | every output entry is some input entry with its key and value sanitized |
| DriveSettings.SanitizePrefixShape | app/admin-pages/class-googledrive-settings.php:348-362 | the output has no repeated key. Its keys are exactly the sanitized input keys, and each output entry is an input entry with key and value sanitized |
| DriveSettings.LastWritePrefix | app/admin-pages/class-googledrive-settings.php:351-358 | within any prefix of the input, an entry that no later entry of the prefix collides with is what the output holds under its sanitized key |
| DriveSettings.LastEntryWins | app/admin-pages/class-googledrive-settings.php:351-358 | when keys sanitize alike, the output holds, under each shared key, the sanitized value of the last entry whose key sanitizes to it |
| DriveSettings.SanitizePrefixInjective | app/admin-pages/class-googledrive-settings.php:348-362 | when no two input keys sanitize alike, the output of any prefix is the prefix entry by entry sanitized |
| DriveSettings.SanitizeKeepsEveryEntry | app/admin-pages/class-googledrive-settings.php:348-362 | under that condition there is one output entry per input entry, in order: arrays recursed, strings text-sanitized, other values copied |
| DriveSettings.SanitizeValueIdempotent | app/admin-pages/class-googledrive-settings.php:348-362 | when the WordPress sanitizers are idempotent, sanitizing sanitized data changes nothing, at any depth |

## Left out

- The Google client library itself. Its consent URL, code exchange, refresh, expiry test and Drive calls are inputs of the model. The token it keeps in memory after a code exchange (`fetchAccessTokenWithAuthCode`) or a refresh (`fetchAccessTokenWithRefreshToken`) is not modelled.
- File I/O and encodings:
  - reading the upload's temporary file (the request carries the temp name instead of the bytes);
  - the base64 encoding of downloaded content;
  - `esc_html` in the `wp_die` messages (the model keeps the reason, not the text).
- `wp_die`, `wp_redirect` and `exit` are terminal results, not control flow.
- Route registration, `check_admin_permissions`, nonces, the admin menu, `enqueue_assets`, the page HTML, body classes, i18n strings, `get_script_dependencies`, and the file reads and memoisation in `raw_script_data`/`prepare_assets`. These are host-framework and UI plumbing.
- `init` and `prepare_assets` of the admin page mutate page fields. Only the values they compute (`authStatus`, `hasCredentials`) are modelled.
- Floats, objects and non-integer `expires_in` values: a token answer's `expires_in` is an integer when set (`GoogleApi.TokenArray`). Integer array keys are kept as their decimal strings.
- `intval` of a string and the WordPress sanitizers are uninterpreted functions.
- Concurrent requests, and the unlocked refresh race between them: the model is one request at a time.
- DriveRest.DriveApi.HandleCallback: requires a configured client, because the source calls the client without checking that it exists, and the behaviour without one is not modelled.
- DriveSettings.SanitizeValueIdempotent: is stated only for hosts whose `sanitize_key` and `sanitize_text_field` are idempotent, since their definitions are not part of this model.
