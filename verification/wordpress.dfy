/**
 * The WordPress side the plugin relies on: the sanitizers and conversions it
 * calls (left uninterpreted, handed in as a `Host`), and the four option rows
 * in which the Drive connection is persisted.
 */
module WordPress {
  import opened Php

  /**
   * Helpers whose definitions live outside the plugin: `sanitize_text_field`
   * on a string, `sanitize_file_name`, `sanitize_key`, and PHP's conversion of
   * a string to an integer (the string case of `intval`).
   */
  datatype Host = Host(
    sanitizeTextField: string -> string,
    sanitizeFileName: string -> string,
    sanitizeKey: string -> string,
    intOfString: string -> int)

  /** `sanitize_text_field($v)`: arrays become "", scalars are cast to string first. */
  function SanitizeTextField(h: Host, v: Value): string {
    if v.Arr? then "" else h.sanitizeTextField(ToStr(v))
  }

  /** `intval($v)`, the cast inside `absint`. */
  function IntVal(h: Host, v: Value): int {
    match v
    case Null => 0
    case Bool(b) => if b then 1 else 0
    case Int(i) => i
    case Str(s) => h.intOfString(s)
    case Arr(e) => if |e| == 0 then 0 else 1
  }

  /** `absint($v)`: the absolute value of `intval($v)`. */
  function AbsInt(h: Host, v: Value): (r: nat)
    ensures IntVal(h, v) >= 0 ==> r == IntVal(h, v)
    ensures IntVal(h, v) < 0 ==> r == -IntVal(h, v)
  {
    Abs(IntVal(h, v))
  }

  /**
   * The four option rows, `None` when the row does not exist (so that
   * `get_option` falls back to its default):
   *   credentials   'wpmudev_plugin_tests_auth'
   *   accessToken   'wpmudev_drive_access_token'
   *   refreshToken  'wpmudev_drive_refresh_token'
   *   tokenExpires  'wpmudev_drive_token_expires'
   * The expiry row only ever receives `time() + expires_in`, an integer.
   */
  datatype Slots = Slots(
    credentials: Option<Value>,
    accessToken: Option<Value>,
    refreshToken: Option<Value>,
    tokenExpires: Option<int>)

  /** The options table; `update_option` overwrites one row and no other. */
  class Options {
    var credentials: Option<Value>
    var accessToken: Option<Value>
    var refreshToken: Option<Value>
    var tokenExpires: Option<int>

    function View(): Slots
      reads this
    {
      Slots(credentials, accessToken, refreshToken, tokenExpires)
    }

    constructor (initial: Slots)
      ensures View() == initial
    {
      credentials := initial.credentials;
      accessToken := initial.accessToken;
      refreshToken := initial.refreshToken;
      tokenExpires := initial.tokenExpires;
    }

    method UpdateCredentials(v: Value)
      modifies this
      ensures View() == old(View()).(credentials := Some(v))
    {
      credentials := Some(v);
    }

    method UpdateAccessToken(v: Value)
      modifies this
      ensures View() == old(View()).(accessToken := Some(v))
    {
      accessToken := Some(v);
    }

    method UpdateRefreshToken(v: Value)
      modifies this
      ensures View() == old(View()).(refreshToken := Some(v))
    {
      refreshToken := Some(v);
    }

    method UpdateTokenExpires(at: int)
      modifies this
      ensures View() == old(View()).(tokenExpires := Some(at))
    {
      tokenExpires := Some(at);
    }
  }
}
