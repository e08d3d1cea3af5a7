/**
 * The read-only logic of the Google Drive admin page (`Google_Drive`): the
 * connection status it shows, the "credentials saved" flag, the sanitizing
 * of the data handed to the page script, and the lookup in the script's
 * asset data.
 */
module DriveSettings {
  import opened Php
  import opened WordPress
  import opened GoogleApi
  import opened TokenLifecycle

  /** The stored access token is a non-empty array. */
  predicate TokenBlobStored(s: Slots) {
    var t := s.accessToken.GetOr(Str(""));
    !IsEmpty(t) && t.Arr?
  }

  /** `get_option('wpmudev_drive_token_expires', 0)`. */
  function ExpiresAt(s: Slots): int {
    s.tokenExpires.GetOr(0)
  }

  /**
   * `get_auth_status`: connected when a token array is stored and either its
   * recorded expiry is still ahead or a refresh token is stored.
   */
  function GetAuthStatus(s: Slots, now: nat): (r: bool)
    ensures !TokenBlobStored(s) ==> !r
    ensures TokenBlobStored(s) && now < ExpiresAt(s) ==> r
    ensures TokenBlobStored(s) && now >= ExpiresAt(s) ==> (r <==> !IsEmpty(s.refreshToken.GetOr(Str(""))))
  {
    var accessToken := s.accessToken.GetOr(Str(""));
    if IsEmpty(accessToken) || !accessToken.Arr? then false
    else if now >= s.tokenExpires.GetOr(0) then !IsEmpty(s.refreshToken.GetOr(Str("")))
    else true
  }

  /** The `hasCredentials` flag of the page script; it agrees with the REST class's client setup. */
  function HasCredentials(creds: Value): (r: bool)
    ensures r <==> CredentialsPresent(creds)
    ensures r ==> creds.Arr?
  {
    !IsEmpty(Index(creds, "client_id")) && !IsEmpty(Index(creds, "client_secret"))
  }

  /** A stored token with no recorded expiry counts as expired: only a refresh token keeps the page connected. */
  lemma MissingExpiryCountsAsExpired(s: Slots, now: nat)
    requires TokenBlobStored(s) && s.tokenExpires.None?
    ensures GetAuthStatus(s, now) <==> !IsEmpty(s.refreshToken.GetOr(Str("")))
  {
  }

  /** The expiry instant itself already counts as expired; the instant before does not. */
  lemma AuthStatusBoundary(s: Slots, now: nat)
    requires TokenBlobStored(s) && ExpiresAt(s) == now + 1 && IsEmpty(s.refreshToken.GetOr(Str("")))
    ensures GetAuthStatus(s, now) && !GetAuthStatus(s, now + 1)
  {
  }

  /** Time alone never reconnects the page: once disconnected, it stays so until the rows change. */
  lemma DisconnectedStaysDisconnected(s: Slots, now: nat, later: nat)
    requires now <= later && !GetAuthStatus(s, now)
    ensures !GetAuthStatus(s, later)
  {
  }

  /**
   * Right after the callback or a refresh stores a non-empty token that lasts
   * `expires_in > 0` seconds, the page shows the connection as active for
   * that whole period.
   */
  lemma ConnectedAfterStoringToken(s: Slots, t: TokenArray, stored: nat, now: nat)
    requires t != [] && stored <= now < stored + ExpiresIn(t)
    ensures GetAuthStatus(StoreToken(s, t, stored), now)
  {
  }

  /** Credentials as `save_credentials` stores them make the page report them. */
  lemma SavedCredentialsAreReported(id: string, secret: string)
    requires !EmptyString(id) && !EmptyString(secret)
    ensures HasCredentials(CredentialsArray(id, secret))
  {
  }

  /** `script_data($key)`: the whole data for an empty key, otherwise `$data[$key] ?? ''`. */
  function ScriptData(raw: Entries, key: string): (r: Value)
    ensures EmptyString(key) ==> r == Arr(raw)
    ensures !EmptyString(key) && !IsSet(Arr(raw), key) ==> r == Str("")
    ensures !EmptyString(key) && IsSet(Arr(raw), key) ==> r == Index(Arr(raw), key)
  {
    if EmptyString(key) then Arr(raw)
    else
      var v := Index(Arr(raw), key);
      if v.Null? then Str("") else v
  }

  // ------------------------------------------------------ sanitize_localize_data

  /** One value of the localized data: arrays recursively, strings through the text sanitizer, the rest as is. */
  function SanitizeValue(h: Host, v: Value): (r: Value)
    ensures r.Arr? <==> v.Arr?
    ensures v.Str? ==> r == Str(h.sanitizeTextField(v.s))
    ensures !v.Arr? && !v.Str? ==> r == v
    decreases v, 1
  {
    match v
    case Arr(e) => Arr(SanitizePrefix(h, v, |e|))
    case Str(s) => Str(h.sanitizeTextField(s))
    case _ => v
  }

  /**
   * The first `n` entries of the array `parent`, each written in order under
   * its sanitized key into a fresh array (so a later entry whose key sanitizes
   * to the same string overwrites the earlier one in place).
   */
  function SanitizePrefix(h: Host, parent: Value, n: nat): (r: Entries)
    requires parent.Arr? && n <= |parent.entries|
    // never more entries than were read
    ensures |r| <= n
    decreases parent, 0, n
  {
    if n == 0 then []
    else
      var last := parent.entries[n - 1];
      assert last in parent.entries;
      Put(SanitizePrefix(h, parent, n - 1), h.sanitizeKey(last.0), SanitizeValue(h, last.1))
  }

  /** `sanitize_localize_data($data)`. */
  function SanitizeEntries(h: Host, data: Entries): Entries {
    SanitizePrefix(h, Arr(data), |data|)
  }

  /** The foreach of `sanitize_localize_data`, with its recursive call on nested arrays. */
  method SanitizeLocalizeData(h: Host, data: Entries) returns (sanitized: Entries)
    ensures sanitized == SanitizeEntries(h, data)
    decreases Arr(data)
  {
    sanitized := [];
    var i := 0;
    while i < |data|
      invariant 0 <= i <= |data|
      invariant sanitized == SanitizePrefix(h, Arr(data), i)
    {
      var key, value := data[i].0, data[i].1;
      assert data[i] in data;
      var v: Value;
      if value.Arr? {
        var inner := SanitizeLocalizeData(h, value.entries);
        v := Arr(inner);
      } else if value.Str? {
        v := Str(h.sanitizeTextField(value.s));
      } else {
        v := value;
      }
      sanitized := Put(sanitized, h.sanitizeKey(key), v);
      i := i + 1;
    }
  }

  // ------------------------------------------------- properties of the sanitizer

  /** An input entry as it comes out: sanitized key, sanitized value. */
  function SanitizedEntry(h: Host, e: (string, Value)): (string, Value) {
    (h.sanitizeKey(e.0), SanitizeValue(h, e.1))
  }

  /** Every entry sanitized, in order. */
  function SanitizedAll(h: Host, data: Entries): (r: Entries)
    ensures |r| == |data|
    ensures forall i :: 0 <= i < |data| ==> r[i] == SanitizedEntry(h, data[i])
  {
    seq(|data|, i requires 0 <= i < |data| => SanitizedEntry(h, data[i]))
  }

  /** No key occurs twice in the output. */
  lemma {:induction false} SanitizePrefixDistinct(h: Host, parent: Value, n: nat)
    requires parent.Arr? && n <= |parent.entries|
    ensures DistinctKeys(SanitizePrefix(h, parent, n))
  {
    if n > 0 {
      SanitizePrefixDistinct(h, parent, n - 1);
      var last := parent.entries[n - 1];
      PutKeepsKeysDistinct(SanitizePrefix(h, parent, n - 1), h.sanitizeKey(last.0), SanitizeValue(h, last.1));
    }
  }

  /** The output keys are exactly the sanitized input keys. */
  lemma {:induction false} SanitizePrefixKeys(h: Host, parent: Value, n: nat)
    requires parent.Arr? && n <= |parent.entries|
    ensures forall k :: k in Keys(SanitizePrefix(h, parent, n)) <==>
      exists i :: 0 <= i < n && h.sanitizeKey(parent.entries[i].0) == k
  {
    if n > 0 {
      SanitizePrefixKeys(h, parent, n - 1);
      var e := parent.entries;
      var k := h.sanitizeKey(e[n - 1].0);
      var r := SanitizePrefix(h, parent, n);
      PutKeys(SanitizePrefix(h, parent, n - 1), k, SanitizeValue(h, e[n - 1].1));
      forall k' ensures k' in Keys(r) <==> exists i :: 0 <= i < n && h.sanitizeKey(e[i].0) == k' {
        if k' == k {
          assert h.sanitizeKey(e[n - 1].0) == k';
        } else if exists i :: 0 <= i < n && h.sanitizeKey(e[i].0) == k' {
          var i :| 0 <= i < n && h.sanitizeKey(e[i].0) == k';
          assert i < n - 1;
        }
      }
    }
  }

  /** Every output entry is some input entry with key and value sanitized. */
  lemma {:induction false} SanitizePrefixEntries(h: Host, parent: Value, n: nat)
    requires parent.Arr? && n <= |parent.entries|
    ensures forall i :: 0 <= i < |SanitizePrefix(h, parent, n)| ==>
      exists j :: 0 <= j < n && SanitizePrefix(h, parent, n)[i] == SanitizedEntry(h, parent.entries[j])
  {
    if n > 0 {
      SanitizePrefixEntries(h, parent, n - 1);
      var prev := SanitizePrefix(h, parent, n - 1);
      var k, v := h.sanitizeKey(parent.entries[n - 1].0), SanitizeValue(h, parent.entries[n - 1].1);
      ghost var r := SanitizePrefix(h, parent, n);
      assert r == Put(prev, k, v);
      forall i | 0 <= i < |r| ensures exists j :: 0 <= j < n && r[i] == SanitizedEntry(h, parent.entries[j]) {
        if r[i] == (k, v) {
          assert r[i] == SanitizedEntry(h, parent.entries[n - 1]);
        } else {
          assert i < |prev| && r[i] == prev[i];
        }
      }
    } else {
      assert |SanitizePrefix(h, parent, n)| == 0;
    }
  }

  /**
   * The output has no repeated key, its keys are exactly the sanitized input
   * keys, and every output entry is some input entry sanitized.
   */
  lemma SanitizePrefixShape(h: Host, parent: Value, n: nat)
    requires parent.Arr? && n <= |parent.entries|
    ensures var r := SanitizePrefix(h, parent, n);
      && DistinctKeys(r)
      && (forall k :: k in Keys(r) <==> exists i :: 0 <= i < n && h.sanitizeKey(parent.entries[i].0) == k)
      && (forall i :: 0 <= i < |r| ==> exists j :: 0 <= j < n && r[i] == SanitizedEntry(h, parent.entries[j]))
  {
    SanitizePrefixDistinct(h, parent, n);
    SanitizePrefixKeys(h, parent, n);
    SanitizePrefixEntries(h, parent, n);
  }

  /**
   * Among the first `n` entries, the one at `j` is the last whose key
   * sanitizes to its sanitized key: the output holds its value there.
   */
  lemma {:induction false} LastWritePrefix(h: Host, parent: Value, n: nat, j: nat)
    requires parent.Arr? && j < n <= |parent.entries|
    requires forall m :: j < m < n ==> h.sanitizeKey(parent.entries[m].0) != h.sanitizeKey(parent.entries[j].0)
    ensures Index(Arr(SanitizePrefix(h, parent, n)), h.sanitizeKey(parent.entries[j].0)) == SanitizeValue(h, parent.entries[j].1)
  {
    var last := parent.entries[n - 1];
    var prev := SanitizePrefix(h, parent, n - 1);
    if j == n - 1 {
      PutThenIndex(prev, h.sanitizeKey(last.0), SanitizeValue(h, last.1));
    } else {
      LastWritePrefix(h, parent, n - 1, j);
      PutKeepsOtherKeys(prev, h.sanitizeKey(last.0), SanitizeValue(h, last.1), h.sanitizeKey(parent.entries[j].0));
    }
  }

  /**
   * Keys that sanitize alike collide, and the entry read last wins: under
   * each shared key the output holds the sanitized value of the last entry
   * whose key sanitizes to it.
   */
  lemma LastEntryWins(h: Host, data: Entries, j: nat)
    requires j < |data|
    requires forall m :: j < m < |data| ==> h.sanitizeKey(data[m].0) != h.sanitizeKey(data[j].0)
    ensures Index(Arr(SanitizeEntries(h, data)), h.sanitizeKey(data[j].0)) == SanitizeValue(h, data[j].1)
  {
    LastWritePrefix(h, Arr(data), |data|, j);
  }

  /**
   * When no two input keys sanitize to the same key, there is one output
   * entry per input entry, in input order, under the sanitized key.
   */
  lemma {:induction false} SanitizePrefixInjective(h: Host, parent: Value, n: nat)
    requires parent.Arr? && n <= |parent.entries|
    requires forall i, j :: 0 <= i < j < n ==> h.sanitizeKey(parent.entries[i].0) != h.sanitizeKey(parent.entries[j].0)
    ensures SanitizePrefix(h, parent, n) == SanitizedAll(h, parent.entries[..n])
  {
    if n > 0 {
      var e := parent.entries;
      SanitizePrefixInjective(h, parent, n - 1);
      SanitizePrefixShape(h, parent, n - 1);
      var prev := SanitizePrefix(h, parent, n - 1);
      var k := h.sanitizeKey(e[n - 1].0);
      assert k !in Keys(prev);
      assert SanitizedAll(h, e[..n]) == SanitizedAll(h, e[..n - 1]) + [SanitizedEntry(h, e[n - 1])];
    }
  }

  /** `sanitize_localize_data` keeps every entry when the keys sanitize without collisions. */
  lemma SanitizeKeepsEveryEntry(h: Host, data: Entries)
    requires forall i, j :: 0 <= i < j < |data| ==> h.sanitizeKey(data[i].0) != h.sanitizeKey(data[j].0)
    ensures SanitizeEntries(h, data) == SanitizedAll(h, data)
  {
    SanitizePrefixInjective(h, Arr(data), |data|);
    assert data[..|data|] == data;
  }

  /** The WordPress sanitizers give the same string when applied twice. */
  ghost predicate IdempotentSanitizers(h: Host) {
    && (forall s {:trigger h.sanitizeKey(h.sanitizeKey(s))} :: h.sanitizeKey(h.sanitizeKey(s)) == h.sanitizeKey(s))
    && (forall s {:trigger h.sanitizeTextField(h.sanitizeTextField(s))} ::
          h.sanitizeTextField(h.sanitizeTextField(s)) == h.sanitizeTextField(s))
  }

  /** With idempotent sanitizers, sanitizing already sanitized data changes nothing, at any depth. */
  lemma {:induction false} SanitizeValueIdempotent(h: Host, v: Value)
    requires IdempotentSanitizers(h)
    ensures SanitizeValue(h, SanitizeValue(h, v)) == SanitizeValue(h, v)
    decreases v
  {
    match v
    case Arr(e) =>
      var r := SanitizePrefix(h, v, |e|);
      SanitizePrefixShape(h, v, |e|);
      forall i | 0 <= i < |r| ensures SanitizedEntry(h, r[i]) == r[i] {
        var j :| 0 <= j < |e| && r[i] == SanitizedEntry(h, e[j]);
        assert e[j] in e;
        SanitizeValueIdempotent(h, e[j].1);
        assert h.sanitizeKey(h.sanitizeKey(e[j].0)) == h.sanitizeKey(e[j].0);
      }
      forall i, j | 0 <= i < j < |r| ensures h.sanitizeKey(Arr(r).entries[i].0) != h.sanitizeKey(Arr(r).entries[j].0) {
        assert SanitizedEntry(h, r[i]) == r[i] && SanitizedEntry(h, r[j]) == r[j];
      }
      SanitizePrefixInjective(h, Arr(r), |r|);
      assert r[..|r|] == r;
      assert SanitizedAll(h, r) == r;
    case Str(s) =>
      assert h.sanitizeTextField(h.sanitizeTextField(s)) == h.sanitizeTextField(s);
    case _ =>
  }
}
