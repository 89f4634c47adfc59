// Settings routes (backend/routes/settings.py): the single settings row is
// created with its defaults on first access, the OpenAI key is stored
// encrypted and only ever returned masked, and a masked key sent back by the
// client never overwrites the stored one.

module SettingsRoutes {
  import opened Wrappers
  import opened Strings
  import opened Store

  /**
   * The symmetric cipher the key is stored under. The process key and the
   * randomness of each token are outside the model; a cipher is a pair of
   * functions. Decryption is partial: None stands for the InvalidToken error
   * of a token made under another key, which happens to every stored key
   * once the process has generated a fresh key at a restart.
   */
  datatype Cipher = Cipher(encrypt: string -> string, decrypt: string -> Option<string>)

  /** Every token is non-empty and decrypts to its plaintext. */
  ghost predicate RoundTrips(c: Cipher)
  {
    forall s :: |c.encrypt(s)| > 0 && c.decrypt(c.encrypt(s)) == Some(s)
  }

  /** What decrypt_value raises. */
  datatype CipherError = InvalidToken

  /** Python truthiness of an optional string. */
  predicate Truthy(v: Option<string>)
  {
    v.Some? && v.value != ""
  }

  /** encrypt_value: a falsy value stays empty, anything else is encrypted. */
  function EncryptValue(c: Cipher, v: Option<string>): (r: Option<string>)
    ensures Truthy(v) <==> r.Some?
    ensures r.Some? ==> r.value == c.encrypt(v.value)
  {
    if Truthy(v) then Some(c.encrypt(v.value)) else None
  }

  /**
   * decrypt_value: a falsy value stays empty, anything else is decrypted, and
   * a token the cipher rejects raises InvalidToken.
   */
  function DecryptValue(c: Cipher, v: Option<string>): (r: Result<Option<string>, CipherError>)
    ensures !Truthy(v) ==> r == Success(None)
    ensures Truthy(v) && c.decrypt(v.value).None? ==> r == Failure(InvalidToken)
    ensures Truthy(v) && c.decrypt(v.value).Some? ==> r == Success(c.decrypt(v.value))
  {
    if !Truthy(v) then Success(None)
    else if c.decrypt(v.value).None? then Failure(InvalidToken)
    else Success(c.decrypt(v.value))
  }

  /** Encrypting then decrypting gives back every truthy value. */
  lemma EncryptDecrypt(c: Cipher, v: Option<string>)
    requires RoundTrips(c) && Truthy(v)
    ensures DecryptValue(c, EncryptValue(c, v)) == Success(v)
  {
    assert |c.encrypt(v.value)| > 0;
  }

  /** The masked form of a key: three stars and the last four characters of a long key, three stars alone otherwise. */
  function MaskKey(plain: string): (m: string)
    ensures StartsWith(m, "***")
    ensures |plain| > 4 ==> |m| == 7 && m[3..] == plain[|plain| - 4..]
    ensures |plain| <= 4 ==> m == "***"
  {
    if |plain| > 4 then "***" + plain[|plain| - 4..] else "***"
  }

  /**
   * The settings as returned to the client: a truthy stored key is replaced
   * by its masked plaintext. A key the cipher rejects raises out of the
   * route, which answers 500.
   */
  function MaskedView(c: Cipher, s: UserSettings): (v: Result<UserSettings, HttpError>)
    ensures Truthy(s.openaiKey) && c.decrypt(s.openaiKey.value).None? <==> v == Failure(ServerError)
    ensures v.Success? ==> v.value.distanceUnit == s.distanceUnit && v.value.paceFormat == s.paceFormat
    ensures v.Success? ==> v.value.elevationUnit == s.elevationUnit && v.value.stylePreferences == s.stylePreferences
    ensures Truthy(s.openaiKey) && c.decrypt(s.openaiKey.value).Some? ==>
              v.Success? && v.value.openaiKey == Some(MaskKey(c.decrypt(s.openaiKey.value).value))
    ensures !Truthy(s.openaiKey) ==> v.Success? && v.value.openaiKey == s.openaiKey
  {
    var plain := DecryptValue(c, s.openaiKey);
    if plain.Failure? then Failure(ServerError)
    else if plain.value.Some? then Success(s.(openaiKey := Some(MaskKey(plain.value.value))))
    else Success(s)
  }

  /** A masked view never carries a key that could be mistaken for a new one. */
  lemma MaskedViewIsMasked(c: Cipher, s: UserSettings)
    ensures MaskedView(c, s).Success? && Truthy(MaskedView(c, s).value.openaiKey) ==>
              StartsWith(MaskedView(c, s).value.openaiKey.value, "***")
  {
    if Truthy(s.openaiKey) && c.decrypt(s.openaiKey.value).Some? {
      var m := MaskKey(c.decrypt(s.openaiKey.value).value);
      assert StartsWith(m, "***");
    }
  }

  /**
   * get_settings: the row, created with its defaults when there is none,
   * returned masked; the row is committed before the key is decrypted, so a
   * rejected key still leaves it created.
   */
  method GetSettings(db: Database, c: Cipher) returns (resp: Result<UserSettings, HttpError>)
    modifies db
    ensures db.events == old(db.events) && db.waypoints == old(db.waypoints) && db.legs == old(db.legs)
    ensures db.settings == Some(if old(db.settings).None? then DefaultSettings else old(db.settings).value)
    ensures resp == MaskedView(c, db.settings.value)
  {
    if db.settings.None? {
      db.settings := Some(DefaultSettings);
    }
    resp := MaskedView(c, db.settings.value);
  }

  /**
   * The body of an update request; an outer None is a field that was not
   * sent. The key and the style preferences are nullable.
   */
  datatype SettingsUpdate = SettingsUpdate(
    distanceUnit: Option<DistanceUnit>,
    paceFormat: Option<string>,
    elevationUnit: Option<ElevationUnit>,
    openaiKey: Option<Option<string>>,
    stylePreferences: Option<Option<string>>)

  /** A key the client sent back in its masked form. */
  predicate IsMasked(k: Option<string>)
  {
    Truthy(k) && StartsWith(k.value, "***")
  }

  /**
   * `s` is `before` with the fields sent applied: a truthy key is stored
   * encrypted unless it is masked, in which case it is dropped; a falsy key
   * is stored as sent.
   */
  predicate UpdatedSettings(c: Cipher, before: UserSettings, upd: SettingsUpdate, s: UserSettings)
  {
    && s.distanceUnit == (if upd.distanceUnit.Some? then upd.distanceUnit.value else before.distanceUnit)
    && s.paceFormat == (if upd.paceFormat.Some? then upd.paceFormat.value else before.paceFormat)
    && s.elevationUnit == (if upd.elevationUnit.Some? then upd.elevationUnit.value else before.elevationUnit)
    && s.stylePreferences == (if upd.stylePreferences.Some? then upd.stylePreferences.value else before.stylePreferences)
    && s.openaiKey == (if upd.openaiKey.None? || IsMasked(upd.openaiKey.value) then before.openaiKey
                       else if Truthy(upd.openaiKey.value) then EncryptValue(c, upd.openaiKey.value)
                       else upd.openaiKey.value)
  }

  /**
   * update_settings: the row (created with its defaults when missing)
   * updated and committed, then returned masked; a stored key the cipher
   * rejects makes the response a 500 after the update is saved.
   */
  method UpdateSettings(db: Database, c: Cipher, upd: SettingsUpdate) returns (resp: Result<UserSettings, HttpError>)
    modifies db
    ensures db.events == old(db.events) && db.waypoints == old(db.waypoints) && db.legs == old(db.legs)
    ensures db.settings.Some?
    ensures UpdatedSettings(c, if old(db.settings).None? then DefaultSettings else old(db.settings).value,
                            upd, db.settings.value)
    ensures resp == MaskedView(c, db.settings.value)
  {
    var s := if db.settings.None? then DefaultSettings else db.settings.value;
    var key := upd.openaiKey;
    if key.Some? && Truthy(key.value) {
      if !StartsWith(key.value.value, "***") {
        key := Some(EncryptValue(c, key.value));
      } else {
        key := None;
      }
    }
    assert key == if upd.openaiKey.None? || IsMasked(upd.openaiKey.value) then None
                  else if Truthy(upd.openaiKey.value) then Some(EncryptValue(c, upd.openaiKey.value))
                  else upd.openaiKey;
    if upd.distanceUnit.Some? { s := s.(distanceUnit := upd.distanceUnit.value); }
    if upd.paceFormat.Some? { s := s.(paceFormat := upd.paceFormat.value); }
    if upd.elevationUnit.Some? { s := s.(elevationUnit := upd.elevationUnit.value); }
    if key.Some? { s := s.(openaiKey := key.value); }
    if upd.stylePreferences.Some? { s := s.(stylePreferences := upd.stylePreferences.value); }
    db.settings := Some(s);
    resp := MaskedView(c, s);
  }

  /**
   * A new key sent in clear is stored so that it decrypts back to itself,
   * and the response shows its masked form.
   */
  lemma NewKeyIsRecoverable(c: Cipher, before: UserSettings, upd: SettingsUpdate, s: UserSettings)
    requires RoundTrips(c) && UpdatedSettings(c, before, upd, s)
    requires upd.openaiKey.Some? && Truthy(upd.openaiKey.value) && !IsMasked(upd.openaiKey.value)
    ensures DecryptValue(c, s.openaiKey) == Success(upd.openaiKey.value)
    ensures MaskedView(c, s) == Success(s.(openaiKey := Some(MaskKey(upd.openaiKey.value.value))))
  {
    EncryptDecrypt(c, upd.openaiKey.value);
  }

  /**
   * Sending back the settings exactly as they were returned leaves the
   * stored key as it was: the masked key is recognised and dropped.
   */
  lemma ResendingViewKeepsKey(c: Cipher, before: UserSettings, s: UserSettings)
    requires MaskedView(c, before).Success?
    requires UpdatedSettings(c, before, SettingsUpdate(None, None, None, Some(MaskedView(c, before).value.openaiKey), None), s)
    ensures s == before
  {
    MaskedViewIsMasked(c, before);
  }
}
