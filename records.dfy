/**
 * Account records as the store file holds them (Riki/wiki/web/user.py):
 * each record is a JSON object, the store maps usernames to records.
 * This module holds the record-level logic of user.py: what add_user puts
 * in a new record, the default authentication method, and the password
 * check that User.check_password runs on a record.
 */
module Records {
  import opened Wrappers
  import opened JsonValues
  import opened Hex
  import opened SaltedHash

  /** One account record: the decoded JSON object, key by key. */
  type Record = map<string, Json>

  /** The whole store: the JSON object of users.json, username to record. */
  type Store = map<string, Record>

  /** The application settings the core reads (Flask's current_app.config). */
  datatype Config = Config(private: bool, defaultAuthenticationMethod: Option<string>)

  datatype AuthError =
    | UnsupportedMethod(tag: Json)   // NotImplementedError(authentication_method)
    | HashNotText(found: Json)       // the stored 'hash' is not a string (Python raises TypeError)
    | MalformedHash                  // its first 128 characters are not hex (binascii.Error)

  /** dict.get(key): the stored value, or None (JNull) when the key is missing. */
  function Get(rec: Record, key: string): (v: Json)
    ensures key in rec ==> v == rec[key]
    ensures key !in rec ==> v == JNull
  {
    if key in rec then rec[key] else JNull
  }

  /** `users.get(name)` is truthy: the name is stored and its record is a non-empty object. */
  predicate Present(users: Store, name: string)
    ensures Present(users, name) <==> name in users && Truthy(JObj(users[name]))
  {
    name in users && users[name] != map[]
  }

  /** get_default_authentication_method: the configured method, 'cleartext' when none is configured. */
  function DefaultAuthenticationMethod(config: Config): (m: string)
    ensures config.defaultAuthenticationMethod.None? ==> m == "cleartext"
    ensures config.defaultAuthenticationMethod.Some? ==> m == config.defaultAuthenticationMethod.value
  {
    config.defaultAuthenticationMethod.GetOr("cleartext")
  }

  /** The method add_user uses: the one asked for, or the configured default when none is given. */
  function ResolveMethod(requested: Option<string>, config: Config): (m: string)
    ensures requested.Some? ==> m == requested.value
    ensures requested.None? ==> m == DefaultAuthenticationMethod(config)
  {
    if requested.Some? then requested.value else DefaultAuthenticationMethod(config)
  }

  /** The keys every new record has, besides its one credential key. */
  const RecordKeys: set<string> :=
    {"id", "active", "roles", "authentication_method", "authenticated", "email", "is_anonymous"}

  /** The record add_user builds; an unrecognised method is the NotImplementedError it raises. */
  function NewRecord(
    id: string, password: string, email: string, active: bool, roles: seq<string>,
    authMethod: string, random: seq<byte>, sha512: Sha512): (r: Result<Record, AuthError>)
    ensures r.Success? <==> authMethod == "hash" || authMethod == "cleartext"
    ensures r.Failure? ==> r.error == UnsupportedMethod(JStr(authMethod))
    ensures r.Success? ==>
      var rec := r.value;
      && rec.Keys == RecordKeys + {if authMethod == "hash" then "hash" else "password"}
      && rec["id"] == JStr(id)
      && rec["active"] == JBool(active)
      && rec["roles"] == JArr(Strings(roles))
      && rec["authentication_method"] == JStr(authMethod)
      && rec["authenticated"] == JBool(false)
      && rec["email"] == JStr(email)
      && rec["is_anonymous"] == JBool(false)
    ensures r.Success? && authMethod == "cleartext" ==> r.value["password"] == JStr(password)
    ensures r.Success? && authMethod == "hash" ==> r.value["hash"] == JStr(MakeSaltedHash(password, [], random, sha512))
  {
    var base := map[
      "id" := JStr(id),
      "active" := JBool(active),
      "roles" := JArr(Strings(roles)),
      "authentication_method" := JStr(authMethod),
      "authenticated" := JBool(false),
      "email" := JStr(email),
      "is_anonymous" := JBool(false)];
    if authMethod == "hash" then Success(base["hash" := JStr(MakeSaltedHash(password, [], random, sha512))])
    else if authMethod == "cleartext" then Success(base["password" := JStr(password)])
    else Failure(UnsupportedMethod(JStr(authMethod)))
  }

  /** `data.get('authentication_method', None)`, with None replaced by the configured default. */
  function EffectiveMethod(rec: Record, config: Config): (tag: Json)
    ensures Get(rec, "authentication_method") == JNull ==> tag == JStr(DefaultAuthenticationMethod(config))
    ensures Get(rec, "authentication_method") != JNull ==> tag == rec["authentication_method"]
  {
    var stored := Get(rec, "authentication_method");
    if stored == JNull then JStr(DefaultAuthenticationMethod(config)) else stored
  }

  /**
   * User.check_password on the record `rec`: dispatch on the record's method;
   * 'cleartext' compares the stored password, 'hash' defers to
   * check_hashed_password on the stored artifact, any other tag fails.
   */
  function CheckPassword(rec: Record, password: string, config: Config, random: seq<byte>, sha512: Sha512)
    : (r: Result<bool, AuthError>)
    ensures var tag := EffectiveMethod(rec, config);
      tag != JStr("hash") && tag != JStr("cleartext") ==> r == Failure(UnsupportedMethod(tag))
    ensures EffectiveMethod(rec, config) == JStr("cleartext") ==>
      r == Success(Get(rec, "password") == JStr(password))
    ensures EffectiveMethod(rec, config) == JStr("hash") ==>
      match Get(rec, "hash")
      case JStr(artifact) =>
        r == (if CheckHashedPassword(password, artifact, random, sha512).Success?
              then Success(CheckHashedPassword(password, artifact, random, sha512).value)
              else Failure(MalformedHash))
      case other => r == Failure(HashNotText(other))
  {
    var tag := EffectiveMethod(rec, config);
    if tag == JStr("hash") then
      match Get(rec, "hash")
      case JStr(artifact) =>
        (match CheckHashedPassword(password, artifact, random, sha512)
         case Success(ok) => Success(ok)
         case Failure(_) => Failure(MalformedHash))
      case other => Failure(HashNotText(other))
    else if tag == JStr("cleartext") then
      Success(Get(rec, "password") == JStr(password))
    else
      Failure(UnsupportedMethod(tag))
  }

  /** A record whose tag is neither 'hash' nor 'cleartext' (after the default) never accepts a password. */
  lemma UnknownMethodNeverAuthenticates(rec: Record, password: string, config: Config, random: seq<byte>, sha512: Sha512)
    requires CheckPassword(rec, password, config, random, sha512) == Success(true)
    ensures EffectiveMethod(rec, config) in {JStr("hash"), JStr("cleartext")}
  {
  }

  /**
   * Checking a candidate against a record add_user built: under 'cleartext'
   * the check is string equality, under 'hash' it holds exactly when the
   * digests of the two passwords under the record's salt agree.
   */
  lemma NewRecordCheck(
    id: string, password: string, candidate: string, email: string, active: bool, roles: seq<string>,
    authMethod: string, random: seq<byte>, random': seq<byte>, config: Config, sha512: Sha512)
    requires |random| == SaltBytes
    requires NewRecord(id, password, email, active, roles, authMethod, random, sha512).Success?
    ensures var rec := NewRecord(id, password, email, active, roles, authMethod, random, sha512).value;
      && (authMethod == "cleartext" ==> CheckPassword(rec, candidate, config, random', sha512) == Success(candidate == password))
      && (authMethod == "hash" ==>
            CheckPassword(rec, candidate, config, random', sha512)
            == Success(sha512(Front(random), candidate, Back(random)) == sha512(Front(random), password, Back(random))))
  {
    if authMethod == "hash" {
      CheckRecomputesDigest(password, candidate, [], random, random', sha512);
    }
  }

  /** The login round trip: a record add_user built accepts the password it was built with. */
  lemma NewRecordAcceptsItsPassword(
    id: string, password: string, email: string, active: bool, roles: seq<string>,
    authMethod: string, random: seq<byte>, random': seq<byte>, config: Config, sha512: Sha512)
    requires |random| == SaltBytes
    requires NewRecord(id, password, email, active, roles, authMethod, random, sha512).Success?
    ensures CheckPassword(NewRecord(id, password, email, active, roles, authMethod, random, sha512).value,
                          password, config, random', sha512) == Success(true)
  {
    NewRecordCheck(id, password, password, email, active, roles, authMethod, random, random', config, sha512);
  }
}
