# Riki accounts: a Dafny model of the user store and its credentials

This project models the account layer of the Riki wiki, `Riki/wiki/web/user.py`:

- **`UserManager`** keeps every account in one JSON file, `users.json`, as an object from username to record.
  Every operation reads the whole file. Those that change the store change the copy in memory and write the whole file back; a lookup, a refused or failed add and a delete of an absent name write nothing.
  A file that is missing, cannot be opened or is not valid JSON reads as the empty store.
- **`User`** is an in-memory copy of one record. `set` changes one key of the copy and saves the whole copy under the user's name.
  `check_password` dispatches on the record's `authentication_method`.
- **Salted hashing.** `make_salted_hash` hashes `salt[:32] ++ password ++ salt[32:]` with SHA-512.
  It returns the hex form of the salt followed by the hex digest. `check_hashed_password` reads the salt back from the first 128 characters and recomputes.
- **`UserRegistrationController.register_user`** rejects a taken username, then a confirmation mismatch, and only then adds the account.
- **`protect`** refuses a request on a private site only when the caller is the anonymous user. Any loaded account passes, whatever its record says (see Findings).

Files and modules:

| file | module | what it holds |
|---|---|---|
| `wrappers.dfy` | `Wrappers` | `Option`, `Result` |
| `json.dfy` | `JsonValues` | decoded JSON values and Python truthiness |
| `hex.dfy` | `Hex` | `hexlify` / `unhexlify` |
| `salted_hash.dfy` | `SaltedHash` | `make_salted_hash`, `check_hashed_password` |
| `records.dfy` | `Records` | what a new record holds, the default method, `check_password` on a record |
| `users.dfy` | `Users` | the `UserManager`, `User` and `RegistrationController` classes |
| `access.dfy` | `Access` | `protect` |

Modelling choices:

- A record is `map<string, Json>`, the Python dict itself. `User.set` takes any key, and `check_password` reads keys that may be missing, so a fixed struct would not be faithful.
- The file is the field `UserManager.file: Option<Store>`. `None` stands for a missing or corrupt file.
- Python truthiness is kept. `users.get(name)` is truthy only when the name is stored with a non-empty record (`Records.Present`). `add_user`, `get_user` and `delete_user` all branch on it.
- The 64 random bytes of `os.urandom(64)` and the `uuid4` string are parameters (`random`, `id`).
- SHA-512 is the parameter `sha512` of type `SaltedHash.Sha512`: any function returning 128 lower-case hex digits. Nothing about the hash beyond that is assumed.
- Flask's `current_app.config` is the `Records.Config` value (`PRIVATE`, `DEFAULT_AUTHENTICATION_METHOD`).
- The flash messages of `register_user` are the `Users.Registration` outcome. Python's `True` is `Created`.
- Exceptions are values: `NotImplementedError` for an unknown method is `UnsupportedMethod`. A non-string `hash` (Python's `TypeError`) is `HashNotText`. A non-hex salt prefix (`binascii.Error`) is `MalformedHash`.

Behaviour of the source that the model keeps:

- `delete_user` tests the truthiness of the popped value (user.py:75). A name stored with an empty record `{}` reports `False`, and nothing is written.
- `protect` reads `current_user.is_authenticated` without calling it (see Findings).

Consequences the contracts make visible:

- Adding a user to an unreadable file replaces the file with a store holding only the new user (`UserManager.AddUser`: `file == Some(old(Read())[name := …])` with `old(Read()) == map[]`).
- `User.Save` writes the copy under the name whatever the file holds there. A `User` loaded before its account was deleted re-creates the account when `set` is called on it.
- In a sequential run, `register_user` never reaches its "Failed to add user" branch (`AddFailed`). The store cannot change between the existence check and `add_user`.

## Model

| member | source | states |
|---|---|---|
| `Users.UserManager.constructor` | Riki/wiki/web/user.py:19-20 | the manager starts over the given file contents |
| `Users.UserManager.Read` | Riki/wiki/web/user.py:22-29 | the decoded file, or the empty store when the file cannot be read or decoded |
| `Users.UserManager.Write` | Riki/wiki/web/user.py:31-36 | the file afterwards holds exactly the given store |
| `Users.UserManager.AddUser` | Riki/wiki/web/user.py:38-64 | refuses exactly when the name is present, leaving the file untouched. An unknown method raises and writes nothing. Otherwise the file is the old store plus exactly `name ↦ record`, and the returned fresh User wraps that record under that name |
| `Users.UserManager.GetUser` | Riki/wiki/web/user.py:66-71 | None exactly when the name is not present; otherwise a fresh User over the stored record |
| `Users.UserManager.DeleteUser` | Riki/wiki/web/user.py:73-78 | returns whether the name was present. When it was, the file is the old store without that name and every other entry is kept. Otherwise nothing is written |
| `Users.UserManager.Update` | Riki/wiki/web/user.py:80-83 | the file is the old store with `name` mapped to the given record; every other entry is unchanged |
| `Users.User.constructor` | Riki/wiki/web/user.py:119-122 | the User holds the manager, name and record it was given |
| `Users.User.Get` | Riki/wiki/web/user.py:124-125 | the copy's value for the key, None when the key is missing |
| `Users.User.Set` | Riki/wiki/web/user.py:127-129 | the copy gets `option ↦ value` and reads it back. The file is the store as it was just before, with this user's whole copy under its name |
| `Users.User.Save` | Riki/wiki/web/user.py:131-132 | the file is the store as it was just before, with the whole copy under the user's name |
| `Users.User.IsAuthenticated` | Riki/wiki/web/user.py:134-135 | the copy's `authenticated` value, None when missing |
| `Users.User.IsActive` | Riki/wiki/web/user.py:137-138 | the copy's `active` value, None when missing |
| `Users.User.IsAnonymous` | Riki/wiki/web/user.py:140-141 | a stored account is never the anonymous user |
| `Users.User.GetId` | Riki/wiki/web/user.py:143-144 | the identifier is the username, the store key |
| `Users.User.CheckPassword` | Riki/wiki/web/user.py:146-159 | the password check runs on the User's own copy of the record, which may be older than the file |
| `Users.Validate` | Riki/wiki/web/user.py:96-105 | a taken username is reported regardless of the passwords. A mismatch is reported only for a free name. The add proceeds only when the name is free and both passwords agree |
| `Users.RegistrationController.constructor` | Riki/wiki/web/user.py:87-88 | the controller works on the given manager |
| `Users.RegistrationController.RegisterUser` | Riki/wiki/web/user.py:90-115 | a taken name or a mismatch rejects with the file untouched. A valid form never ends in a rejection or a failed add, and it creates the account exactly when the configured default method is supported. An unknown default method raises with the file untouched. On success the file gains exactly the new record, built with `active = True`, no roles and the configured default method, and the returned User wraps it under this manager |
| `Records.Present` | Riki/wiki/web/user.py:40 | `users.get(name)` is truthy exactly when the name is stored and its record, as a JSON object, is truthy (non-empty); `get_user` and `delete_user` make the same test at lines 69 and 75 |
| `Records.DefaultAuthenticationMethod` | Riki/wiki/web/user.py:162-163 | the configured method, `cleartext` when none is configured |
| `Records.ResolveMethod` | Riki/wiki/web/user.py:42-43 | add_user uses the method asked for, and the configured default only when none is given |
| `Records.NewRecord` | Riki/wiki/web/user.py:44-59 | succeeds exactly for `hash` and `cleartext`, otherwise reports the tag. The record's keys are the seven common keys plus exactly one credential key: `hash` holding the salted hash under `hash`, `password` holding the password verbatim under `cleartext`. It has `authenticated` and `is_anonymous` false and the given id, email, active flag, roles and method |
| `Records.EffectiveMethod` | Riki/wiki/web/user.py:149-151 | a missing or null `authentication_method` falls back to the configured default; any other stored value is used as it is |
| `Records.CheckPassword` | Riki/wiki/web/user.py:146-159 | an unrecognised tag is an `UnsupportedMethod` failure. `cleartext` is equality of the stored password with the candidate. `hash` defers to `check_hashed_password` on the stored string and fails when it is not a string or not hex |
| `Records.UnknownMethodNeverAuthenticates` | Riki/wiki/web/user.py:153-159 | a check that accepts a password happened under `hash` or `cleartext` |
| `Records.NewRecordCheck` | Riki/wiki/web/user.py:146-159 | on a record add_user built: under `cleartext` a candidate is accepted iff it equals the password; under `hash` iff its digest under the record's salt equals the password's |
| `Records.NewRecordAcceptsItsPassword` | Riki/wiki/web/user.py:54-59 | the login round trip: a record add_user built accepts the password it was built with, under either method |
| `Hex.HexEncode` | Riki/wiki/web/user.py:173 | two lower-case hex digits per byte |
| `Hex.HexDecode` | Riki/wiki/web/user.py:177 | decoding succeeds exactly on an even-length run of hex digits, either case accepted (`HexValue`, `IsHexText`); it fails on an odd length or any other character. A decoded string has exactly two characters per byte |
| `Hex.HexRoundTrip` | Riki/wiki/web/user.py:173-177 | unhexlify(hexlify(b)) == b for all bytes |
| `Hex.HexEncodeInjective` | Riki/wiki/web/user.py:173 | distinct bytes have distinct hex forms |
| `SaltedHash.MakeSaltedHash` | Riki/wiki/web/user.py:166-173 | the artifact is two characters per salt byte plus a 128-character digest |
| `SaltedHash.EffectiveSalt` | Riki/wiki/web/user.py:167-168 | an empty salt is replaced by the fresh random bytes; a non-empty salt is used as given |
| `SaltedHash.CheckHashedPassword` | Riki/wiki/web/user.py:176-178 | fails exactly when the first 128 characters are not hex text (`binascii.Error`). Otherwise it accepts exactly when rehashing under the decoded salt gives back the whole artifact |
| `SaltedHash.SaltIsRecoverable` | Riki/wiki/web/user.py:166-177 | with a 64-byte salt the artifact is 256 characters, begins with the salt's 128-character hex form, and that prefix decodes back to the salt |
| `SaltedHash.CheckRecomputesDigest` | Riki/wiki/web/user.py:176-178 | checking any candidate against an artifact made with a 64-byte salt succeeds exactly when the two digests under that salt agree |
| `SaltedHash.HashRoundTrip` | Riki/wiki/web/user.py:166-178 | check_hashed_password(p, make_salted_hash(p, s)) holds for every 64-byte salt |
| `SaltedHash.DistinctSaltsDistinctArtifacts` | Riki/wiki/web/user.py:166-173 | two artifacts for one password made with different 64-byte salts differ |
| `SaltedHash.CheckIgnoresRandom` | Riki/wiki/web/user.py:176-178 | fresh random bytes never change the outcome of a check, and an empty artifact never matches |
| `Access.ProtectAsWritten` | Riki/wiki/web/user.py:181-188 | refuses exactly when the site is private and the caller is the anonymous user; otherwise returns the view's own result |
| `Access.Protect` | Riki/wiki/web/user.py:181-188 | refuses exactly when the site is private and the caller's record is not signed in; otherwise returns the view's own result |
| `Access.AccountSignedInAsUserSays` | Riki/wiki/web/user.py:134-135 | for a loaded User, the gate's "signed in" is the truth of that User's `is_authenticated()` value |
| `Access.RefusalIgnoresView` | Riki/wiki/web/user.py:184-185 | a refused request gets the same answer whatever the view, so the view is never run |
| `Access.GatesDifferOnSignedOutAccounts` | Riki/wiki/web/user.py:184 | the gate as written and the intended gate disagree exactly for a loaded account on a private site whose record is not signed in |
| `Access.SignedOutAccountPassesAsWritten` | Riki/wiki/web/user.py:184 | an account whose record says `authenticated: false` passes the gate as written, and the intended gate refuses it |

## Left out

- Files and JSON text: `open`, `json.loads` and `json.dumps` are not modelled. The file is its decoded value, and a write followed by a read gives the same store. Top-level values other than objects, non-object records and non-integral numbers are not modelled.
- `Users.UserManager.Read`: a `users.json` that is not valid text in the platform encoding makes `f.read()` raise `UnicodeDecodeError` (user.py:25), which `read` does not catch (user.py:27). It escapes every operation. The model reads that file as `{}` like any other unreadable file.
- `Users.UserManager.Write`: the source prints and swallows an `IOError` (user.py:35). One raised by `open` leaves the file as it was. `open(..., 'w')` truncates the file first (user.py:33), so an error while writing or closing leaves it empty or partly written, and it then reads as `{}`. A value `json.dumps` cannot serialise raises an uncaught `TypeError`, also after the truncation. The model's writes always succeed.
- `Users.UserManager`: in the source the file belongs to the path, and every manager built over the same path shares it. Two model managers have independent `file` fields. Within user.py only one manager is ever at work.
- Console output (`print`), including the record that `add_user` logs with a cleartext password in it.
- Randomness: `os.urandom(64)` and `uuid.uuid4()` are parameters. SHA-512 is an arbitrary function of the right output shape. That a different password yields a different digest is an assumption about SHA-512, so `Records.NewRecordCheck` and `SaltedHash.CheckRecomputesDigest` state rejection as "the digests differ".
- The Python 3 type error of `make_salted_hash`: it feeds a `str` password to the hash and adds `bytes` to `str`. The model works on sequences and does not reproduce the crash.
- Concurrency: two interleaved read-modify-write cycles can lose an update. The model is sequential.
- Flask: flash message texts and `login_manager.unauthorized()` are outcome values. `current_user` is the `Access.Caller` argument.
- Configuration values of other types, such as an explicit `None` for `DEFAULT_AUTHENTICATION_METHOD`: the configured default is a string or absent.
- `add_user` arguments of other types: `active` is a boolean and `roles` a list of strings.
- Riki/wiki/web/routes.py, Riki/wiki/web/file_storage.py and Riki/wiki/web/converter.py are not part of this model.

## Findings

| source | as written | input that shows it | evidently intended | confidence | as-written member | corrected member |
|---|---|---|---|---|---|---|
| Riki/wiki/web/user.py:184 | `not current_user.is_authenticated` tests the bound method `User.is_authenticated`, which is truthy for every loaded account | `PRIVATE` set, and `current_user` a loaded account whose record has `authenticated: false` (for one, signed out from another session): the view runs | call `is_authenticated()`, and refuse every caller whose record is not signed in | medium; not executed | `Access.ProtectAsWritten`, shown by `Access.SignedOutAccountPassesAsWritten` | `Access.Protect` |
