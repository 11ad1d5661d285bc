/**
 * The account store and the objects around it (Riki/wiki/web/user.py):
 * UserManager owns users.json, User is an in-memory copy of one record that
 * writes itself back through the manager, and RegistrationController
 * validates a sign-up form before asking the manager to add the account.
 *
 * The file is the field `file`; every operation reads all of it, changes the
 * copy and writes all of it back, as the source does.
 */
module Users {
  import opened Wrappers
  import opened JsonValues
  import opened Hex
  import opened SaltedHash
  import opened Records

  /** What add_user does: False, a new User, or NotImplementedError for the method. */
  datatype AddOutcome = AlreadyExists | Added(user: User) | Raised(error: AuthError)

  class UserManager {
    /** users.json: its decoded contents, or None when it is missing or does not decode. */
    var file: Option<Store>

    constructor (contents: Option<Store>)
      ensures file == contents
    {
      file := contents;
    }

    /** read(): the decoded file; an unreadable or undecodable file reads as the empty store. */
    function Read(): (users: Store)
      reads this
      ensures file.Some? ==> users == file.value
      ensures file.None? ==> users == map[]
    {
      file.GetOr(map[])
    }

    /** write(data): replaces the whole file. */
    method Write(users: Store)
      modifies this
      ensures file == Some(users)
    {
      file := Some(users);
    }

    method AddUser(
      name: string, password: string, email: string, active: bool, roles: seq<string>,
      authenticationMethod: Option<string>, config: Config,
      id: string, random: seq<byte>, sha512: Sha512) returns (r: AddOutcome)
      modifies this
      ensures r.AlreadyExists? <==> Present(old(Read()), name)
      ensures !r.Added? ==> file == old(file)
      ensures !r.AlreadyExists? ==>
        var rec := NewRecord(id, password, email, active, roles,
                             ResolveMethod(authenticationMethod, config), random, sha512);
        && (rec.Failure? ==> r == Raised(rec.error))
        && (rec.Success? ==>
              && r.Added? && fresh(r.user)
              && r.user.manager == this && r.user.name == name && r.user.data == rec.value
              && file == Some(old(Read())[name := rec.value])
              && Present(Read(), name))
    {
      var users := Read();
      if Present(users, name) {
        return AlreadyExists;
      }
      var authMethod := ResolveMethod(authenticationMethod, config);
      var rec := NewRecord(id, password, email, active, roles, authMethod, random, sha512);
      if rec.Failure? {
        return Raised(rec.error);
      }
      users := users[name := rec.value];
      Write(users);
      var user := new User(this, name, users[name]);
      return Added(user);
    }

    /** get_user: a User over the stored record, or None when users.get(name) is falsy. */
    method GetUser(name: string) returns (user: User?)
      ensures user == null <==> !Present(Read(), name)
      ensures user != null ==>
        fresh(user) && user.manager == this && user.name == name && user.data == Read()[name]
    {
      var users := Read();
      if !Present(users, name) {
        return null;
      }
      user := new User(this, name, users[name]);
    }

    /**
     * delete_user: `users.pop(name, False)` and write back only when the popped
     * record is truthy; a missing name or an empty record leaves the file as it was.
     */
    method DeleteUser(name: string) returns (deleted: bool)
      modifies this
      ensures deleted == Present(old(Read()), name)
      ensures deleted ==> file == Some(old(Read()) - {name}) && name !in Read()
      ensures !deleted ==> file == old(file)
    {
      var users := Read();
      var popped: Record := map[];
      if name in users {
        popped := users[name];
        users := users - {name};
      }
      if popped == map[] {
        return false;
      }
      Write(users);
      return true;
    }

    /** update: store `userdata` under `name`, whatever was there, and write back. */
    method Update(name: string, userdata: Record)
      modifies this
      ensures file == Some(old(Read())[name := userdata])
      ensures forall other :: other in old(Read()) && other != name ==> other in Read() && Read()[other] == old(Read())[other]
    {
      var data := Read();
      data := data[name := userdata];
      Write(data);
    }
  }

  class User {
    const manager: UserManager
    const name: string
    /** The record as loaded or last set; it may be older than the file. */
    var data: Record

    constructor (manager: UserManager, name: string, data: Record)
      ensures this.manager == manager && this.name == name && this.data == data
    {
      this.manager := manager;
      this.name := name;
      this.data := data;
    }

    /** get(option): the record's value, None (JNull) when the key is missing. */
    function Get(option: string): (v: Json)
      reads this
      ensures option in data ==> v == data[option]
      ensures option !in data ==> v == JNull
    {
      Records.Get(data, option)
    }

    /** set: change one key of the copy, then save the whole copy under this user's name. */
    method Set(option: string, value: Json)
      modifies this, manager
      ensures data == old(data)[option := value]
      ensures Get(option) == value
      ensures manager.file == Some(old(manager.Read())[name := data])
    {
      data := data[option := value];
      Save();
    }

    /** save: the copy replaces whatever the file holds under this name, absent or not. */
    method Save()
      modifies manager
      ensures manager.file == Some(old(manager.Read())[name := data])
    {
      manager.Update(name, data);
    }

    /** is_authenticated(): the stored 'authenticated' value, None when missing. */
    function IsAuthenticated(): (v: Json)
      reads this
      ensures "authenticated" in data ==> v == data["authenticated"]
      ensures "authenticated" !in data ==> v == JNull
    {
      Get("authenticated")
    }

    /** is_active(): the stored 'active' value, None when missing. */
    function IsActive(): (v: Json)
      reads this
      ensures "active" in data ==> v == data["active"]
      ensures "active" !in data ==> v == JNull
    {
      Get("active")
    }

    /** is_anonymous(): no stored account is the anonymous user. */
    function IsAnonymous(): (b: bool)
      ensures !b
    {
      false
    }

    /** get_id(): the username, which is the store key. */
    function GetId(): (id: string)
      reads this
      ensures id == name
    {
      name
    }

    /** check_password on this copy of the record. */
    function CheckPassword(password: string, config: Config, random: seq<byte>, sha512: Sha512)
      : (r: Result<bool, AuthError>)
      reads this
      ensures r == Records.CheckPassword(data, password, config, random, sha512)
    {
      Records.CheckPassword(data, password, config, random, sha512)
    }
  }

  /** The fields of the sign-up form register_user reads. */
  datatype RegisterForm = RegisterForm(username: string, password: string, confirmPassword: string, email: string)

  /** The outcome of the two checks register_user makes before adding the account. */
  datatype Verdict = UsernameTaken | PasswordMismatch | Proceed

  /** The first failing check wins: an existing username before a confirmation mismatch. */
  function Validate(taken: bool, password: string, confirmPassword: string): (v: Verdict)
    ensures v == UsernameTaken <==> taken
    ensures v == PasswordMismatch <==> !taken && password != confirmPassword
    ensures v == Proceed <==> !taken && password == confirmPassword
  {
    if taken then UsernameTaken
    else if password != confirmPassword then PasswordMismatch
    else Proceed
  }

  /**
   * What register_user ends in: its flash message and False for a rejected
   * form or a failed add, True with the new account, or add_user's exception.
   */
  datatype Registration =
    | Rejected(reason: Verdict)
    | Created(user: User)
    | AddFailed
    | RaisedOnAdd(error: AuthError)

  class RegistrationController {
    const manager: UserManager

    constructor (manager: UserManager)
      ensures this.manager == manager
    {
      this.manager := manager;
    }

    method RegisterUser(form: RegisterForm, config: Config, id: string, random: seq<byte>, sha512: Sha512)
      returns (outcome: Registration)
      modifies manager
      ensures var verdict := Validate(Present(old(manager.Read()), form.username), form.password, form.confirmPassword);
        && (verdict != Proceed ==> outcome == Rejected(verdict) && manager.file == old(manager.file))
        && (verdict == Proceed ==> !outcome.Rejected? && !outcome.AddFailed?)
        && (verdict == Proceed ==>
              (outcome.Created? <==>
                 NewRecord(id, form.password, form.email, true, [], DefaultAuthenticationMethod(config), random, sha512).Success?))
      ensures outcome.RaisedOnAdd? ==>
        && outcome.error == UnsupportedMethod(JStr(DefaultAuthenticationMethod(config)))
        && manager.file == old(manager.file)
      ensures outcome.Created? ==>
        var rec := NewRecord(id, form.password, form.email, true, [], DefaultAuthenticationMethod(config), random, sha512);
        && rec.Success?
        && fresh(outcome.user) && outcome.user.manager == manager
        && outcome.user.name == form.username && outcome.user.data == rec.value
        && manager.file == Some(old(manager.Read())[form.username := rec.value])
    {
      var existing := manager.GetUser(form.username);
      var verdict := Validate(existing != null, form.password, form.confirmPassword);
      if verdict != Proceed {
        return Rejected(verdict);
      }
      var added := manager.AddUser(form.username, form.password, form.email, true, [], None, config, id, random, sha512);
      match added
      case Added(user) => outcome := Created(user);
      case AlreadyExists => outcome := AddFailed;
      case Raised(error) => outcome := RaisedOnAdd(error);
    }
  }
}
