/** The User model: the name's validators and uniqueness, the password rules `setPassword`
    applies before it stores the hash, and `make`, which validates, hashes and saves. */
module Users {
  import opened Entities
  import opened JsText

  const NameEmpty := "Username may not be empty"
  const NameNotAlphanumeric := "Username may only consist of letters and numbers"
  const NameTaken := "Username is already taken"
  const PasswordEmpty := "Password may not be empty"
  const PasswordLength := "Password must at least have 8 characters"
  const PasswordBlank := "The password may not consist of only whitespace characters"

  /** `isUser`: false for anything that is not a User instance and for unsaved users. */
  function IsUser(obj: Obj): (b: bool)
    ensures b ==> obj.Instance? && obj.model == UserModel
    ensures obj.Instance? && obj.isNewRecord ==> !b
  {
    IsPersisted(obj, UserModel)
  }

  /** The class `[0-9A-Z]` under the `i` flag. */
  predicate AsciiAlphanumeric(c: char)
  {
    ('0' <= c <= '9') || ('a' <= c <= 'z') || ('A' <= c <= 'Z')
  }

  /** The `isAlphanumeric` validator: one or more ASCII letters and digits. */
  predicate Alphanumeric(s: string)
  {
    s != [] && forall i :: 0 <= i < |s| ==> AsciiAlphanumeric(s[i])
  }

  /** The messages of the name's validators: `notEmpty`, then `isAlphanumeric`. */
  function NameMessages(name: string): (m: seq<string>)
    ensures m == [] <==> Alphanumeric(name)
    ensures Blank(name) ==> m == [NameEmpty, NameNotAlphanumeric]
    ensures !Blank(name) && !Alphanumeric(name) ==> m == [NameNotAlphanumeric]
  {
    assert Blank(name) && name != [] ==> IsWhitespace(name[0]);
    (if Blank(name) then [NameEmpty] else []) + (if Alphanumeric(name) then [] else [NameNotAlphanumeric])
  }

  /** The password rule that `setPassword` rejects first, in its order: empty, a length
      outside 8..50, whitespace only. */
  function PasswordError(password: string): (e: Option<string>)
    ensures e.None? <==> 8 <= |password| <= 50 && !Blank(password)
    ensures password == [] ==> e == Some(PasswordEmpty)
    ensures password != [] && !(8 <= |password| <= 50) ==> e == Some(PasswordLength)
    ensures 8 <= |password| <= 50 && Blank(password) ==> e == Some(PasswordBlank)
  {
    if password == [] then Some(PasswordEmpty)
    else if !(8 <= |password| <= 50) then Some(PasswordLength)
    else if Trim(password) == [] then Some(PasswordBlank)
    else None
  }

  /** How `setPassword` settles: resolved, rejected with a rule's message, or rejected
      with the hashing error. */
  datatype Settled = Done | Refused(message: string) | HashFailed

  /** A user instance as `make` builds it: its name and the stored password (the plain
      text until `setPassword` replaces it by the hash). */
  class User {
    var name: string
    var password: string

    /** `User.build(userData)`. */
    constructor (name: string, password: string)
      ensures this.name == name && this.password == password
    {
      this.name := name;
      this.password := password;
    }

    /** `user.setPassword(password)`; `hash` is what the hashing call yields for it, None
        when it fails. The stored password changes only when the rules pass and the hash
        succeeds, and then it is the hash. */
    method SetPassword(password: string, hash: Option<string>) returns (r: Settled)
      modifies this`password
      ensures PasswordError(password).Some? ==> r == Refused(PasswordError(password).value)
      ensures PasswordError(password).None? && hash.None? ==> r == HashFailed
      ensures r == Done <==> PasswordError(password).None? && hash.Some?
      ensures this.password == (if r == Done then hash.value else old(this.password))
    {
      if password == [] {
        return Refused(PasswordEmpty);
      }
      if !(8 <= |password| <= 50) {
        return Refused(PasswordLength);
      }
      if Trim(password) == [] {
        return Refused(PasswordBlank);
      }
      if hash.None? {
        return HashFailed;
      }
      this.password := hash.value;
      r := Done;
    }
  }

  /** The creation data `make` receives; None stands for a missing or falsy field. */
  datatype UserData = UserData(name: Option<string>, password: Option<string>)

  /** A saved user: its name and the hash of its password. */
  datatype Saved = Saved(name: string, passwordHash: string)

  /** How `make` settles. */
  datatype Made = Created(user: Saved) | Invalid(messages: seq<string>) | Rejected(message: string) | HashError

  /** What `make` ends with: the name's validators, the password rules, the hash, then
      the save, which refuses a taken name. `taken` is the set of names already stored
      and `hash` what hashing the password yields. */
  function MakeEffect(data: UserData, taken: set<string>, hash: Option<string>): (m: Made)
    ensures m.Created? <==>
      && Alphanumeric(OrEmpty(data.name)) && PasswordError(OrEmpty(data.password)).None?
      && hash.Some? && OrEmpty(data.name) !in taken
    ensures m.Created? ==> m.user == Saved(OrEmpty(data.name), hash.value)
  {
    var name := OrEmpty(data.name);
    var password := OrEmpty(data.password);
    if NameMessages(name) != [] then Invalid(NameMessages(name))
    else if PasswordError(password).Some? then Rejected(PasswordError(password).value)
    else if hash.None? then HashError
    else if name in taken then Rejected(NameTaken)
    else Created(Saved(name, hash.value))
  }

  /** `User.make(userData)`: defaults the fields to '', builds and validates the
      instance, sets the password, and saves it. */
  method Make(data: UserData, taken: set<string>, hash: Option<string>) returns (m: Made)
    ensures m == MakeEffect(data, taken, hash)
  {
    var name := if data.name.Some? then data.name.value else "";
    var password := if data.password.Some? then data.password.value else "";
    var user := new User(name, password);
    var messages := NameMessages(user.name);
    if messages != [] {
      return Invalid(messages);
    }
    var settled := user.SetPassword(password, hash);
    if settled.Refused? {
      return Rejected(settled.message);
    }
    if settled.HashFailed? {
      return HashError;
    }
    if user.name in taken {
      return Rejected(NameTaken);
    }
    m := Created(Saved(user.name, user.password));
  }

  /** The name is checked before the password: a bad name is reported whatever the
      password, and no password rule is reached. */
  lemma NameBeforePassword(data: UserData, other: Option<string>, taken: set<string>, hash: Option<string>)
    requires !Alphanumeric(OrEmpty(data.name))
    ensures var m := MakeEffect(data, taken, hash);
      && m.Invalid? && m == MakeEffect(UserData(data.name, other), taken, hash)
      && (data.name.None? ==> m.messages == [NameEmpty, NameNotAlphanumeric])
  {
    assert Blank("");
  }

  /** The name ' _-abcdefg_' is refused for its characters alone. */
  lemma NameWithSymbols(password: Option<string>, taken: set<string>, hash: Option<string>)
    ensures MakeEffect(UserData(Some(" _-abcdefg_"), password), taken, hash) == Invalid([NameNotAlphanumeric])
  {
    assert !IsWhitespace(" _-abcdefg_"[1]);
    assert !AsciiAlphanumeric(" _-abcdefg_"[0]);
  }

  /** With a valid name, a missing password is refused as empty, '123' for its length
      and a whitespace-only password of valid length as blank. */
  lemma PasswordRules(taken: set<string>, hash: Option<string>)
    ensures MakeEffect(UserData(Some("somename"), None), taken, hash) == Rejected(PasswordEmpty)
    ensures MakeEffect(UserData(Some("somename"), Some("123")), taken, hash) == Rejected(PasswordLength)
    ensures MakeEffect(UserData(Some("somename"), Some("      \t\t  ")), taken, hash) == Rejected(PasswordBlank)
  {
    assert Alphanumeric("somename");
    assert Blank("      \t\t  ");
  }

  /** Creating a user whose name is stored already is refused, and a second `make` with
      the name of the first created user is refused. */
  lemma NameUnique(data: UserData, taken: set<string>, hash: Option<string>)
    requires MakeEffect(data, taken, hash).Created?
    ensures MakeEffect(data, taken + {OrEmpty(data.name)}, hash) == Rejected(NameTaken)
  {
  }
}
