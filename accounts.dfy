/**
 * The account gate in front of the game: a flat list of user records,
 * the registration and login validators that consult it, and the
 * store object whose list and current user those validators update.
 */
module Accounts {

  datatype Option<T> = None | Some(value: T)

  /** A stored account. Names and passwords are compared exactly (case-sensitive, plaintext). */
  datatype User = User(id: int, name: string, password: string)

  /**
   * Index of the first record satisfying `p`: the search behind the page's
   * `users.find(...)`, `users.filter(...)[0]` and `users.some(...)`.
   */
  function FirstWhere(users: seq<User>, p: User -> bool): (r: Option<nat>)
    ensures r.Some? ==> r.value < |users| && p(users[r.value])
    ensures r.Some? ==> forall j :: 0 <= j < r.value ==> !p(users[j])
    ensures r.None? <==> forall j :: 0 <= j < |users| ==> !p(users[j])
  {
    if |users| == 0 then None
    else if p(users[0]) then Some(0)
    else match FirstWhere(users[1..], p)
      case None => None
      case Some(k) => Some(k + 1)
  }

  // ---------------------------------------------------------------------------
  // Ids

  /**
   * The id `addUser` gives a new record: one more than the id of the LAST
   * record, falling back to 1 when the store is empty (`undefined + 1` is NaN)
   * or when that sum is 0 (both are falsy, so `|| 1` applies).
   */
  function NextId(users: seq<User>): (id: int)
    ensures id != 0
    ensures |users| == 0 ==> id == 1
    ensures |users| > 0 ==> id > users[|users| - 1].id
    ensures |users| > 0 && users[|users| - 1].id != -1 ==> id == users[|users| - 1].id + 1
    ensures |users| > 0 && users[|users| - 1].id == -1 ==> id == 1
  {
    if |users| == 0 then 1
    else if users[|users| - 1].id + 1 == 0 then 1
    else users[|users| - 1].id + 1
  }

  /** Ids strictly increase along the list (so they are pairwise distinct). */
  ghost predicate IdsIncreasing(users: seq<User>) {
    forall i, j :: 0 <= i < j < |users| ==> users[i].id < users[j].id
  }

  ghost predicate IdsUnique(users: seq<User>) {
    forall i, j :: 0 <= i < j < |users| ==> users[i].id != users[j].id
  }

  /** The largest id in a non-empty store. */
  function MaxId(users: seq<User>): (m: int)
    requires |users| > 0
    ensures forall i :: 0 <= i < |users| ==> users[i].id <= m
    ensures exists i :: 0 <= i < |users| && users[i].id == m
  {
    if |users| == 1 then users[0].id
    else
      var rest := MaxId(users[1..]);
      if users[0].id >= rest then users[0].id else rest
  }

  /** When ids increase along the list, "last id + 1" is "largest id + 1". */
  lemma NextIdIsMaxPlusOne(users: seq<User>)
    requires |users| > 0 && IdsIncreasing(users)
    requires MaxId(users) != -1
    ensures NextId(users) == MaxId(users) + 1
  {
  }

  /** When the seed list is not in id order, the new id can repeat an existing one. */
  lemma NextIdCanRepeatAnId()
    ensures var users := [User(2, "a", "x"), User(1, "b", "y")];
            NextId(users) == users[0].id && MaxId(users) + 1 != NextId(users)
  {
  }

  // ---------------------------------------------------------------------------
  // Lookups

  predicate HasName(u: User, name: string) { u.name == name }

  /** `users.some(user => user.name === username)`. */
  function NameTaken(users: seq<User>, name: string): (b: bool)
    ensures b <==> exists i :: 0 <= i < |users| && users[i].name == name
  {
    var r := FirstWhere(users, u => HasName(u, name));
    assert r.Some? ==> HasName(users[r.value], name);
    r.Some?
  }

  ghost predicate NamesUnique(users: seq<User>) {
    forall i, j :: 0 <= i < j < |users| ==> users[i].name != users[j].name
  }

  predicate Matches(u: User, name: string, password: string) {
    u.name == name && u.password == password
  }

  /** `users.find(user => user.name === userName && user.password === passWord)`. */
  function FindCredentials(users: seq<User>, name: string, password: string): (r: Option<User>)
    ensures r.None? <==> forall i :: 0 <= i < |users| ==> !Matches(users[i], name, password)
    ensures r.Some? ==> exists i :: 0 <= i < |users| && users[i] == r.value && Matches(users[i], name, password)
                                    && forall j :: 0 <= j < i ==> !Matches(users[j], name, password)
  {
    match FirstWhere(users, u => Matches(u, name, password))
    case None => None
    case Some(k) => Some(users[k])
  }

  /** `users.filter(user => user.id === userId)[0] || {}`, with `{}` as None. */
  function FindById(users: seq<User>, userId: int): (r: Option<User>)
    ensures r.None? <==> forall i :: 0 <= i < |users| ==> users[i].id != userId
    ensures r.Some? ==> exists i :: 0 <= i < |users| && users[i] == r.value && users[i].id == userId
                                    && forall j :: 0 <= j < i ==> users[j].id != userId
  {
    match FirstWhere(users, (u: User) => u.id == userId)
    case None => None
    case Some(k) => Some(users[k])
  }

  /** With unique ids, looking a user up by id finds exactly that user. */
  lemma FindByIdFindsTheOwner(users: seq<User>, i: nat)
    requires IdsUnique(users) && i < |users|
    ensures FindById(users, users[i].id) == Some(users[i])
  {
  }

  // ---------------------------------------------------------------------------
  // Registration

  datatype RegisterResult = MissingFields | UserExists | PasswordMismatch | Registered
  {
    function Message(): string {
      match this
      case MissingFields => "You must fill in all information!"
      case UserExists => "The user already exists!"
      case PasswordMismatch => "The password does not match!"
      case Registered => "User created!"
    }
  }

  /** The outcome `registerUser` reports, checked in its fixed order. */
  function RegisterCheck(users: seq<User>, username: string, password: string, passwordAgain: string): (r: RegisterResult)
    ensures r == MissingFields <==> username == [] || password == [] || passwordAgain == []
    ensures r == UserExists <==>
      username != [] && password != [] && passwordAgain != [] && NameTaken(users, username)
    ensures r == PasswordMismatch <==>
      username != [] && password != [] && passwordAgain != [] && !NameTaken(users, username)
      && password != passwordAgain
    ensures r == Registered <==>
      username != [] && password != [] && passwordAgain != [] && !NameTaken(users, username)
      && password == passwordAgain
  {
    if |username| == 0 || |password| == 0 || |passwordAgain| == 0 then MissingFields
    else if NameTaken(users, username) then UserExists
    else if password != passwordAgain then PasswordMismatch
    else Registered
  }

  /** The record list after `addUser(username, password)`. */
  function Added(users: seq<User>, username: string, password: string): (r: seq<User>)
    ensures |r| == |users| + 1 && r[..|users|] == users
    ensures r[|users|] == User(NextId(users), username, password)
  {
    users + [User(NextId(users), username, password)]
  }

  /** The record list after a `registerUser` call. */
  function AfterRegister(users: seq<User>, username: string, password: string, passwordAgain: string): (r: seq<User>)
    ensures var ok := RegisterCheck(users, username, password, passwordAgain) == Registered;
            |r| == |users| + (if ok then 1 else 0) && r[..|users|] == users
    ensures RegisterCheck(users, username, password, passwordAgain) == Registered ==>
            !NameTaken(users, username) && r[|users|] == User(NextId(users), username, password)
  {
    if RegisterCheck(users, username, password, passwordAgain) == Registered
    then Added(users, username, password)
    else users
  }

  /** Adding keeps ids increasing: the new id exceeds the last one. */
  lemma AddedKeepsIdsIncreasing(users: seq<User>, username: string, password: string)
    requires IdsIncreasing(users)
    ensures IdsIncreasing(Added(users, username, password))
  {
  }

  /** Registration never stores a second record under an existing name. */
  lemma RegisterKeepsNamesUnique(users: seq<User>, username: string, password: string, passwordAgain: string)
    requires NamesUnique(users)
    ensures NamesUnique(AfterRegister(users, username, password, passwordAgain))
  {
  }

  // ---------------------------------------------------------------------------
  // Login

  datatype LoginResult =
    | UsernameRequired
    | PasswordRequired
    | NotConfirmed
    | InvalidCredentials
    | LoggedIn(user: User)
  {
    function Message(): string {
      match this
      case UsernameRequired => "Username is required!"
      case PasswordRequired => "Password is required!"
      case NotConfirmed => "Confirm that you are ready to go back to 90s!"
      case InvalidCredentials => "Invalid username or password!"
      case LoggedIn(_) => ""
    }
  }

  /** The outcome `validateLogin` reaches, checked in its fixed order. */
  function LoginCheck(users: seq<User>, userName: string, passWord: string, question: bool): (r: LoginResult)
    ensures r == UsernameRequired <==> userName == []
    ensures r == PasswordRequired <==> userName != [] && passWord == []
    ensures r == NotConfirmed <==> userName != [] && passWord != [] && !question
    ensures r.LoggedIn? <==>
      userName != [] && passWord != [] && question
      && exists i :: 0 <= i < |users| && Matches(users[i], userName, passWord)
    ensures r.LoggedIn? ==>
      exists i :: 0 <= i < |users| && r.user == users[i] && Matches(users[i], userName, passWord)
                  && forall j :: 0 <= j < i ==> !Matches(users[j], userName, passWord)
  {
    if userName == [] then UsernameRequired
    else if passWord == [] then PasswordRequired
    else if !question then NotConfirmed
    else match FindCredentials(users, userName, passWord)
      case None => InvalidCredentials
      case Some(u) => LoggedIn(u)
  }

  // ---------------------------------------------------------------------------
  // The store

  /** The persisted record list and the page's current session identity. */
  class AccountStore {
    var users: seq<User>
    var currentUser: Option<User>

    /** The list starts as the seed records; no one is logged in. */
    constructor (seed: seq<User>)
      ensures users == seed && currentUser == None
    {
      users := seed;
      currentUser := None;
    }

    /** Appends one record; earlier records are untouched. Uniqueness is the caller's concern. */
    method AddUser(username: string, password: string)
      modifies this`users
      ensures users == Added(old(users), username, password)
    {
      users := users + [User(NextId(users), username, password)];
    }

    /** Validates the registration form and adds the user only when every check passes. */
    method RegisterUser(username: string, password: string, passwordAgain: string) returns (r: RegisterResult)
      modifies this`users
      ensures r == RegisterCheck(old(users), username, password, passwordAgain)
      ensures users == AfterRegister(old(users), username, password, passwordAgain)
      ensures r != Registered ==> users == old(users)
    {
      r := RegisterCheck(users, username, password, passwordAgain);
      if r == Registered {
        AddUser(username, password);
      }
    }

    /** The credential part of `validateLogin`: on success the matched record becomes current. */
    method Authenticate(userName: string, passWord: string, question: bool) returns (r: LoginResult)
      modifies this`currentUser
      ensures r == LoginCheck(users, userName, passWord, question)
      ensures currentUser == if r.LoggedIn? then Some(r.user) else old(currentUser)
    {
      r := LoginCheck(users, userName, passWord, question);
      if r.LoggedIn? {
        currentUser := Some(r.user);
      }
    }

    /** Makes the first record with this id current, or none when there is no such record. */
    method SetCurrentUser(userId: int)
      modifies this`currentUser
      ensures currentUser == FindById(users, userId)
      ensures currentUser.Some? ==> currentUser.value in users && currentUser.value.id == userId
    {
      currentUser := FindById(users, userId);
    }
  }
}
