/**
 * The session store (`AuthProvider`): the signed-in user (or none), a
 * loading flag, and the "currentUser" storage key. `login` and `register`
 * perform no real authentication; they check their arguments and build the
 * user from them. The time `register` reads for the new id is a parameter.
 */
module Session {
  import opened Wrappers
  import opened Strings
  import opened Entities
  import opened Storage

  const CurrentUserKey := "currentUser"
  const MockUserId := "user_123"
  const MockCourse := "Computer Science"
  const MinPasswordLength: nat := 6

  /** The errors `login`, `register` and `logout` reject with. */
  datatype AuthError =
    | MissingCredentials   // "Email and password are required"
    | MissingFields        // "All fields are required"
    | PasswordTooShort     // "Password must be at least 6 characters"
    | StorageFailure       // the awaited storage write or removal threw

  datatype Outcome = Done | Failed(error: AuthError)

  /** `login`'s argument check: both fields must be non-empty. */
  function LoginCheck(email: string, password: string): (r: Option<AuthError>)
    ensures r.None? <==> email != "" && password != ""
    ensures r.Some? ==> r.value == MissingCredentials
  {
    if email == "" || password == "" then Some(MissingCredentials) else None
  }

  /**
   * `register`'s argument check: all four fields must be non-empty, then the
   * password needs at least six characters; the emptiness check comes first.
   */
  function RegisterCheck(email: string, password: string, name: string, course: string): (r: Option<AuthError>)
    ensures r == Some(MissingFields) <==> email == "" || password == "" || name == "" || course == ""
    ensures r == Some(PasswordTooShort) <==>
              email != "" && password != "" && name != "" && course != "" && |password| < MinPasswordLength
    ensures r == None <==> email != "" && name != "" && course != "" && |password| >= MinPasswordLength
  {
    if email == "" || password == "" || name == "" || course == "" then Some(MissingFields)
    else if |password| < MinPasswordLength then Some(PasswordTooShort)
    else None
  }

  /** The user `login` builds: a fixed id and course, named after the text of the email before its first '@'. */
  function MockUser(email: string): (u: AuthUser)
    ensures u.id == MockUserId && u.email == email && u.course == MockCourse
    ensures |u.name| <= |email| && u.name == email[..|u.name|] && '@' !in u.name
    ensures |u.name| < |email| ==> email[|u.name|] == '@'
    ensures '@' !in email ==> u.name == email
  {
    AuthUser(MockUserId, email, LocalPart(email), MockCourse)
  }

  /** `user_${Date.now()}`, with the clock reading `now` as a parameter. */
  function RegisteredId(now: nat): (id: string)
    ensures |id| > 5 && id[..5] == "user_" && AllDigits(id[5..]) && ParseDigits(id[5..]) == now
  {
    var id := "user_" + Digits(now);
    assert id[5..] == Digits(now);
    DigitsRoundTrip(now);
    id
  }

  /** Registrations at different times receive different ids. */
  lemma RegisteredIdsDistinct(a: nat, b: nat)
    requires a != b
    ensures RegisteredId(a) != RegisteredId(b)
  {
  }

  /** The user `register` builds from its arguments. */
  function NewUser(email: string, name: string, course: string, now: nat): (u: AuthUser)
    ensures u.email == email && u.name == name && u.course == course && u.id == RegisteredId(now)
  {
    AuthUser(RegisteredId(now), email, name, course)
  }

  /**
   * The user after `checkAuth` has read `read` while holding `current`: only
   * a present, non-empty text that parses replaces it (a parsed JSON `null`
   * signs the user out); an absent key, an empty text, a failed read and a
   * failed parse all leave it as it was.
   */
  function Restored(current: Option<AuthUser>, read: Read): (r: Option<AuthUser>)
    ensures read.Found? && read.blob.Json? && read.blob.value.User? ==> r == Some(read.blob.value.user)
    ensures read.Found? && Parse(read.blob) == Some(Null) ==> r == None
    ensures r != current ==> read.Found? && !IsEmptyText(read.blob) && Parse(read.blob).Some?
  {
    match read
    case Found(blob) =>
      if IsEmptyText(blob) then current
      else
        (match Parse(blob)
         case None => current
         case Some(User(u)) => Some(u)
         case Some(Null) => None
         case Some(_) => current)
    case _ => current
  }

  /** A user written by `login` or `register` is restored as that same user. */
  lemma RestoredStored(current: Option<AuthUser>, u: AuthUser)
    ensures Restored(current, Found(Stringify(User(u)))) == Some(u)
  {
  }

  class AuthProvider {
    var user: Option<AuthUser>
    var isLoading: bool
    const storage: DeviceStorage

    /** The provider mounts signed out and loading, and reads nothing yet. */
    constructor (storage: DeviceStorage)
      ensures user == None && isLoading
      ensures this.storage == storage
    {
      user := None;
      isLoading := true;
      this.storage := storage;
    }

    /** `checkAuth()`: restore the user from "currentUser"; loading ends on every path. */
    method CheckAuth(readOk: bool)
      modifies this
      ensures !isLoading
      ensures user == Restored(old(user), ReadOf(storage.entries, CurrentUserKey, readOk))
    {
      var saved := storage.GetItem(CurrentUserKey, readOk);
      if saved.Found? && !IsEmptyText(saved.blob) {
        var parsed := Parse(saved.blob);
        if parsed.Some? {
          match parsed.value {
            case User(u) => user := Some(u);
            case Null => user := None;
            case _ =>
          }
        }
      }
      isLoading := false;
    }

    /** `login(email, password)`. */
    method Login(email: string, password: string, writeOk: bool) returns (r: Outcome)
      modifies this, storage
      ensures isLoading == old(isLoading)
      ensures LoginCheck(email, password).Some? ==>
                r == Failed(MissingCredentials) && user == old(user) && storage.entries == old(storage.entries)
      ensures LoginCheck(email, password).None? ==>
                && user == Some(MockUser(email))
                && storage.entries == AfterSet(old(storage.entries), CurrentUserKey, Stringify(User(MockUser(email))), writeOk)
                && r == (if writeOk then Done else Failed(StorageFailure))
    {
      var invalid := LoginCheck(email, password);
      if invalid.Some? {
        return Failed(invalid.value);
      }
      var u := MockUser(email);
      user := Some(u);
      storage.SetItem(CurrentUserKey, Stringify(User(u)), writeOk);
      r := if writeOk then Done else Failed(StorageFailure);
    }

    /** `register(email, password, name, course)`, at clock reading `now`. */
    method Register(email: string, password: string, name: string, course: string, now: nat, writeOk: bool)
      returns (r: Outcome)
      modifies this, storage
      ensures isLoading == old(isLoading)
      ensures RegisterCheck(email, password, name, course).Some? ==>
                && r == Failed(RegisterCheck(email, password, name, course).value)
                && user == old(user) && storage.entries == old(storage.entries)
      ensures RegisterCheck(email, password, name, course).None? ==>
                && user == Some(NewUser(email, name, course, now))
                && storage.entries ==
                     AfterSet(old(storage.entries), CurrentUserKey, Stringify(User(NewUser(email, name, course, now))), writeOk)
                && r == (if writeOk then Done else Failed(StorageFailure))
    {
      var invalid := RegisterCheck(email, password, name, course);
      if invalid.Some? {
        return Failed(invalid.value);
      }
      var u := NewUser(email, name, course, now);
      user := Some(u);
      storage.SetItem(CurrentUserKey, Stringify(User(u)), writeOk);
      r := if writeOk then Done else Failed(StorageFailure);
    }

    /** `logout()`: sign out, then remove "currentUser"; no other key is touched. */
    method Logout(writeOk: bool) returns (r: Outcome)
      modifies this, storage
      ensures isLoading == old(isLoading)
      ensures user == None
      ensures storage.entries == AfterRemove(old(storage.entries), CurrentUserKey, writeOk)
      ensures r == (if writeOk then Done else Failed(StorageFailure))
    {
      user := None;
      storage.RemoveItem(CurrentUserKey, writeOk);
      r := if writeOk then Done else Failed(StorageFailure);
    }
  }

  /** After a successful logout, `checkAuth` finds no user to restore. */
  method LogoutThenCheckAuth(auth: AuthProvider, readOk: bool)
    modifies auth, auth.storage
    ensures auth.user == None && !auth.isLoading
  {
    var r := auth.Logout(true);
    auth.CheckAuth(readOk);
  }

  /**
   * A successful login survives a restart: a provider mounted afresh over the
   * same storage restores the logged-in user.
   */
  method LoginSurvivesRestart(storage: DeviceStorage, email: string, password: string)
    returns (restored: Option<AuthUser>)
    requires email != "" && password != ""
    modifies storage
    ensures restored == Some(MockUser(email))
  {
    var first := new AuthProvider(storage);
    var r := first.Login(email, password, true);
    var second := new AuthProvider(storage);
    second.CheckAuth(true);
    restored := second.user;
  }

  /**
   * The checks on the sample inputs: a five-character password is refused,
   * a ten-character one accepted; an empty email is refused at login, and
   * "x@y.com" logs in as "x".
   */
  lemma SampleChecks()
    ensures RegisterCheck("a@b.com", "short", "Name", "CS") == Some(PasswordTooShort)
    ensures RegisterCheck("a@b.com", "longenough", "Name", "CS") == None
    ensures LoginCheck("", "x") == Some(MissingCredentials)
    ensures LoginCheck("x@y.com", "pw") == None && MockUser("x@y.com").name == "x"
  {
    var e := "x@y.com";
    assert e[1] == '@';
    assert LocalPart(e) == [e[0]] + LocalPart(e[1..]);
  }
}
