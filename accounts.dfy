/** User accounts of UltimateTaskManager: the per-user record kept in the
    `users` object, the password encoding, and the guard chains of
    createUser, loginUser and changePassword, as functions from the
    inputs to the verdict the method reaches. */
module Accounts {
  import opened Seqs
  import opened Text
  import opened Tasks
  import opened Gamification

  /** hashPassword is btoa. btoa is injective where it is defined, so the
      model keeps the encoded string itself. */
  datatype PasswordHash = Encoded(plain: string)

  /** btoa is defined only on strings whose code points are at most U+00FF. */
  predicate IsLatin1(s: string) {
    forall i :: 0 <= i < |s| ==> s[i] as int <= 0xFF
  }

  /** hashPassword: None where btoa throws. */
  function HashPassword(p: string): (h: Option<PasswordHash>)
    ensures h.Some? <==> IsLatin1(p)
  {
    if IsLatin1(p) then Some(Encoded(p)) else None
  }

  /** Two passwords with the same hash are the same password. */
  lemma HashPasswordInjective(p: string, q: string)
    requires HashPassword(p).Some? && HashPassword(p) == HashPassword(q)
    ensures p == q
  {
  }

  datatype Theme = Light | Dark

  /** One entry of the `users` object. */
  datatype User = User(
    password: PasswordHash,
    tasks: seq<Task>,
    projects: seq<string>,
    theme: Theme,
    stats: Stats,
    achievements: seq<string>,
    createdAt: Instant)

  const DefaultProjects: seq<string> := ["inbox", "work", "personal", "shopping"]
  const MinPasswordLength: nat := 4

  /** The record createUser stores for a new account: no tasks, the four
      starting projects (the app's starting project among them), and level 1
      with no xp, which is the level the xp formula gives. */
  function NewUser(password: PasswordHash, now: Instant): (u: User)
    ensures u.tasks == [] && u.projects == DefaultProjects && "inbox" in u.projects
            && u.stats.level == 1 && u.stats.xp == 0 && u.stats.tasksCompleted == 0
            && u.stats.timeTracked == 0 && LevelMatchesXp(u.stats) && u.password == password
  {
    User(password, [], DefaultProjects, Light, Stats(1, 0, 0, 0, 0, now / 86400000), [], now)
  }

  /** `users` is a plain object, so `users[name]` also finds the members of
      Object.prototype. These names are never free for a new account. */
  predicate IsPrototypeKey(name: string) {
    name in {"constructor", "__proto__", "toString", "toLocaleString", "valueOf",
             "hasOwnProperty", "isPrototypeOf", "propertyIsEnumerable",
             "__defineGetter__", "__defineSetter__", "__lookupGetter__", "__lookupSetter__"}
  }

  /** `this.users[name]` is truthy: a stored account, or a member that
      every object inherits. */
  function NameTaken(users: map<string, User>, name: string): (b: bool)
    ensures name in users ==> b
    ensures !IsPrototypeKey(name) ==> (b <==> name in users)
  {
    name in users || IsPrototypeKey(name)
  }

  datatype AuthError =
    | MissingCredentials
    | UsernameExists
    | PasswordTooShort
    | UserNotFound
    | InvalidPassword
    | PasswordsDoNotMatch
    | EmptyPasswordField
    | NewPasswordTooShort
    | NewPasswordsDiffer
    | CurrentPasswordIncorrect
    | NotEncodable

  datatype Verdict = Accepted | Rejected(error: AuthError)

  /** The text shown for each error; NotEncodable is btoa's exception, which
      shows nothing. */
  function ErrorMessage(e: AuthError): (m: Option<string>)
    ensures m.None? <==> e == NotEncodable
  {
    match e
    case MissingCredentials => Some("Please enter both username and password")
    case UsernameExists => Some("Username already exists")
    case PasswordTooShort => Some("Password must be at least 4 characters")
    case UserNotFound => Some("User not found")
    case InvalidPassword => Some("Invalid password")
    case PasswordsDoNotMatch => Some("Passwords do not match")
    case EmptyPasswordField => Some("Please fill all password fields")
    case NewPasswordTooShort => Some("New password must be at least 4 characters")
    case NewPasswordsDiffer => Some("New passwords do not match")
    case CurrentPasswordIncorrect => Some("Current password is incorrect")
    case NotEncodable => None
  }

  /** The guards of createUser, in order. The length test is on the
      untrimmed password. */
  function CreateUserCheck(users: map<string, User>, username: string, password: string): (v: Verdict)
    ensures v == Accepted <==>
              !IsBlank(username) && !IsBlank(password) && !NameTaken(users, username)
              && |password| >= MinPasswordLength && HashPassword(password).Some?
    ensures (IsBlank(username) || IsBlank(password)) ==> v == Rejected(MissingCredentials)
  {
    if IsBlank(username) || IsBlank(password) then Rejected(MissingCredentials)
    else if NameTaken(users, username) then Rejected(UsernameExists)
    else if |password| < MinPasswordLength then Rejected(PasswordTooShort)
    else if !IsLatin1(password) then Rejected(NotEncodable)
    else Accepted
  }

  /** The guards of loginUser, in order. A prototype name is found, carries
      no password, and so fails the password comparison. */
  function LoginCheck(users: map<string, User>, username: string, password: string): (v: Verdict)
    ensures v == Accepted <==>
              !IsBlank(username) && !IsBlank(password) && username in users
              && HashPassword(password) == Some(users[username].password)
    ensures v == Rejected(UserNotFound) <==>
              !IsBlank(username) && !IsBlank(password) && !NameTaken(users, username)
  {
    if IsBlank(username) || IsBlank(password) then Rejected(MissingCredentials)
    else if !NameTaken(users, username) then Rejected(UserNotFound)
    else if !IsLatin1(password) then Rejected(NotEncodable)
    else if username !in users || users[username].password != Encoded(password) then Rejected(InvalidPassword)
    else Accepted
  }

  /** The global signup handler: a mismatched confirmation is reported
      before any of createUser's guards, on the trimmed username. */
  function SignUpCheck(users: map<string, User>, username: string, password: string, confirm: string): (v: Verdict)
    ensures password != confirm ==> v == Rejected(PasswordsDoNotMatch)
    ensures password == confirm ==> v == CreateUserCheck(users, Trim(username), password)
  {
    if password != confirm then Rejected(PasswordsDoNotMatch)
    else CreateUserCheck(users, Trim(username), password)
  }

  /** The first three guards of changePassword, which read only the form:
      a field is missing only when it is empty (no trimming). */
  function PasswordFieldsCheck(current: string, newPassword: string, confirm: string): (v: Verdict)
    ensures v == Accepted <==> current != [] && newPassword != [] && confirm != [] && |newPassword| >= MinPasswordLength && newPassword == confirm
  {
    if current == [] || newPassword == [] || confirm == [] then Rejected(EmptyPasswordField)
    else if |newPassword| < MinPasswordLength then Rejected(NewPasswordTooShort)
    else if newPassword != confirm then Rejected(NewPasswordsDiffer)
    else Accepted
  }

  /** The last guard of changePassword and the encoding of the new password. */
  function CurrentPasswordCheck(user: User, current: string, newPassword: string): (v: Verdict)
    ensures v == Accepted <==> HashPassword(current) == Some(user.password) && HashPassword(newPassword).Some?
  {
    if !IsLatin1(current) then Rejected(NotEncodable)
    else if user.password != Encoded(current) then Rejected(CurrentPasswordIncorrect)
    else if !IsLatin1(newPassword) then Rejected(NotEncodable)
    else Accepted
  }

  /** An account createUser has just stored accepts its own password and
      refuses every other one. */
  lemma CreateThenLogin(users: map<string, User>, username: string, password: string, other: string, now: Instant)
    requires CreateUserCheck(users, username, password) == Accepted
    ensures var after := users[username := NewUser(HashPassword(password).value, now)];
            LoginCheck(after, username, password) == Accepted
            && (other != password ==> LoginCheck(after, username, other) != Accepted)
  {
  }

  /** Once an account exists its name cannot be registered again. */
  lemma CreateTwiceRejected(users: map<string, User>, username: string, password: string,
                            again: string, now: Instant)
    requires CreateUserCheck(users, username, password) == Accepted
    ensures CreateUserCheck(users[username := NewUser(HashPassword(password).value, now)], username, again) != Accepted
  {
  }

  /** The length test counts the whitespace that the blank test ignores:
      one visible character, padded with whitespace to four, is accepted. */
  lemma PaddedPasswordAccepted(users: map<string, User>, username: string, password: string, i: int)
    requires !IsBlank(username) && !NameTaken(users, username) && IsLatin1(password)
    requires |password| >= MinPasswordLength && 0 <= i < |password| && !IsWhitespace(password[i])
    ensures CreateUserCheck(users, username, password) == Accepted
  {
    VisibleNotBlank(password, i);
  }

  /** After a password change the new password logs in and the old one,
      where it differs, no longer does. */
  lemma ChangePasswordThenLogin(users: map<string, User>, username: string, current: string, newPassword: string)
    requires username in users && !IsBlank(username)
    requires PasswordFieldsCheck(current, newPassword, newPassword) == Accepted
    requires CurrentPasswordCheck(users[username], current, newPassword) == Accepted
    requires !IsBlank(newPassword)
    ensures var after := users[username := users[username].(password := HashPassword(newPassword).value)];
            LoginCheck(after, username, newPassword) == Accepted
            && (current != newPassword ==> LoginCheck(after, username, current) != Accepted)
  {
  }

  /** changePassword's guards do not trim, so they accept a new password made
      of whitespace; loginUser trims, so that password never signs in again. */
  lemma BlankNewPasswordLocksOut(users: map<string, User>, username: string, current: string, newPassword: string)
    requires username in users
    requires PasswordFieldsCheck(current, newPassword, newPassword) == Accepted
    requires CurrentPasswordCheck(users[username], current, newPassword) == Accepted
    requires IsBlank(newPassword)
    ensures var after := users[username := users[username].(password := HashPassword(newPassword).value)];
            LoginCheck(after, username, newPassword) == Rejected(MissingCredentials)
  {
  }

  /** Four spaces are such a password: they pass the field guards and are blank. */
  lemma FourSpacesPassFieldGuards(current: string)
    requires current != []
    ensures PasswordFieldsCheck(current, "    ", "    ") == Accepted && IsBlank("    ")
  {
    assert AllWhitespace("    ");
  }
}
