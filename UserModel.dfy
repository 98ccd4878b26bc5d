/** The user document: normalised e-mail, role, password rules, the stored refresh token and the public view. */
module UserModel {
  import opened Common
  import opened Text

  datatype Role = Customer | Admin

  datatype User = User(
    id: UserId,
    name: string,
    email: string,
    passwordHash: string,
    role: Role,
    refreshToken: Option<string>)

  predicate NoSpace(s: string) {
    forall k | 0 <= k < |s| :: !IsSpace(s[k])
  }

  /** The language of `^\S+@\S+\.\S+$`: non-blank text, an `@`, non-blank text, a `.`, non-blank text. */
  predicate EmailShape(s: string) {
    NoSpace(s) && exists i, j | 0 < i && i + 1 < j && j + 1 < |s| :: s[i] == '@' && s[j] == '.'
  }

  /** The first index at or after `from` holding `c`, or -1. */
  function IndexFrom(s: string, c: char, from: nat): (r: int)
    ensures r == -1 || (from <= r < |s| && s[r] == c)
    ensures r == -1 ==> forall k | from <= k < |s| :: s[k] != c
    ensures r != -1 ==> forall k | from <= k < r :: s[k] != c
    decreases |s| - from
  {
    if from >= |s| then -1 else if s[from] == c then from else IndexFrom(s, c, from + 1)
  }

  /** The last index below `before` holding `c`, or -1. */
  function LastIndexBefore(s: string, c: char, before: nat): (r: int)
    requires before <= |s|
    ensures r == -1 || (0 <= r < before && s[r] == c)
    ensures r == -1 ==> forall k | 0 <= k < before :: s[k] != c
    ensures r != -1 ==> forall k | r < k < before :: s[k] != c
  {
    if before == 0 then -1 else if s[before - 1] == c then before - 1 else LastIndexBefore(s, c, before - 1)
  }

  /** A single left-to-right check for the pattern: the earliest usable `@` and the latest usable `.`. */
  function MatchesEmail(s: string): (r: bool) {
    && NoSpace(s)
    && |s| >= 1
    && var at := IndexFrom(s, '@', 1);
       var dot := LastIndexBefore(s, '.', |s| - 1);
       at != -1 && dot != -1 && at + 1 < dot
  }

  /** The e-mail shape test accepts exactly the strings the pattern matches. */
  lemma MatchesEmailIsShape(s: string)
    ensures MatchesEmail(s) <==> EmailShape(s)
  {
    if EmailShape(s) {
      var i, j :| 0 < i && i + 1 < j && j + 1 < |s| && s[i] == '@' && s[j] == '.';
      var at := IndexFrom(s, '@', 1);
      var dot := LastIndexBefore(s, '.', |s| - 1);
      assert at != -1 && at <= i;
      assert dot != -1 && dot >= j;
    }
    if MatchesEmail(s) {
      var at := IndexFrom(s, '@', 1);
      var dot := LastIndexBefore(s, '.', |s| - 1);
      assert 0 < at && at + 1 < dot && dot + 1 < |s| && s[at] == '@' && s[dot] == '.';
    }
  }

  /** The `lowercase` and `trim` setters on the e-mail field. */
  function NormalizeEmail(s: string): string {
    Trim(Lower(s))
  }

  /** A normalised e-mail is trimmed, has no upper-case letter, and normalising it again changes nothing. */
  lemma NormalizedEmail(s: string)
    ensures Trim(NormalizeEmail(s)) == NormalizeEmail(s)
    ensures NoUpper(NormalizeEmail(s))
    ensures NormalizeEmail(NormalizeEmail(s)) == NormalizeEmail(s)
  {
    var l := Lower(s);
    TrimIsTrimmed(l);
    LowerHasNoUpper(s);
    TrimKeepsNoUpper(l);
    LowerOfNoUpper(Trim(l));
  }

  const MinPasswordLength := 6

  /** The fields `User.create` is given; absent ones are `None`. */
  datatype UserInput = UserInput(name: Option<string>, email: Option<string>, password: Option<string>, role: Option<Role>)

  /**
   * `User.create`: trimmed name and normalised e-mail both required, the e-mail matching the pattern, a password
   * of at least six characters (checked on the value given, before the hook replaces it by its hash `hashed`),
   * role defaulting to customer, no refresh token.
   */
  function NewUser(id: UserId, input: UserInput, hashed: string): (r: Result<User>)
    ensures r.Ok? <==>
      && input.name.Some? && Trim(input.name.value) != []
      && input.email.Some? && EmailShape(NormalizeEmail(input.email.value))
      && input.password.Some? && |input.password.value| >= MinPasswordLength
    ensures r.Err? ==> r.error == Thrown(ValidationFailed)
    ensures r.Ok? ==>
      && r.value == User(id, Trim(input.name.value), NormalizeEmail(input.email.value), hashed,
                         input.role.GetOr(Customer), None)
  {
    if input.name.None? || input.email.None? || input.password.None? then Err(Thrown(ValidationFailed))
    else
      var email := NormalizeEmail(input.email.value);
      MatchesEmailIsShape(email);
      if Trim(input.name.value) == [] || !MatchesEmail(email) || |input.password.value| < MinPasswordLength
      then Err(Thrown(ValidationFailed))
      else Ok(User(id, Trim(input.name.value), email, hashed, input.role.GetOr(Customer), None))
  }

  /** The password hook: the stored hash is replaced by `hashed` only when the field was modified. */
  function PreSave(u: User, passwordModified: bool, hashed: string): (r: User)
    ensures r.(passwordHash := u.passwordHash) == u
    ensures !passwordModified ==> r.passwordHash == u.passwordHash
    ensures passwordModified ==> r.passwordHash == hashed
  {
    if passwordModified then u.(passwordHash := hashed) else u
  }

  /** The document as `toJSON` renders it: everything but the password hash and the refresh token. */
  datatype PublicUser = PublicUser(id: UserId, name: string, email: string, role: Role)

  function Public(u: User): (r: PublicUser)
    ensures r.id == u.id && r.name == u.name && r.email == u.email && r.role == u.role
  {
    PublicUser(u.id, u.name, u.email, u.role)
  }

  /** The public view does not depend on the secrets: two users differing only in them look the same. */
  lemma PublicHidesSecrets(u: User, v: User)
    requires u.(passwordHash := v.passwordHash, refreshToken := v.refreshToken) == v
    ensures Public(u) == Public(v)
  {
  }
}
