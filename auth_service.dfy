/**
 * The authentication service: registration, login, and sending and checking
 * e-mail verification codes. The user repository, bcrypt and the random
 * source are collaborators; each operation reports, beside its result, the
 * repository calls it made, in order.
 */
module AuthService {
  import opened Wrappers
  import opened GoTypes
  import opened GoStrings
  import opened Strconv
  import opened UserDomain
  import opened UserRepo
  import opened VerificationCodes

  datatype AuthError =
    | FieldsRequired                 // "username, email, and password are required"
    | DuplicateUsername
    | DuplicateEmail
    | InvalidCredentials
    | UserNotFound
    | InvalidVerification
    | StoreNotConfigured             // "verification store not configured"
    | Repository(cause: DbError)     // a repository error other than not-found, passed on as it is
    | HashFailed(reason: string)     // bcrypt could not hash the password
    | RandomFailed                   // the random source could not be read

  /** bcrypt as an opaque capability: hashing may fail; comparison succeeds or not. */
  datatype Hasher = Hasher(generate: string -> Result<string, string>, matches: (string, string) -> bool)

  /** A repository call made by the service. */
  datatype Call = GetByUsername(username: string) | GetByEmail(email: string) | Create(user: User) | MarkVerifiedCall(email: string)

  /** A result together with the repository calls that produced it. */
  datatype Traced<T> = Traced(value: T, calls: seq<Call>)

  /** E-mail addresses are lower-cased, then trimmed. */
  function NormalizeEmail(email: string): string {
    TrimSpace(ToLower(email))
  }

  /** The record Register creates (the database fills in ID and defaults). */
  function NewUser(username: string, email: string, hash: string): User {
    User("", username, email, hash, "", false, 0, 0)
  }

  /**
   * Register: the username is looked up first, then the e-mail; a taken one
   * is reported, a repository or bcrypt failure is passed on, and only when
   * both are free is the user created with the bcrypt hash of the password.
   */
  function Register(users: Users, hasher: Hasher, username: string, email: string, password: string)
    : (r: Traced<Option<AuthError>>)
    ensures var u, e, p := TrimSpace(username), NormalizeEmail(email), TrimSpace(password);
      var filled := u != "" && e != "" && p != "";
      var byName, byEmail := users.getByUsername(u), users.getByEmail(e);
      && (!filled ==> r == Traced(Some(FieldsRequired), []))
      && (r.value == Some(FieldsRequired) <==> !filled)
      && (filled ==> r.calls != [] && r.calls[0] == GetByUsername(u))
      && (r.value == Some(DuplicateUsername) <==> filled && byName.Success?)
      && (filled && byName.Success? ==> r.calls == [GetByUsername(u)])
      && (filled && byName.Failure? && !IsNotFound(byName.error) ==> r == Traced(Some(Repository(byName.error)), [GetByUsername(u)]))
      && (filled && byName == Failure(NotFound) ==> |r.calls| >= 2 && r.calls[..2] == [GetByUsername(u), GetByEmail(e)])
      && (r.value == Some(DuplicateEmail) <==> filled && byName == Failure(NotFound) && byEmail.Success?)
      && (filled && byName == Failure(NotFound) && byEmail.Success? ==> r.calls == [GetByUsername(u), GetByEmail(e)])
      && (filled && byName == Failure(NotFound) && byEmail.Failure? && !IsNotFound(byEmail.error) ==>
            r == Traced(Some(Repository(byEmail.error)), [GetByUsername(u), GetByEmail(e)]))
      && (filled && byName == Failure(NotFound) && byEmail == Failure(NotFound) && hasher.generate(p).Failure? ==>
            r == Traced(Some(HashFailed(hasher.generate(p).error)), [GetByUsername(u), GetByEmail(e)]))
      && (filled && byName == Failure(NotFound) && byEmail == Failure(NotFound) && hasher.generate(p).Success? ==>
            var user := NewUser(u, e, hasher.generate(p).value);
            && r.calls == [GetByUsername(u), GetByEmail(e), Create(user)]
            && (users.create(user).Some? ==> r.value == Some(Repository(users.create(user).value))))
      && (r.value == None <==>
            filled && byName == Failure(NotFound) && byEmail == Failure(NotFound) && hasher.generate(p).Success?
            && users.create(NewUser(u, e, hasher.generate(p).value)) == None)
  {
    var u, e, p := TrimSpace(username), NormalizeEmail(email), TrimSpace(password);
    if u == "" || e == "" || p == "" then Traced(Some(FieldsRequired), [])
    else match users.getByUsername(u)
      case Success(_) => Traced(Some(DuplicateUsername), [GetByUsername(u)])
      case Failure(err) =>
        if !IsNotFound(err) then Traced(Some(Repository(err)), [GetByUsername(u)])
        else match users.getByEmail(e)
          case Success(_) => Traced(Some(DuplicateEmail), [GetByUsername(u), GetByEmail(e)])
          case Failure(err) =>
            if !IsNotFound(err) then Traced(Some(Repository(err)), [GetByUsername(u), GetByEmail(e)])
            else match hasher.generate(p)
              case Failure(reason) => Traced(Some(HashFailed(reason)), [GetByUsername(u), GetByEmail(e)])
              case Success(hash) =>
                var user := NewUser(u, e, hash);
                match users.create(user)
                case Some(err) => Traced(Some(Repository(err)), [GetByUsername(u), GetByEmail(e), Create(user)])
                case None => Traced(None, [GetByUsername(u), GetByEmail(e), Create(user)])
  }

  /**
   * Login: one lookup, by e-mail whenever one is given and otherwise by
   * username; a missing user or a wrong password is invalid credentials, and
   * any other repository failure is passed on.
   */
  function Login(users: Users, hasher: Hasher, username: string, email: string, password: string)
    : (r: Traced<Result<User, AuthError>>)
    ensures var u, e, p := TrimSpace(username), NormalizeEmail(email), TrimSpace(password);
      var asked := p != "" && (u != "" || e != "");
      var found := if e != "" then users.getByEmail(e) else users.getByUsername(u);
      && (!asked ==> r == Traced(Failure(InvalidCredentials), []))
      && (asked && e != "" ==> r.calls == [GetByEmail(e)])
      && (asked && e == "" ==> r.calls == [GetByUsername(u)])
      && (asked && found == Failure(NotFound) ==> r.value == Failure(InvalidCredentials))
      && (asked && found.Failure? && !IsNotFound(found.error) ==> r.value == Failure(Repository(found.error)))
      && (asked && found.Success? && !hasher.matches(found.value.passwordHash, p) ==> r.value == Failure(InvalidCredentials))
      && (r.value.Success? <==> asked && found.Success? && hasher.matches(found.value.passwordHash, p))
      && (r.value.Success? ==> r.value.value == found.value)
  {
    var u, e, p := TrimSpace(username), NormalizeEmail(email), TrimSpace(password);
    if p == "" || (u == "" && e == "") then Traced(Failure(InvalidCredentials), [])
    else
      var call := if e != "" then GetByEmail(e) else GetByUsername(u);
      var found := if e != "" then users.getByEmail(e) else users.getByUsername(u);
      match found
      case Failure(err) =>
        Traced(Failure(if IsNotFound(err) then InvalidCredentials else Repository(err)), [call])
      case Success(user) =>
        if !hasher.matches(user.passwordHash, p) then Traced(Failure(InvalidCredentials), [call])
        else Traced(Success(user), [call])
  }

  /** When both the username and the e-mail are taken, the username is the one reported, after a single lookup. */
  lemma UsernameCheckedFirst(users: Users, hasher: Hasher, username: string, email: string, password: string)
    requires TrimSpace(username) != "" && NormalizeEmail(email) != "" && TrimSpace(password) != ""
    requires users.getByUsername(TrimSpace(username)).Success? && users.getByEmail(NormalizeEmail(email)).Success?
    ensures Register(users, hasher, username, email, password) == Traced(Some(DuplicateUsername), [GetByUsername(TrimSpace(username))])
  {
  }

  /**
   * A registered user logs in with the same password, by e-mail or by
   * username, once the repository returns the stored record carrying the hash
   * Register produced and bcrypt accepts the password against that hash.
   */
  lemma RegisteredUserLogsIn(users: Users, after: Users, hasher: Hasher, username: string, email: string, password: string, stored: User)
    requires Register(users, hasher, username, email, password).value == None
    requires hasher.generate(TrimSpace(password)).Success?
    requires stored.passwordHash == hasher.generate(TrimSpace(password)).value
    requires hasher.matches(stored.passwordHash, TrimSpace(password))
    requires after.getByEmail(NormalizeEmail(email)) == Success(stored)
    requires after.getByUsername(TrimSpace(username)) == Success(stored)
    ensures Login(after, hasher, "", email, password).value == Success(stored)
    ensures Login(after, hasher, username, "", password).value == Success(stored)
  {
    assert TrimSpace("") == "";
    assert NormalizeEmail("") == "" by {
      assert ToLower("") == "";
    }
  }

  /** The 4 random bytes read as a big-endian 32-bit value (the shifted bytes
      occupy disjoint bits, so the source's `|` adds them). */
  function BigEndian32(b: seq<byte>): nat
    requires |b| == 4
  {
    var b0, b1, b2, b3: int := b[0], b[1], b[2], b[3];
    b0 * 0x100_0000 + b1 * 0x1_0000 + b2 * 0x100 + b3
  }

  /** `%06d` of the value mod 10^6: six ASCII digits denoting that remainder. */
  function VerificationCode(b: seq<byte>): (code: string)
    requires |b| == 4
    ensures |code| == 6 && AllDigits(code)
    ensures Value(code) == BigEndian32(b) % 1_000_000
  {
    assert Pow10(6) == 1_000_000;
    ZeroPadded(BigEndian32(b) % 1_000_000, 6)
  }

  /** generateVerificationCode, with `read` the outcome of reading 4 random bytes. */
  function GenerateVerificationCode(read: Option<seq<byte>>): (r: Result<string, AuthError>)
    requires read.Some? ==> |read.value| == 4
    ensures read.None? ==> r == Failure(RandomFailed)
    ensures read.Some? ==> r.Success? && |r.value| == 6 && AllDigits(r.value) && Value(r.value) == BigEndian32(read.value) % 1_000_000
  {
    match read
    case None => Failure(RandomFailed)
    case Some(b) => Success(VerificationCode(b))
  }

  /** Every six-digit code can come out of the generator. */
  lemma EveryCodeReachable(n: nat)
    requires n < 1_000_000
    ensures VerificationCode([0, n / 0x1_0000, n % 0x1_0000 / 0x100, n % 0x100]) == ZeroPadded(n, 6)
  {
    var hi, rest := n / 0x1_0000, n % 0x1_0000;
    var mid, lo := rest / 0x100, rest % 0x100;
    assert n == hi * 0x1_0000 + rest;
    assert rest == mid * 0x100 + lo;
    assert lo == n % 0x100;
    var b: seq<byte> := [0, n / 0x1_0000, n % 0x1_0000 / 0x100, n % 0x100];
    assert BigEndian32(b) == n;
    CodeOfValue(b, n);
  }

  /** Bytes whose value is below 10^6 give that value's code. */
  lemma CodeOfValue(b: seq<byte>, n: nat)
    requires |b| == 4 && BigEndian32(b) == n && n < 1_000_000
    ensures VerificationCode(b) == ZeroPadded(n, 6)
  {
    assert BigEndian32(b) % 1_000_000 == n;
  }

  /** A string of digits has no white space to trim. */
  lemma DigitsUnpadded(s: string)
    requires AllDigits(s)
    ensures TrimSpace(s) == s
  {
    if s != [] {
      assert IsDigit(s[0]) && IsDigit(s[|s| - 1]);
    }
    TrimSpaceOfUnpadded(s);
  }

  class AuthService {
    const users: Users
    const codes: VerificationStore?

    constructor (users: Users, codes: VerificationStore?)
      ensures this.users == users && this.codes == codes
    {
      this.users := users;
      this.codes := codes;
    }

    /**
     * SendVerificationCode: the user must exist under the normalised e-mail;
     * a fresh code is then stored under that e-mail. `read` is the outcome of
     * reading the random source.
     */
    method SendVerificationCode(email: string, read: Option<seq<byte>>, now: Instant) returns (r: Traced<Option<AuthError>>)
      requires read.Some? ==> |read.value| == 4
      modifies codes
      ensures var e := NormalizeEmail(email);
        && (e == "" ==> r == Traced(Some(UserNotFound), []))
        && (e != "" ==> r.calls == [GetByEmail(e)])
        && (e != "" && users.getByEmail(e) == Failure(NotFound) ==> r.value == Some(UserNotFound))
        && (e != "" && users.getByEmail(e).Failure? && users.getByEmail(e) != Failure(NotFound) ==> r.value == Some(Repository(users.getByEmail(e).error)))
        && (e != "" && users.getByEmail(e).Success? && codes == null ==> r.value == Some(StoreNotConfigured))
        && (e != "" && users.getByEmail(e).Success? && codes != null && read.None? ==> r == Traced(Some(RandomFailed), [GetByEmail(e)]))
        && (r.value != None ==> codes == null || codes.codes == old(codes.codes))
        && (r.value == None <==> e != "" && users.getByEmail(e).Success? && codes != null && read.Some?)
        && (r.value == None ==> codes.codes == old(codes.codes)[e := Entry(VerificationCode(read.value), Add(now, codes.ttl))])
    {
      var e := NormalizeEmail(email);
      if e == "" {
        return Traced(Some(UserNotFound), []);
      }
      var found := users.getByEmail(e);
      if found.Failure? {
        if IsNotFound(found.error) {
          return Traced(Some(UserNotFound), [GetByEmail(e)]);
        }
        return Traced(Some(Repository(found.error)), [GetByEmail(e)]);
      }
      if codes == null {
        return Traced(Some(StoreNotConfigured), [GetByEmail(e)]);
      }
      var code := GenerateVerificationCode(read);
      if code.Failure? {
        return Traced(Some(code.error), [GetByEmail(e)]);
      }
      codes.Set(e, code.value, now);
      r := Traced(None, [GetByEmail(e)]);
    }

    /**
     * VerifyCode: the normalised e-mail and trimmed code must be present and
     * accepted by the store, which consumes the code; only then is the user
     * marked verified.
     */
    method VerifyCode(email: string, code: string, now: Instant) returns (r: Traced<Option<AuthError>>)
      modifies codes
      ensures var e, c := NormalizeEmail(email), TrimSpace(code);
        && (e == "" || c == "" || codes == null ==> r == Traced(Some(InvalidVerification), []))
        && (e == "" || c == "" ==> codes == null || codes.codes == old(codes.codes))
        && (e != "" && c != "" && codes != null ==>
              var v := Check(old(codes.codes), e, c, now);
              && codes.codes == v.codes
              && (!v.ok ==> r == Traced(Some(InvalidVerification), []))
              && (v.ok ==> r.calls == [MarkVerifiedCall(e)]
                           && r.value == match MarkVerified(users, e)
                                         case None => None
                                         case Some(NotFound) => Some(UserNotFound)
                                         case Some(err) => Some(Repository(err))))
    {
      var e, c := NormalizeEmail(email), TrimSpace(code);
      if e == "" || c == "" {
        return Traced(Some(InvalidVerification), []);
      }
      if codes == null {
        return Traced(Some(InvalidVerification), []);
      }
      var ok := codes.Verify(e, c, now);
      if !ok {
        return Traced(Some(InvalidVerification), []);
      }
      var marked := MarkVerified(users, e);
      match marked
      case None => r := Traced(None, [MarkVerifiedCall(e)]);
      case Some(err) =>
        r := Traced(Some(if IsNotFound(err) then UserNotFound else Repository(err)), [MarkVerifiedCall(e)]);
    }
  }

  /**
   * A code sent to an address verifies when it is typed back for the same
   * address (in any letter case or spacing) before it expires.
   */
  lemma SendThenVerify(codes: map<string, Entry>, ttl: Duration, sentTo: string, typed: string, b: seq<byte>, sentAt: Instant, at: Instant)
    requires |b| == 4
    requires NormalizeEmail(sentTo) == NormalizeEmail(typed) != ""
    requires at <= Add(sentAt, ttl)
    ensures Check(codes[NormalizeEmail(sentTo) := Entry(VerificationCode(b), Add(sentAt, ttl))],
                  NormalizeEmail(typed), TrimSpace(VerificationCode(b)), at).ok
  {
    DigitsUnpadded(VerificationCode(b));
  }
}
