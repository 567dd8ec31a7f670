/** `AuthService`: registration and login. */
module AuthService {
  import opened Common
  import opened Tables
  import opened Crypto
  import opened Storage
  import opened UserService

  const RegisteredMessage := "Đăng ký tài khoản thành công"
  const InvalidCredentialsMessage := "Tài khoản hoặc mật khẩu không hợp lệ!"

  /** `LoginDto`. */
  datatype Credentials = Credentials(phone: string, password: string)

  /** The login reply: the access token and the user without its password. */
  datatype Session = Session(token: string, user: UserResponse)

  /** The token payload: exactly the user's id, name and phone. */
  function ClaimsOf(u: User): (c: Claims)
    ensures c.id == u.id && c.name == u.name && c.phone == u.phone
  {
    Claims(u.id, u.name, u.phone)
  }

  /**
   * `register`: BAD_REQUEST when the phone is already registered; otherwise stores the user with
   * its password hashed and replies with the stored row, hash included.
   */
  method Register(db: Database, data: UserData, hash: Hasher, now: int) returns (r: Result<Reply<User>, HttpError>)
    requires db.Valid()
    modifies db`users, db`nextUserId
    ensures db.Valid()
    ensures r.Ok? <==> !HasKey(old(db.users), UserPhone, data.phone)
    ensures r.Ok? ==>
      var u := NewUser(old(db.nextUserId), Hashed(data, hash), now);
      && db.users == old(db.users) + [u]
      && r.value == Reply(RegisteredMessage, Some(u))
    ensures r.Err? ==> db.users == old(db.users) && r.error == HttpError(BadRequest, PhoneTakenMessage)
  {
    var existing := Find(db.users, UserPhone, data.phone);
    if existing.Some? {
      return Err(HttpError(BadRequest, PhoneTakenMessage));
    }
    var stored := db.CreateUser(Hashed(data, hash), now);
    assert stored.Ok?;
    r := Ok(Reply(RegisteredMessage, Some(stored.value)));
  }

  /**
   * `login`: UNAUTHORIZED, with one and the same message, when no user has the phone or the
   * password does not match its hash; otherwise an access token signed over the user's claims
   * with the access key for 30 minutes, and the user without its password. The refresh token
   * the source also signs is never returned, so it has no counterpart here.
   */
  function Login(users: seq<User>, data: Credentials, compare: Comparer, sign: Signer, accessKey: string): (r: Result<Session, HttpError>)
    ensures r.Ok? <==> HasKey(users, UserPhone, data.phone) && compare(data.password, Find(users, UserPhone, data.phone).value.password)
    ensures r.Ok? ==>
      var u := Find(users, UserPhone, data.phone).value;
      && u in users && u.phone == data.phone
      && r.value == Session(sign(ClaimsOf(u), accessKey, AccessTokenTtl), WithoutPassword(u))
    ensures r.Err? ==> r.error == HttpError(Unauthorized, InvalidCredentialsMessage)
  {
    match Find(users, UserPhone, data.phone)
    case None => Err(HttpError(Unauthorized, InvalidCredentialsMessage))
    case Some(u) =>
      if !compare(data.password, u.password) then Err(HttpError(Unauthorized, InvalidCredentialsMessage))
      else Ok(Session(sign(ClaimsOf(u), accessKey, AccessTokenTtl), WithoutPassword(u)))
  }

  /** An unknown phone and a wrong password are indistinguishable to the caller. */
  lemma LoginFailuresAlike(users: seq<User>, unknown: Credentials, wrong: Credentials,
                           compare: Comparer, sign: Signer, accessKey: string)
    requires !HasKey(users, UserPhone, unknown.phone)
    requires HasKey(users, UserPhone, wrong.phone)
    requires !compare(wrong.password, Find(users, UserPhone, wrong.phone).value.password)
    ensures Login(users, unknown, compare, sign, accessKey) == Login(users, wrong, compare, sign, accessKey)
  {
  }

  /**
   * Registering and then logging in with the same phone and password succeeds, for the user
   * just stored, provided the hasher and the comparer agree (`compare(p, hash(p, 10))`).
   */
  lemma LoginAfterRegister(users: seq<User>, id: int, data: UserData, now: int,
                           hash: Hasher, compare: Comparer, sign: Signer, accessKey: string)
    requires !HasKey(users, UserPhone, data.phone)
    requires compare(data.password, hash(data.password, SaltRounds))
    ensures var u := NewUser(id, Hashed(data, hash), now);
      Login(users + [u], Credentials(data.phone, data.password), compare, sign, accessKey)
        == Ok(Session(sign(Claims(id, data.name, data.phone), accessKey, AccessTokenTtl), WithoutPassword(u)))
  {
    var u := NewUser(id, Hashed(data, hash), now);
    FindAfterAppend(users, UserPhone, u, data.phone);
  }
}
