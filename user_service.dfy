/** `UserService`: the password-free user listing, the list query, lookup by id, and account creation. */
module UserService {
  import opened Common
  import opened Tables
  import opened Text
  import opened Ordering
  import opened ListQuery
  import opened Crypto
  import opened Storage

  const NotFoundMessage := "Không tìm thấy người dùng!"
  const PhoneTakenMessage := "Số điện thoại đã được đăng ký"
  const CreatedMessage := "Đã tạo tài khoản thành công."

  /** `UserResponseDto`: a user without its password; `updatedAt` may be missing. */
  datatype UserResponse = UserResponse(id: int, name: string, phone: string, createdAt: int, updatedAt: Option<int>)

  /** The user with its password column dropped (`select` without `password`, or `omit(user, ['password'])`). */
  function WithoutPassword(u: User): (r: UserResponse)
    ensures r.id == u.id && r.name == u.name && r.phone == u.phone
    ensures r.createdAt == u.createdAt && r.updatedAt == u.updatedAt
  {
    UserResponse(u.id, u.name, u.phone, u.createdAt, u.updatedAt)
  }

  /** One entry of `getAll`: `updatedAt ?? createdAt`. */
  function Summary(u: User): UserResponse {
    WithoutPassword(u).(updatedAt := Some(u.updatedAt.GetOr(u.createdAt)))
  }

  /**
   * `getAll`: every user, in table order, without its password; a user never updated reports
   * its creation time as `updatedAt`, so `updatedAt` is always present.
   */
  function GetAll(users: seq<User>): (r: seq<UserResponse>)
    ensures |r| == |users|
    ensures forall i :: 0 <= i < |r| ==>
      && r[i].id == users[i].id && r[i].name == users[i].name && r[i].phone == users[i].phone
      && r[i].createdAt == users[i].createdAt
      && r[i].updatedAt.Some?
      && (users[i].updatedAt.Some? ==> r[i].updatedAt == users[i].updatedAt)
      && (users[i].updatedAt.None? ==> r[i].updatedAt == Some(users[i].createdAt))
  {
    seq(|users|, i requires 0 <= i < |users| => Summary(users[i]))
  }

  /** A listed entry is the stored user exactly when the stored user already has an `updatedAt`. */
  lemma GetAllKeepsUpdated(users: seq<User>, i: int)
    requires 0 <= i < |users|
    ensures GetAll(users)[i] == WithoutPassword(users[i]) <==> users[i].updatedAt.Some?
  {
  }

  /** The fields the search runs over: the name and the phone. */
  function SearchFields(u: User): seq<string> {
    [u.name, u.phone]
  }

  function NameOrPhoneMatcher(search: string): User -> bool {
    (u: User) => Contains(u.name, search) || Contains(u.phone, search)
  }

  /** Searching over the two designated fields is the OR of the two `contains` conditions. */
  lemma FieldsMatchIff(u: User, search: string)
    ensures MatchesAny(SearchFields(u), search) <==> Contains(u.name, search) || Contains(u.phone, search)
  {
    var fields := SearchFields(u);
    if Contains(u.name, search) {
      assert Contains(fields[0], search);
    } else if Contains(u.phone, search) {
      assert Contains(fields[1], search);
    }
  }

  /**
   * `getList`: at most `items_per_page` users whose name or phone contains the search, newest
   * first, from offset `(page - 1) * items_per_page`; `total` counts every matching user.
   */
  function GetList(users: seq<User>, f: ListFilter): (p: Page<User>)
    requires Pageable(f)
    ensures p.current_page == CurrentPage(f) && p.items_per_page == ItemsPerPage(f)
    ensures |p.data| <= p.items_per_page
    ensures forall i :: 0 <= i < |p.data| ==>
      p.data[i] in users && (Contains(p.data[i].name, Search(f)) || Contains(p.data[i].phone, Search(f)))
    ensures SortedDesc(p.data, UserCreatedAt)
    ensures p.total == |Filter(users, NameOrPhoneMatcher(Search(f)))|
  {
    var p := Resolve(users, SearchFields, UserCreatedAt, f);
    forall i | 0 <= i < |p.data| ensures Contains(p.data[i].name, Search(f)) || Contains(p.data[i].phone, Search(f)) {
      FieldsMatchIff(p.data[i], Search(f));
    }
    forall u | u in users ensures Selector(SearchFields, Search(f))(u) == NameOrPhoneMatcher(Search(f))(u) {
      FieldsMatchIff(u, Search(f));
    }
    FilterCongruent(users, Selector(SearchFields, Search(f)), NameOrPhoneMatcher(Search(f)));
    p
  }

  /** With an empty search every user matches, so `total` is the number of users. */
  lemma EmptySearchCountsAll(users: seq<User>, f: ListFilter)
    requires Pageable(f) && Search(f) == ""
    ensures GetList(users, f).total == |users|
  {
    EmptySearchMatchesAll(users, SearchFields);
  }

  /** `getDetail`: the user with that id (password included), or NOT_FOUND. */
  function GetDetail(users: seq<User>, id: int): (r: Result<User, HttpError>)
    ensures r.Ok? <==> HasKey(users, UserId, id)
    ensures r.Ok? ==> r.value in users && r.value.id == id
    ensures r.Err? ==> r.error == HttpError(NotFound, NotFoundMessage)
  {
    match Find(users, UserId, id)
    case Some(u) => Ok(u)
    case None => Err(HttpError(NotFound, NotFoundMessage))
  }

  /** The row inserted for a new account: the body with its password replaced by `hash(password, 10)`. */
  function Hashed(body: UserData, hash: Hasher): (r: UserData)
    ensures r.name == body.name && r.phone == body.phone && r.password == hash(body.password, SaltRounds)
  {
    body.(password := hash(body.password, SaltRounds))
  }

  /**
   * `create`: BAD_REQUEST when the phone is already registered; otherwise stores the user with
   * its password hashed and replies with the stored row.
   */
  method Create(db: Database, body: UserData, hash: Hasher, now: int) returns (r: Result<Reply<User>, HttpError>)
    requires db.Valid()
    modifies db`users, db`nextUserId
    ensures db.Valid()
    ensures r.Ok? <==> !HasKey(old(db.users), UserPhone, body.phone)
    ensures r.Ok? ==>
      var u := NewUser(old(db.nextUserId), Hashed(body, hash), now);
      && db.users == old(db.users) + [u]
      && r.value == Reply(CreatedMessage, Some(u))
    ensures r.Err? ==> db.users == old(db.users) && r.error == HttpError(BadRequest, PhoneTakenMessage)
  {
    var registered := Find(db.users, UserPhone, body.phone);
    if registered.Some? {
      return Err(HttpError(BadRequest, PhoneTakenMessage));
    }
    var stored := db.CreateUser(Hashed(body, hash), now);
    assert stored.Ok?;
    r := Ok(Reply(CreatedMessage, Some(stored.value)));
  }
}
