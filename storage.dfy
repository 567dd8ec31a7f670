/**
 * The relational store behind the services, modelled in memory: three tables with
 * auto-increment ids, the unique phone column, and the foreign keys from news to its owner
 * and its category. Each method is one storage call; it either succeeds or fails with a
 * storage error and leaves the tables as they were.
 */
module Storage {
  import opened Common
  import opened Tables

  datatype User = User(id: int, name: string, phone: string, password: string, createdAt: int, updatedAt: Option<int>)
  datatype News = News(id: int, title: string, content: Option<string>, status: int, ownerId: int, categoryId: int, createdAt: int)
  datatype Category = Category(id: int, name: string, description: Option<string>)

  /** The columns a caller supplies when inserting a user. */
  datatype UserData = UserData(name: string, phone: string, password: string)

  /** An `@IsOptional()` text field of a body: left out, sent as `null`, or sent with a value. */
  datatype OptionalText = Omitted | Null | Given(text: string)

  /** The nullable column an optional field writes: `null` and an omitted field both leave it empty. */
  function Column(t: OptionalText): (r: Option<string>)
    ensures r.Some? <==> t.Given?
    ensures t.Given? ==> r.value == t.text
  {
    if t.Given? then Some(t.text) else None
  }

  /** The columns of a news body; `content` may be left out or sent as `null`. */
  datatype NewsData = NewsData(title: string, content: OptionalText, status: int, ownerId: int, categoryId: int)

  /** The columns of a category body; `description` may be left out or sent as `null`. */
  datatype CategoryData = CategoryData(name: string, description: OptionalText)

  /** Why a storage call failed: a missing row, a broken foreign key, a duplicate unique value, or anything else. */
  datatype StorageError = RecordNotFound | ForeignKeyViolation | UniqueViolation | Unavailable

  function UserId(u: User): int { u.id }
  function UserPhone(u: User): string { u.phone }
  function UserCreatedAt(u: User): int { u.createdAt }
  function NewsId(n: News): int { n.id }
  function NewsCreatedAt(n: News): int { n.createdAt }
  function NewsCategoryId(n: News): int { n.categoryId }
  function CategoryId(c: Category): int { c.id }

  /** The row an insert creates: the next id, the body's columns, `createdAt` from the clock. */
  function NewUser(id: int, data: UserData, now: int): (r: User)
    ensures r.id == id && r.createdAt == now && r.updatedAt == None
    ensures UserData(r.name, r.phone, r.password) == data
  {
    User(id, data.name, data.phone, data.password, now, None)
  }

  function NewNews(id: int, data: NewsData, now: int): (r: News)
    ensures r.id == id && r.createdAt == now
    ensures r.title == data.title && r.status == data.status
    ensures r.ownerId == data.ownerId && r.categoryId == data.categoryId
    ensures r.content.Some? <==> data.content.Given?
    ensures data.content.Given? ==> r.content == Some(data.content.text)
  {
    News(id, data.title, Column(data.content), data.status, data.ownerId, data.categoryId, now)
  }

  function NewCategory(id: int, data: CategoryData): (r: Category)
    ensures r.id == id
    ensures r.name == data.name
    ensures r.description.Some? <==> data.description.Given?
    ensures data.description.Given? ==> r.description == Some(data.description.text)
  {
    Category(id, data.name, Column(data.description))
  }

  /**
   * An update writes every column the body carries: an omitted optional column keeps its value,
   * and one sent as `null` is cleared.
   */
  function PatchNews(n: News, data: NewsData): (r: News)
    ensures r.id == n.id && r.createdAt == n.createdAt
    ensures r.title == data.title && r.status == data.status
    ensures r.ownerId == data.ownerId && r.categoryId == data.categoryId
    ensures data.content.Omitted? ==> r.content == n.content
    ensures data.content.Null? ==> r.content == None
    ensures data.content.Given? ==> r.content == Some(data.content.text)
  {
    n.(title := data.title, content := if data.content.Omitted? then n.content else Column(data.content),
       status := data.status, ownerId := data.ownerId, categoryId := data.categoryId)
  }

  function PatchCategory(c: Category, data: CategoryData): (r: Category)
    ensures r.id == c.id && r.name == data.name
    ensures data.description.Omitted? ==> r.description == c.description
    ensures data.description.Null? ==> r.description == None
    ensures data.description.Given? ==> r.description == Some(data.description.text)
  {
    c.(name := data.name, description := if data.description.Omitted? then c.description else Column(data.description))
  }

  /** A table's primary keys are unique and all below the auto-increment counter. */
  ghost predicate TableValid<T>(rows: seq<T>, key: T -> int, next: int) {
    UniqueKeys(rows, key) && forall i :: 0 <= i < |rows| ==> key(rows[i]) < next
  }

  /** Every news row points to an existing owner and an existing category. */
  ghost predicate Referential(news: seq<News>, users: seq<User>, categories: seq<Category>) {
    forall i :: 0 <= i < |news| ==>
      HasKey(users, UserId, news[i].ownerId) && HasKey(categories, CategoryId, news[i].categoryId)
  }

  lemma TableAppend<T>(rows: seq<T>, key: T -> int, next: int, v: T)
    requires TableValid(rows, key, next) && key(v) == next
    ensures TableValid(rows + [v], key, next + 1)
  {
  }

  lemma TableReplace<T>(rows: seq<T>, key: T -> int, next: int, k: int, v: T)
    requires TableValid(rows, key, next) && key(v) == k
    ensures TableValid(Replace(rows, key, k, v), key, next)
    ensures SameKeys(rows, Replace(rows, key, k, v), key)
  {
    ReplaceSameKeys(rows, key, k, v);
    SameKeysAgree(rows, Replace(rows, key, k, v), key);
  }

  lemma TableRemove<T>(rows: seq<T>, key: T -> int, next: int, k: int)
    requires TableValid(rows, key, next)
    ensures TableValid(Remove(rows, key, k), key, next)
  {
    RemoveKeepsUnique(rows, key, k);
  }

  /** Referential integrity survives a write to one of the three tables. */
  lemma ReferentialNewsAppend(news: seq<News>, users: seq<User>, categories: seq<Category>, n: News)
    requires Referential(news, users, categories)
    requires HasKey(users, UserId, n.ownerId) && HasKey(categories, CategoryId, n.categoryId)
    ensures Referential(news + [n], users, categories)
  {
  }

  lemma ReferentialNewsReplace(news: seq<News>, users: seq<User>, categories: seq<Category>, id: int, n: News)
    requires Referential(news, users, categories)
    requires HasKey(users, UserId, n.ownerId) && HasKey(categories, CategoryId, n.categoryId)
    ensures Referential(Replace(news, NewsId, id, n), users, categories)
  {
  }

  lemma ReferentialNewsRemove(news: seq<News>, users: seq<User>, categories: seq<Category>, id: int)
    requires Referential(news, users, categories)
    ensures Referential(Remove(news, NewsId, id), users, categories)
  {
    var r := Remove(news, NewsId, id);
    forall i | 0 <= i < |r|
      ensures HasKey(users, UserId, r[i].ownerId) && HasKey(categories, CategoryId, r[i].categoryId)
    {
      var j :| 0 <= j < |news| && news[j] == r[i];
    }
  }

  lemma ReferentialUsersChange(news: seq<News>, users: seq<User>, users': seq<User>, categories: seq<Category>)
    requires Referential(news, users, categories)
    requires forall o :: HasKey(users, UserId, o) ==> HasKey(users', UserId, o)
    ensures Referential(news, users', categories)
  {
  }

  lemma ReferentialCategoriesChange(news: seq<News>, users: seq<User>, categories: seq<Category>, categories': seq<Category>)
    requires Referential(news, users, categories)
    requires forall i :: 0 <= i < |news| ==> HasKey(categories', CategoryId, news[i].categoryId)
    ensures Referential(news, users, categories')
  {
  }

  class Database {
    var users: seq<User>
    var news: seq<News>
    var categories: seq<Category>
    var nextUserId: int
    var nextNewsId: int
    var nextCategoryId: int

    /** Primary keys and phones are unique, counters are past every id, and news references existing rows. */
    ghost predicate Valid()
      reads this
    {
      && TableValid(users, UserId, nextUserId) && UniqueKeys(users, UserPhone)
      && TableValid(news, NewsId, nextNewsId)
      && TableValid(categories, CategoryId, nextCategoryId)
      && Referential(news, users, categories)
    }

    /** The owner and the category a news row points to both exist. */
    predicate References(ownerId: int, categoryId: int)
      reads this
    {
      HasKey(users, UserId, ownerId) && HasKey(categories, CategoryId, categoryId)
    }

    constructor ()
      ensures Valid()
      ensures users == [] && news == [] && categories == []
    {
      users, news, categories := [], [], [];
      nextUserId, nextNewsId, nextCategoryId := 1, 1, 1;
    }

    /** `user.create`: fails on a phone that is already stored. */
    method CreateUser(data: UserData, now: int) returns (r: Result<User, StorageError>)
      requires Valid()
      modifies this`users, this`nextUserId
      ensures Valid()
      ensures r.Ok? <==> !HasKey(old(users), UserPhone, data.phone)
      ensures r.Ok? ==> r.value == NewUser(old(nextUserId), data, now) && users == old(users) + [r.value]
      ensures r.Err? ==> users == old(users) && r.error == UniqueViolation
    {
      if HasKey(users, UserPhone, data.phone) {
        return Err(UniqueViolation);
      }
      var u := NewUser(nextUserId, data, now);
      TableAppend(users, UserId, nextUserId, u);
      forall o | HasKey(users, UserId, o) ensures HasKey(users + [u], UserId, o) {
        FindAfterAppend(users, UserId, u, o);
      }
      ReferentialUsersChange(news, users, users + [u], categories);
      users := users + [u];
      nextUserId := nextUserId + 1;
      r := Ok(u);
    }

    /** `news.create`: fails when the owner or the category does not exist, or on any other fault. */
    method CreateNews(data: NewsData, now: int, fault: bool) returns (r: Result<News, StorageError>)
      requires Valid()
      modifies this`news, this`nextNewsId
      ensures Valid()
      ensures r.Ok? <==> !fault && References(data.ownerId, data.categoryId)
      ensures r.Ok? ==> r.value == NewNews(old(nextNewsId), data, now) && news == old(news) + [r.value]
      ensures r.Err? ==> news == old(news)
    {
      if fault {
        return Err(Unavailable);
      }
      if !References(data.ownerId, data.categoryId) {
        return Err(ForeignKeyViolation);
      }
      var n := NewNews(nextNewsId, data, now);
      TableAppend(news, NewsId, nextNewsId, n);
      ReferentialNewsAppend(news, users, categories, n);
      news := news + [n];
      nextNewsId := nextNewsId + 1;
      r := Ok(n);
    }

    /** `news.update({ where: { id } })`: fails on a missing id, a broken reference, or any other fault. */
    method UpdateNews(id: int, data: NewsData, fault: bool) returns (r: Result<News, StorageError>)
      requires Valid()
      modifies this`news
      ensures Valid()
      ensures r.Ok? <==> !fault && HasKey(old(news), NewsId, id) && References(data.ownerId, data.categoryId)
      ensures r.Ok? ==>
        && Find(old(news), NewsId, id).Some?
        && r.value == PatchNews(Find(old(news), NewsId, id).value, data)
        && news == Replace(old(news), NewsId, id, r.value)
      ensures r.Err? ==> news == old(news)
    {
      if fault {
        return Err(Unavailable);
      }
      var found := Find(news, NewsId, id);
      if found.None? {
        return Err(RecordNotFound);
      }
      if !References(data.ownerId, data.categoryId) {
        return Err(ForeignKeyViolation);
      }
      var n := PatchNews(found.value, data);
      TableReplace(news, NewsId, nextNewsId, id, n);
      ReferentialNewsReplace(news, users, categories, id, n);
      news := Replace(news, NewsId, id, n);
      r := Ok(n);
    }

    /** `news.delete({ where: { id } })`: fails on a missing id or any other fault. */
    method DeleteNews(id: int, fault: bool) returns (r: Result<News, StorageError>)
      requires Valid()
      modifies this`news
      ensures Valid()
      ensures r.Ok? <==> !fault && HasKey(old(news), NewsId, id)
      ensures r.Ok? ==> Find(old(news), NewsId, id) == Some(r.value) && news == Remove(old(news), NewsId, id)
      ensures r.Err? ==> news == old(news)
    {
      if fault {
        return Err(Unavailable);
      }
      var found := Find(news, NewsId, id);
      if found.None? {
        return Err(RecordNotFound);
      }
      TableRemove(news, NewsId, nextNewsId, id);
      ReferentialNewsRemove(news, users, categories, id);
      news := Remove(news, NewsId, id);
      r := Ok(found.value);
    }

    /** `category.create`: fails only on a fault the model does not see. */
    method CreateCategory(data: CategoryData, fault: bool) returns (r: Result<Category, StorageError>)
      requires Valid()
      modifies this`categories, this`nextCategoryId
      ensures Valid()
      ensures r.Ok? <==> !fault
      ensures r.Ok? ==> r.value == NewCategory(old(nextCategoryId), data) && categories == old(categories) + [r.value]
      ensures r.Err? ==> categories == old(categories)
    {
      if fault {
        return Err(Unavailable);
      }
      var c := NewCategory(nextCategoryId, data);
      TableAppend(categories, CategoryId, nextCategoryId, c);
      forall i | 0 <= i < |news| ensures HasKey(categories + [c], CategoryId, news[i].categoryId) {
        FindAfterAppend(categories, CategoryId, c, news[i].categoryId);
      }
      ReferentialCategoriesChange(news, users, categories, categories + [c]);
      categories := categories + [c];
      nextCategoryId := nextCategoryId + 1;
      r := Ok(c);
    }

    /** `category.update({ where: { id } })`: fails on a missing id or any other fault. */
    method UpdateCategory(id: int, data: CategoryData, fault: bool) returns (r: Result<Category, StorageError>)
      requires Valid()
      modifies this`categories
      ensures Valid()
      ensures r.Ok? <==> !fault && HasKey(old(categories), CategoryId, id)
      ensures r.Ok? ==>
        && Find(old(categories), CategoryId, id).Some?
        && r.value == PatchCategory(Find(old(categories), CategoryId, id).value, data)
        && categories == Replace(old(categories), CategoryId, id, r.value)
      ensures r.Err? ==> categories == old(categories)
    {
      if fault {
        return Err(Unavailable);
      }
      var found := Find(categories, CategoryId, id);
      if found.None? {
        return Err(RecordNotFound);
      }
      var c := PatchCategory(found.value, data);
      TableReplace(categories, CategoryId, nextCategoryId, id, c);
      ReferentialCategoriesChange(news, users, categories, Replace(categories, CategoryId, id, c));
      categories := Replace(categories, CategoryId, id, c);
      r := Ok(c);
    }

    /**
     * `category.delete({ where: { id } })`: fails on a missing id, on a category that news still
     * points to (the relation restricts deletion), or on any other fault.
     */
    method DeleteCategory(id: int, fault: bool) returns (r: Result<Category, StorageError>)
      requires Valid()
      modifies this`categories
      ensures Valid()
      ensures r.Ok? <==> !fault && HasKey(old(categories), CategoryId, id) && !HasKey(news, NewsCategoryId, id)
      ensures r.Ok? ==>
        && Find(old(categories), CategoryId, id) == Some(r.value)
        && categories == Remove(old(categories), CategoryId, id)
      ensures r.Err? ==> categories == old(categories)
    {
      if fault {
        return Err(Unavailable);
      }
      var found := Find(categories, CategoryId, id);
      if found.None? {
        return Err(RecordNotFound);
      }
      if HasKey(news, NewsCategoryId, id) {
        return Err(ForeignKeyViolation);
      }
      TableRemove(categories, CategoryId, nextCategoryId, id);
      forall i | 0 <= i < |news| ensures HasKey(Remove(categories, CategoryId, id), CategoryId, news[i].categoryId) {
        assert NewsCategoryId(news[i]) != id;
        FindAfterRemove(categories, CategoryId, id, news[i].categoryId);
      }
      ReferentialCategoriesChange(news, users, categories, Remove(categories, CategoryId, id));
      categories := Remove(categories, CategoryId, id);
      r := Ok(found.value);
    }
  }
}
