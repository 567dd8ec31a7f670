/** `NewsService`: the news list query, lookup by id, and the three writes with their replies. */
module NewsService {
  import opened Common
  import opened Tables
  import opened Text
  import opened Ordering
  import opened ListQuery
  import opened Storage

  const NotFoundMessage := "Không tìm thấy bài viết! "
  const FailureMessage := "Đã xảy ra lỗi! Vui lòng thử lại sau. "
  const CreatedPrefix := "Đã tạo bài viết "
  const UpdatedPrefix := "Đã cập nhật bài viết "
  const DeletedPrefix := "Đã xóa bài viết "

  /** The fields the search runs over: the title, the owner's name and the category's name. */
  function SearchFields(users: seq<User>, categories: seq<Category>, n: News): seq<string> {
    [n.title]
    + (match Find(users, UserId, n.ownerId) case Some(u) => [u.name] case None => [])
    + (match Find(categories, CategoryId, n.categoryId) case Some(c) => [c.name] case None => [])
  }

  function Fields(users: seq<User>, categories: seq<Category>): News -> seq<string> {
    (n: News) => SearchFields(users, categories, n)
  }

  /** The `where` clause: the search occurs in the title, in the owner's name or in the category's name. */
  predicate Matches(users: seq<User>, categories: seq<Category>, search: string, n: News) {
    || Contains(n.title, search)
    || (exists u :: u in users && u.id == n.ownerId && Contains(u.name, search))
    || (exists c :: c in categories && c.id == n.categoryId && Contains(c.name, search))
  }

  function Matcher(users: seq<User>, categories: seq<Category>, search: string): News -> bool {
    (n: News) => Matches(users, categories, search, n)
  }

  /** Searching over the three designated fields is exactly the OR of the three `contains` conditions. */
  lemma FieldsMatchIff(users: seq<User>, categories: seq<Category>, search: string, n: News)
    requires UniqueKeys(users, UserId) && UniqueKeys(categories, CategoryId)
    ensures MatchesAny(SearchFields(users, categories, n), search) <==> Matches(users, categories, search, n)
  {
    var fields := SearchFields(users, categories, n);
    var owner := Find(users, UserId, n.ownerId);
    var category := Find(categories, CategoryId, n.categoryId);
    var ownerPart: seq<string> := match owner case Some(u) => [u.name] case None => [];
    var categoryPart: seq<string> := match category case Some(c) => [c.name] case None => [];
    assert fields == [n.title] + ownerPart + categoryPart;
    assert fields[0] == n.title;
    if exists u :: u in users && u.id == n.ownerId && Contains(u.name, search) {
      var u :| u in users && u.id == n.ownerId && Contains(u.name, search);
      var i :| 0 <= i < |users| && users[i] == u;
      FindUnique(users, UserId, i);
      assert fields[1] == u.name;
    }
    if exists c :: c in categories && c.id == n.categoryId && Contains(c.name, search) {
      var c :| c in categories && c.id == n.categoryId && Contains(c.name, search);
      var i :| 0 <= i < |categories| && categories[i] == c;
      FindUnique(categories, CategoryId, i);
      assert fields[|fields| - 1] == c.name;
    }
    if MatchesAny(fields, search) {
      var i :| 0 <= i < |fields| && Contains(fields[i], search);
      if i > 0 && owner.Some? && i == 1 {
        assert Contains(owner.value.name, search);
      } else if i > 0 {
        assert category.Some? && fields[i] == category.value.name;
      }
    }
  }

  /**
   * `getList`: at most `items_per_page` matching news, newest first, from offset
   * `(page - 1) * items_per_page`; `total` counts every matching news.
   */
  function GetList(news: seq<News>, users: seq<User>, categories: seq<Category>, f: ListFilter): (p: Page<News>)
    requires Pageable(f)
    requires UniqueKeys(users, UserId) && UniqueKeys(categories, CategoryId)
    ensures p.current_page == CurrentPage(f) && p.items_per_page == ItemsPerPage(f)
    ensures |p.data| <= p.items_per_page
    ensures forall i :: 0 <= i < |p.data| ==> p.data[i] in news && Matches(users, categories, Search(f), p.data[i])
    ensures SortedDesc(p.data, NewsCreatedAt)
    ensures p.total == |Filter(news, Matcher(users, categories, Search(f)))|
  {
    var p := Resolve(news, Fields(users, categories), NewsCreatedAt, f);
    forall n | n in news ensures Fields(users, categories)(n) == SearchFields(users, categories, n) {
    }
    forall i | 0 <= i < |p.data| ensures Matches(users, categories, Search(f), p.data[i]) {
      FieldsMatchIff(users, categories, Search(f), p.data[i]);
    }
    forall n | n in news
      ensures Selector(Fields(users, categories), Search(f))(n) == Matcher(users, categories, Search(f))(n)
    {
      FieldsMatchIff(users, categories, Search(f), n);
    }
    FilterCongruent(news, Selector(Fields(users, categories), Search(f)), Matcher(users, categories, Search(f)));
    p
  }

  /** With an empty search every news matches, so `total` is the number of news. */
  lemma EmptySearchCountsAll(news: seq<News>, users: seq<User>, categories: seq<Category>, f: ListFilter)
    requires Pageable(f) && Search(f) == ""
    requires UniqueKeys(users, UserId) && UniqueKeys(categories, CategoryId)
    ensures GetList(news, users, categories, f).total == |news|
  {
    EmptySearchMatchesAll(news, Fields(users, categories));
  }

  /** `getDetail`: the news with that id, or NOT_FOUND. */
  function GetDetail(news: seq<News>, id: int): (r: Result<News, HttpError>)
    ensures r.Ok? <==> HasKey(news, NewsId, id)
    ensures r.Ok? ==> r.value in news && r.value.id == id
    ensures r.Err? ==> r.error == HttpError(NotFound, NotFoundMessage)
  {
    match Find(news, NewsId, id)
    case Some(n) => Ok(n)
    case None => Err(HttpError(NotFound, NotFoundMessage))
  }

  /** After an insert under a fresh id, that id finds the new news and every other lookup is unchanged. */
  lemma DetailAfterCreate(news: seq<News>, id: int, body: NewsData, now: int, other: int)
    requires !HasKey(news, NewsId, id)
    ensures GetDetail(news + [NewNews(id, body, now)], other) ==
      if other == id then Ok(NewNews(id, body, now)) else GetDetail(news, other)
  {
    FindAfterAppend(news, NewsId, NewNews(id, body, now), other);
  }

  /** After an update, the id finds the patched news and every other lookup is unchanged. */
  lemma DetailAfterUpdate(news: seq<News>, id: int, body: NewsData, other: int)
    requires HasKey(news, NewsId, id)
    ensures var n := PatchNews(Find(news, NewsId, id).value, body);
      GetDetail(Replace(news, NewsId, id, n), other) == if other == id then Ok(n) else GetDetail(news, other)
  {
    var n := PatchNews(Find(news, NewsId, id).value, body);
    FindAfterReplace(news, NewsId, id, n, other);
  }

  /** After a delete, the id is NOT_FOUND and every other lookup is unchanged. */
  lemma DetailAfterDelete(news: seq<News>, id: int, other: int)
    ensures GetDetail(Remove(news, NewsId, id), other) ==
      if other == id then Err(HttpError(NotFound, NotFoundMessage)) else GetDetail(news, other)
  {
    FindAfterRemove(news, NewsId, id, other);
  }

  /** `create`: inserts the news and replies with its title, or BAD_REQUEST on any storage failure. */
  method Create(db: Database, body: NewsData, now: int, fault: bool) returns (r: Result<Reply<News>, HttpError>)
    requires db.Valid()
    modifies db`news, db`nextNewsId
    ensures db.Valid()
    ensures r.Ok? <==> !fault && old(db.References(body.ownerId, body.categoryId))
    ensures r.Ok? ==>
      var n := NewNews(old(db.nextNewsId), body, now);
      && db.news == old(db.news) + [n]
      && r.value == Reply(CreatedPrefix + body.title, Some(n))
    ensures r.Err? ==> db.news == old(db.news) && r.error == HttpError(BadRequest, FailureMessage)
  {
    var stored := db.CreateNews(body, now, fault);
    match stored
    case Ok(n) =>
      r := Ok(Reply(CreatedPrefix + n.title, Some(n)));
    case Err(_) =>
      r := Err(HttpError(BadRequest, FailureMessage));
  }

  /** `update`: overwrites the news with that id and replies with its new title, or BAD_REQUEST. */
  method Update(db: Database, id: int, body: NewsData, fault: bool) returns (r: Result<Reply<News>, HttpError>)
    requires db.Valid()
    modifies db`news
    ensures db.Valid()
    ensures r.Ok? <==> !fault && HasKey(old(db.news), NewsId, id) && old(db.References(body.ownerId, body.categoryId))
    ensures r.Ok? ==>
      var n := PatchNews(Find(old(db.news), NewsId, id).value, body);
      && db.news == Replace(old(db.news), NewsId, id, n)
      && r.value == Reply(UpdatedPrefix + body.title, Some(n))
    ensures r.Err? ==> db.news == old(db.news) && r.error == HttpError(BadRequest, FailureMessage)
  {
    var stored := db.UpdateNews(id, body, fault);
    match stored
    case Ok(n) =>
      r := Ok(Reply(UpdatedPrefix + n.title, Some(n)));
    case Err(_) =>
      r := Err(HttpError(BadRequest, FailureMessage));
  }

  /** `delete`: removes the news with that id and replies with the removed title, or BAD_REQUEST. */
  method Delete(db: Database, id: int, fault: bool) returns (r: Result<Reply<News>, HttpError>)
    requires db.Valid()
    modifies db`news
    ensures db.Valid()
    ensures r.Ok? <==> !fault && HasKey(old(db.news), NewsId, id)
    ensures r.Ok? ==>
      && db.news == Remove(old(db.news), NewsId, id)
      && r.value == Reply(DeletedPrefix + Find(old(db.news), NewsId, id).value.title, None)
    ensures r.Err? ==> db.news == old(db.news) && r.error == HttpError(BadRequest, FailureMessage)
  {
    var stored := db.DeleteNews(id, fault);
    match stored
    case Ok(n) =>
      r := Ok(Reply(DeletedPrefix + n.title, None));
    case Err(_) =>
      r := Err(HttpError(BadRequest, FailureMessage));
  }
}
