/** `CategoryService`: the category list query, lookup by id, and the three writes with their replies. */
module CategoryService {
  import opened Common
  import opened Tables
  import opened Text
  import opened Ordering
  import opened ListQuery
  import opened Storage

  const NotFoundMessage := "Không tìm thấy danh mục!"
  const FailureMessage := "Đã xảy ra lỗi! Vui lòng thử lại sau."
  const CreatedPrefix := "Tạo thành công danh mục "
  const UpdatedPrefix := "Cập nhật thành công danh mục "
  const DeletedPrefix := "Xóa thành công danh mục "

  /** The only field the search runs over is the name. */
  function SearchFields(c: Category): seq<string> {
    [c.name]
  }

  function NameMatcher(search: string): Category -> bool {
    (c: Category) => Contains(c.name, search)
  }

  /**
   * `getList`: at most `items_per_page` categories whose name contains the search, highest id
   * first, from offset `(page - 1) * items_per_page`; `total` counts every matching category.
   */
  function GetList(categories: seq<Category>, f: ListFilter): (p: Page<Category>)
    requires Pageable(f)
    ensures p.current_page == CurrentPage(f) && p.items_per_page == ItemsPerPage(f)
    ensures |p.data| <= p.items_per_page
    ensures forall i :: 0 <= i < |p.data| ==> p.data[i] in categories && Contains(p.data[i].name, Search(f))
    ensures SortedDesc(p.data, CategoryId)
    ensures p.total == |Filter(categories, NameMatcher(Search(f)))|
  {
    var p := Resolve(categories, SearchFields, CategoryId, f);
    forall i | 0 <= i < |p.data| ensures Contains(p.data[i].name, Search(f)) {
      assert MatchesAny(SearchFields(p.data[i]), Search(f));
    }
    forall c | c in categories ensures Selector(SearchFields, Search(f))(c) == NameMatcher(Search(f))(c) {
      assert SearchFields(c)[0] == c.name && |SearchFields(c)| == 1;
      if MatchesAny(SearchFields(c), Search(f)) {
        var i :| 0 <= i < |SearchFields(c)| && Contains(SearchFields(c)[i], Search(f));
        assert i == 0;
      }
    }
    FilterCongruent(categories, Selector(SearchFields, Search(f)), NameMatcher(Search(f)));
    p
  }

  /** With an empty search every category matches, so `total` is the size of the table. */
  lemma EmptySearchCountsAll(categories: seq<Category>, f: ListFilter)
    requires Pageable(f) && Search(f) == ""
    ensures GetList(categories, f).total == |categories|
  {
    EmptySearchMatchesAll(categories, SearchFields);
  }

  /** `getDetail`: the category with that id, or NOT_FOUND. */
  function GetDetail(categories: seq<Category>, id: int): (r: Result<Category, HttpError>)
    ensures r.Ok? <==> HasKey(categories, CategoryId, id)
    ensures r.Ok? ==> r.value in categories && r.value.id == id
    ensures r.Err? ==> r.error == HttpError(NotFound, NotFoundMessage)
  {
    match Find(categories, CategoryId, id)
    case Some(c) => Ok(c)
    case None => Err(HttpError(NotFound, NotFoundMessage))
  }

  /** After an insert under a fresh id, that id finds the new category and every other lookup is unchanged. */
  lemma DetailAfterCreate(categories: seq<Category>, id: int, body: CategoryData, other: int)
    requires !HasKey(categories, CategoryId, id)
    ensures GetDetail(categories + [NewCategory(id, body)], other) ==
      if other == id then Ok(NewCategory(id, body)) else GetDetail(categories, other)
  {
    FindAfterAppend(categories, CategoryId, NewCategory(id, body), other);
  }

  /** After an update, the id finds the patched category and every other lookup is unchanged. */
  lemma DetailAfterUpdate(categories: seq<Category>, id: int, body: CategoryData, other: int)
    requires HasKey(categories, CategoryId, id)
    ensures var c := PatchCategory(Find(categories, CategoryId, id).value, body);
      GetDetail(Replace(categories, CategoryId, id, c), other) == if other == id then Ok(c) else GetDetail(categories, other)
  {
    var c := PatchCategory(Find(categories, CategoryId, id).value, body);
    FindAfterReplace(categories, CategoryId, id, c, other);
  }

  /** After a delete, the id is NOT_FOUND and every other lookup is unchanged. */
  lemma DetailAfterDelete(categories: seq<Category>, id: int, other: int)
    ensures GetDetail(Remove(categories, CategoryId, id), other) ==
      if other == id then Err(HttpError(NotFound, NotFoundMessage)) else GetDetail(categories, other)
  {
    FindAfterRemove(categories, CategoryId, id, other);
  }

  /** `create`: inserts the category and replies with its name, or BAD_REQUEST on any storage failure. */
  method Create(db: Database, body: CategoryData, fault: bool) returns (r: Result<Reply<Category>, HttpError>)
    requires db.Valid()
    modifies db`categories, db`nextCategoryId
    ensures db.Valid()
    ensures r.Ok? <==> !fault
    ensures r.Ok? ==>
      var c := NewCategory(old(db.nextCategoryId), body);
      && db.categories == old(db.categories) + [c]
      && r.value == Reply(CreatedPrefix + body.name, Some(c))
    ensures r.Err? ==> db.categories == old(db.categories) && r.error == HttpError(BadRequest, FailureMessage)
  {
    var stored := db.CreateCategory(body, fault);
    match stored
    case Ok(c) =>
      r := Ok(Reply(CreatedPrefix + c.name, Some(c)));
    case Err(_) =>
      r := Err(HttpError(BadRequest, FailureMessage));
  }

  /** `update`: overwrites the category with that id and replies with its new name, or BAD_REQUEST. */
  method Update(db: Database, id: int, body: CategoryData, fault: bool) returns (r: Result<Reply<Category>, HttpError>)
    requires db.Valid()
    modifies db`categories
    ensures db.Valid()
    ensures r.Ok? <==> !fault && HasKey(old(db.categories), CategoryId, id)
    ensures r.Ok? ==>
      var c := PatchCategory(Find(old(db.categories), CategoryId, id).value, body);
      && db.categories == Replace(old(db.categories), CategoryId, id, c)
      && r.value == Reply(UpdatedPrefix + body.name, Some(c))
    ensures r.Err? ==> db.categories == old(db.categories) && r.error == HttpError(BadRequest, FailureMessage)
  {
    var stored := db.UpdateCategory(id, body, fault);
    match stored
    case Ok(c) =>
      r := Ok(Reply(UpdatedPrefix + c.name, Some(c)));
    case Err(_) =>
      r := Err(HttpError(BadRequest, FailureMessage));
  }

  /** `delete`: removes the category with that id and replies with the removed name, or BAD_REQUEST. */
  method Delete(db: Database, id: int, fault: bool) returns (r: Result<Reply<Category>, HttpError>)
    requires db.Valid()
    modifies db`categories
    ensures db.Valid()
    ensures r.Ok? <==> !fault && HasKey(old(db.categories), CategoryId, id) && !HasKey(db.news, NewsCategoryId, id)
    ensures r.Ok? ==>
      && db.categories == Remove(old(db.categories), CategoryId, id)
      && r.value == Reply(DeletedPrefix + Find(old(db.categories), CategoryId, id).value.name, None)
    ensures r.Err? ==> db.categories == old(db.categories) && r.error == HttpError(BadRequest, FailureMessage)
  {
    var stored := db.DeleteCategory(id, fault);
    match stored
    case Ok(c) =>
      r := Ok(Reply(DeletedPrefix + c.name, None));
    case Err(_) =>
      r := Err(HttpError(BadRequest, FailureMessage));
  }
}
