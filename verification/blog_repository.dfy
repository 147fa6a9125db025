/**
 * The blog repository of the back end: create, read (one, all, by category),
 * update, delete, the like/dislike toggle and the per-category blog counts.
 *
 * The database is a value: the `blogs` table keyed by id, the
 * `blog_interactions` table keyed by the pair (blog id, user id), the `users`
 * table keyed by id and the `categories` table in rowid order. Keying the
 * interactions by the pair makes "at most one record per user and blog" hold
 * by construction; `Interact` states which single entry it touches.
 */
module BlogRepository {
  import opened Wrappers
  import opened Models
  import Text
  import SqlLike
  import Sorting

  type InteractionKey = (int, int)

  datatype Store = Store(
    blogs: map<int, Blog>,
    interactions: map<InteractionKey, Interaction>,
    users: map<int, User>,
    categories: seq<Category>)

  /** The `HTTPException`s the repository raises. */
  datatype HttpError = NotFound(detail: string) | Forbidden(detail: string)

  /** A blog as the API returns it, with its reaction counts. */
  datatype BlogView = BlogView(id: int, blog: Blog, likes: nat, dislikes: nat)

  /** A category with the number of blogs filed under it. */
  datatype CategoryCount = CategoryCount(category: Category, blogCount: nat)

  function BlogNotFound(id: int): string {
    "Blog with id " + Text.IntToString(id) + " not found"
  }

  // ---------------------------------------------------------------------------
  // Counting reactions

  /** The interaction records of kind `kind` on blog `blogId`. */
  function Records(ix: map<InteractionKey, Interaction>, blogId: int, kind: Interaction): set<InteractionKey> {
    set k | k in ix && k.0 == blogId && ix[k] == kind
  }

  /** `COUNT(blog_interactions.id)` for one blog and one kind; no record counts 0. */
  function Count(ix: map<InteractionKey, Interaction>, blogId: int, kind: Interaction): nat {
    |Records(ix, blogId, kind)|
  }

  function Likes(st: Store, blogId: int): nat {
    Count(st.interactions, blogId, Like)
  }

  function Dislikes(st: Store, blogId: int): nat {
    Count(st.interactions, blogId, Dislike)
  }

  /** The interaction a user currently holds on a blog, if any. */
  function Stored(st: Store, blogId: int, userId: int): Option<Interaction> {
    if (blogId, userId) in st.interactions then Some(st.interactions[(blogId, userId)]) else None
  }

  /** The three-state toggle a click on `kind` performs: none, like, dislike. */
  function Toggle(prior: Option<Interaction>, kind: Interaction): (next: Option<Interaction>)
    ensures next == None <==> prior == Some(kind)
    ensures next != None ==> next == Some(kind)
  {
    if prior == Some(kind) then None else Some(kind)
  }

  /** Setting one entry of the interaction table: absent, or the given kind. */
  function Edit(ix: map<InteractionKey, Interaction>, k: InteractionKey, v: Option<Interaction>): (r: map<InteractionKey, Interaction>)
    ensures v.None? ==> k !in r
    ensures v.Some? ==> k in r && r[k] == v.value
    ensures forall j :: j != k ==> (j in r <==> j in ix)
    ensures forall j :: j != k && j in r ==> r[j] == ix[j]
  {
    if v.None? then ix - {k} else ix[k := v.value]
  }

  lemma CardinalitySplit<T>(s: set<T>, x: T)
    ensures |s| == |s - {x}| + (if x in s then 1 else 0)
  {
    if x in s {
      assert s == (s - {x}) + {x};
    } else {
      assert s == s - {x};
    }
  }

  lemma RecordsAfterEdit(ix: map<InteractionKey, Interaction>, k: InteractionKey, v: Option<Interaction>, blogId: int, kind: Interaction)
    ensures Records(Edit(ix, k, v), blogId, kind) - {k} == Records(ix, blogId, kind) - {k}
    ensures k in Records(Edit(ix, k, v), blogId, kind) <==> k.0 == blogId && v == Some(kind)
    ensures k in Records(ix, blogId, kind) <==> k.0 == blogId && k in ix && ix[k] == kind
  {
    var ix' := Edit(ix, k, v);
    forall j | j != k ensures j in Records(ix', blogId, kind) <==> j in Records(ix, blogId, kind) {
      if j in ix' {
        assert ix'[j] == ix[j];
      }
    }
  }

  /** Editing one entry moves a blog's count by at most the entry it removes
      and the entry it adds; other blogs' counts do not move. */
  lemma CountAfterEdit(ix: map<InteractionKey, Interaction>, k: InteractionKey, v: Option<Interaction>, blogId: int, kind: Interaction)
    ensures Count(Edit(ix, k, v), blogId, kind)
         == Count(ix, blogId, kind)
            - (if k.0 == blogId && k in ix && ix[k] == kind then 1 else 0)
            + (if k.0 == blogId && v == Some(kind) then 1 else 0)
  {
    RecordsAfterEdit(ix, k, v, blogId, kind);
    CardinalitySplit(Records(Edit(ix, k, v), blogId, kind), k);
    CardinalitySplit(Records(ix, blogId, kind), k);
  }

  // ---------------------------------------------------------------------------
  // The like/dislike toggle

  datatype Interacted = Interacted(store: Store, detail: string)

  /** `interact`: a click on `kind` by `userId` on `blogId`. A second click on
      the same kind removes the record, a click on the other kind switches it
      in place and a first click adds one. */
  function Interact(st: Store, blogId: int, userId: int, kind: Interaction): (r: Result<Interacted, HttpError>)
    ensures r.Err? <==> blogId !in st.blogs
    ensures r.Err? ==> r.error == NotFound(BlogNotFound(blogId))
    ensures r.Ok? ==>
      var st' := r.value.store;
      && st'.blogs == st.blogs && st'.users == st.users && st'.categories == st.categories
      && Stored(st', blogId, userId) == Toggle(Stored(st, blogId, userId), kind)
      && (forall k :: k != (blogId, userId) ==> (k in st'.interactions <==> k in st.interactions))
      && (forall k :: k != (blogId, userId) && k in st'.interactions ==> st'.interactions[k] == st.interactions[k])
    ensures r.Ok? ==>
      var prior := Stored(st, blogId, userId);
      r.value.detail
        == (if prior == Some(kind) then "Removed " else if prior.Some? then "Changed interaction to " else "Added ")
           + kind.Value()
  {
    if blogId !in st.blogs then
      Err(NotFound(BlogNotFound(blogId)))
    else
      var key := (blogId, userId);
      if key in st.interactions then
        if st.interactions[key] == kind then
          Ok(Interacted(st.(interactions := st.interactions - {key}), "Removed " + kind.Value()))
        else
          Ok(Interacted(st.(interactions := st.interactions[key := kind]), "Changed interaction to " + kind.Value()))
      else
        Ok(Interacted(st.(interactions := st.interactions[key := kind]), "Added " + kind.Value()))
  }

  /** The counts after a click: the blog's counter for the clicked kind and for
      the previously held kind move by one each, every other blog keeps its
      counts. */
  lemma InteractCounts(st: Store, blogId: int, userId: int, kind: Interaction, other: int, counted: Interaction)
    requires Interact(st, blogId, userId, kind).Ok?
    ensures
      var st' := Interact(st, blogId, userId, kind).value.store;
      var prior := Stored(st, blogId, userId);
      var next := Toggle(prior, kind);
      && Count(st'.interactions, blogId, counted)
         == Count(st.interactions, blogId, counted)
            - (if prior == Some(counted) then 1 else 0)
            + (if next == Some(counted) then 1 else 0)
      && (other != blogId ==> Count(st'.interactions, other, counted) == Count(st.interactions, other, counted))
  {
    var key := (blogId, userId);
    var st' := Interact(st, blogId, userId, kind).value.store;
    var next := Toggle(Stored(st, blogId, userId), kind);
    assert st'.interactions == Edit(st.interactions, key, next);
    CountAfterEdit(st.interactions, key, next, blogId, counted);
    CountAfterEdit(st.interactions, key, next, other, counted);
  }

  // ---------------------------------------------------------------------------
  // Reading

  function ViewOf(st: Store, id: int): BlogView
    requires id in st.blogs
  {
    BlogView(id, st.blogs[id], Likes(st, id), Dislikes(st, id))
  }

  /** `get_one`: the blog with its counts, or 404. */
  function GetOne(st: Store, id: int): (r: Result<BlogView, HttpError>)
    ensures r.Err? <==> id !in st.blogs
    ensures r.Err? ==> r.error == NotFound(BlogNotFound(id))
    ensures r.Ok? ==> r.value.id == id && r.value.blog == st.blogs[id]
    ensures r.Ok? ==> r.value.likes == |Records(st.interactions, id, Like)|
    ensures r.Ok? ==> r.value.dislikes == |Records(st.interactions, id, Dislike)|
  {
    if id !in st.blogs then Err(NotFound(BlogNotFound(id))) else Ok(ViewOf(st, id))
  }

  /** A search term is applied only when it is truthy: `None` and `""` mean no search. */
  predicate Searching(search: Option<string>) {
    search.Some? && search.value != ""
  }

  /** Whether a query keeps blog `id`. With a search term the query inner-joins
      the owner, so a blog whose owner is missing is dropped, and keeps the
      blogs whose title or owner's username is `LIKE '%term%'`. */
  predicate Selected(st: Store, id: int, category: Option<int>, search: Option<string>)
    requires id in st.blogs
  {
    var b := st.blogs[id];
    && (category.Some? ==> b.categoryId == category.value)
    && (Searching(search) ==>
          && b.userId in st.users
          && (SqlLike.Contains(b.title, search.value)
              || SqlLike.Contains(st.users[b.userId].username, search.value)))
  }

  function CreatedAt(v: BlogView): int {
    v.blog.createdAt
  }

  /** A member of a non-empty set, which lets a loop pick the next id. */
  ghost function SomeElement<T>(s: set<T>): (x: T)
    requires s != {}
    ensures x in s
  {
    var x :| x in s; x
  }

  /** The selected blogs. */
  function SelectedIds(st: Store, category: Option<int>, search: Option<string>): (r: set<int>)
    ensures r <= st.blogs.Keys
    ensures forall id :: id in r <==> id in st.blogs && Selected(st, id, category, search)
  {
    set id | id in st.blogs && Selected(st, id, category, search)
  }

  /** For a term without `%` or `_`, a query keeps exactly the stored blogs
      of the category whose title or owner's username contains the term,
      ignoring ASCII case; with a search, a blog whose owner is missing is
      dropped. */
  lemma SelectedIdsLiteralSearch(st: Store, category: Option<int>, search: Option<string>)
    requires search.Some? ==> SqlLike.NoWildcards(search.value)
    ensures forall id :: id in SelectedIds(st, category, search) <==>
      && id in st.blogs
      && (category.None? || st.blogs[id].categoryId == category.value)
      && (!Searching(search) ||
            (st.blogs[id].userId in st.users
             && (Text.Contains(Text.Lower(st.blogs[id].title), Text.Lower(search.value))
                 || Text.Contains(Text.Lower(st.users[st.blogs[id].userId].username), Text.Lower(search.value)))))
  {
    forall id | id in st.blogs && Searching(search)
      ensures SqlLike.Contains(st.blogs[id].title, search.value)
          <==> Text.Contains(Text.Lower(st.blogs[id].title), Text.Lower(search.value))
      ensures st.blogs[id].userId in st.users ==>
              (SqlLike.Contains(st.users[st.blogs[id].userId].username, search.value)
          <==> Text.Contains(Text.Lower(st.users[st.blogs[id].userId].username), Text.Lower(search.value)))
    {
      SqlLike.ContainsIsFoldedSubstring(st.blogs[id].title, search.value);
      if st.blogs[id].userId in st.users {
        SqlLike.ContainsIsFoldedSubstring(st.users[st.blogs[id].userId].username, search.value);
      }
    }
  }

  /** `r` holds the view of each blog of `ids` exactly once and nothing else. */
  ghost predicate ExactlyViews(st: Store, ids: set<int>, r: seq<BlogView>)
    requires ids <= st.blogs.Keys
  {
    forall v :: multiset(r)[v] == (if v.id in ids && v == ViewOf(st, v.id) then 1 else 0)
  }

  /** Each selected blog's view once, everything else not at all. */
  ghost predicate ExactlySelected(st: Store, category: Option<int>, search: Option<string>, r: seq<BlogView>) {
    ExactlyViews(st, SelectedIds(st, category, search), r)
  }

  lemma AddView(st: Store, ids: set<int>, id: int, r: seq<BlogView>, r': seq<BlogView>)
    requires ids <= st.blogs.Keys && id in st.blogs && id !in ids
    requires ExactlyViews(st, ids, r)
    requires multiset(r') == multiset(r) + multiset{ViewOf(st, id)}
    ensures ExactlyViews(st, ids + {id}, r')
  {
    forall v ensures multiset(r')[v] == (if v.id in ids + {id} && v == ViewOf(st, v.id) then 1 else 0) {
      assert multiset(r')[v] == multiset(r)[v] + multiset{ViewOf(st, id)}[v];
    }
  }

  /** The views of `ids`, newest first. */
  method ViewsNewestFirst(st: Store, ids: set<int>) returns (r: seq<BlogView>)
    requires ids <= st.blogs.Keys
    ensures Sorting.SortedDesc(r, CreatedAt)
    ensures ExactlyViews(st, ids, r)
  {
    var remaining := ids;
    ghost var seen: set<int> := {};
    r := [];
    while remaining != {}
      invariant remaining + seen == ids && remaining !! seen
      invariant Sorting.SortedDesc(r, CreatedAt)
      invariant ExactlyViews(st, seen, r)
      decreases remaining
    {
      ghost var someId := SomeElement(remaining);
      var id :| id in remaining;
      var r' := Sorting.InsertDesc(ViewOf(st, id), r, CreatedAt);
      AddView(st, seen, id, r, r');
      r := r';
      remaining := remaining - {id};
      seen := seen + {id};
    }
  }

  /** The shared query of `get_all` and `get_category_blogs`: the selected
      blogs with their counts, newest first. Blogs created at the same instant
      come in an order the database chooses. */
  method Query(st: Store, category: Option<int>, search: Option<string>) returns (r: seq<BlogView>)
    ensures Sorting.SortedDesc(r, CreatedAt)
    ensures ExactlySelected(st, category, search, r)
  {
    r := ViewsNewestFirst(st, SelectedIds(st, category, search));
  }

  /** `get_all`. */
  method GetAll(st: Store, search: Option<string>) returns (r: seq<BlogView>)
    ensures Sorting.SortedDesc(r, CreatedAt)
    ensures ExactlySelected(st, None, search, r)
  {
    r := Query(st, None, search);
  }

  /** `get_category_blogs`. */
  method GetCategoryBlogs(st: Store, categoryId: int, search: Option<string>) returns (r: seq<BlogView>)
    ensures Sorting.SortedDesc(r, CreatedAt)
    ensures ExactlySelected(st, Some(categoryId), search, r)
    ensures forall i :: 0 <= i < |r| ==> r[i].blog.categoryId == categoryId
  {
    r := Query(st, Some(categoryId), search);
    forall i | 0 <= i < |r| ensures r[i].blog.categoryId == categoryId {
      assert r[i] in multiset(r);
      assert multiset(r)[r[i]] > 0;
    }
  }

  lemma RepeatCountsTwice<T>(s: seq<T>, i: int, j: int)
    requires 0 <= i < j < |s|
    ensures s[i] == s[j] ==> multiset(s)[s[i]] >= 2
  {
    assert s == s[..j] + [s[j]] + s[j + 1..];
    assert s[..j][i] == s[i];
    assert s[i] in multiset(s[..j]);
  }

  /** A query never lists a blog twice. */
  lemma SelectedIdsDistinct(st: Store, category: Option<int>, search: Option<string>, r: seq<BlogView>, i: int, j: int)
    requires ExactlySelected(st, category, search, r)
    requires 0 <= i < j < |r|
    ensures r[i].id != r[j].id
  {
    RepeatCountsTwice(r, i, j);
    assert r[i] in multiset(r) && r[j] in multiset(r);
  }

  /** Without a term, nothing is filtered out of the category. */
  lemma NoSearchKeepsCategory(st: Store, category: Option<int>, search: Option<string>, id: int)
    requires !Searching(search) && id in st.blogs
    ensures Selected(st, id, category, search) <==> (category.Some? ==> st.blogs[id].categoryId == category.value)
  {
  }

  // ---------------------------------------------------------------------------
  // Writing

  /** SQLite's choice of a new rowid when the key is an `INTEGER PRIMARY KEY`
      without `AUTOINCREMENT`: one more than the largest id present, 1 in an
      empty table. */
  ghost predicate IsNextRowId(ids: set<int>, id: int) {
    && (ids == {} ==> id == 1)
    && (ids != {} ==> id - 1 in ids && forall k :: k in ids ==> k < id)
  }

  method NextRowId(ids: set<int>) returns (id: int)
    ensures IsNextRowId(ids, id)
    ensures id !in ids
  {
    var rest := ids;
    var found := false;
    var max := 0;
    while rest != {}
      invariant rest <= ids
      invariant found <==> ids - rest != {}
      invariant found ==> max in ids && forall k :: k in ids - rest ==> k <= max
      decreases rest
    {
      ghost var someId := SomeElement(rest);
      var k :| k in rest;
      if !found || k > max {
        max := k;
      }
      found := true;
      assert ids - (rest - {k}) == (ids - rest) + {k};
      rest := rest - {k};
    }
    assert ids - rest == ids;
    id := if found then max + 1 else 1;
  }

  /** `create`: inserts the request's fields under `id`, owned by `userId`,
      stamped `now`. */
  function Create(st: Store, req: BlogCreate, userId: int, id: int, now: int): (r: Store)
    requires IsNextRowId(st.blogs.Keys, id)
    ensures r.blogs.Keys == st.blogs.Keys + {id} && id !in st.blogs
    ensures r.blogs[id] == Blog(req.title, req.description, req.body, true, now, userId, req.categoryId)
    ensures forall k :: k in st.blogs ==> r.blogs[k] == st.blogs[k]
    ensures r.interactions == st.interactions && r.users == st.users && r.categories == st.categories
  {
    st.(blogs := st.blogs[id := Blog(req.title, req.description, req.body, true, now, userId, req.categoryId)])
  }

  /** `create` with the database's id choice. */
  method CreateBlog(st: Store, req: BlogCreate, userId: int, now: int) returns (r: Store, id: int)
    ensures IsNextRowId(st.blogs.Keys, id)
    ensures r == Create(st, req, userId, id, now)
  {
    id := NextRowId(st.blogs.Keys);
    r := Create(st, req, userId, id, now);
  }

  /** The check shared by delete and update: 404 when the blog is missing,
      then 403 when the caller does not own it. */
  function CheckOwner(st: Store, id: int, userId: int, forbidden: string): (r: Option<HttpError>)
    ensures r == None <==> id in st.blogs && st.blogs[id].userId == userId
    ensures id !in st.blogs ==> r == Some(NotFound(BlogNotFound(id)))
    ensures id in st.blogs && st.blogs[id].userId != userId ==> r == Some(Forbidden(forbidden))
  {
    if id !in st.blogs then Some(NotFound(BlogNotFound(id)))
    else if st.blogs[id].userId != userId then Some(Forbidden(forbidden))
    else None
  }

  /** `delete` as written: a bulk delete of the blog row. The blog's
      interaction rows are left in place (SQLite does not enforce the foreign
      key by default). */
  function Delete(st: Store, id: int, userId: int): (r: Result<Store, HttpError>)
    ensures r.Ok? <==> id in st.blogs && st.blogs[id].userId == userId
    ensures r.Err? ==> Some(r.error) == CheckOwner(st, id, userId, "Not authorized to delete this blog")
    ensures r.Ok? ==> r.value.blogs.Keys == st.blogs.Keys - {id}
    ensures r.Ok? ==> forall k :: k in r.value.blogs ==> r.value.blogs[k] == st.blogs[k]
    ensures r.Ok? ==> r.value.interactions == st.interactions && r.value.users == st.users
    ensures r.Ok? ==> r.value.categories == st.categories
  {
    match CheckOwner(st, id, userId, "Not authorized to delete this blog")
    case Some(e) => Err(e)
    case None => Ok(st.(blogs := st.blogs - {id}))
  }

  /** `delete` as evidently intended: the blog and its interactions go
      together. */
  function DeleteWithInteractions(st: Store, id: int, userId: int): (r: Result<Store, HttpError>)
    ensures r.Ok? <==> id in st.blogs && st.blogs[id].userId == userId
    ensures r.Err? ==> Some(r.error) == CheckOwner(st, id, userId, "Not authorized to delete this blog")
    ensures r.Ok? ==> r.value.blogs.Keys == st.blogs.Keys - {id}
    ensures r.Ok? ==> forall k :: k in r.value.blogs ==> r.value.blogs[k] == st.blogs[k]
    ensures r.Ok? ==> forall k :: k in r.value.interactions <==> k in st.interactions && k.0 != id
    ensures r.Ok? ==> forall k :: k in r.value.interactions ==> r.value.interactions[k] == st.interactions[k]
    ensures r.Ok? ==> r.value.users == st.users && r.value.categories == st.categories
  {
    match CheckOwner(st, id, userId, "Not authorized to delete this blog")
    case Some(e) => Err(e)
    case None =>
      Ok(st.(blogs := st.blogs - {id},
             interactions := map k | k in st.interactions && k.0 != id :: st.interactions[k]))
  }

  datatype Updated = Updated(store: Store, blog: Blog)

  /** `update`: the request's title, description, body and category replace
      the stored ones; owner, creation time and the published flag stay. */
  function Update(st: Store, id: int, req: BlogCreate, userId: int): (r: Result<Updated, HttpError>)
    ensures r.Ok? <==> id in st.blogs && st.blogs[id].userId == userId
    ensures r.Err? ==> Some(r.error) == CheckOwner(st, id, userId, "Not authorized to update this blog")
    ensures r.Ok? ==>
      var old_ := st.blogs[id];
      var new_ := r.value.blog;
      && r.value.store.blogs == st.blogs[id := new_]
      && new_.title == req.title && new_.description == req.description
      && new_.body == req.body && new_.categoryId == req.categoryId
      && new_.userId == old_.userId && new_.createdAt == old_.createdAt && new_.published == old_.published
    ensures r.Ok? ==>
      && r.value.store.interactions == st.interactions
      && r.value.store.users == st.users && r.value.store.categories == st.categories
  {
    match CheckOwner(st, id, userId, "Not authorized to update this blog")
    case Some(e) => Err(e)
    case None =>
      var b := st.blogs[id].(title := req.title, description := req.description,
                             body := req.body, categoryId := req.categoryId);
      Ok(Updated(st.(blogs := st.blogs[id := b]), b))
  }

  // ---------------------------------------------------------------------------
  // Categories

  /** The blogs filed under category `categoryId`. */
  function BlogsIn(st: Store, categoryId: int): set<int> {
    set id | id in st.blogs && st.blogs[id].categoryId == categoryId
  }

  /** `get_categories`: every category row, in table order, with its blog count. */
  function GetCategories(st: Store): (r: seq<CategoryCount>)
    ensures |r| == |st.categories|
    ensures forall i :: 0 <= i < |r| ==>
      r[i].category == st.categories[i] && r[i].blogCount == |BlogsIn(st, st.categories[i].id)|
  {
    seq(|st.categories|, i requires 0 <= i < |st.categories| =>
      CategoryCount(st.categories[i], |BlogsIn(st, st.categories[i].id)|))
  }

  /** Creating a blog adds one to its category's count and to no other. */
  lemma CreateBumpsBlogCount(st: Store, req: BlogCreate, userId: int, id: int, now: int, categoryId: int)
    requires IsNextRowId(st.blogs.Keys, id)
    ensures |BlogsIn(Create(st, req, userId, id, now), categoryId)|
         == |BlogsIn(st, categoryId)| + (if req.categoryId == categoryId then 1 else 0)
  {
    var st' := Create(st, req, userId, id, now);
    assert BlogsIn(st', categoryId) - {id} == BlogsIn(st, categoryId);
    assert id in BlogsIn(st', categoryId) <==> req.categoryId == categoryId;
    CardinalitySplit(BlogsIn(st', categoryId), id);
  }

  /** Deleting a blog takes one off its category's count and off no other,
      both as written and in the corrected delete: the two remove the same
      blog row. */
  lemma DeleteDropsBlogCount(st: Store, id: int, userId: int, categoryId: int)
    requires Delete(st, id, userId).Ok?
    ensures |BlogsIn(Delete(st, id, userId).value, categoryId)|
         == |BlogsIn(st, categoryId)| - (if st.blogs[id].categoryId == categoryId then 1 else 0)
    ensures |BlogsIn(DeleteWithInteractions(st, id, userId).value, categoryId)|
         == |BlogsIn(st, categoryId)| - (if st.blogs[id].categoryId == categoryId then 1 else 0)
  {
    var st' := Delete(st, id, userId).value;
    var fixed := DeleteWithInteractions(st, id, userId).value;
    assert BlogsIn(st', categoryId) == BlogsIn(st, categoryId) - {id};
    assert BlogsIn(fixed, categoryId) == BlogsIn(st, categoryId) - {id};
    CardinalitySplit(BlogsIn(st, categoryId), id);
  }

  // ---------------------------------------------------------------------------
  // Orphaned interactions

  /** Every interaction belongs to a stored blog. */
  ghost predicate Valid(st: Store) {
    forall k :: k in st.interactions ==> k.0 in st.blogs
  }

  /** In a valid store a new blog starts with no reactions. */
  lemma CreatedBlogStartsAtZero(st: Store, req: BlogCreate, userId: int, id: int, now: int)
    requires Valid(st) && IsNextRowId(st.blogs.Keys, id)
    ensures Valid(Create(st, req, userId, id, now))
    ensures GetOne(Create(st, req, userId, id, now), id) == Ok(BlogView(id, Blog(req.title, req.description, req.body, true, now, userId, req.categoryId), 0, 0))
  {
    var st' := Create(st, req, userId, id, now);
    assert Records(st'.interactions, id, Like) == {};
    assert Records(st'.interactions, id, Dislike) == {};
  }

  /** The operations of the corrected model keep the store valid. */
  lemma InteractKeepsValid(st: Store, blogId: int, userId: int, kind: Interaction)
    requires Valid(st) && Interact(st, blogId, userId, kind).Ok?
    ensures Valid(Interact(st, blogId, userId, kind).value.store)
  {
  }

  lemma DeleteWithInteractionsKeepsValid(st: Store, id: int, userId: int)
    requires Valid(st) && DeleteWithInteractions(st, id, userId).Ok?
    ensures Valid(DeleteWithInteractions(st, id, userId).value)
  {
  }

  lemma UpdateKeepsValid(st: Store, id: int, req: BlogCreate, userId: int)
    requires Valid(st) && Update(st, id, req, userId).Ok?
    ensures Valid(Update(st, id, req, userId).value.store)
  {
  }

  /** As written, deleting the newest blog and creating another one hands the
      old blog's likes to the new one: the row id is reused and the
      interaction rows were never removed. */
  lemma DeleteThenCreateInheritsLikes()
    ensures
      var author := 7;
      var st := Store(map[1 := Blog("old", "d", "b", true, 100, author, 1)],
                      map[(1, 9) := Like], map[], []);
      var st1 := Delete(st, 1, author).value;
      var req := BlogCreate("new", "d", "b", 1);
      && Delete(st, 1, author).Ok?
      && IsNextRowId(st1.blogs.Keys, 1)
      && GetOne(Create(st1, req, 8, 1, 200), 1).value.likes == 1
  {
    var author := 7;
    var st := Store(map[1 := Blog("old", "d", "b", true, 100, author, 1)],
                    map[(1, 9) := Like], map[], []);
    var st1 := Delete(st, 1, author).value;
    var st2 := Create(st1, BlogCreate("new", "d", "b", 1), 8, 1, 200);
    assert Records(st2.interactions, 1, Like) == {(1, 9)};
  }
}
