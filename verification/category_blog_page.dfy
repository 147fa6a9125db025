/**
 * The page of one category: `GET /categories/{id}/blogs` ordered newest
 * first, narrowed in the browser by a search on the title or on the author,
 * and the category heading taken from the first result.
 */
module CategoryBlogPage {
  import opened Wrappers
  import opened Listing
  import Sorting
  import Text
  import SqlLike
  import Http

  /** The dropdown: any value other than "author" searches titles. */
  datatype SearchBy = ByTitle | ByAuthor

  /** The object an author search reads `username` from: `author`, as the
      page is written, or `creator`, the object the server actually sends.
      The rest of the model uses the corrected `FromCreator`. */
  datatype AuthorSource = FromAuthor | FromCreator

  function AuthorOf(b: BlogItem, src: AuthorSource): Option<UserRef> {
    if src == FromAuthor then b.author else b.creator
  }

  /** `blog.title?.toLowerCase().includes(term.toLowerCase())`; a missing
      title yields `undefined`, which is falsy. */
  predicate TitleMatches(b: BlogItem, term: string) {
    b.title.Some? && Text.Contains(Text.Lower(b.title.value), Text.Lower(term))
  }

  /** The same test on the username of `blog.author` or `blog.creator`. */
  predicate AuthorMatches(b: BlogItem, term: string, src: AuthorSource) {
    var a := AuthorOf(b, src);
    a.Some? && a.value.username.Some?
    && Text.Contains(Text.Lower(a.value.username.value), Text.Lower(term))
  }

  predicate Matches(b: BlogItem, term: string, field: SearchBy, src: AuthorSource) {
    if field == ByAuthor then AuthorMatches(b, term, src) else TitleMatches(b, term)
  }

  /** The list the page keeps for a response: ordered newest first, and,
      when the term is not blank, exactly the matching items in that order.
      The untrimmed term is what is searched for. */
  function Shown(response: seq<BlogItem>, term: string, field: SearchBy, src: AuthorSource): (r: seq<BlogItem>)
    ensures Sorting.SortedDesc(r, CreatedAt)
    ensures multiset(r) <= multiset(response)
    ensures Text.AllSpace(term) ==> multiset(r) == multiset(response)
    ensures !Text.AllSpace(term) ==> forall b :: b in r <==> b in response && Matches(b, term, field, src)
  {
    Text.TrimEmptyIffBlank(term);
    var sorted := Sorting.SortDesc(response, CreatedAt);
    if Text.Trim(term) != "" then
      FilterKeepsSorted(sorted, (b: BlogItem) => Matches(b, term, field, src), CreatedAt);
      var r := Filter(sorted, (b: BlogItem) => Matches(b, term, field, src));
      assert forall b :: b in sorted <==> b in response by {
        forall b ensures b in sorted <==> b in response {
          assert b in sorted <==> b in multiset(sorted);
        }
      }
      r
    else sorted
  }

  /** The search keeps the items of the ordered response that match, in
      the same relative order: it is the ordering followed by a filter. */
  lemma SearchIsOrderedFilter(response: seq<BlogItem>, term: string, field: SearchBy, src: AuthorSource)
    requires !Text.AllSpace(term)
    ensures Shown(response, term, field, src)
         == Filter(Sorting.SortDesc(response, CreatedAt), (b: BlogItem) => Matches(b, term, field, src))
  {
    Text.TrimEmptyIffBlank(term);
  }

  /** As written, the author search reads `author`, which the server never
      sends, so a search by author on its answer shows nothing. */
  lemma AuthorSearchFindsNothing(response: seq<BlogItem>, term: string)
    requires forall i :: 0 <= i < |response| ==> response[i].author.None?
    requires !Text.AllSpace(term)
    ensures Shown(response, term, ByAuthor, FromAuthor) == []
  {
    Text.TrimEmptyIffBlank(term);
    var sorted := Sorting.SortDesc(response, CreatedAt);
    forall i | 0 <= i < |sorted| ensures sorted[i].author.None? {
      assert sorted[i] in multiset(response);
    }
    FilterKeepNone(sorted, (b: BlogItem) => Matches(b, term, ByAuthor, FromAuthor));
  }

  /** With the corrected search, a blog whose owner's username contains
      the term is shown. */
  lemma CreatorSearchShowsOwner(response: seq<BlogItem>, term: string, b: BlogItem)
    requires b in response && !Text.AllSpace(term)
    requires b.creator.Some? && b.creator.value.username.Some?
    requires Text.Contains(Text.Lower(b.creator.value.username.value), Text.Lower(term))
    ensures b in Shown(response, term, ByAuthor, FromCreator)
  {
    assert AuthorMatches(b, term, FromCreator);
    assert Matches(b, term, ByAuthor, FromCreator);
    var r := Shown(response, term, ByAuthor, FromCreator);
    assert b in r <==> b in response && Matches(b, term, ByAuthor, FromCreator);
  }

  /** Any blog the server sends, searched for by its owner's own username,
      is missed as written and found by the corrected search. */
  lemma AuthorSearchMissesOwner(b: BlogItem, name: string)
    requires b.author.None? && b.creator == Some(UserRef(Some(name)))
    requires !Text.AllSpace(name)
    ensures Shown([b], name, ByAuthor, FromAuthor) == []
    ensures b in Shown([b], name, ByAuthor, FromCreator)
  {
    AuthorSearchFindsNothing([b], name);
    assert Text.OccursAt(Text.Lower(name), Text.Lower(name), 0);
    CreatorSearchShowsOwner([b], name, b);
  }

  /** The corrected author search on a term without `%` or `_` agrees with
      the server's `LIKE` test on the owner's username. */
  lemma CreatorSearchAgreesWithServer(b: BlogItem, term: string)
    requires b.creator.Some? && b.creator.value.username.Some? && SqlLike.NoWildcards(term)
    ensures Matches(b, term, ByAuthor, FromCreator) <==> SqlLike.Contains(b.creator.value.username.value, term)
  {
    SqlLike.ContainsIsFoldedSubstring(b.creator.value.username.value, term);
  }

  /** On a term without `%` or `_` the browser's title test agrees with the
      server's `LIKE` test on the title column. */
  lemma TitleSearchAgreesWithServer(b: BlogItem, term: string)
    requires b.title.Some? && SqlLike.NoWildcards(term)
    ensures TitleMatches(b, term) <==> SqlLike.Contains(b.title.value, term)
  {
    SqlLike.ContainsIsFoldedSubstring(b.title.value, term);
  }

  /** The heading: set from the first result only when none is set yet. */
  function PickCategory(current: Option<CategoryRef>, shown: seq<BlogItem>): (r: Option<CategoryRef>)
    ensures current.Some? ==> r == current
    ensures current.None? && |shown| > 0 ==> r == Some(shown[0].category)
    ensures current.None? && |shown| == 0 ==> r == None
  {
    if |shown| > 0 && current.None? then Some(shown[0].category) else current
  }

  datatype CategoryState = CategoryState(
    blogs: seq<BlogItem>,
    category: Option<CategoryRef>,
    loading: bool,
    error: string,
    selected: Option<BlogItem>,
    refetches: nat)

  const Initial: CategoryState := CategoryState([], None, true, "", None, 0)

  const FetchFailed: string := "Failed to fetch blogs for this category."

  /** `fetchCategoryBlogs` with the current search inputs and the answer
      of the request. `src` says where the author search reads the owner:
      `FromAuthor` is the page as written, `FromCreator` the corrected one. */
  function Fetch(st: CategoryState, term: string, field: SearchBy, response: Result<seq<BlogItem>, Http.Failure>,
                 src: AuthorSource): (r: CategoryState)
    ensures !r.loading
    ensures response.Ok? ==>
      && r.blogs == Shown(response.value, term, field, src)
      && r.category == PickCategory(st.category, r.blogs)
      && r.error == st.error
    ensures response.Err? ==> r.blogs == st.blogs && r.category == st.category && r.error == FetchFailed
  {
    match response
    case Ok(items) =>
      var shown := Shown(items, term, field, src);
      st.(blogs := shown, category := PickCategory(st.category, shown), loading := false)
    case Err(_) => st.(error := FetchFailed, loading := false)
  }

  /** Once the heading names a category, later fetches never change it,
      whichever field the author search reads. */
  lemma CategoryFixedOnceSet(st: CategoryState, term: string, field: SearchBy, response: Result<seq<BlogItem>, Http.Failure>)
    requires st.category.Some?
    ensures Fetch(st, term, field, response, FromAuthor).category == st.category
    ensures Fetch(st, term, field, response, FromCreator).category == st.category
  {
  }

  /** The page as written: a fetch searching by author on the server's
      answer, which carries no `author`, empties the list, and a first
      fetch then leaves the heading unset. */
  lemma AuthorFetchShowsNothing(st: CategoryState, term: string, items: seq<BlogItem>)
    requires forall i :: 0 <= i < |items| ==> items[i].author.None?
    requires !Text.AllSpace(term)
    ensures Fetch(st, term, ByAuthor, Ok(items), FromAuthor).blogs == []
    ensures Fetch(st, term, ByAuthor, Ok(items), FromAuthor).category == st.category
  {
    AuthorSearchFindsNothing(items, term);
  }

  /** `handleCloseModal`: a refetch is due exactly when the modal reports
      an interaction. */
  function CloseModal(st: CategoryState, didInteract: bool): (r: CategoryState)
    ensures r.selected == None && r.blogs == st.blogs
    ensures r.refetches != st.refetches <==> didInteract
    ensures r.category == st.category && r.loading == st.loading && r.error == st.error
  {
    st.(selected := None, refetches := AfterClose(st.refetches, didInteract))
  }
}
