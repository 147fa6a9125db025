/**
 * The home page: the nine newest blogs of `GET /blogs`, and the refetch
 * a closing blog modal can ask for.
 */
module HomePage {
  import opened Wrappers
  import opened Listing
  import Sorting
  import Http

  const MaxShown: nat := 9

  /** The newest `k` of a list ordered newest first are at its front: no
      item left behind is newer than one taken. */
  lemma TopOfSorted(s: seq<BlogItem>, k: nat)
    requires k <= |s| && Sorting.SortedDesc(s, CreatedAt)
    ensures Sorting.SortedDesc(s[..k], CreatedAt)
    ensures multiset(s[..k]) <= multiset(s)
    ensures multiset(s) - multiset(s[..k]) == multiset(s[k..])
    ensures forall i, x :: 0 <= i < k && x in multiset(s[k..]) ==> CreatedAt(x) <= CreatedAt(s[i])
  {
    assert s == s[..k] + s[k..];
    assert multiset(s) == multiset(s[..k]) + multiset(s[k..]);
    forall i, x | 0 <= i < k && x in multiset(s[k..]) ensures CreatedAt(x) <= CreatedAt(s[i]) {
      assert x in s[k..];
      var j :| 0 <= j < |s[k..]| && s[k..][j] == x;
      assert s[k + j] == x;
    }
  }

  function ShownCount(n: nat): nat {
    if n < MaxShown then n else MaxShown
  }

  /** The list the page shows for a response: ordered newest first, at most
      nine long, drawn from the response, and with no omitted blog newer
      than a shown one. */
  function Newest(response: seq<BlogItem>): (r: seq<BlogItem>)
    ensures |r| == ShownCount(|response|)
    ensures Sorting.SortedDesc(r, CreatedAt)
    ensures multiset(r) <= multiset(response)
    ensures forall i, x :: 0 <= i < |r| && x in multiset(response) - multiset(r) ==> CreatedAt(x) <= CreatedAt(r[i])
  {
    var sorted := Sorting.SortDesc(response, CreatedAt);
    TopOfSorted(sorted, ShownCount(|sorted|));
    sorted[..ShownCount(|sorted|)]
  }

  /** A short list that is already newest first is shown as it is. */
  lemma ShortSortedShownAsIs(response: seq<BlogItem>)
    requires |response| <= MaxShown && Sorting.SortedDesc(response, CreatedAt)
    ensures Newest(response) == response
  {
    Sorting.SortDescOfSorted(response, CreatedAt);
  }

  /** Taking the newest nine twice is taking them once. */
  lemma NewestIdempotent(response: seq<BlogItem>)
    ensures Newest(Newest(response)) == Newest(response)
  {
    ShortSortedShownAsIs(Newest(response));
  }

  datatype HomeState = HomeState(
    blogs: seq<BlogItem>,
    loading: bool,
    error: string,
    selected: Option<BlogItem>,
    refetches: nat)

  const Initial: HomeState := HomeState([], true, "", None, 0)

  const FetchFailed: string := "Failed to fetch blogs."

  /** `fetchBlogs` with the answer to `GET /blogs`. A failure keeps the
      previous list; a success does not clear an earlier error. */
  function FetchBlogs(st: HomeState, response: Result<seq<BlogItem>, Http.Failure>): (r: HomeState)
    ensures !r.loading
    ensures response.Ok? ==> r.blogs == Newest(response.value) && r.error == st.error
    ensures response.Err? ==> r.blogs == st.blogs && r.error == FetchFailed
    ensures r.selected == st.selected && r.refetches == st.refetches
  {
    match response
    case Ok(items) => st.(blogs := Newest(items), loading := false)
    case Err(_) => st.(error := FetchFailed, loading := false)
  }

  /** The grid is rendered only when nothing is loading and no error is set. */
  predicate ShowsGrid(st: HomeState) {
    !st.loading && st.error == ""
  }

  /** Once a fetch has failed the grid stays hidden, whatever later fetches
      return: nothing on the page clears the error. */
  lemma ErrorHidesGridForGood(st: HomeState, failure: Http.Failure, later: seq<Result<seq<BlogItem>, Http.Failure>>)
    ensures !ShowsGrid(Refetch(FetchBlogs(st, Err(failure)), later))
  {
    RefetchKeepsError(FetchBlogs(st, Err(failure)), later);
  }

  /** A run of fetches, one after another. */
  function Refetch(st: HomeState, responses: seq<Result<seq<BlogItem>, Http.Failure>>): HomeState
    decreases |responses|
  {
    if |responses| == 0 then st else Refetch(FetchBlogs(st, responses[0]), responses[1..])
  }

  lemma {:induction false} RefetchKeepsError(st: HomeState, responses: seq<Result<seq<BlogItem>, Http.Failure>>)
    requires st.error != ""
    ensures Refetch(st, responses).error != ""
    decreases |responses|
  {
    if |responses| > 0 {
      RefetchKeepsError(FetchBlogs(st, responses[0]), responses[1..]);
    }
  }

  /** `handleCardClick`: the clicked blog is selected and nothing else changes. */
  function CardClick(st: HomeState, blog: BlogItem): (r: HomeState)
    ensures r.selected == Some(blog)
    ensures r.blogs == st.blogs && r.loading == st.loading && r.error == st.error && r.refetches == st.refetches
  {
    st.(selected := Some(blog))
  }

  /** `handleCloseModal`: the modal goes away, and a refetch is due exactly
      when the modal reports an interaction. */
  function CloseModal(st: HomeState, didInteract: bool): (r: HomeState)
    ensures r.selected == None && r.blogs == st.blogs
    ensures r.refetches != st.refetches <==> didInteract
    ensures r.loading == st.loading && r.error == st.error
  {
    st.(selected := None, refetches := AfterClose(st.refetches, didInteract))
  }
}
