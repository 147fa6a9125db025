/**
 * The profile page: the user's own posts and liked posts, deleting a post
 * behind a confirmation, taking back a like, and the refetches the two
 * modals can ask for.
 */
module ProfilePage {
  import opened Wrappers
  import opened Listing
  import Text
  import Http
  import Models
  import AuthContext
  import BlogRepository

  datatype ProfileState = ProfileState(
    myBlogs: seq<BlogItem>,
    likedBlogs: seq<BlogItem>,
    loading: bool,
    error: string,
    selected: Option<BlogItem>,
    createOpen: bool,
    refetches: nat)

  const Initial: ProfileState := ProfileState([], [], true, "", None, false, 0)

  const FetchFailed: string := "Failed to fetch profile data."
  const DeleteFailed: string := "Failed to delete blog. You may not be the author."
  const UnlikeFailed: string := "Failed to update liked blogs."

  /** The two lists fetched together: both answers, or the first failure. */
  type Lists = Result<(seq<BlogItem>, seq<BlogItem>), Http.Failure>

  /** `fetchProfileData`: nothing happens without a user; otherwise both
      lists are replaced, or the error is set and the lists are kept. */
  function FetchProfile(st: ProfileState, session: AuthContext.Session, response: Lists): (r: ProfileState)
    ensures session.user.None? ==> r == st
    ensures session.user.Some? ==> !r.loading
    ensures session.user.Some? && response.Ok? ==>
      r.myBlogs == response.value.0 && r.likedBlogs == response.value.1 && r.error == ""
    ensures session.user.Some? && response.Err? ==>
      r.myBlogs == st.myBlogs && r.likedBlogs == st.likedBlogs && r.error == FetchFailed
  {
    if session.user.None? then st
    else
      match response
      case Ok((mine, liked)) => st.(myBlogs := mine, likedBlogs := liked, error := "", loading := false)
      case Err(_) => st.(error := FetchFailed, loading := false)
  }

  /** The result of a delete click: the page, and the path of the `DELETE`
      request when one is sent. */
  datatype DeleteOutcome = DeleteOutcome(page: ProfileState, request: Option<string>)

  function BlogPath(blogId: int): string {
    "/blog/" + Text.IntToString(blogId)
  }

  /** `handleDelete`: no request unless the user confirms; success asks
      for a refetch, failure sets the error; the lists themselves are never
      edited here. */
  function HandleDelete(st: ProfileState, blogId: int, confirmed: bool, result: Result<(), Http.Failure>): (r: DeleteOutcome)
    ensures r.request.Some? <==> confirmed
    ensures r.request.Some? ==> r.request.value == BlogPath(blogId)
    ensures !confirmed ==> r.page == st
    ensures r.page.myBlogs == st.myBlogs && r.page.likedBlogs == st.likedBlogs
    ensures confirmed && result.Ok? ==> r.page.refetches == st.refetches + 1 && r.page.error == st.error
    ensures confirmed && result.Err? ==> r.page.refetches == st.refetches && r.page.error == DeleteFailed
  {
    if !confirmed then DeleteOutcome(st, None)
    else
      match result
      case Ok(_) => DeleteOutcome(st.(refetches := st.refetches + 1), Some(BlogPath(blogId)))
      case Err(_) => DeleteOutcome(st.(error := DeleteFailed), Some(BlogPath(blogId)))
  }

  /** The blogs the server records as owned by `userId`. */
  function OwnedIds(store: BlogRepository.Store, userId: int): set<int> {
    set id | id in store.blogs && store.blogs[id].userId == userId
  }

  /** A confirmed delete the server accepts asks for a refetch; when the
      refetched list is the server's record of the user's blogs, the
      deleted blog is gone from it and every other blog of the user stays.
      The delete as written leaves the same blogs, so the refetched list is
      the same under both deletes. */
  lemma DeleteThenRefetch(store: BlogRepository.Store, userId: int, st: ProfileState, blogId: int,
                          session: AuthContext.Session, mine: seq<BlogItem>, liked: seq<BlogItem>)
    requires BlogRepository.DeleteWithInteractions(store, blogId, userId).Ok?
    requires session.user.Some?
    requires Ids(mine) == OwnedIds(BlogRepository.DeleteWithInteractions(store, blogId, userId).value, userId)
    ensures
      var deleted := HandleDelete(st, blogId, true, Ok(()));
      var after := FetchProfile(deleted.page, session, Ok((mine, liked)));
      && deleted.request == Some(BlogPath(blogId))
      && deleted.page.refetches != st.refetches
      && blogId in OwnedIds(store, userId)
      && Ids(after.myBlogs) == OwnedIds(store, userId) - {blogId}
    ensures BlogRepository.Delete(store, blogId, userId).Ok?
    ensures OwnedIds(BlogRepository.Delete(store, blogId, userId).value, userId)
         == OwnedIds(BlogRepository.DeleteWithInteractions(store, blogId, userId).value, userId)
  {
    var store' := BlogRepository.DeleteWithInteractions(store, blogId, userId).value;
    assert BlogRepository.Delete(store, blogId, userId).value.blogs == store'.blogs;
    forall id ensures id in OwnedIds(store', userId) <==> id in OwnedIds(store, userId) - {blogId} {
      if id in store'.blogs {
        assert store'.blogs[id] == store.blogs[id];
      }
    }
  }

  /** Taking back a like works piecewise on the list, so the entries that
      stay keep their relative order. */
  lemma UnlikeKeepsOrder(st: ProfileState, blogId: int, front: seq<BlogItem>, back: seq<BlogItem>)
    requires st.likedBlogs == front + back
    ensures HandleUnlike(st, blogId, Ok(())).likedBlogs
         == Filter(front, OtherThan(blogId)) + Filter(back, OtherThan(blogId))
  {
    FilterAppend(front, back, OtherThan(blogId));
  }

  /** `b => b.id !== blogId`. */
  function OtherThan(blogId: int): BlogItem -> bool {
    (b: BlogItem) => b.id != blogId
  }

  /** `handleUnlike`, after `POST /blog/{id}/like` answered: on success
      every liked entry with that id goes and the others stay in order; on
      failure the list is kept and the error is set. */
  function HandleUnlike(st: ProfileState, blogId: int, result: Result<(), Http.Failure>): (r: ProfileState)
    ensures result.Ok? ==> forall b :: b in r.likedBlogs <==> b in st.likedBlogs && b.id != blogId
    ensures result.Ok? ==> forall b :: multiset(r.likedBlogs)[b] == if b.id != blogId then multiset(st.likedBlogs)[b] else 0
    ensures result.Ok? ==> r.likedBlogs == Filter(st.likedBlogs, OtherThan(blogId)) && r.error == st.error
    ensures result.Err? ==> r.likedBlogs == st.likedBlogs && r.error == UnlikeFailed
    ensures r.myBlogs == st.myBlogs && r.refetches == st.refetches
  {
    match result
    case Ok(_) => st.(likedBlogs := Filter(st.likedBlogs, OtherThan(blogId)))
    case Err(_) => st.(error := UnlikeFailed)
  }

  /** The ids of the items of a list. */
  function Ids(items: seq<BlogItem>): set<int> {
    set b | b in items :: b.id
  }

  /** The blogs the server records `userId` as liking. */
  function LikedIds(store: BlogRepository.Store, userId: int): set<int> {
    set k | k in store.interactions && k.1 == userId && store.interactions[k] == Models.Like :: k.0
  }

  /** When the liked list shows exactly the blogs the server says the user
      likes, taking back a like on one of them keeps it so: the request
      toggles the server's like off and the page drops that blog. */
  lemma UnlikeAgreesWithServer(store: BlogRepository.Store, userId: int, st: ProfileState, blogId: int)
    requires Ids(st.likedBlogs) == LikedIds(store, userId)
    requires blogId in LikedIds(store, userId)
    requires BlogRepository.Interact(store, blogId, userId, Models.Like).Ok?
    ensures Ids(HandleUnlike(st, blogId, Ok(())).likedBlogs)
         == LikedIds(BlogRepository.Interact(store, blogId, userId, Models.Like).value.store, userId)
  {
    var store' := BlogRepository.Interact(store, blogId, userId, Models.Like).value.store;
    var kept := HandleUnlike(st, blogId, Ok(())).likedBlogs;
    assert (blogId, userId) in store.interactions && store.interactions[(blogId, userId)] == Models.Like;
    assert BlogRepository.Stored(store, blogId, userId) == Some(Models.Like);
    assert (blogId, userId) !in store'.interactions;
    assert Ids(kept) == Ids(st.likedBlogs) - {blogId};
    forall i ensures i in LikedIds(store', userId) <==> i in LikedIds(store, userId) - {blogId} {
      if i in LikedIds(store', userId) {
        assert (i, userId) in store'.interactions;
      }
      if i in LikedIds(store, userId) - {blogId} {
        assert (i, userId) in store.interactions;
      }
    }
  }

  function OpenCreate(st: ProfileState): (r: ProfileState)
    ensures r.createOpen && r.refetches == st.refetches
  {
    st.(createOpen := true)
  }

  /** `handleCloseCreateModal`: a refetch is due exactly when a blog was
      saved. */
  function CloseCreateModal(st: ProfileState, didCreate: bool): (r: ProfileState)
    ensures !r.createOpen && r.selected == st.selected
    ensures r.refetches != st.refetches <==> didCreate
  {
    st.(createOpen := false, refetches := AfterClose(st.refetches, didCreate))
  }

  /** `handleCloseViewModal`: a refetch is due exactly when the modal
      reports an interaction. */
  function CloseViewModal(st: ProfileState, didInteract: bool): (r: ProfileState)
    ensures r.selected == None && r.createOpen == st.createOpen
    ensures r.refetches != st.refetches <==> didInteract
  {
    st.(selected := None, refetches := AfterClose(st.refetches, didInteract))
  }
}
