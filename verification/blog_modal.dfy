/**
 * The blog modal's like/dislike buttons. A click posts to the toggle
 * endpoint and, only once the request has succeeded, moves the local
 * counters and the remembered interaction. The modal opens believing the
 * user holds no interaction. The modal's next interaction is the same
 * three-state step the server takes, `BlogRepository.Toggle`.
 */
module BlogModal {
  import opened Wrappers
  import opened Models
  import opened BlogRepository

  /** The modal's copy of the blog. The counters are plain integers: the
      client's arithmetic is not bounded below. */
  datatype LocalBlog = LocalBlog(id: int, title: string, description: string, body: string, likes: int, dislikes: int)

  datatype ModalState = ModalState(localBlog: LocalBlog, userInteraction: Option<Interaction>, interactionChanged: bool)

  /** The state right after the modal mounts. */
  function Open(blog: LocalBlog): (m: ModalState)
    ensures m.localBlog == blog && m.userInteraction == None && !m.interactionChanged
  {
    ModalState(blog, None, false)
  }

  function Indicator(held: Option<Interaction>, kind: Interaction): int {
    if held == Some(kind) then 1 else 0
  }

  /** `interactionType === 'like' ? newLikes += delta : newDislikes += delta`. */
  function Bump(b: LocalBlog, kind: Interaction, delta: int): (r: LocalBlog)
    ensures r.likes == b.likes + (if kind == Like then delta else 0)
    ensures r.dislikes == b.dislikes + (if kind == Dislike then delta else 0)
    ensures r == b.(likes := r.likes, dislikes := r.dislikes)
  {
    match kind
    case Like => b.(likes := b.likes + delta)
    case Dislike => b.(dislikes := b.dislikes + delta)
  }

  /** The counter arithmetic of the state updater: undo, switch or new. Each
      counter moves by whether the kind is held after the click minus
      whether it was held before. */
  function Recount(b: LocalBlog, current: Option<Interaction>, clicked: Interaction): (r: LocalBlog)
    ensures r.likes - b.likes == Indicator(Toggle(current, clicked), Like) - Indicator(current, Like)
    ensures r.dislikes - b.dislikes == Indicator(Toggle(current, clicked), Dislike) - Indicator(current, Dislike)
    ensures r == b.(likes := r.likes, dislikes := r.dislikes)
  {
    if current == Some(clicked) then Bump(b, clicked, -1)
    else if current.Some? then Bump(Bump(b, clicked, 1), current.value, -1)
    else Bump(b, clicked, 1)
  }

  /** `handleInteraction`: nothing changes when the request fails. */
  function HandleInteraction(m: ModalState, clicked: Interaction, requestOk: bool): (r: ModalState)
    ensures !requestOk ==> r == m
    ensures requestOk ==> r.interactionChanged
    ensures requestOk ==> r.userInteraction == Toggle(m.userInteraction, clicked)
    ensures requestOk ==> r.localBlog == Recount(m.localBlog, m.userInteraction, clicked)
  {
    if !requestOk then m
    else ModalState(Recount(m.localBlog, m.userInteraction, clicked), Toggle(m.userInteraction, clicked), true)
  }

  /** The flag handed to `onClose` by both the overlay and the close button. */
  function CloseSignal(m: ModalState): bool {
    m.interactionChanged
  }

  /** A successful click moves the sum of the counters by at most one, keeps
      every other field, and the modal reports a change when it closes. */
  lemma ClickEffects(m: ModalState, clicked: Interaction)
    ensures
      var r := HandleInteraction(m, clicked, true);
      var delta := (r.localBlog.likes + r.localBlog.dislikes) - (m.localBlog.likes + m.localBlog.dislikes);
      && -1 <= delta <= 1
      && (delta == -1 <==> m.userInteraction == Some(clicked))
      && (delta == 0 <==> m.userInteraction.Some? && m.userInteraction != Some(clicked))
      && (delta == 1 <==> m.userInteraction.None?)
      && r.localBlog.id == m.localBlog.id && r.localBlog.title == m.localBlog.title
      && r.localBlog.description == m.localBlog.description && r.localBlog.body == m.localBlog.body
      && CloseSignal(r)
  {
  }

  /** Once set, the change flag stays set whatever happens to later clicks. */
  lemma ChangedStaysSet(m: ModalState, clicked: Interaction, requestOk: bool)
    requires m.interactionChanged
    ensures CloseSignal(HandleInteraction(m, clicked, requestOk))
  {
  }

  // ---------------------------------------------------------------------------
  // Agreement with the server

  /** The modal shows what the server stores for this blog and user. */
  predicate Mirrors(m: ModalState, st: Store, blogId: int, userId: int) {
    && blogId in st.blogs
    && m.localBlog.likes == Likes(st, blogId)
    && m.localBlog.dislikes == Dislikes(st, blogId)
    && m.userInteraction == Stored(st, blogId, userId)
  }

  /** When the modal starts from the interaction the server holds, one
      successful click leaves it showing the server's new counts and state. */
  lemma ClickAgreesWithServer(m: ModalState, st: Store, blogId: int, userId: int, clicked: Interaction)
    requires Mirrors(m, st, blogId, userId)
    ensures Interact(st, blogId, userId, clicked).Ok?
    ensures Mirrors(HandleInteraction(m, clicked, true), Interact(st, blogId, userId, clicked).value.store, blogId, userId)
  {
    InteractCounts(st, blogId, userId, clicked, blogId, Like);
    InteractCounts(st, blogId, userId, clicked, blogId, Dislike);
  }

  /** The server after a run of clicks by one user on one blog. */
  function ServerRun(st: Store, blogId: int, userId: int, clicks: seq<Interaction>): (r: Store)
    requires blogId in st.blogs
    ensures r.blogs == st.blogs
    decreases |clicks|
  {
    if |clicks| == 0 then st
    else ServerRun(Interact(st, blogId, userId, clicks[0]).value.store, blogId, userId, clicks[1..])
  }

  /** The modal after the same run, every request succeeding. */
  function ClientRun(m: ModalState, clicks: seq<Interaction>): ModalState
    decreases |clicks|
  {
    if |clicks| == 0 then m else ClientRun(HandleInteraction(m, clicks[0], true), clicks[1..])
  }

  /** Any run of clicks keeps the modal and the server in step. */
  lemma {:induction false} RunAgreesWithServer(m: ModalState, st: Store, blogId: int, userId: int, clicks: seq<Interaction>)
    requires Mirrors(m, st, blogId, userId)
    ensures Mirrors(ClientRun(m, clicks), ServerRun(st, blogId, userId, clicks), blogId, userId)
    decreases |clicks|
  {
    if |clicks| > 0 {
      ClickAgreesWithServer(m, st, blogId, userId, clicks[0]);
      RunAgreesWithServer(HandleInteraction(m, clicks[0], true),
                          Interact(st, blogId, userId, clicks[0]).value.store, blogId, userId, clicks[1..]);
    }
  }

  /** A click as the handler is written: `userInteraction` is read from the
      render the click came from (`seen`), while `setLocalBlog` applies its
      update to the latest counters. When the request settles before the
      next click, `seen` is the current interaction and this is
      `HandleInteraction`. */
  function SettleAsWritten(m: ModalState, seen: Option<Interaction>, clicked: Interaction): (r: ModalState)
    ensures seen == m.userInteraction ==> r == HandleInteraction(m, clicked, true)
    ensures r.userInteraction == Toggle(seen, clicked) && r.interactionChanged
  {
    ModalState(Recount(m.localBlog, seen, clicked), Toggle(seen, clicked), true)
  }

  /** Two like clicks from the same render, both sent before either answer
      arrives: the server adds the like and takes it away again, while the
      modal, which read "no interaction" for both, shows two more likes and
      a held like. */
  lemma OverlappingLikesDiverge(m: ModalState, st: Store, blogId: int, userId: int)
    requires Mirrors(m, st, blogId, userId) && m.userInteraction == None
    ensures
      var shown := SettleAsWritten(SettleAsWritten(m, None, Like), None, Like);
      var server := ServerRun(st, blogId, userId, [Like, Like]);
      && shown.localBlog.likes == Likes(st, blogId) + 2
      && shown.userInteraction == Some(Like)
      && Likes(server, blogId) == Likes(st, blogId)
      && Stored(server, blogId, userId) == None
      && !Mirrors(shown, server, blogId, userId)
  {
    var once := Interact(st, blogId, userId, Like).value.store;
    InteractCounts(st, blogId, userId, Like, blogId, Like);
    InteractCounts(once, blogId, userId, Like, blogId, Like);
    assert [Like, Like][1..] == [Like];
    assert ServerRun(st, blogId, userId, [Like, Like]) == ServerRun(once, blogId, userId, [Like]);
    assert [Like][1..] == [];
  }

  /** Opening the modal forgets an interaction the server already holds: a
      user who liked the blog before and clicks like again sees the count go
      up while the server takes the like away. */
  lemma OpenForgetsStoredLike(b: LocalBlog, st: Store, blogId: int, userId: int)
    requires blogId in st.blogs && Stored(st, blogId, userId) == Some(Like)
    requires b.likes == Likes(st, blogId)
    ensures HandleInteraction(Open(b), Like, true).localBlog.likes == Likes(st, blogId) + 1
    ensures Likes(Interact(st, blogId, userId, Like).value.store, blogId) == Likes(st, blogId) - 1
  {
    InteractCounts(st, blogId, userId, Like, blogId, Like);
  }
}
