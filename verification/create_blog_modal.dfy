/**
 * The modal that writes a blog: it creates one with `POST /blog`, or, when
 * given a blog to edit, updates it with `PUT /blog/{id}`, and reports to its
 * owner whether anything was saved.
 *
 * `parseInt` on the text of the category dropdown is a library call and
 * stays abstract: `parse` gives the integer it reads, or `None` for `NaN`.
 */
module CreateBlogModal {
  import opened Wrappers
  import Text
  import Http
  import Models
  import ProfilePage

  type Parser = string -> Option<int>

  /** The blog handed in for editing. */
  datatype EditTarget = EditTarget(id: int, title: string, description: string, body: string, categoryId: int)

  /** The category field: the dropdown's text, or the number copied from
      the blog being edited (which `parseInt` gives back unchanged). */
  datatype CategoryField = Chosen(text: string) | FromBlog(number: int)

  datatype Form = Form(title: string, description: string, body: string, category: CategoryField)

  /** The request body; a category of `None` is `NaN`, sent as `null`. */
  datatype Payload = Payload(title: string, description: string, body: string, categoryId: Option<int>)

  datatype Verb = Post | Put

  datatype Request = Request(verb: Verb, path: string, payload: Payload)

  /** `closed` is the argument of the `onClose` call made, if any: `true`
      after a save, `false` for a plain close (`undefined` is falsy). */
  datatype ModalState = ModalState(
    form: Form,
    categories: seq<Models.Category>,
    error: Http.Detail,
    submitting: bool,
    closed: Option<bool>)

  const EmptyForm: Form := Form("", "", "", Chosen(""))
  const CategoriesFailed: string := "Could not load categories."
  const GenericError: string := "An error occurred."

  /** The form an edit starts from: the fields of the blog being edited. */
  function Prefill(target: Option<EditTarget>): (r: Form)
    ensures target.None? ==> r == EmptyForm
    ensures target.Some? ==>
      && r.title == target.value.title && r.description == target.value.description
      && r.body == target.value.body && r.category == FromBlog(target.value.categoryId)
  {
    match target
    case None => EmptyForm
    case Some(t) => Form(t.title, t.description, t.body, FromBlog(t.categoryId))
  }

  /** The modal once its effect has run: the categories loaded (or the
      loading error shown) and, when editing, the form filled in. */
  function Mount(target: Option<EditTarget>, categories: Result<seq<Models.Category>, Http.Failure>): (r: ModalState)
    ensures r.form == Prefill(target) && !r.submitting && r.closed == None
    ensures categories.Ok? ==> r.categories == categories.value && r.error == Http.NoDetail
    ensures categories.Err? ==> r.categories == [] && r.error == Http.TextDetail(CategoriesFailed)
  {
    match categories
    case Ok(cs) => ModalState(Prefill(target), cs, Http.NoDetail, false, None)
    case Err(_) => ModalState(Prefill(target), [], Http.TextDetail(CategoriesFailed), false, None)
  }

  function CategoryValue(c: CategoryField, parse: Parser): Option<int> {
    match c
    case Chosen(text) => parse(text)
    case FromBlog(n) => Some(n)
  }

  /** `blogData`: exactly the four fields of `BlogCreate`. */
  function PayloadOf(f: Form, parse: Parser): (r: Payload)
    ensures r.title == f.title && r.description == f.description && r.body == f.body
    ensures r.categoryId == CategoryValue(f.category, parse)
  {
    Payload(f.title, f.description, f.body, CategoryValue(f.category, parse))
  }

  /** The one request a submission sends: an update of the edited blog, or
      a creation. */
  function RequestFor(target: Option<EditTarget>, f: Form, parse: Parser): (r: Request)
    ensures r.verb == Put <==> target.Some?
    ensures target.Some? ==> r.path == "/blog/" + Text.IntToString(target.value.id)
    ensures target.None? ==> r.path == "/blog"
    ensures r.payload == PayloadOf(f, parse)
  {
    match target
    case Some(t) => Request(Put, "/blog/" + Text.IntToString(t.id), PayloadOf(f, parse))
    case None => Request(Post, "/blog", PayloadOf(f, parse))
  }

  /** What the server reads from a payload whose category is a number. */
  function AsBlogCreate(p: Payload): (r: Option<Models.BlogCreate>)
    ensures r.Some? <==> p.categoryId.Some?
    ensures r.Some? ==> r.value == Models.BlogCreate(p.title, p.description, p.body, p.categoryId.value)
  {
    match p.categoryId
    case Some(n) => Some(Models.BlogCreate(p.title, p.description, p.body, n))
    case None => None
  }

  /** Saving an edit without touching the form sends the blog's own
      fields back, whatever `parseInt` does. */
  lemma UntouchedEditResendsBlog(t: EditTarget, parse: Parser)
    ensures
      var req := RequestFor(Some(t), Prefill(Some(t)), parse);
      AsBlogCreate(req.payload) == Some(Models.BlogCreate(t.title, t.description, t.body, t.categoryId))
  {
  }

  datatype Submitted = Submitted(modal: ModalState, request: Request)

  /** `handleSubmit`, given the answer to the request it sends. Success
      calls `onClose(true)`; failure shows the server's `detail` or the
      generic text, re-enables the form and keeps the modal open. */
  function Submit(st: ModalState, target: Option<EditTarget>, parse: Parser, result: Result<(), Http.Failure>): (r: Submitted)
    ensures r.request == RequestFor(target, st.form, parse)
    ensures r.modal.form == st.form
    ensures result.Ok? ==> r.modal.closed == Some(true) && r.modal.error == Http.NoDetail
    ensures result.Err? ==> !r.modal.submitting && r.modal.closed == st.closed && r.modal.error.Truthy()
    ensures result.Err? && result.error.RequestError? && result.error.response.Some?
            && result.error.response.value.data.detail.Truthy()
            ==> r.modal.error == result.error.response.value.data.detail
    ensures result.Err? && !(result.error.RequestError? && result.error.response.Some?
                             && result.error.response.value.data.detail.Truthy())
            ==> r.modal.error == Http.TextDetail(GenericError)
  {
    var busy := st.(submitting := true, error := Http.NoDetail);
    var req := RequestFor(target, st.form, parse);
    match result
    case Ok(_) => Submitted(busy.(closed := Some(true)), req)
    case Err(e) =>
      var shown :=
        if e.RequestError? && e.response.Some? && e.response.value.data.detail.Truthy()
        then e.response.value.data.detail
        else Http.TextDetail(GenericError);
      Submitted(busy.(error := shown, submitting := false), req)
  }

  /** The overlay and the close button: ignored while submitting, otherwise
      `onClose()` with no argument. */
  function RequestClose(st: ModalState): (r: ModalState)
    ensures st.submitting ==> r == st
    ensures !st.submitting ==> r == st.(closed := Some(false))
  {
    if st.submitting then st else st.(closed := Some(false))
  }

  /** On the profile page a save refreshes the lists and a plain close
      does not. */
  lemma OnlySavesRefreshProfile(st: ModalState, target: Option<EditTarget>, parse: Parser,
                                result: Result<(), Http.Failure>, page: ProfilePage.ProfileState)
    ensures
      var saved := Submit(st, target, parse, result).modal;
      result.Ok? ==> ProfilePage.CloseCreateModal(page, saved.closed.value).refetches == page.refetches + 1
    ensures
      var closedByUser := RequestClose(st);
      !st.submitting ==> ProfilePage.CloseCreateModal(page, closedByUser.closed.value).refetches == page.refetches
  {
  }

  /** A failed save leaves the modal open and usable: a close request
      right after it goes through. */
  lemma FailureThenCloseCloses(st: ModalState, target: Option<EditTarget>, parse: Parser, failure: Http.Failure)
    requires st.closed == None
    ensures
      var failed := Submit(st, target, parse, Err(failure)).modal;
      failed.closed == None && RequestClose(failed).closed == Some(false)
  {
  }
}
