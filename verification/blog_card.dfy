/**
 * The card that previews a blog in every list. Its inputs come straight from
 * JSON, so a field may be missing, null, or of an unexpected type; the card
 * falls back on fixed texts. Date parsing and locale formatting are library
 * calls and are not modelled: only the string cleaning before them is.
 */
module BlogCard {
  import Text

  /** A JSON field as JavaScript sees it. */
  datatype JsValue = Undefined | Null | Str(s: string) | Num(n: int) | Bool(b: bool) | Object {
    predicate Truthy() {
      (Str? && s != "") || (Num? && n != 0) || (Bool? && b) || Object?
    }
  }

  /** `a || b`. */
  function Or(a: JsValue, b: JsValue): (r: JsValue)
    ensures a.Truthy() ==> r == a
    ensures !a.Truthy() ==> r == b
  {
    if a.Truthy() then a else b
  }

  const ExcerptLimit: nat := 120
  const NoDescription: string := "No description available"

  /** `getExcerpt`: a missing, empty or non-string description gives the
      fallback text; a longer one is cut to 120 characters and marked. */
  function Excerpt(description: JsValue): (r: string)
    ensures |r| <= ExcerptLimit + 3
    ensures !(description.Str? && description.s != "") ==> r == NoDescription
    ensures description.Str? && description.s != "" ==>
      var d := description.s;
      && (|d| <= ExcerptLimit ==> r == d)
      && (|d| > ExcerptLimit ==>
            |r| == ExcerptLimit + 3 && r[..ExcerptLimit] == d[..ExcerptLimit] && r[ExcerptLimit..] == "...")
  {
    var content := Or(description, Str(NoDescription));
    if !content.Truthy() || !content.Str? then NoDescription
    else if |content.s| > ExcerptLimit then content.s[..ExcerptLimit] + "..."
    else content.s
  }

  const UnknownAuthor: JsValue := Str("Unknown Author")

  /** The `creator` object of a blog. */
  datatype Creator = Creator(username: JsValue, email: JsValue)

  /** `getAuthorName`. */
  function AuthorName(authorName: JsValue, creator: Wrappers.Option<Creator>): (r: JsValue)
    ensures authorName.Truthy() ==> r == authorName
    ensures !authorName.Truthy() && creator.Some? && creator.value.username.Truthy() ==> r == creator.value.username
    ensures !authorName.Truthy() && creator.Some? && !creator.value.username.Truthy() && creator.value.email.Truthy()
            ==> r == creator.value.email
    ensures !authorName.Truthy()
            && (creator.None? || (!creator.value.username.Truthy() && !creator.value.email.Truthy()))
            ==> r == UnknownAuthor
    ensures r.Truthy()
  {
    if authorName.Truthy() then authorName
    else if creator.Some? then Or(Or(creator.value.username, creator.value.email), UnknownAuthor)
    else UnknownAuthor
  }

  /** The card reads "Unknown Author" exactly when no name field is truthy,
      or when the first truthy one, in the order `author_name`,
      `creator.username`, `creator.email`, is that very text. */
  lemma UnknownAuthorOnlyWithoutNames(authorName: JsValue, creator: Wrappers.Option<Creator>)
    ensures AuthorName(authorName, creator) == UnknownAuthor <==>
      || authorName == UnknownAuthor
      || (!authorName.Truthy() && creator.None?)
      || (!authorName.Truthy() && creator.Some? && creator.value.username == UnknownAuthor)
      || (!authorName.Truthy() && creator.Some? && !creator.value.username.Truthy()
          && (creator.value.email == UnknownAuthor || !creator.value.email.Truthy()))
  {
  }

  /** What `formatDate` hands to the date parser. */
  datatype CleanDate = UnknownDate | Cleaned(text: string)

  /** The string cleaning of `formatDate`: an ISO timestamp keeps the part
      before its first `T`, a SQL timestamp the part before its first space. */
  function CleanDateString(dateString: string): (r: CleanDate)
    ensures dateString == "" <==> r == UnknownDate
    ensures r.Cleaned? ==> |r.text| <= |dateString| && r.text == dateString[..|r.text|]
    ensures r.Cleaned? ==> 'T' !in r.text
    ensures r.Cleaned? && 'T' !in dateString ==> ' ' !in r.text
    ensures r.Cleaned? && 'T' in dateString ==> dateString[|r.text|] == 'T'
    ensures r.Cleaned? && 'T' !in dateString && ' ' in dateString ==> dateString[|r.text|] == ' '
    ensures r.Cleaned? && 'T' !in dateString && ' ' !in dateString ==> r.text == dateString
  {
    if dateString == "" then UnknownDate
    else if 'T' in dateString then Cleaned(Text.BeforeFirst(dateString, 'T'))
    else if ' ' in dateString then Cleaned(Text.BeforeFirst(dateString, ' '))
    else Cleaned(dateString)
  }

  /** `formatDate(blog.created_at || blog.formatted_date)`, up to the parser. */
  function DisplayDate(createdAt: string, formattedDate: string): CleanDate {
    CleanDateString(if createdAt != "" then createdAt else formattedDate)
  }

  /** Both timestamp layouts the back end may send clean to the same date. */
  lemma TimestampLayoutsAgree(date: string, time: string)
    requires 'T' !in date && ' ' !in date && date != ""
    ensures CleanDateString(date + "T" + time) == Cleaned(date)
    ensures 'T' !in time ==> CleanDateString(date + " " + time) == Cleaned(date)
  {
    var iso := date + "T" + time;
    assert iso[|date|] == 'T';
    assert iso[..|date|] == date;
    var sql := date + " " + time;
    assert sql[|date|] == ' ';
    assert sql[..|date|] == date;
    if 'T' !in time {
      assert 'T' !in sql by {
        forall i | 0 <= i < |sql| ensures sql[i] != 'T' {
          if i < |date| { assert sql[i] == date[i]; }
          else if i > |date| { assert sql[i] == time[i - |date| - 1]; }
        }
      }
    }
  }

  /** `blog.title || 'Untitled'`. */
  function DisplayTitle(title: JsValue): (r: JsValue)
    ensures r.Truthy()
    ensures title.Truthy() ==> r == title
    ensures !title.Truthy() ==> r == Str("Untitled")
  {
    Or(title, Str("Untitled"))
  }

  /** `blog.likes || 0` and `blog.dislikes || 0`. */
  function DisplayCount(count: JsValue): (r: JsValue)
    ensures count.Truthy() ==> r == count
    ensures !count.Truthy() ==> r == Num(0)
  {
    Or(count, Num(0))
  }

  import Wrappers
}
