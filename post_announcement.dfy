/**
 * The page on which a doctor writes an announcement (src/pages/PostAnnouncement.tsx): its form,
 * the submit button, the insert and the reset after success.
 */
module PostAnnouncement {
  import opened Wrappers
  import opened Records
  import opened Strings
  import Database

  /** Where a non-doctor is sent from the posting page: back to the board. */
  const RedirectTarget := "/announcements"

  /** The row `handleSubmit` inserts: title and content trimmed, the signed-in user as author,
      and a publication time exactly when the announcement is published. `now` is the clock at
      submission; the database's default creation time is taken to be the same instant. */
  function NewAnnouncement(id: string, title: string, content: string, category: Category,
                           isPublished: bool, authorId: string, now: int): (a: Announcement)
    ensures a.title == Trim(title) && a.content == Trim(content)
    ensures a.category == category && a.authorId == authorId && a.isPublished == isPublished
    ensures a.publishedAt.Some? <==> isPublished
    ensures a.publishedAt.Some? ==> a.publishedAt.value == now
  {
    Announcement(id, Trim(title), Trim(content), category, authorId, isPublished,
                 if isPublished then Some(now) else None, now)
  }

  /** The toast after a successful insert. */
  function SuccessMessage(isPublished: bool): (m: string)
    ensures isPublished ==> m == "Announcement published successfully!"
    ensures !isPublished ==> m == "Announcement saved as draft."
  {
    if isPublished then "Announcement published successfully!" else "Announcement saved as draft."
  }

  datatype SubmitOutcome =
    | ValidationError
    | AuthenticationError
    | InsertError
    | Posted(message: string, redirect: string)

  class AnnouncementForm {
    var title: string
    var content: string
    var category: Category
    var isPublished: bool

    /** The empty form: no title, no content, 'general', not published. */
    predicate IsReset()
      reads this
    {
      title == "" && content == "" && category == General && !isPublished
    }

    constructor ()
      ensures IsReset()
    {
      title, content, category, isPublished := "", "", General, false;
    }

    /** `handleInputChange` for each of the four fields. */
    method SetTitle(value: string)
      modifies this
      ensures title == value && content == old(content) && category == old(category) && isPublished == old(isPublished)
    {
      title := value;
    }

    method SetContent(value: string)
      modifies this
      ensures content == value && title == old(title) && category == old(category) && isPublished == old(isPublished)
    {
      content := value;
    }

    method SetCategory(value: Category)
      modifies this
      ensures category == value && title == old(title) && content == old(content) && isPublished == old(isPublished)
    {
      category := value;
    }

    method SetPublished(value: bool)
      modifies this
      ensures isPublished == value && title == old(title) && content == old(content) && category == old(category)
    {
      isPublished := value;
    }

    /** The submit button: enabled when nothing is loading and neither title nor content is blank. */
    predicate SubmitEnabled(loading: bool)
      reads this
    {
      !loading && !IsBlank(title) && !IsBlank(content)
    }

    /** `handleSubmit`. The checks run in order: blank fields, then the signed-in user, then the
        backend's answer `writeOk`. Only a successful insert resets the form and leaves for the
        board; every failure leaves both the form and the table as they were. */
    method Submit(user: Option<string>, db: Database.Tables, writeOk: bool, newId: string, now: int)
      returns (outcome: SubmitOutcome)
      modifies this, db
      ensures outcome == ValidationError <==> IsBlank(old(title)) || IsBlank(old(content))
      ensures outcome == AuthenticationError <==> !IsBlank(old(title)) && !IsBlank(old(content)) && user.None?
      ensures outcome == InsertError <==> !IsBlank(old(title)) && !IsBlank(old(content)) && user.Some? && !writeOk
      ensures !outcome.Posted? ==> db.View() == old(db.View())
      ensures !outcome.Posted? ==> title == old(title) && content == old(content) && category == old(category) && isPublished == old(isPublished)
      ensures outcome.Posted? ==> (user.Some? &&
                db.View() == old(db.View()).(announcements := old(db.announcements) +
                  [NewAnnouncement(newId, old(title), old(content), old(category), old(isPublished), user.value, now)]))
      ensures outcome.Posted? ==> outcome == Posted(SuccessMessage(old(isPublished)), "/announcements") && IsReset()
    {
      if IsBlank(title) || IsBlank(content) {
        return ValidationError;
      }
      if user.None? {
        return AuthenticationError;
      }
      if !writeOk {
        return InsertError;
      }
      var row := NewAnnouncement(newId, title, content, category, isPublished, user.value, now);
      db.announcements := db.announcements + [row];
      outcome := Posted(SuccessMessage(isPublished), "/announcements");
      title, content, category, isPublished := "", "", General, false;
    }
  }

  /** A post the button lets through is stored with a non-empty title and content that neither
      start nor end with whitespace. */
  lemma EnabledPostIsStoredTrimmed(title: string, content: string, category: Category, isPublished: bool,
                                   authorId: string, now: int, id: string)
    requires !IsBlank(title) && !IsBlank(content)
    ensures var a := NewAnnouncement(id, title, content, category, isPublished, authorId, now);
            && a.title != [] && !IsSpace(a.title[0]) && !IsSpace(a.title[|a.title| - 1])
            && a.content != [] && !IsSpace(a.content[0]) && !IsSpace(a.content[|a.content| - 1])
  {
    BlankIffTrimEmpty(title);
    BlankIffTrimEmpty(content);
    TrimMeaning(title);
    TrimMeaning(content);
  }
}
