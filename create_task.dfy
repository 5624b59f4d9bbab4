/** The form of `app/tasks/create.js`: its per-field errors, its validity and
    what submitting it hands to the task store. */
module CreateTask {
  import opened Wrappers
  import opened Text
  import opened Tasks

  const TITLE_REQUIRED: string := "Title is required"
  const DESCRIPTION_REQUIRED: string := "Description is required"
  const DATE_NOT_IN_FUTURE: string := "Expiry time must be in the future"

  /** Which fields the user has left (blurred), or picked a date for. */
  datatype Touched = Touched(title: bool, description: bool, date: bool)

  datatype FormErrors = FormErrors(title: Option<string>, description: Option<string>, date: Option<string>)

  const NoErrors: FormErrors := FormErrors(None, None, None)

  /** `getErrors`: a field reports its error only once touched. */
  function Errors(title: string, description: string, expiryDate: int, touched: Touched, now: int): (e: FormErrors)
    ensures e.title.Some? <==> touched.title && AllWhitespace(title)
    ensures e.description.Some? <==> touched.description && AllWhitespace(description)
    ensures e.date.Some? <==> touched.date && expiryDate <= now
    ensures e.title.Some? ==> e.title.value == TITLE_REQUIRED
    ensures e.description.Some? ==> e.description.value == DESCRIPTION_REQUIRED
    ensures e.date.Some? ==> e.date.value == DATE_NOT_IN_FUTURE
  {
    FormErrors(
      if touched.title && Trim(title) == "" then Some(TITLE_REQUIRED) else None,
      if touched.description && Trim(description) == "" then Some(DESCRIPTION_REQUIRED) else None,
      if touched.date && expiryDate <= now then Some(DATE_NOT_IN_FUTURE) else None)
  }

  /** `isValid`: both texts have a non-blank character, the expiry is in the
      future and no submission is under way. */
  function IsValid(title: string, description: string, expiryDate: int, loading: bool, now: int): (b: bool)
    ensures b <==> !AllWhitespace(title) && !AllWhitespace(description) && expiryDate > now && !loading
  {
    |Trim(title)| > 0 && |Trim(description)| > 0 && expiryDate > now && !loading
  }

  /** Evaluated at one instant `now`, with every field touched, the form is
      valid exactly when it shows no error and nothing is being submitted. The
      screen does not evaluate the two at one instant: see
      `StaleValidityAdmitsPastExpiry`. */
  lemma ValidIffNoErrors(title: string, description: string, expiryDate: int, loading: bool, now: int)
    ensures IsValid(title, description, expiryDate, loading, now)
      <==> !loading && Errors(title, description, expiryDate, Touched(true, true, true), now) == NoErrors
  {
    var e := Errors(title, description, expiryDate, Touched(true, true, true), now);
    assert e == NoErrors <==> e.title.None? && e.description.None? && e.date.None?;
  }

  /** The validity memo and the errors are recomputed on different changes
      and each reads its own clock. A memo taken at `validAt`, before the
      expiry passed, still accepts the form at a later `now` when the errors,
      recomputed as pressing Create touches every field, show only the date
      message. */
  lemma StaleValidityAdmitsPastExpiry(title: string, description: string, expiryDate: int, validAt: int, now: int)
    requires IsValid(title, description, expiryDate, false, validAt) && expiryDate <= now
    ensures validAt < now
    ensures Errors(title, description, expiryDate, Touched(true, true, true), now)
      == FormErrors(None, None, Some(DATE_NOT_IN_FUTURE))
  {
  }

  /** The object handed to `addTask`: trimmed texts, the chosen priority and the
      expiry; no status, so the new task is pending. */
  function Payload(title: string, description: string, priority: string, expiryDate: int): (p: Patch)
    ensures SuppliesContent(p)
    ensures p.status.None? && p.id.None? && p.userId.None? && p.createdAt.None?
  {
    NoFields.(title := Some(Trim(title)), description := Some(Trim(description)),
              priority := Some(priority), expiryTime := Some(expiryDate))
  }

  /** A task created from the form is pending, owned by the signed-in user,
      and carries the trimmed texts. */
  lemma CreatedTaskIsPending(id: string, user: string, now: int,
                             title: string, description: string, priority: string, expiryDate: int)
    ensures var t := NewTask(id, user, now, Payload(title, description, priority, expiryDate));
      && t.status == PENDING && t.userId == user && t.id == id && t.createdAt == now
      && t.title == Trim(title) && t.description == Trim(description)
      && t.priority == priority && t.expiryTime == expiryDate
      && t.updatedAt.None? && t.completedAt.None? && t.expiredAt.None?
  {
    NewTaskFields(id, user, now, Payload(title, description, priority, expiryDate));
  }

  class CreateTaskScreen {
    var title: string
    var description: string
    var priority: string
    var expiryDate: int
    var loading: bool
    var touched: Touched

    /** The initial form: empty texts, medium priority, the current time as expiry. */
    constructor (now: int)
      ensures title == "" && description == "" && priority == MEDIUM && expiryDate == now
      ensures !loading && touched == Touched(false, false, false)
    {
      title, description, priority, expiryDate := "", "", MEDIUM, now;
      loading := false;
      touched := Touched(false, false, false);
    }

    method BlurTitle()
      modifies this
      ensures touched == old(touched).(title := true)
      ensures title == old(title) && description == old(description) && priority == old(priority)
      ensures expiryDate == old(expiryDate) && loading == old(loading)
    {
      touched := touched.(title := true);
    }

    method BlurDescription()
      modifies this
      ensures touched == old(touched).(description := true)
      ensures title == old(title) && description == old(description) && priority == old(priority)
      ensures expiryDate == old(expiryDate) && loading == old(loading)
    {
      touched := touched.(description := true);
    }

    /** The picker's `onChange`: the new expiry, and the date counts as touched. */
    method PickExpiry(date: int)
      modifies this
      ensures expiryDate == date && touched == old(touched).(date := true)
      ensures title == old(title) && description == old(description) && priority == old(priority)
      ensures loading == old(loading)
    {
      expiryDate := date;
      touched := touched.(date := true);
    }

    /** `handleCreateTask`. `validAt` is the instant at which `isValid` was last
        computed: the memo is recomputed only when the texts, the expiry or
        `loading` change, not when time passes. Returns whether the screen
        navigates back, which it does when `addTask` does not throw. */
    method HandleCreateTask(store: TaskStore, id: string, validAt: int, now: int, writeOk: bool)
      returns (navigatedBack: bool)
      modifies this, store
      ensures touched == Touched(true, true, true)
      ensures title == old(title) && description == old(description) && priority == old(priority)
      ensures expiryDate == old(expiryDate)
      ensures store.loading == old(store.loading)
      ensures !IsValid(title, description, expiryDate, old(loading), validAt) ==>
        && !navigatedBack && loading == old(loading)
        && store.tasks == old(store.tasks) && store.storage == old(store.storage)
        && store.error == old(store.error) && store.user == old(store.user)
      ensures IsValid(title, description, expiryDate, old(loading), validAt) ==>
        && !loading && store.user == old(store.user)
        && (navigatedBack <==> store.user.Some?)
        && (store.user.None? ==>
              store.tasks == old(store.tasks) && store.storage == old(store.storage)
              && store.error == Some(ADD_FAILED))
        && (store.CanWrite(writeOk) ==>
              store.tasks == old(store.tasks) + [NewTask(id, store.user.value, now, Payload(title, description, priority, expiryDate))]
              && store.storage == old(store.storage)[StorageKey(store.user.value) := store.tasks]
              && store.error == old(store.error))
        && (store.user.Some? && !writeOk ==>
              store.tasks == old(store.tasks) && store.storage == old(store.storage)
              && store.error == Some(SAVE_FAILED))
    {
      touched := Touched(true, true, true);
      if !IsValid(title, description, expiryDate, loading, validAt) {
        return false;
      }
      loading := true;
      var r := store.AddTask(id, now, Payload(title, description, priority, expiryDate), writeOk);
      navigatedBack := r.Ok?;
      loading := false;
    }
  }
}
