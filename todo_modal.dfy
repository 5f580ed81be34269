/** The add/edit task dialog: its form fields, the rule that enables the
    Save button, and what Save hands to the page. "today" is the local
    date string the source reads from the clock, passed in. */
module TodoModal {
  import opened Base
  import opened Text
  import opened TodoTypes
  import DateFormat

  /** What `onSave` receives: a task without `id` and `completed`. */
  datatype TodoDraft = TodoDraft(
    title: string,
    description: string,
    author: string,
    priority: Priority,
    mood: string,
    location: Location,
    date: string)

  /** The callbacks Save makes, in order. */
  datatype ModalCall = CallOnSave(draft: TodoDraft) | CallOnClose

  /** What a mood left blank is saved as. */
  const NoMood: string := "Not specified"

  /** `canSave`: title and author are not blank, a date is chosen, and it
      does not come after today in string order. */
  predicate CanSave(title: string, author: string, date: string, today: string)
  {
    Trim(title) != [] && Trim(author) != [] && date != [] && !Less(today, date)
  }

  /** Save is refused for a date later in the year than today, and allowed
      for today itself once title and author are filled in. */
  lemma CanSaveDates(title: string, author: string, year: nat, m1: nat, d1: nat, m2: nat, d2: nat)
    requires m1 < 100 && d1 < 100 && m2 < 100 && d2 < 100
    ensures var today, date := DateFormat.DateString(year, m1, d1), DateFormat.DateString(year, m2, d2);
      CanSave(title, author, date, today) <==>
        Trim(title) != [] && Trim(author) != [] && !(m1 < m2 || (m1 == m2 && d1 < d2))
  {
    DateFormat.DateOrder(year, m1, d1, m2, d2);
  }

  /** `mood.trim() || "Not specified"` */
  function SavedMood(mood: string): (r: string)
    ensures r != [] && Trim(r) == r
    ensures AllSpace(mood) ==> r == NoMood
    ensures !AllSpace(mood) ==> r == Trim(mood)
  {
    TrimIdempotent(mood);
    var t := Trim(mood);
    if t != [] then t
    else
      assert LeadingSpace(NoMood) == 0;
      assert TrailingSpace(NoMood[0..]) == 0;
      NoMood
  }

  /** The object passed to `onSave`: text fields trimmed, a blank mood
      replaced, priority, location and date as they are. */
  function Payload(title: string, description: string, author: string, priority: Priority,
                   mood: string, location: Location, date: string): (d: TodoDraft)
    ensures d.title == Trim(title) && d.description == Trim(description) && d.author == Trim(author)
    ensures d.mood == SavedMood(mood)
    ensures Trim(d.title) == d.title && Trim(d.description) == d.description
    ensures Trim(d.author) == d.author && Trim(d.mood) == d.mood && d.mood != []
    ensures d.priority == priority && d.location == location && d.date == date
  {
    TrimIdempotent(title);
    TrimIdempotent(description);
    TrimIdempotent(author);
    TodoDraft(Trim(title), Trim(description), Trim(author), priority, SavedMood(mood), location, date)
  }

  /** A draft that may be saved has a non-blank title and author once
      trimmed, a date, and a date not after today. */
  lemma SavedDraftValid(title: string, description: string, author: string, priority: Priority,
                        mood: string, location: Location, date: string, today: string)
    requires CanSave(title, author, date, today)
    ensures var d := Payload(title, description, author, priority, mood, location, date);
      d.title != [] && d.author != [] && d.date != [] && !Less(today, d.date)
      && !IsSpace(d.title[0]) && !IsSpace(d.author[0])
  {
  }

  /** The form state of the dialog. */
  class TodoForm {
    var title: string
    var description: string
    var author: string
    var priority: Priority
    var mood: string
    var location: Location
    var date: string

    /** The `useState` initial values. */
    constructor(today: string)
      ensures title == "" && description == "" && author == "" && mood == ""
      ensures priority == Medium && location == Home && date == today
    {
      title, description, author, mood := "", "", "", "";
      priority, location, date := Medium, Home, today;
    }

    /** The effect run when the dialog opens: copy the task being edited,
        or reset to a blank task for today. */
    method Prefill(editing: Option<TodoItem>, today: string)
      modifies this
      ensures editing.Some? ==> var t := editing.value;
        && title == t.title && description == t.description && author == t.author
        && priority == t.priority && mood == t.mood && location == t.location && date == t.date
      ensures editing.None? ==>
        && title == "" && description == "" && author == "" && mood == ""
        && priority == Medium && location == Home && date == today
    {
      match editing {
        case Some(t) =>
          title := t.title;
          description := t.description;
          author := t.author;
          priority := t.priority;
          mood := t.mood;
          location := t.location;
          date := t.date;
        case None =>
          title := "";
          description := "";
          author := "";
          priority := Medium;
          mood := "";
          location := Home;
          date := today;
      }
    }

    /** `handleSave`: nothing happens unless the form may be saved; then
        `onSave` gets the normalised draft and `onClose` follows. */
    method HandleSave(today: string) returns (calls: seq<ModalCall>)
      ensures !CanSave(title, author, date, today) ==> calls == []
      ensures CanSave(title, author, date, today) ==>
        calls == [CallOnSave(Payload(title, description, author, priority, mood, location, date)), CallOnClose]
      ensures calls != [] ==>
        && |calls| == 2 && calls[0].CallOnSave? && calls[1].CallOnClose?
        && calls[0].draft.title != [] && calls[0].draft.author != []
        && !Less(today, calls[0].draft.date)
    {
      if CanSave(title, author, date, today) {
        var draft := Payload(title, description, author, priority, mood, location, date);
        SavedDraftValid(title, description, author, priority, mood, location, date, today);
        calls := [CallOnSave(draft), CallOnClose];
      } else {
        calls := [];
      }
    }
  }
}
