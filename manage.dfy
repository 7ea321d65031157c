/** The manage page: the list of the user's entries, the panel that edits
    the selected one, the "New Entry" form and the "New Category" form.
    Typed date-time text is read by `parse` (`None` for an invalid date,
    `new Date(text)` being NaN); instants are integer milliseconds. */
module Manage {
  import opened Wrappers
  import opened JsNumbers
  import opened Text
  import opened Forms

  /** An entry as listed: id, category name, the start and end text from
      the server, and the stored duration. */
  datatype ListedEntry = ListedEntry(id: int, category: string, startTime: string, endTime: string,
                                     durationSeconds: int)

  datatype Category = Category(id: int, name: string)

  /** The body of `PUT /api/entry/{id}`. */
  datatype UpdateRequest = UpdateRequest(id: int, category: string, startTime: int, endTime: int)

  /** The body of `POST /api/entry`. */
  datatype CreateRequest = CreateRequest(username: string, category: string, startTime: int, endTime: int)

  /** The duration preview: absent unless both fields hold text, NaN when
      either does not parse, otherwise whole seconds. */
  datatype Preview = NoPreview | NotANumber | Seconds(seconds: int)

  const InvalidDates: string := "Invalid date values."
  const EndNotAfterStart: string := "End time must be after start time."
  const UpdateFailed: string := "Update failed"
  const EntryUpdated: string := "Entry updated."
  const CreateFailed: string := "Failed to create entry"
  const EntryCreated: string := "Entry created!"
  const CategoryFailed: string := "Failed to create category"
  const FetchEntriesFailed: string := "Failed to fetch entries"

  /** `formatDuration`: whole hours and minutes from an hour up, minutes and
      seconds from a minute up, otherwise seconds; `%` truncates. */
  function CompactDuration(seconds: int): (text: string)
    ensures |text| >= 2
    ensures seconds >= 3600 ==> text[|text| - 1] == 'm'
    ensures seconds < 3600 ==> text[|text| - 1] == 's'
  {
    var h := FloorDiv(seconds, 3600);
    var m := FloorDiv(Rem(seconds, 3600), 60);
    var s := Rem(seconds, 60);
    if h > 0 then IntToDecimal(h) + "h " + IntToDecimal(m) + "m"
    else if m > 0 then IntToDecimal(m) + "m " + IntToDecimal(s) + "s"
    else IntToDecimal(s) + "s"
  }

  /** From an hour up: whole hours, then the minutes left over. */
  lemma CompactDurationHours(seconds: int)
    requires seconds >= 3600
    ensures CompactDuration(seconds) == NatToDecimal(seconds / 3600) + "h " + NatToDecimal(seconds % 3600 / 60) + "m"
    ensures seconds % 3600 / 60 < 60
  {
    assert FloorDiv(seconds, 3600) == seconds / 3600 >= 1;
    assert Rem(seconds, 3600) == seconds % 3600;
  }

  /** From a minute to just under an hour: minutes, then seconds. */
  lemma CompactDurationMinutes(seconds: int)
    requires 60 <= seconds < 3600
    ensures CompactDuration(seconds) == NatToDecimal(seconds / 60) + "m " + NatToDecimal(seconds % 60) + "s"
    ensures 1 <= seconds / 60 < 60
  {
    assert FloorDiv(seconds, 3600) == 0;
    assert Rem(seconds, 3600) == seconds;
    assert Rem(seconds, 60) == seconds % 60;
  }

  /** Under a minute: the seconds alone. */
  lemma CompactDurationSeconds(seconds: int)
    requires 0 <= seconds < 60
    ensures CompactDuration(seconds) == NatToDecimal(seconds) + "s"
  {
    assert FloorDiv(seconds, 3600) == 0;
    assert Rem(seconds, 3600) == seconds;
    assert FloorDiv(seconds, 60) == 0;
    assert Rem(seconds, 60) == seconds;
  }

  /** A negative count (an entry whose end precedes its start) falls through
      to the seconds form, which shows the truncated remainder. */
  lemma NegativeDurationShowsSeconds(seconds: int)
    requires seconds < 0
    ensures CompactDuration(seconds) == IntToDecimal(Rem(seconds, 60)) + "s"
    ensures -60 < Rem(seconds, 60) <= 0
  {
  }

  /** `!selectedId`: nothing selected, or the id 0. */
  predicate IsFalsy(id: Option<int>) {
    id.None? || id.value == 0
  }

  /** The duration preview of a pair of date-time fields. */
  function PreviewOf(startText: string, endText: string, parse: string -> Option<int>): (p: Preview)
    ensures p.NoPreview? <==> startText == "" || endText == ""
    ensures p.NotANumber? <==> startText != "" && endText != "" && (parse(startText).None? || parse(endText).None?)
    ensures p.Seconds? ==> p.seconds * 1000 <= parse(endText).value - parse(startText).value < p.seconds * 1000 + 1000
  {
    if startText == "" || endText == "" then NoPreview
    else match (parse(startText), parse(endText))
      case (Some(s), Some(e)) => Seconds(FloorDiv(e - s, 1000))
      case _ => NotANumber
  }

  /** The line under the fields: the formatted duration when positive, the
      ordering error when not, nothing when there is no number. */
  function PreviewText(p: Preview): (line: Option<string>)
    ensures line.Some? <==> p.Seconds?
    ensures p.Seconds? && p.seconds > 0 ==> line == Some("Duration: " + CompactDuration(p.seconds))
    ensures p.Seconds? && p.seconds <= 0 ==> line == Some(EndNotAfterStart)
  {
    match p
    case Seconds(n) => if n > 0 then Some("Duration: " + CompactDuration(n)) else Some(EndNotAfterStart)
    case _ => None
  }

  /** The Save button's `disabled`: while saving, with an empty field, or
      with a preview of no whole second. A NaN preview does not disable it. */
  predicate SaveDisabled(status: Status, category: string, startText: string, endText: string,
                         parse: string -> Option<int>)
  {
    || status == Loading || category == "" || startText == "" || endText == ""
    || (PreviewOf(startText, endText, parse).Seconds? && PreviewOf(startText, endText, parse).seconds <= 0)
  }

  /** The Create Entry button's `disabled`: while creating or with an empty
      field; the duration is not consulted. */
  predicate CreateDisabled(status: Status, category: string, startText: string, endText: string) {
    status == Loading || category == "" || startText == "" || endText == ""
  }

  /** When Save is enabled and both fields parse, the end is at least a
      whole second after the start. */
  lemma SaveEnabledMeansPositiveSecond(status: Status, category: string, startText: string, endText: string,
                                       parse: string -> Option<int>)
    requires !SaveDisabled(status, category, startText, endText, parse)
    requires parse(startText).Some? && parse(endText).Some?
    ensures parse(endText).value - parse(startText).value >= 1000
  {
  }

  /** The button is stricter than the handler: an end less than a second
      after the start disables Save, although the handler's own check
      (`endDate <= startDate`) would accept it. */
  lemma SubSecondGapDisablesSave(status: Status, category: string, startText: string, endText: string,
                                 parse: string -> Option<int>)
    requires startText != "" && endText != "" && parse(startText).Some? && parse(endText).Some?
    requires parse(startText).value < parse(endText).value < parse(startText).value + 1000
    ensures SaveDisabled(status, category, startText, endText, parse)
  {
    assert PreviewOf(startText, endText, parse).seconds == 0;
  }

  /** With text that does not parse Save stays enabled; the handler then
      reports the invalid dates. */
  lemma UnparsableLeavesSaveEnabled(category: string, startText: string, endText: string,
                                    parse: string -> Option<int>)
    requires category != "" && startText != "" && endText != "" && parse(startText).None?
    ensures !SaveDisabled(NoRequest, category, startText, endText, parse)
  {
  }

  /** A positive preview means the handler's date checks pass. */
  lemma PositivePreviewPassesChecks(startText: string, endText: string, parse: string -> Option<int>)
    requires PreviewOf(startText, endText, parse).Seconds? && PreviewOf(startText, endText, parse).seconds > 0
    ensures CheckDates(startText, endText, parse).None?
  {
  }

  /** The New Entry button ignores the duration: with the end at or before
      the start it stays enabled while the preview already shows the
      ordering error, which the handler then reports. */
  lemma CreateEnabledBeforeStart(category: string, startText: string, endText: string,
                                 parse: string -> Option<int>)
    requires category != "" && startText != "" && endText != ""
    requires parse(startText).Some? && parse(endText).Some? && parse(endText).value <= parse(startText).value
    ensures !CreateDisabled(NoRequest, category, startText, endText)
    ensures PreviewText(PreviewOf(startText, endText, parse)) == Some(EndNotAfterStart)
    ensures CheckDates(startText, endText, parse) == Some(EndNotAfterStart)
  {
  }

  /** The edit panel: the selected id, the three fields, and the status and
      message of the last save. */
  datatype EditForm = EditForm(selectedId: Option<int>, category: string, startText: string, endText: string,
                               status: Status, message: Option<string>)

  /** The "New Entry" form, with whether it is shown. */
  datatype CreateForm = CreateForm(shown: bool, category: string, startText: string, endText: string,
                                   status: Status, message: Option<string>)

  /** The "New Category" form, with whether it is shown. */
  datatype CategoryForm = CategoryForm(shown: bool, name: string, status: Status, message: Option<string>)

  /** The checks `handleUpdate` and `handleCreate` share after their guard:
      both dates must parse and the end must come after the start. */
  function CheckDates(startText: string, endText: string, parse: string -> Option<int>): (r: Option<string>)
    ensures r.None? <==> parse(startText).Some? && parse(endText).Some? && parse(endText).value > parse(startText).value
    ensures r.Some? ==> r.value == InvalidDates || r.value == EndNotAfterStart
    ensures r == Some(InvalidDates) <==> parse(startText).None? || parse(endText).None?
  {
    match (parse(startText), parse(endText))
    case (Some(s), Some(e)) => if e <= s then Some(EndNotAfterStart) else None
    case _ => Some(InvalidDates)
  }

  class ManagePage {
    var entries: seq<ListedEntry>
    var categories: seq<Category>
    var loading: bool
    var error: Option<string>
    var edit: EditForm
    var create: CreateForm
    var categoryForm: CategoryForm

    constructor()
      ensures entries == [] && categories == [] && loading && error == None
      ensures edit == EditForm(None, "", "", "", NoRequest, None)
      ensures create == CreateForm(false, "", "", "", NoRequest, None)
      ensures categoryForm == CategoryForm(false, "", NoRequest, None)
    {
      entries := [];
      categories := [];
      loading := true;
      error := None;
      edit := EditForm(None, "", "", "", NoRequest, None);
      create := CreateForm(false, "", "", "", NoRequest, None);
      categoryForm := CategoryForm(false, "", NoRequest, None);
    }

    /** `selectedEntry`: the first listed entry with the selected id. */
    function SelectedEntry(): (e: Option<ListedEntry>)
      reads this
      ensures e.Some? ==> e.value in entries && edit.selectedId == Some(e.value.id)
      ensures e.None? ==> edit.selectedId.None? || forall x :: x in entries ==> x.id != edit.selectedId.value
    {
      if edit.selectedId.None? then None else FirstWithId(entries, edit.selectedId.value)
    }

    /** The state `fetchAll` leaves, from the lists it started with: the
        entries when their request succeeds (`fetchedEntries` is `None` when
        it fails, which sets the error and leaves both lists alone), then
        the categories when theirs does; loading is over either way. */
    predicate Fetched(entries0: seq<ListedEntry>, categories0: seq<Category>,
                      fetchedEntries: Option<seq<ListedEntry>>, fetchedCategories: Option<seq<Category>>)
      reads this
    {
      && !loading
      && (fetchedEntries.Some? ==>
            && entries == fetchedEntries.value && error == None
            && categories == (if fetchedCategories.Some? then fetchedCategories.value else categories0))
      && (fetchedEntries.None? ==>
            entries == entries0 && categories == categories0 && error == Some(FetchEntriesFailed))
    }

    /** `fetchAll`. */
    method FetchAll(fetchedEntries: Option<seq<ListedEntry>>, fetchedCategories: Option<seq<Category>>)
      modifies this
      ensures Fetched(old(entries), old(categories), fetchedEntries, fetchedCategories)
      ensures edit == old(edit) && create == old(create) && categoryForm == old(categoryForm)
    {
      error := None;
      if fetchedEntries.None? {
        error := Some(FetchEntriesFailed);
      } else {
        entries := fetchedEntries.value;
        if fetchedCategories.Some? {
          categories := fetchedCategories.value;
        }
      }
      loading := false;
    }

    /** `selectEntry`: the entry's id and category go into the edit panel,
        with its start and end converted to input text (`startText`,
        `endText`), and the save status is cleared. */
    method SelectEntry(entry: ListedEntry, startText: string, endText: string)
      modifies this
      ensures edit == EditForm(Some(entry.id), entry.category, startText, endText, NoRequest, None)
      ensures entries == old(entries) && categories == old(categories)
      ensures loading == old(loading) && error == old(error)
      ensures create == old(create) && categoryForm == old(categoryForm)
    {
      edit := EditForm(Some(entry.id), entry.category, startText, endText, NoRequest, None);
    }

    /** `handleUpdate`. Nothing happens when the selected id is falsy.
        Otherwise invalid dates or an end not after the start set the error
        and send nothing; a valid pair sends the update, and its outcome
        sets the status and message; a saved update reloads both lists. */
    method HandleUpdate(parse: string -> Option<int>, outcome: Outcome,
                        fetchedEntries: Option<seq<ListedEntry>>, fetchedCategories: Option<seq<Category>>)
      returns (sent: Option<UpdateRequest>)
      modifies this
      ensures IsFalsy(old(edit.selectedId)) ==> sent == None && edit == old(edit)
      ensures !IsFalsy(old(edit.selectedId)) && CheckDates(old(edit.startText), old(edit.endText), parse).Some? ==>
                sent == None && edit.status == Failure
                && edit.message == CheckDates(old(edit.startText), old(edit.endText), parse)
      ensures sent.Some? <==> !IsFalsy(old(edit.selectedId)) && CheckDates(old(edit.startText), old(edit.endText), parse).None?
      ensures sent.Some? ==>
                sent.value == UpdateRequest(old(edit.selectedId).value, old(edit.category),
                                            parse(old(edit.startText)).value, parse(old(edit.endText)).value)
      ensures sent.Some? && outcome.Accepted? ==> edit.status == Success && edit.message == Some(EntryUpdated)
      ensures sent.Some? && outcome.Rejected? ==>
                edit.status == Failure && edit.message == Some(outcome.error.GetOr(UpdateFailed))
      ensures edit.selectedId == old(edit.selectedId) && edit.category == old(edit.category)
      ensures edit.startText == old(edit.startText) && edit.endText == old(edit.endText)
      ensures sent.Some? && outcome.Accepted? ==> Fetched(old(entries), old(categories), fetchedEntries, fetchedCategories)
      ensures !(sent.Some? && outcome.Accepted?) ==>
                entries == old(entries) && categories == old(categories) && loading == old(loading) && error == old(error)
      ensures create == old(create) && categoryForm == old(categoryForm)
    {
      if IsFalsy(edit.selectedId) {
        return None;
      }
      var check := CheckDates(edit.startText, edit.endText, parse);
      if check.Some? {
        edit := edit.(status := Failure, message := check);
        return None;
      }
      sent := Some(UpdateRequest(edit.selectedId.value, edit.category,
                                 parse(edit.startText).value, parse(edit.endText).value));
      match outcome
      case Accepted(_) =>
        edit := edit.(status := Success, message := Some(EntryUpdated));
        FetchAll(fetchedEntries, fetchedCategories);
      case Rejected(e) =>
        edit := edit.(status := Failure, message := Some(e.GetOr(UpdateFailed)));
    }

    /** `handleCreate`. Nothing happens while a field is empty. Otherwise
        the dates are checked as for an update; then the token's user
        (`None` when the token request fails) authors the request, and a
        created entry clears the three fields and reloads both lists. */
    method HandleCreate(parse: string -> Option<int>, tokenUser: Option<string>, outcome: Outcome,
                        fetchedEntries: Option<seq<ListedEntry>>, fetchedCategories: Option<seq<Category>>)
      returns (sent: Option<CreateRequest>)
      modifies this
      ensures old(create.category == "" || create.startText == "" || create.endText == "") ==>
                sent == None && create == old(create)
      ensures sent.Some? <==>
                && old(create.category != "" && create.startText != "" && create.endText != "")
                && CheckDates(old(create.startText), old(create.endText), parse).None?
                && tokenUser.Some?
      ensures sent.Some? ==>
                sent.value == CreateRequest(tokenUser.value, old(create.category),
                                            parse(old(create.startText)).value, parse(old(create.endText)).value)
      ensures old(create.category != "" && create.startText != "" && create.endText != "")
              && CheckDates(old(create.startText), old(create.endText), parse).Some? ==>
                create == old(create).(status := Failure,
                                       message := CheckDates(old(create.startText), old(create.endText), parse))
      ensures old(create.category != "" && create.startText != "" && create.endText != "")
              && CheckDates(old(create.startText), old(create.endText), parse).None? && tokenUser.None? ==>
                create == old(create).(status := Failure, message := Some(NotAuthenticated))
      ensures sent.Some? && outcome.Accepted? ==>
                create == CreateForm(old(create.shown), "", "", "", Success, Some(EntryCreated))
      ensures sent.Some? && outcome.Rejected? ==>
                create == old(create).(status := Failure, message := Some(outcome.error.GetOr(CreateFailed)))
      ensures sent.Some? && outcome.Accepted? ==> Fetched(old(entries), old(categories), fetchedEntries, fetchedCategories)
      ensures !(sent.Some? && outcome.Accepted?) ==>
                entries == old(entries) && categories == old(categories) && loading == old(loading) && error == old(error)
      ensures edit == old(edit) && categoryForm == old(categoryForm)
    {
      if create.category == "" || create.startText == "" || create.endText == "" {
        return None;
      }
      var check := CheckDates(create.startText, create.endText, parse);
      if check.Some? {
        create := create.(status := Failure, message := check);
        return None;
      }
      if tokenUser.None? {
        create := create.(status := Failure, message := Some(NotAuthenticated));
        return None;
      }
      sent := Some(CreateRequest(tokenUser.value, create.category,
                                 parse(create.startText).value, parse(create.endText).value));
      match outcome
      case Accepted(_) =>
        create := CreateForm(create.shown, "", "", "", Success, Some(EntryCreated));
        FetchAll(fetchedEntries, fetchedCategories);
      case Rejected(e) =>
        create := create.(status := Failure, message := Some(e.GetOr(CreateFailed)));
    }

    /** `handleCreateCategory`: nothing for a blank name; otherwise the
        trimmed name is posted. A 200 means it already existed, anything
        else accepted means it was created; either way the field is cleared
        and the category list replaced when it could be fetched again
        (`refreshed`). */
    method HandleCreateCategory(outcome: Outcome, refreshed: Option<seq<Category>>) returns (sent: Option<string>)
      modifies this
      ensures Strip(old(categoryForm.name)) == "" ==> sent == None && categoryForm == old(categoryForm)
      ensures sent.Some? <==> Strip(old(categoryForm.name)) != ""
      ensures sent.Some? ==> sent.value == Strip(old(categoryForm.name)) && 1 <= |sent.value|
      ensures sent.Some? && outcome.Accepted? && outcome.status == 200 ==>
                categoryForm == old(categoryForm).(name := "", status := Success,
                                                   message := Some("\"" + sent.value + "\" already exists."))
      ensures sent.Some? && outcome.Accepted? && outcome.status != 200 ==>
                categoryForm == old(categoryForm).(name := "", status := Success,
                                                   message := Some("Category \"" + sent.value + "\" created!"))
      ensures sent.Some? && outcome.Rejected? ==>
                categoryForm == old(categoryForm).(status := Failure, message := Some(outcome.error.GetOr(CategoryFailed)))
      ensures sent.Some? && outcome.Accepted? && refreshed.Some? ==> categories == refreshed.value
      ensures !(sent.Some? && outcome.Accepted? && refreshed.Some?) ==> categories == old(categories)
      ensures entries == old(entries) && loading == old(loading) && error == old(error)
      ensures edit == old(edit) && create == old(create)
    {
      var name := Strip(categoryForm.name);
      if name == "" {
        return None;
      }
      sent := Some(name);
      match outcome
      case Accepted(code) =>
        var message := if code == 200 then "\"" + name + "\" already exists." else "Category \"" + name + "\" created!";
        categoryForm := categoryForm.(name := "", status := Success, message := Some(message));
        if refreshed.Some? {
          categories := refreshed.value;
        }
      case Rejected(e) =>
        categoryForm := categoryForm.(status := Failure, message := Some(e.GetOr(CategoryFailed)));
    }

    /** "+ New Entry" / "✕ Close": the form is shown or hidden, its fields
        and status are cleared, and the selection is dropped. */
    method ToggleEntryForm()
      modifies this
      ensures create == CreateForm(!old(create.shown), "", "", "", NoRequest, None)
      ensures edit == old(edit).(selectedId := None)
      ensures entries == old(entries) && categories == old(categories)
      ensures loading == old(loading) && error == old(error) && categoryForm == old(categoryForm)
    {
      create := CreateForm(!create.shown, "", "", "", NoRequest, None);
      edit := edit.(selectedId := None);
    }

    /** "+ New Category" / "✕ Close": the form is shown or hidden and its
        name and status are cleared. */
    method ToggleCategoryForm()
      modifies this
      ensures categoryForm == CategoryForm(!old(categoryForm.shown), "", NoRequest, None)
      ensures entries == old(entries) && categories == old(categories)
      ensures loading == old(loading) && error == old(error)
      ensures edit == old(edit) && create == old(create)
    {
      categoryForm := CategoryForm(!categoryForm.shown, "", NoRequest, None);
    }

    /** The "✕" of the New Entry panel: hidden, status cleared, fields kept. */
    method CloseEntryForm()
      modifies this
      ensures create == old(create).(shown := false, status := NoRequest, message := None)
      ensures entries == old(entries) && categories == old(categories)
      ensures loading == old(loading) && error == old(error)
      ensures edit == old(edit) && categoryForm == old(categoryForm)
    {
      create := create.(shown := false, status := NoRequest, message := None);
    }

    /** The "✕" of the edit panel: the selection is dropped. */
    method Deselect()
      modifies this
      ensures edit == old(edit).(selectedId := None)
      ensures entries == old(entries) && categories == old(categories)
      ensures loading == old(loading) && error == old(error)
      ensures create == old(create) && categoryForm == old(categoryForm)
    {
      edit := edit.(selectedId := None);
    }
  }

  /** `entries.find((e) => e.id === id)`. */
  function FirstWithId(entries: seq<ListedEntry>, id: int): (e: Option<ListedEntry>)
    ensures e.Some? ==> e.value in entries && e.value.id == id
    ensures e.None? <==> forall x :: x in entries ==> x.id != id
  {
    if entries == [] then None
    else if entries[0].id == id then Some(entries[0])
    else
      var rest := FirstWithId(entries[1..], id);
      assert forall x :: x in entries && x != entries[0] ==> x in entries[1..];
      rest
  }

  /** An update is only ever sent for an entry the user picked, with an
      end strictly after its start; an entry with id 0 can never be saved. */
  method UpdateSendsOrderedInterval(page: ManagePage, parse: string -> Option<int>, outcome: Outcome,
                                    fetchedEntries: Option<seq<ListedEntry>>, fetchedCategories: Option<seq<Category>>)
    returns (sent: Option<UpdateRequest>)
    modifies page
    ensures sent.Some? ==> sent.value.endTime > sent.value.startTime && sent.value.id != 0
    ensures old(page.edit.selectedId) == Some(0) ==> sent == None
  {
    sent := page.HandleUpdate(parse, outcome, fetchedEntries, fetchedCategories);
  }
}
