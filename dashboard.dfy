// The component state of the dashboard (App.tsx) and the handlers that replace it.
module Dashboard {
  import opened Types
  import opened Text
  import opened Records

  datatype Option<T> = None | Some(value: T)

  class App {
    var specialists: seq<Specialist>
    var selected: Option<Specialist>   // `selectedSpecialist`, a copy of a record, or null
    var aiSuggestion: string
    var isGenerating: bool
    var filter: Filter
    var newNote: string                // the note draft bound to the input box
    var requests: nat                  // follow-up requests issued so far; the last one is the live one
    ghost var requestedId: string      // the id of the record the live request was made for

    /** Ids are unique and the selected copy, if any, is the list's record with its id. */
    ghost predicate Synced()
      reads this
    {
      UniqueIds(specialists) && (selected.Some? ==> selected.value in specialists)
    }

    /** The selected copy, if any, is the record the live request was made for. */
    ghost predicate Tracked()
      reads this`selected, this`requestedId
    {
      selected.Some? ==> selected.value.id == requestedId
    }

    /** The `filteredSpecialists` memo over the current list and filter. */
    function FilteredSpecialists(): (r: seq<Specialist>)
      reads this
      ensures filter.All? ==> r == specialists
      ensures IsSubsequence(r, specialists)
      ensures forall x :: multiset(r)[x] == if Admits(filter, x.status) then multiset(specialists)[x] else 0
    {
      Visible(specialists, filter)
    }

    /** Initial state: the seed list, nothing selected, empty texts, filter 'ALL'. */
    constructor (seed: seq<Specialist>)
      ensures specialists == seed && selected == None
      ensures aiSuggestion == "" && !isGenerating && filter == All && newNote == "" && requests == 0
      ensures UniqueIds(seed) ==> Synced()
      ensures Tracked()
    {
      specialists := seed;
      selected := None;
      aiSuggestion := "";
      isGenerating := false;
      filter := All;
      newNote := "";
      requests := 0;
      requestedId := "";
    }

    /** `handleUpdateStatus`: sets the status of the records with `id`, and of the
        selected copy when it has that id. */
    method UpdateStatus(id: string, st: Status)
      modifies this`specialists, this`selected
      ensures specialists == WithStatus(old(specialists), id, st)
      ensures selected == if old(selected).Some? && old(selected).value.id == id
                          then Some(old(selected).value.(status := st)) else old(selected)
      ensures old(Synced()) ==> Synced()
      ensures old(Tracked()) ==> Tracked()
    {
      var list := specialists;
      if UniqueIds(list) && selected.Some? && selected.value in list {
        WithStatusKeepsIds(list, id, st);
        WithStatusKeepsCopy(list, selected.value, id, st);
      } else if UniqueIds(list) {
        WithStatusKeepsIds(list, id, st);
      }
      specialists := WithStatus(list, id, st);
      if selected.Some? && selected.value.id == id {
        selected := Some(selected.value.(status := st));
      }
    }

    /** `handleAddNote`: with a selection and a draft whose trimmed text is not empty
        (by `Trim`'s contract: a draft that is not all whitespace), appends the trimmed
        draft to the records with the selected id and to the selected copy, and clears
        the draft; otherwise changes nothing. */
    method AddNote()
      modifies this`specialists, this`selected, this`newNote
      ensures old(selected).None? || Trim(old(newNote)) == "" ==>
        specialists == old(specialists) && selected == old(selected) && newNote == old(newNote)
      ensures old(selected).Some? && Trim(old(newNote)) != "" ==>
        var note := Trim(old(newNote));
        && specialists == WithNote(old(specialists), old(selected).value.id, note)
        && selected == Some(old(selected).value.(notes := old(selected).value.notes + [note]))
        && newNote == ""
      ensures old(Synced()) ==> Synced()
      ensures old(Tracked()) ==> Tracked()
    {
      var note := Trim(newNote);
      if selected.None? || note == "" {
        return;
      }
      var copy, list := selected.value, specialists;
      if UniqueIds(list) && copy in list {
        WithNoteKeepsIds(list, copy.id, note);
        WithNoteKeepsCopy(list, copy, note);
      }
      specialists := WithNote(list, copy.id, note);
      selected := Some(copy.(notes := copy.notes + [note]));
      newNote := "";
    }

    /** The synchronous part of `handleViewDetails`: selects `s`, clears the suggestion
        and the draft, and marks a follow-up request as in flight. The returned token
        names that request; it is the live one until the next request is issued. */
    method ViewDetails(s: Specialist) returns (token: nat)
      modifies this`selected, this`aiSuggestion, this`isGenerating, this`newNote, this`requests,
        this`requestedId
      ensures selected == Some(s) && aiSuggestion == "" && isGenerating && newNote == ""
      ensures requests == old(requests) + 1 && token == requests
      ensures requestedId == s.id && Tracked()
      ensures old(UniqueIds(specialists)) && s in specialists ==> Synced()
    {
      selected := Some(s);
      aiSuggestion := "";
      isGenerating := true;
      newNote := "";
      requests := requests + 1;
      requestedId := s.id;
      token := requests;
    }

    /** The end of `handleViewDetails`, as written: when the awaited follow-up text
        arrives it is shown and the in-flight flag is cleared, whatever is selected now. */
    method FollowUpArrives(text: string)
      modifies this`aiSuggestion, this`isGenerating
      ensures aiSuggestion == text && !isGenerating
    {
      aiSuggestion := text;
      isGenerating := false;
    }

    /** The end of `handleViewDetails` with a staleness guard: the reply to request
        `token` is shown only if that is the latest request and a record is still
        selected. Every handler keeps `Tracked`, so that record is the one the
        request was made for. A stale reply changes nothing, so a newer request,
        for the same record or another one, stays marked as in flight. */
    method FollowUpArrivesFor(token: nat, text: string)
      modifies this`aiSuggestion, this`isGenerating
      ensures token == requests && selected.Some? ==> aiSuggestion == text && !isGenerating
      ensures !(token == requests && selected.Some?) ==>
        aiSuggestion == old(aiSuggestion) && isGenerating == old(isGenerating)
      ensures Tracked() && token == requests && selected.Some? ==> selected.value.id == requestedId
    {
      if token == requests && selected.Some? {
        aiSuggestion := text;
        isGenerating := false;
      }
    }

    /** The close button of the detail panel: clears the selection. */
    method Deselect()
      modifies this`selected
      ensures selected == None && Synced() == old(UniqueIds(specialists))
      ensures Tracked()
    {
      selected := None;
    }

    /** The status filter drop-down: afterwards the table shows the whole list for
        'ALL' and otherwise only records with the chosen status. */
    method SetFilter(f: Filter)
      modifies this`filter
      ensures filter == f
      ensures f.All? ==> FilteredSpecialists() == specialists
      ensures forall x :: x in FilteredSpecialists() ==> Admits(f, x.status)
    {
      filter := f;
      forall x | x in FilteredSpecialists() ensures Admits(f, x.status) {
        assert multiset(FilteredSpecialists())[x] > 0;
      }
    }

    /** Typing in the note input box replaces the draft. */
    method EditNote(text: string)
      modifies this`newNote
      ensures newNote == text
    {
      newNote := text;
    }
  }
}
