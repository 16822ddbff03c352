// Scenarios of the dashboard over seed lists like the one in mockData.ts.
module Seed {
  import opened Types
  import opened Text
  import opened Records
  import opened Dashboard

  /** `MOCK_SPECIALISTS`. */
  function MockSpecialists(): seq<Specialist>
  {
    [MockSarah(), MockAhmed(), MockElena()]
  }

  function MockSarah(): Specialist
  {
    Specialist("1", "Dr. Sarah Al-Farsi", "sarah.f@example.com", "Clinical Psychology", "2024-05-15",
               PENDING, "Specialist in Cognitive Behavioral Therapy with 10 years experience in anxiety disorders.",
               10, ["Incomplete documents", "Waiting for verification"])
  }

  function MockAhmed(): Specialist
  {
    Specialist("2", "Ahmed Mansour", "ahmed.m@example.com", "Child Psychology", "2024-05-18",
               CONTACTED, "Dedicated to helping children with developmental disorders and family counseling.",
               5, ["Initial interview done"])
  }

  function MockElena(): Specialist
  {
    Specialist("3", "Dr. Elena Rodriguez", "elena.r@example.com", "Neuropsychology", "2024-05-20",
               VERIFIED, "Research-focused practitioner specializing in brain injury recovery.",
               15, ["Highly recommended", "Ready for project assignment"])
  }

  /** The seed's ids are unique, so a dashboard started on it is synced. */
  lemma MockSpecialistsUniqueIds()
    ensures UniqueIds(MockSpecialists())
  {
    var seed := MockSpecialists();
    assert seed[0].id == "1" && seed[1].id == "2" && seed[2].id == "3";
  }

  /** The stats cards over the seed read 3, 1, 1, and 3, 0, 2 once record '1' is verified. */
  lemma MockSpecialistsStats()
    ensures StatsOf(MockSpecialists()) == Stats(3, 1, 1)
    ensures StatsOf(WithStatus(MockSpecialists(), "1", VERIFIED)) == Stats(3, 0, 2)
  {
    var seed := MockSpecialists();
    assert seed == [seed[0], seed[1], seed[2]];
    SeedStats(seed[0], seed[1], seed[2]);
    SeedStatsAfterVerify(seed[0], seed[1], seed[2]);
  }

  /** Three records shaped like `MOCK_SPECIALISTS` (ids '1', '2', '3' with statuses
      PENDING, CONTACTED, VERIFIED) count 3 in all, 1 pending and 1 verified. */
  lemma SeedStats(a: Specialist, b: Specialist, c: Specialist)
    requires a.status == PENDING && b.status == CONTACTED && c.status == VERIFIED
    ensures StatsOf([a, b, c]) == Stats(3, 1, 1)
  {
    assert [a, b, c][1..] == [b, c] && [b, c][1..] == [c];
    assert Matching([b, c], PENDING) == [] by {
      assert Matching([c], PENDING) == [];
    }
    assert Matching([b, c], VERIFIED) == [c] by {
      assert Matching([c], VERIFIED) == [c];
    }
  }

  /** Verifying record '1' of such a seed leaves 3 in all, 0 pending and 2 verified. */
  lemma SeedStatsAfterVerify(a: Specialist, b: Specialist, c: Specialist)
    requires a.id == "1" && a.status == PENDING && b.id == "2" && b.status == CONTACTED
    requires c.id == "3" && c.status == VERIFIED
    ensures StatsOf(WithStatus([a, b, c], "1", VERIFIED)) == Stats(3, 0, 2)
  {
    var after := WithStatus([a, b, c], "1", VERIFIED);
    assert [a, b, c][1..] == [b, c] && [b, c][1..] == [c];
    WithStatusAbsent([b, c], "1", VERIFIED);
    assert after == [a.(status := VERIFIED)] + [b, c];
    assert after[1..] == [b, c];
    assert Matching([b, c], PENDING) == [] by {
      assert Matching([c], PENDING) == [];
    }
    assert Matching([b, c], VERIFIED) == [c] by {
      assert Matching([c], VERIFIED) == [c];
    }
  }

  /** On a fresh dashboard over `seed`: selecting record `k` and typing a whitespace-only
      draft, adding the note changes nothing and keeps the draft. */
  method BlankNoteOn(seed: seq<Specialist>, k: nat, blank: string)
    returns (after: seq<Specialist>, copy: Specialist, draft: string)
    requires k < |seed| && IsBlank(blank)
    ensures after == seed && copy == seed[k] && draft == blank
  {
    var app := new App(seed);
    var _ := app.ViewDetails(seed[k]);
    app.EditNote(blank);
    assert Trim(app.newNote) == [];
    app.AddNote();
    after, copy, draft := app.specialists, app.selected.value, app.newNote;
  }

  /** On a fresh dashboard over `seed` with unique ids: selecting record `k` and typing a
      draft that is not blank, adding the note appends the trimmed draft to record `k`,
      in the list and in the selected copy, leaves the other records alone and clears
      the draft. */
  method NoteOn(seed: seq<Specialist>, k: nat, text: string)
    returns (after: seq<Specialist>, copy: Specialist, draft: string)
    requires k < |seed| && UniqueIds(seed) && !IsBlank(text)
    ensures |after| == |seed| && after[k] == seed[k].(notes := seed[k].notes + [Trim(text)])
    ensures forall i :: 0 <= i < |seed| && i != k ==> after[i] == seed[i]
    ensures copy == after[k] && draft == ""
  {
    var app := new App(seed);
    var _ := app.ViewDetails(seed[k]);
    app.EditNote(text);
    app.AddNote();
    after, copy, draft := app.specialists, app.selected.value, app.newNote;
  }

  /** As written: the follow-up text requested for record `a` arrives after record `c`
      was selected, and is shown next to record `c` with the in-flight flag cleared,
      although the request for record `c` is still outstanding. */
  method StaleFollowUpShown(a: Specialist, c: Specialist, textForA: string)
    returns (selectedId: string, shown: string, generating: bool)
    requires a.id != c.id
    ensures selectedId == c.id && selectedId != a.id && shown == textForA && !generating
  {
    var app := new App([a, c]);
    var _ := app.ViewDetails(a);
    var _ := app.ViewDetails(c);
    app.FollowUpArrives(textForA);
    selectedId, shown, generating := app.selected.value.id, app.aiSuggestion, app.isGenerating;
  }

  /** With the guard: the stale text for record `a` is dropped and record `c` stays
      marked as generating; the text for record `c` is then shown. */
  method StaleFollowUpDropped(a: Specialist, c: Specialist, textForA: string, textForC: string)
    returns (shownAfterStale: string, generatingAfterStale: bool, shown: string, generating: bool)
    requires a.id != c.id
    ensures shownAfterStale == "" && generatingAfterStale
    ensures shown == textForC && !generating
  {
    var app := new App([a, c]);
    var forA := app.ViewDetails(a);
    var forC := app.ViewDetails(c);
    app.FollowUpArrivesFor(forA, textForA);
    shownAfterStale, generatingAfterStale := app.aiSuggestion, app.isGenerating;
    app.FollowUpArrivesFor(forC, textForC);
    shown, generating := app.aiSuggestion, app.isGenerating;
  }

  /** With the guard, asking again about the same record: after record `a` is selected,
      closed and selected again, the reply to the first request is dropped both while
      nothing is selected and after the second request, which stays in flight until
      its own reply is shown. */
  method SameRecordAskedAgain(a: Specialist, first: string, second: string)
    returns (shownWhileClosed: string, shownAfterStale: string, generatingAfterStale: bool,
             shown: string, generating: bool)
    ensures shownWhileClosed == "" && shownAfterStale == "" && generatingAfterStale
    ensures shown == second && !generating
  {
    var app := new App([a]);
    var earlier := app.ViewDetails(a);
    app.Deselect();
    app.FollowUpArrivesFor(earlier, first);
    shownWhileClosed := app.aiSuggestion;
    var later := app.ViewDetails(a);
    app.FollowUpArrivesFor(earlier, first);
    shownAfterStale, generatingAfterStale := app.aiSuggestion, app.isGenerating;
    app.FollowUpArrivesFor(later, second);
    shown, generating := app.aiSuggestion, app.isGenerating;
  }
}
