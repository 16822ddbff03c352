# Specialist dashboard record store, in Dafny

This project models the record store of the PsyTrack specialist dashboard. The store
is a list of specialist registrations held as component state in `App.tsx`. The model
covers:

- the data types of `types.ts`: the four-valued status enum and the specialist record
  with its append-only notes;
- the shapes declared inline in `App.tsx`: the filter (`SpecialistStatus | 'ALL'`) and
  the `{ total, pending, verified }` counters;
- the pure expressions over the list: the `stats` counters, the status filter, and the
  `map`-and-spread updates that change one record's status or append a note to it;
- `String.prototype.trim` as applied to the note draft, with the exact ECMAScript
  whitespace set;
- the handlers that replace the component state step by step. They are methods of the
  class `Dashboard.App`, whose fields are `specialists`, `selected`, `aiSuggestion`,
  `isGenerating`, `filter` and `newNote`, plus a `requests` counter that names each
  follow-up request (it exists only for the guarded reply step described below). The handlers are status update, note append,
  record selection, the arrival of the follow-up text, deselect, filter change and draft
  editing.

`handleViewDetails` awaits a text-generation call. It is split into two methods.
`ViewDetails` is the part that runs before the await. `FollowUpArrives` is a later,
separate step that applies the returned text, which the model takes as a parameter.

Modules: `Types` (types.dfy), `Text` (text.dfy), `Records` (records.dfy), `Dashboard`
(dashboard.dfy), and `Seed` (seed.dfy), which holds the seed list of `mockData.ts`
and scenarios over seed lists: note entry and the stale-reply cases.

The main invariant is `App.Synced`: ids are unique, and the selected copy, if any, is
the list's record with its id. `UpdateStatus` and `AddNote` keep it, as the comment at
`App.tsx:55` intends.

A second invariant, the ghost predicate `App.Tracked`, ties the selection to the follow-up
requests: the selected copy, if any, has the id of the record the latest request was
made for. Every handler that changes the selection keeps it, so the guarded reply step
`FollowUpArrivesFor` applies a reply only next to the record it was requested for.

## Model

| member | source | states |
|---|---|---|
| `Text.TrimStart` | App.tsx:46 | the result is a suffix of the draft, everything dropped is whitespace, and it does not start with whitespace |
| `Text.TrimEnd` | App.tsx:46 | the result is a prefix of the draft, everything dropped is whitespace, and it does not end with whitespace |
| `Text.Trim` | App.tsx:46-48 | the trimmed draft is empty exactly when the draft is all whitespace; otherwise it neither starts nor ends with whitespace |
| `Text.TrimStartAt` | App.tsx:46 | a blank prefix followed by a non-whitespace character is exactly what is removed at the start |
| `Text.TrimEndAt` | App.tsx:46 | a blank suffix preceded by a non-whitespace character is exactly what is removed at the end |
| `Text.TrimUnique` | App.tsx:48 | any split into blank ends around a core that does not start or end with whitespace gives that core as the trimmed text |
| `Text.TrimPadded` | App.tsx:48 | trimming whitespace-padded words gives back exactly the words |
| `Text.TrimIsInfix` | App.tsx:48 | the trimmed text is a contiguous piece of the draft with blank text on both sides |
| `Text.TrimIdempotent` | App.tsx:48 | trimming the trimmed note again changes nothing |
| `Records.WithStatus` | App.tsx:39 | same length and order; records with the id get the new status; every other field and every other record is unchanged |
| `Records.WithStatusAbsent` | App.tsx:39 | a status update for an id that no record has leaves the list unchanged |
| `Records.WithStatusKeepsIds` | App.tsx:39 | a status update keeps every id in place, so unique ids stay unique |
| `Records.WithStatusKeepsCopy` | App.tsx:39-42 | a record of the list, updated the way the selected copy is updated, is a record of the new list |
| `Records.WithNote` | App.tsx:49-53 | same length and order; records with the id get exactly the note appended after all their old notes; nothing else changes |
| `Records.WithNoteAbsent` | App.tsx:49-53 | a note for an id that no record has leaves the list unchanged |
| `Records.WithNoteKeepsIds` | App.tsx:49-53 | a note update keeps every id in place, so unique ids stay unique |
| `Records.WithNoteKeepsCopy` | App.tsx:49-56 | the selected record with the note appended, as the copy gets it, is a record of the new list |
| `Records.Matching` | App.tsx:35 | the status filter returns no more records than the list, and every record it returns has the chosen status |
| `Records.MatchingIsFilter` | App.tsx:35 | the status filter is an order-preserving subsequence of the list that holds every record with that status, as often as the list does, and no other record |
| `Records.Visible` | App.tsx:34-36 | 'ALL' shows the whole list; any filter shows an order-preserving subsequence with exactly the admitted records and their multiplicities |
| `Records.PartitionSizes` | App.tsx:34-36 | the four status filters' sizes add up to the list length (the enum has four values, types.ts:2-7) |
| `Records.StatsOf` | App.tsx:27-32 | the total is the list length, and pending plus verified never exceed the total |
| `Dashboard.App.FilteredSpecialists` | App.tsx:34-36 | the table shows the whole list for 'ALL'; otherwise an order-preserving subsequence of the list with exactly the records of the chosen status, as often as the list holds them |
| `Records.WithStatusCounts` | App.tsx:38-39 | setting a status never lowers that status's count and never raises any other status's count |
| `Dashboard.App.constructor` | App.tsx:11-17 | initial state: the seed list, no selection, empty suggestion and draft, not generating, filter 'ALL'; synced when the seed's ids are unique; tracked |
| `Dashboard.App.UpdateStatus` | App.tsx:38-43 | the list becomes the status update of the old list; the selected copy is updated only when its id is the given id, and an empty selection stays empty; the sync and tracking invariants are preserved |
| `Dashboard.App.AddNote` | App.tsx:45-58 | with no selection or a draft whose trimmed text is empty, nothing changes; otherwise the trimmed draft is appended to the selected id's records and to the copy, and the draft is cleared; the sync and tracking invariants are preserved |
| `Dashboard.App.ViewDetails` | App.tsx:60-64 | selects the record, clears the suggestion and the draft, and sets the generating flag; issues a new request token, which is the latest one, for this record's id, and the selection is tracked; the state is synced when the record comes from the list |
| `Dashboard.App.FollowUpArrives` | App.tsx:65-67 | as written: the returned text is shown and the generating flag is cleared, whatever is selected |
| `Dashboard.App.FollowUpArrivesFor` | App.tsx:65-67 | with the guard: the text is applied exactly when its request is the latest one and a record is still selected; a stale reply changes nothing; in a tracked state the record it is applied to has the id the request was made for |
| `Dashboard.App.Deselect` | App.tsx:227 | the selection becomes empty, and the state is synced exactly when the ids are unique; the empty selection is tracked |
| `Dashboard.App.SetFilter` | App.tsx:179 | the table then shows the whole list for 'ALL', and otherwise only records with the chosen status |
| `Dashboard.App.EditNote` | App.tsx:267 | the draft becomes the typed text |
| `Seed.MockSpecialists` | mockData.ts:4-38 | the seed list: the three records of the literal, every field as written (ids '1', '2', '3' with statuses PENDING, CONTACTED, VERIFIED); its properties are the two lemmas below |
| `Seed.MockSpecialistsUniqueIds` | mockData.ts:4-38 | the three seed records have distinct ids, so the initial state is synced |
| `Seed.MockSpecialistsStats` | App.tsx:27-39 | the seed counts total 3, pending 1, verified 1; after verifying record '1' it counts total 3, pending 0, verified 2 |
| `Seed.SeedStats` | mockData.ts:4-38 | three records with the seed's statuses count total 3, pending 1, verified 1 |
| `Seed.SeedStatsAfterVerify` | App.tsx:27-39 | verifying record '1' of such a seed gives total 3, pending 0, verified 2 |
| `Seed.BlankNoteOn` | App.tsx:45-46 | after selecting a record, a whitespace-only draft adds no note and is kept |
| `Seed.NoteOn` | App.tsx:45-58 | after selecting record k, a non-blank draft adds exactly its trimmed text to record k and to the copy, leaves the other records alone and clears the draft |
| `Seed.StaleFollowUpShown` | App.tsx:60-67 | as written: the text requested for record a is shown while record c is selected, and the flag reads not generating although c's request is still in flight |
| `Seed.StaleFollowUpDropped` | App.tsx:60-67 | with the guard: the stale text for a is dropped and c stays generating, then c's own text is shown |
| `Seed.SameRecordAskedAgain` | App.tsx:60-67 | with the guard: after a is selected, closed and selected again, the first reply is dropped both while closed and after the second request, which stays in flight until its own reply is shown |

## Findings

| source | as written | input that shows it | evidently intended | confidence | as-written member | corrected member |
|---|---|---|---|---|---|---|
| App.tsx:65-67 | the awaited follow-up text is stored and `isGenerating` is cleared without checking which record is selected by then | select record a, then select record c before a's text arrives; a's text then arrives | apply the text only if it answers the latest request and that record is still selected; otherwise drop it and leave the newer request, for another record or the same one, marked as in flight | not executed; the sequence follows directly from the handler code | `Seed.StaleFollowUpShown` (over `Dashboard.App.FollowUpArrives`) | `Dashboard.App.FollowUpArrivesFor`, proved in `Seed.StaleFollowUpDropped` and `Seed.SameRecordAskedAgain` |

## Left out

- Rendering is not modelled: the JSX, the Tailwind classes, the recharts area chart, `components/StatsCard.tsx` and `components/SpecialistRow.tsx`. They have no behavioural contract, and `getStatusColor` only looks up CSS classes.
- `services/geminiService.ts` is not modelled: the prompt text, the model name, the API key read from the environment, and the fallback strings. The follow-up text that arrives is an opaque parameter of `FollowUpArrives`/`FollowUpArrivesFor`.
- The one-shot daily-insights fetch in `useEffect` (App.tsx:19-25) and the `dailyInsights` field are not modelled. They are I/O at start-up and no other state depends on them.
- `copyToClipboard` (App.tsx:70-73) is not modelled, because it is only a clipboard write and an alert.
- Real asynchrony is not modelled. An in-flight request exists only implicitly, between `ViewDetails` and the later arrival call. Several outstanding requests and the order in which their replies arrive are captured only through the order of these calls.
- React's state batching and functional updaters become plain sequential assignments. Each handler runs to completion on one thread, so this does not change the outcome.
- `MOCK_STATS` (mockData.ts:40-47) and its `DailyStats` type (types.ts:21) are not modelled. They feed only the chart and the daily-insights call, both left out above.
- `experienceYears` is modelled as an unbounded integer. In the source it is a JavaScript number, but nothing in the core computes with it.
- `Dashboard.App.SetFilter` accepts any status, including REJECTED, although the drop-down (App.tsx:182-185) offers only ALL, PENDING, CONTACTED and VERIFIED. The `as any` cast there is not modelled.
- Trim works on Unicode code points, while JavaScript strings are UTF-16 code units. Every whitespace character `trim` removes lies in the Basic Multilingual Plane, so the result is the same.
