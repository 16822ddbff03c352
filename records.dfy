// The record list of the dashboard and the pure expressions over it (App.tsx):
// the status and note updates done with `map` and object spread, the status
// filter, and the stats counters.
module Records {
  import opened Types

  /** No two records share an id. */
  predicate UniqueIds(list: seq<Specialist>)
  {
    forall i, j :: 0 <= i < j < |list| ==> list[i].id != list[j].id
  }

  /** `a` is `b` with some elements removed, order kept. */
  predicate IsSubsequence(a: seq<Specialist>, b: seq<Specialist>)
    decreases |b|
  {
    if a == [] then true
    else if b == [] then false
    else if a[0] == b[0] then IsSubsequence(a[1..], b[1..])
    else IsSubsequence(a, b[1..])
  }

  lemma {:induction false} SubsequenceOfSelf(list: seq<Specialist>)
    ensures IsSubsequence(list, list)
  {
    if list != [] {
      SubsequenceOfSelf(list[1..]);
    }
  }

  /** `prev.map(s => s.id === id ? { ...s, status: newStatus } : s)`:
      every record with that id gets the new status, nothing else changes. */
  function WithStatus(list: seq<Specialist>, id: string, st: Status): (r: seq<Specialist>)
    ensures |r| == |list|
    ensures forall i :: 0 <= i < |list| ==> r[i] == list[i].(status := r[i].status)
    ensures forall i :: 0 <= i < |list| ==> r[i].status == if list[i].id == id then st else list[i].status
  {
    if list == [] then []
    else
      var head := if list[0].id == id then list[0].(status := st) else list[0];
      [head] + WithStatus(list[1..], id, st)
  }

  /** `prev.map(s => s.id === id ? { ...s, notes: [...s.notes, note] } : s)`:
      every record with that id gets `note` appended to its notes, nothing else changes. */
  function WithNote(list: seq<Specialist>, id: string, note: string): (r: seq<Specialist>)
    ensures |r| == |list|
    ensures forall i :: 0 <= i < |list| ==> r[i] == list[i].(notes := r[i].notes)
    ensures forall i :: 0 <= i < |list| ==> r[i].notes == if list[i].id == id then list[i].notes + [note] else list[i].notes
  {
    if list == [] then []
    else
      var head := if list[0].id == id then list[0].(notes := list[0].notes + [note]) else list[0];
      [head] + WithNote(list[1..], id, note)
  }

  /** `list.filter(s => s.status === st)`: at most as long as the list, and every
      record kept has status `st`. */
  function Matching(list: seq<Specialist>, st: Status): (r: seq<Specialist>)
    ensures |r| <= |list|
    ensures forall x :: x in r ==> x.status == st
  {
    if list == [] then []
    else if list[0].status == st then [list[0]] + Matching(list[1..], st)
    else Matching(list[1..], st)
  }

  /** The filter keeps exactly the records with status `st`: it is an order-preserving
      subsequence of the list that holds each such record as often as the list does,
      and no other record. */
  lemma {:induction false} MatchingIsFilter(list: seq<Specialist>, st: Status)
    ensures IsSubsequence(Matching(list, st), list)
    ensures forall x :: multiset(Matching(list, st))[x] == if x.status == st then multiset(list)[x] else 0
  {
    if list != [] {
      var rest := Matching(list[1..], st);
      MatchingIsFilter(list[1..], st);
      assert list == [list[0]] + list[1..];
      if list[0].status == st {
        var r := [list[0]] + rest;
        assert r[1..] == rest;
      }
    }
  }

  /** Whether the filter lets a record with status `st` through. */
  predicate Admits(filter: Filter, st: Status)
  {
    filter.All? || filter.status == st
  }

  /** `filteredSpecialists`: the whole list for 'ALL', otherwise the records with that status. */
  function Visible(list: seq<Specialist>, filter: Filter): (r: seq<Specialist>)
    ensures filter.All? ==> r == list
    ensures IsSubsequence(r, list)
    ensures forall x :: multiset(r)[x] == if Admits(filter, x.status) then multiset(list)[x] else 0
  {
    if filter.All? then
      SubsequenceOfSelf(list);
      list
    else
      MatchingIsFilter(list, filter.status);
      Matching(list, filter.status)
  }

  /** The four status filters split the list: their sizes add up to its length. */
  lemma {:induction false} PartitionSizes(list: seq<Specialist>)
    ensures |Matching(list, PENDING)| + |Matching(list, CONTACTED)|
          + |Matching(list, VERIFIED)| + |Matching(list, REJECTED)| == |list|
  {
    if list != [] {
      PartitionSizes(list[1..]);
    }
  }

  /** The `stats` memo: total, pending and verified counts; pending and verified
      together never exceed the total. */
  function StatsOf(list: seq<Specialist>): (r: Stats)
    ensures r.total == |list|
    ensures r.pending + r.verified <= r.total
  {
    PartitionSizes(list);
    Stats(|list|, |Matching(list, PENDING)|, |Matching(list, VERIFIED)|)
  }

  /** An update for an id no record has is the identity (`map` with no match). */
  lemma WithStatusAbsent(list: seq<Specialist>, id: string, st: Status)
    requires forall i :: 0 <= i < |list| ==> list[i].id != id
    ensures WithStatus(list, id, st) == list
  {
    var r := WithStatus(list, id, st);
    forall i | 0 <= i < |list| ensures r[i] == list[i] {
      assert r[i] == list[i].(status := list[i].status);
    }
  }

  /** A note for an id no record has changes nothing. */
  lemma WithNoteAbsent(list: seq<Specialist>, id: string, note: string)
    requires forall i :: 0 <= i < |list| ==> list[i].id != id
    ensures WithNote(list, id, note) == list
  {
    var r := WithNote(list, id, note);
    forall i | 0 <= i < |list| ensures r[i] == list[i] {
      assert r[i] == list[i].(notes := list[i].notes);
    }
  }

  /** A status update keeps every id in place, hence keeps ids unique. */
  lemma WithStatusKeepsIds(list: seq<Specialist>, id: string, st: Status)
    ensures forall i :: 0 <= i < |list| ==> WithStatus(list, id, st)[i].id == list[i].id
    ensures UniqueIds(list) ==> UniqueIds(WithStatus(list, id, st))
  {
    var r := WithStatus(list, id, st);
    forall i | 0 <= i < |list| ensures r[i].id == list[i].id {
      assert r[i] == list[i].(status := r[i].status);
    }
  }

  /** A note update keeps every id in place, hence keeps ids unique. */
  lemma WithNoteKeepsIds(list: seq<Specialist>, id: string, note: string)
    ensures forall i :: 0 <= i < |list| ==> WithNote(list, id, note)[i].id == list[i].id
    ensures UniqueIds(list) ==> UniqueIds(WithNote(list, id, note))
  {
    var r := WithNote(list, id, note);
    forall i | 0 <= i < |list| ensures r[i].id == list[i].id {
      assert r[i] == list[i].(notes := r[i].notes);
    }
  }

  /** A record of the list, updated the way the status update treats it, is a record
      of the updated list. */
  lemma WithStatusKeepsCopy(list: seq<Specialist>, s: Specialist, id: string, st: Status)
    requires s in list
    ensures (if s.id == id then s.(status := st) else s) in WithStatus(list, id, st)
  {
    var k :| 0 <= k < |list| && list[k] == s;
    var r := WithStatus(list, id, st);
    assert r[k] == s.(status := r[k].status);
  }

  /** A record of the list with `note` appended is a record of the list after the note
      update for its id. */
  lemma WithNoteKeepsCopy(list: seq<Specialist>, s: Specialist, note: string)
    requires s in list
    ensures s.(notes := s.notes + [note]) in WithNote(list, s.id, note)
  {
    var k :| 0 <= k < |list| && list[k] == s;
    var r := WithNote(list, s.id, note);
    assert r[k] == s.(notes := r[k].notes);
  }

  /** Setting status `st` never lowers the count of `st` and never raises the count
      of any other status. */
  lemma {:induction false} WithStatusCounts(list: seq<Specialist>, id: string, st: Status, other: Status)
    requires other != st
    ensures |Matching(WithStatus(list, id, st), st)| >= |Matching(list, st)|
    ensures |Matching(WithStatus(list, id, st), other)| <= |Matching(list, other)|
  {
    if list != [] {
      var r := WithStatus(list, id, st);
      assert r[1..] == WithStatus(list[1..], id, st);
      WithStatusCounts(list[1..], id, st, other);
    }
  }
}
