/** The entry service: the manual status changes of one entry (mapping it
    by hand, ignoring it) and the queries behind the entry pages (the
    unmapped list and its count, and the paged list of all entries). */
module Entries {
  import opened Wrappers
  import opened Text
  import opened Seqs
  import opened Domain
  import opened Store

  /** The message of the exception `FindAsync` misses raise. */
  function EntryNotFound(id: int): string {
    "Entry " + IntToString(id) + " not found."
  }

  // ------------------------------------------------------------------
  // Manual status changes
  // ------------------------------------------------------------------

  /** The entry after `ManualMapAsync`: Mapped to the given project and
      task whatever its status was, every other field (the rule that mapped
      it before included) kept. */
  function ManuallyMapped(e: ImportedEntry, projectId: int, taskId: Option<int>): (u: ImportedEntry)
    ensures u.status == Mapped && u.projectId == Some(projectId) && u.taskId == taskId
    ensures u.(status := e.status, projectId := e.projectId, taskId := e.taskId) == e
  {
    e.(status := Mapped, projectId := Some(projectId), taskId := taskId)
  }

  /** The entry after `IgnoreAsync` (and the submission page's
      `SkipAsync`): Ignored whatever its status was, every other field
      kept. */
  function MarkedIgnored(e: ImportedEntry): (u: ImportedEntry)
    ensures u.status == Ignored
    ensures u.(status := e.status) == e
  {
    e.(status := Ignored)
  }

  /** `ManualMapAsync`: the entry with key `entryId` is mapped by hand; an
      unknown key throws and changes nothing. */
  method ManualMap(db: Db, entryId: int, projectId: int, taskId: Option<int>) returns (r: Outcome)
    requires db.Valid()
    modifies db`entries
    ensures db.Valid()
    ensures r.Fail? <==> forall k :: 0 <= k < |db.entries| ==> db.entries[k].id != entryId
    ensures r.Fail? ==> r.error == EntryNotFound(entryId) && db.entries == old(db.entries)
    ensures r.Pass? ==>
      exists i :: 0 <= i < |old(db.entries)| && old(db.entries)[i].id == entryId
                  && db.entries == old(db.entries)[i := ManuallyMapped(old(db.entries)[i], projectId, taskId)]
  {
    var i := FindIndex(db.entries, EntryWithId(entryId));
    if i.None? {
      return Fail(EntryNotFound(entryId));
    }
    var mapped := db.entries[i.value := ManuallyMapped(db.entries[i.value], projectId, taskId)];
    EntriesRewritten(db.entries, mapped, db.nextId);
    db.entries := mapped;
    return Pass;
  }

  /** `IgnoreAsync`: the entry with key `entryId` becomes Ignored; an
      unknown key throws and changes nothing. */
  method Ignore(db: Db, entryId: int) returns (r: Outcome)
    requires db.Valid()
    modifies db`entries
    ensures db.Valid()
    ensures r.Fail? <==> forall k :: 0 <= k < |db.entries| ==> db.entries[k].id != entryId
    ensures r.Fail? ==> r.error == EntryNotFound(entryId) && db.entries == old(db.entries)
    ensures r.Pass? ==>
      exists i :: 0 <= i < |old(db.entries)| && old(db.entries)[i].id == entryId
                  && db.entries == old(db.entries)[i := MarkedIgnored(old(db.entries)[i])]
  {
    var i := FindIndex(db.entries, EntryWithId(entryId));
    if i.None? {
      return Fail(EntryNotFound(entryId));
    }
    var ignored := db.entries[i.value := MarkedIgnored(db.entries[i.value])];
    EntriesRewritten(db.entries, ignored, db.nextId);
    db.entries := ignored;
    return Pass;
  }

  // ------------------------------------------------------------------
  // The unmapped list
  // ------------------------------------------------------------------

  /** The entries that still need a mapping: Pending or Failed. */
  predicate IsUnmapped(e: ImportedEntry) {
    e.status == Pending || e.status == Failed
  }

  function WorkDay(e: ImportedEntry): int { DateKey(e.workDate) }

  /** `GetUnmappedAsync`: the Pending and Failed entries, latest work date
      first. */
  function Unmapped(entries: seq<ImportedEntry>): (r: seq<ImportedEntry>)
    ensures forall k :: 0 <= k < |r| ==> IsUnmapped(r[k])
    ensures forall k :: 0 <= k < |entries| && IsUnmapped(entries[k]) ==> entries[k] in r
    ensures multiset(r) <= multiset(entries)
    ensures forall i, j :: 0 <= i < j < |r| ==> DateKey(r[i].workDate) >= DateKey(r[j].workDate)
  {
    var candidates := Filter(entries, IsUnmapped);
    var r := SortByDescending(candidates, WorkDay);
    SameElements(candidates, r);
    r
  }

  /** `GetUnmappedCountAsync`: the number of entries the unmapped list
      shows. */
  function UnmappedCount(entries: seq<ImportedEntry>): (n: nat)
    ensures n == |Unmapped(entries)|
  {
    Count(entries, IsUnmapped)
  }

  /** Mapping an entry by hand takes it off the unmapped list: the count
      drops by one exactly when it was Pending or Failed. */
  lemma ManualMapLowersUnmapped(entries: seq<ImportedEntry>, i: nat, projectId: int, taskId: Option<int>)
    requires i < |entries|
    ensures UnmappedCount(entries[i := ManuallyMapped(entries[i], projectId, taskId)])
         == UnmappedCount(entries) - (if IsUnmapped(entries[i]) then 1 else 0)
  {
    CountUpdate(entries, i, ManuallyMapped(entries[i], projectId, taskId), IsUnmapped);
  }

  /** Ignoring an entry takes it off the unmapped list. */
  lemma IgnoreLowersUnmapped(entries: seq<ImportedEntry>, i: nat)
    requires i < |entries|
    ensures UnmappedCount(entries[i := MarkedIgnored(entries[i])])
         == UnmappedCount(entries) - (if IsUnmapped(entries[i]) then 1 else 0)
  {
    CountUpdate(entries, i, MarkedIgnored(entries[i]), IsUnmapped);
  }

  // ------------------------------------------------------------------
  // The paged list of all entries
  // ------------------------------------------------------------------

  const TwoTo31: int := 0x8000_0000

  predicate IsInt32(x: int) {
    -TwoTo31 <= x < TwoTo31
  }

  /** C#'s unchecked `int` arithmetic: the value modulo 2^32, in the
      signed range. */
  function Wrap32(x: int): (r: int)
    ensures IsInt32(r)
    ensures IsInt32(x) ==> r == x
  {
    (x + TwoTo31) % (2 * TwoTo31) - TwoTo31
  }

  function ImportedAt(e: ImportedEntry): int { e.importedAt }

  /** `OrderByDescending(e => e.ImportedAt)`: the newest import first. */
  function Newest(entries: seq<ImportedEntry>): (r: seq<ImportedEntry>)
    ensures multiset(r) == multiset(entries) && |r| == |entries|
    ensures forall i, j :: 0 <= i < j < |r| ==> r[i].importedAt >= r[j].importedAt
  {
    var r := SortByDescending(entries, ImportedAt);
    assert forall i, j :: 0 <= i < j < |r| ==> ImportedAt(r[i]) >= ImportedAt(r[j]);
    r
  }

  /** `GetAllAsync(page, pageSize)`: `Skip((page - 1) * pageSize)` and
      `Take(pageSize)` on the newest-first list. The offset is computed in
      32-bit arithmetic; a negative skip skips nothing and a take of zero or
      less takes nothing. */
  function Page(entries: seq<ImportedEntry>, page: int, pageSize: int): seq<ImportedEntry>
    requires IsInt32(page) && IsInt32(pageSize)
  {
    var all := Newest(entries);
    var skip := Wrap32(Wrap32(page - 1) * pageSize);
    var from := if skip < 0 then 0 else if skip > |all| then |all| else skip;
    var take := if pageSize < 0 then 0 else pageSize;
    var to := if from + take > |all| then |all| else from + take;
    all[from..to]
  }

  /** `GetTotalCountAsync`: the length of the list the pages cut up. */
  function TotalCount(entries: seq<ImportedEntry>): (n: nat)
    ensures n == |Newest(entries)|
  {
    |entries|
  }

  /** Page `skipped + 1` holds positions skipped * pageSize up to
      (skipped + 1) * pageSize - 1 of the newest-first list, as far as it
      reaches, when the offset fits in an `int`. */
  lemma PageHolds(entries: seq<ImportedEntry>, skipped: nat, pageSize: int)
    requires skipped + 1 < TwoTo31 && 1 <= pageSize < TwoTo31
    requires skipped * pageSize < TwoTo31
    ensures var r := Page(entries, skipped + 1, pageSize);
      var from := skipped * pageSize;
      && 0 <= from
      && |r| == (if from >= |entries| then 0 else if |entries| - from < pageSize then |entries| - from else pageSize)
      && forall k :: 0 <= k < |r| ==> r[k] == Newest(entries)[from + k]
  {
    MulNonNegative(skipped, pageSize);
    assert Wrap32(skipped + 1 - 1) == skipped;
    assert Wrap32(skipped * pageSize) == skipped * pageSize;
  }

  lemma MulNonNegative(a: int, b: int)
    requires 0 <= a && 0 <= b
    ensures 0 <= a * b
  {
  }

  /** Euclidean division by a positive divisor, in the terms paging
      needs. */
  lemma DivideBy(j: nat, d: int)
    requires 1 <= d
    ensures 0 <= j / d <= j && 0 <= j % d < d
    ensures (j / d) * d + j % d == j
  {
  }

  /** Every entry is on exactly the page its position says: the j-th newest
      is item j % pageSize of page j / pageSize + 1. */
  lemma EntryOnPage(entries: seq<ImportedEntry>, pageSize: int, j: nat)
    requires 1 <= pageSize < TwoTo31 && j < TotalCount(entries) && j < TwoTo31 - 1
    ensures var page := j / pageSize + 1;
      IsInt32(page) && j % pageSize < |Page(entries, page, pageSize)|
      && Page(entries, page, pageSize)[j % pageSize] == Newest(entries)[j]
  {
    var q, rm := j / pageSize, j % pageSize;
    DivideBy(j, pageSize);
    var from := q * pageSize;
    assert from + rm == j;
    PageHolds(entries, q, pageSize);
  }
}
