/** The submission service behind the submission page: the counters, the
    list of entries ready to book, booking a hand-picked selection, and
    skipping an entry. */
module Submissions {
  import opened Wrappers
  import opened Seqs
  import opened Domain
  import opened Store
  import opened TimelogSubmission
  import Entries

  // ------------------------------------------------------------------
  // Counters
  // ------------------------------------------------------------------

  /** Counted as ready to submit: Mapped with a task. */
  predicate IsReady(e: ImportedEntry) {
    e.status == Mapped && e.taskId.Some?
  }

  /** Failed with a task: listed as ready, but not counted. */
  predicate IsRetry(e: ImportedEntry) {
    e.status == Failed && e.taskId.Some?
  }

  predicate IsSubmitted(e: ImportedEntry) {
    e.status == Submitted
  }

  predicate IsFailedRecord(s: SubmittedEntry) {
    s.status == SubmissionFailed
  }

  function WorkDay(e: ImportedEntry): int { DateKey(e.workDate) }

  /** `GetReadyToSubmitAsync`: the Mapped or Failed entries that have a
      task, earliest work date first. */
  function ReadyList(entries: seq<ImportedEntry>): (r: seq<ImportedEntry>)
    ensures forall k :: 0 <= k < |r| ==> (r[k].status == Mapped || r[k].status == Failed) && r[k].taskId.Some?
    ensures forall k :: 0 <= k < |entries| && IsDue(entries[k]) ==> entries[k] in r
    ensures multiset(r) <= multiset(entries)
    ensures SortedBy(r, WorkDay)
  {
    var due := Filter(entries, IsDue);
    var r := SortBy(due, WorkDay);
    SameElements(due, r);
    r
  }

  /** `GetReadyToSubmitCountAsync`: the ready list less its Failed entries;
      a failed entry is listed for a retry but not counted. */
  function ReadyCount(entries: seq<ImportedEntry>): (n: nat)
    ensures n + Count(entries, IsRetry) == |ReadyList(entries)|
  {
    CountSplit(entries, IsReady, IsRetry, IsDue);
    Count(entries, IsReady)
  }

  /** `GetSubmittedCountAsync`. */
  function SubmittedCount(entries: seq<ImportedEntry>): (n: nat)
    ensures n == |Filter(entries, IsSubmitted)| && n <= |entries|
  {
    Count(entries, IsSubmitted)
  }

  /** `GetFailedCountAsync`: audit records, not entries, in the failed
      state. */
  function FailedCount(subs: seq<SubmittedEntry>): (n: nat)
    ensures n == |Filter(subs, IsFailedRecord)| && n <= |subs|
  {
    Count(subs, IsFailedRecord)
  }

  /** A POST changes the submitted count by the entry alone: it is
      Submitted afterwards exactly when the response was a success. */
  lemma SubmittedCountAfterPost(l: Ledger, i: nat, taskId: int, remote: Remote, now: int)
    requires i < |l.entries|
    ensures var r := Post(l, i, taskId, remote, now);
      SubmittedCount(r.1.entries) == SubmittedCount(l.entries)
        - (if IsSubmitted(l.entries[i]) then 1 else 0) + (if r.0.Accepted? then 1 else 0)
  {
    var r := Post(l, i, taskId, remote, now);
    PostEntries(l, i, taskId, remote, now);
    var e := l.entries[i];
    CountUpdate(l.entries, i, e.(status := if r.0.Accepted? then Submitted else Failed), IsSubmitted);
  }

  /** The audit write changes the failed count by the entry's record alone:
      its old record stops counting if it was failed, and the new one counts
      unless the response was a success. */
  lemma FailedCountAfterAudit(subs: seq<SubmittedEntry>, next: int, entryId: int, response: ApiResponse, now: int)
    ensures FailedCount(Audit(subs, next, entryId, response, now).0)
         == FailedCount(subs)
            - (if RecordOf(subs, entryId).Some? && IsFailedRecord(RecordOf(subs, entryId).value) then 1 else 0)
            + (if response.Accepted? then 0 else 1)
  {
    var verdict := Verdict(response);
    assert verdict.1 == if response.Accepted? then Success else SubmissionFailed;
    FailedCountAfterUpsert(subs, next, entryId, verdict.1, verdict.2, PriorAttempts(subs, entryId) + 1, now);
  }

  lemma FailedCountAfterUpsert(subs: seq<SubmittedEntry>, next: int, entryId: int, status: SubmissionStatus,
                               message: Option<string>, attempts: int, now: int)
    ensures FailedCount(Upsert(subs, next, entryId, status, message, attempts, now).0)
         == FailedCount(subs)
            - (if RecordOf(subs, entryId).Some? && IsFailedRecord(RecordOf(subs, entryId).value) then 1 else 0)
            + (if status == SubmissionFailed then 1 else 0)
  {
    match RecordIndex(subs, entryId)
    case Some(k) =>
      CountUpdate(subs, k, subs[k].(status := status, submittedAt := now, attemptCount := attempts, errorMessage := message), IsFailedRecord);
    case None =>
      CountAppend(subs, [SubmittedEntry(next, entryId, None, status, now, message, attempts)], IsFailedRecord);
  }

  // ------------------------------------------------------------------
  // Actions
  // ------------------------------------------------------------------

  /** `SkipAsync`: the entry becomes Ignored whatever its status was; an
      unknown key throws and changes nothing. */
  method Skip(db: Db, entryId: int) returns (r: Outcome)
    requires db.Valid()
    modifies db`entries
    ensures db.Valid()
    ensures r.Fail? <==> forall k :: 0 <= k < |db.entries| ==> db.entries[k].id != entryId
    ensures r.Fail? ==> r.error == Entries.EntryNotFound(entryId) && db.entries == old(db.entries)
    ensures r.Pass? ==>
      exists i :: 0 <= i < |old(db.entries)| && old(db.entries)[i].id == entryId
                  && db.entries == old(db.entries)[i := Entries.MarkedIgnored(old(db.entries)[i])]
  {
    r := Entries.Ignore(db, entryId);
  }

  /** The entries `SubmitSelectedAsync` loads: those whose key is among
      the selected ones. */
  function Selected(ids: seq<int>): ImportedEntry -> bool {
    (e: ImportedEntry) => e.id in ids
  }

  /** The selection holds every entry whose key was selected, each once and
      in table order, and nothing else: selected keys no entry has, and keys
      selected twice, add nothing. */
  lemma SelectionOnce(entries: seq<ImportedEntry>, ids: seq<int>, p: nat)
    requires p < |entries| && Distinct(entries, EntryId)
    ensures var ps := Positions(entries, Selected(ids));
      && (forall k :: 0 <= k < |ps| ==> entries[ps[k]].id in ids)
      && (entries[p].id in ids <==> p in ps)
      && (forall a, b :: 0 <= a < |ps| && 0 <= b < |ps| && entries[ps[a]].id == entries[ps[b]].id ==> a == b)
  {
    var ps := Positions(entries, Selected(ids));
    forall a, b | 0 <= a < |ps| && 0 <= b < |ps| && entries[ps[a]].id == entries[ps[b]].id ensures a == b {
      DistinctUnique(entries, EntryId, ps[a], ps[b]);
    }
  }

  /** `SubmitSelectedAsync`: `SubmitAsync` on the selected entries, one
      after another in table order. */
  method SubmitSelected(db: Db, ids: seq<int>, remote: Remote, now: int) returns (threw: bool)
    requires db.Valid()
    modifies db`entries, db`submissions, db`nextId
    ensures db.Valid()
    ensures (threw, Ledger(db.entries, db.submissions, db.nextId)) ==
      SubmitEach(Ledger(old(db.entries), old(db.submissions), old(db.nextId)), db.tasks,
                 Positions(old(db.entries), Selected(ids)), remote, now)
  {
    var selected := Positions(db.entries, Selected(ids));
    threw := SubmitPositions(db, selected, remote, now);
  }
}
