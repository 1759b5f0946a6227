/** Submission of mapped entries to Timelog: one POST per entry, the entry's
    status moved to Submitted or Failed, and one audit record per entry that
    counts the attempts. The POST and `int.Parse` are parameters. */
module TimelogSubmission {
  import opened Wrappers
  import opened Text
  import opened Seqs
  import opened Domain
  import opened Store

  /** The time registration posted to Timelog. The decimal hours the
      request carries are left out; the seconds they are computed from
      stand for them. */
  datatype Registration = Registration(taskId: int, date: string, seconds: int, comment: Option<string>, billable: bool)

  /** What the POST gives: a success status, a rejection with its status
      code and error text (null when the body has none), or an exception. */
  datatype ApiResponse = Accepted | Rejected(statusCode: int, error: Option<string>) | Threw(message: string)

  /** The outside world of the submitter: `int.Parse` (None where it throws)
      and the Timelog POST. */
  datatype Remote = Remote(parseInt: string -> Option<int>, post: Registration -> ApiResponse)

  /** How `SubmitAsync` ended: it returned early because the entry has no
      task or the task is missing, `int.Parse` threw on the task's external
      id, or the registration was posted. */
  datatype SubmitResult = NoTask | TaskNotFound | BadTaskId | Sent(response: ApiResponse)

  /** The tables submission changes. */
  datatype Ledger = Ledger(entries: seq<ImportedEntry>, submissions: seq<SubmittedEntry>, nextId: int)

  /** The position of the audit record of an entry, if it has one. */
  function RecordIndex(subs: seq<SubmittedEntry>, entryId: int): Option<nat> {
    FindIndex(subs, SubmissionOfEntry(entryId))
  }

  /** The audit record of an entry, if it has one. */
  function RecordOf(subs: seq<SubmittedEntry>, entryId: int): (r: Option<SubmittedEntry>)
    ensures r.None? <==> forall k :: 0 <= k < |subs| ==> subs[k].entryId != entryId
    ensures r.Some? ==> r.value.entryId == entryId
  {
    match RecordIndex(subs, entryId)
    case Some(k) => Some(subs[k])
    case None => None
  }

  /** The attempts recorded so far for an entry: 0 without a record. */
  function PriorAttempts(subs: seq<SubmittedEntry>, entryId: int): int {
    match RecordOf(subs, entryId)
    case Some(rec) => rec.attemptCount
    case None => 0
  }

  /** The entry status, record status and error message a response leads
      to: "<status code>: <error>" for a rejection, the exception's message
      for an exception. */
  function Verdict(response: ApiResponse): (ImportStatus, SubmissionStatus, Option<string>) {
    match response
    case Accepted => (Submitted, Success, None)
    case Rejected(code, error) => (Failed, SubmissionFailed, Some(IntToString(code) + ": " + error.GetOr("")))
    case Threw(message) => (Failed, SubmissionFailed, Some(message))
  }

  /** An existing audit record updated in place, or a new one added with
      the next key. */
  function Upsert(subs: seq<SubmittedEntry>, next: int, entryId: int, status: SubmissionStatus,
                  message: Option<string>, attempts: int, now: int): (seq<SubmittedEntry>, int)
  {
    match RecordIndex(subs, entryId)
    case Some(k) => (subs[k := subs[k].(status := status, submittedAt := now, attemptCount := attempts, errorMessage := message)], next)
    case None => (subs + [SubmittedEntry(next, entryId, None, status, now, message, attempts)], next + 1)
  }

  /** The request for an entry and its task's id. */
  function RequestFor(e: ImportedEntry, taskId: int): Registration {
    Registration(taskId, FormatDate(e.workDate), e.timeSpentSeconds, e.description, false)
  }

  /** `SubmitAsync` on the entry at position `i`: its result and the new
      tables. */
  function SubmitSpec(l: Ledger, tasks: seq<TimelogTask>, i: nat, remote: Remote, now: int): (r: (SubmitResult, Ledger))
    requires i < |l.entries|
    ensures |r.1.entries| == |l.entries|
  {
    var e := l.entries[i];
    if e.taskId.None? then (NoTask, l)
    else
      match FindIndex(tasks, TaskWithId(e.taskId.value))
      case None => (TaskNotFound, l)
      case Some(t) =>
        var taskId := remote.parseInt(tasks[t].externalId);
        if taskId.None? then (BadTaskId, l)
        else
          var posted := Post(l, i, taskId.value, remote, now);
          (Sent(posted.0), posted.1)
  }

  /** The `try` block of `SubmitAsync`: the POST, the entry's new status and
      the audit record. */
  function Post(l: Ledger, i: nat, taskId: int, remote: Remote, now: int): (r: (ApiResponse, Ledger))
    requires i < |l.entries|
    ensures |r.1.entries| == |l.entries|
  {
    var e := l.entries[i];
    var response := remote.post(RequestFor(e, taskId));
    var saved := Audit(l.submissions, l.nextId, e.id, response, now);
    (response, Ledger(l.entries[i := e.(status := Verdict(response).0)], saved.0, saved.1))
  }

  /** The audit write after a response: the entry's record, existing or
      new, gets the verdict, the time and one more attempt. */
  function Audit(subs: seq<SubmittedEntry>, next: int, entryId: int, response: ApiResponse, now: int): (seq<SubmittedEntry>, int) {
    var verdict := Verdict(response);
    Upsert(subs, next, entryId, verdict.1, verdict.2, PriorAttempts(subs, entryId) + 1, now)
  }

  // ------------------------------------------------------------------
  // Properties of one submission
  // ------------------------------------------------------------------

  /** Without a task id, with a task id no task has, or with a task whose
      external id does not parse, nothing is posted and nothing changes:
      the result is the same whatever the POST would answer. */
  lemma SubmitGuards(l: Ledger, tasks: seq<TimelogTask>, i: nat, remote: Remote, post': Registration -> ApiResponse, now: int)
    requires i < |l.entries|
    ensures l.entries[i].taskId.None? ==> SubmitSpec(l, tasks, i, remote, now) == (NoTask, l)
    ensures l.entries[i].taskId.Some? && (forall k :: 0 <= k < |tasks| ==> tasks[k].id != l.entries[i].taskId.value) ==>
      SubmitSpec(l, tasks, i, remote, now) == (TaskNotFound, l)
    ensures !SubmitSpec(l, tasks, i, remote, now).0.Sent? ==>
      && SubmitSpec(l, tasks, i, remote, now).1 == l
      && SubmitSpec(l, tasks, i, remote.(post := post'), now) == SubmitSpec(l, tasks, i, remote, now)
  {
  }

  /** Updating or adding the audit record keeps one record per entry, with
      fresh keys. */
  lemma UpsertValid(subs: seq<SubmittedEntry>, next: int, entryId: int, status: SubmissionStatus,
                    message: Option<string>, attempts: int, now: int)
    requires SubmissionsValid(subs, next)
    ensures var r := Upsert(subs, next, entryId, status, message, attempts, now);
      SubmissionsValid(r.0, r.1) && next <= r.1
  {
    var r := Upsert(subs, next, entryId, status, message, attempts, now);
    match RecordIndex(subs, entryId)
    case Some(k) =>
      assert SameKeys(subs, r.0, SubmissionId);
      assert SameKeys(subs, r.0, SubmissionEntry);
      SameKeysDistinct(subs, r.0, SubmissionId);
      SameKeysDistinct(subs, r.0, SubmissionEntry);
      SameKeysBelow(subs, r.0, SubmissionId, next);
    case None =>
      DistinctAppend(subs, r.0[|subs|], SubmissionId);
      DistinctAppend(subs, r.0[|subs|], SubmissionEntry);
  }

  /** The write gives the entry the record asked for: the existing record
      keeps its key and no record is added, or a new one is added with the
      next key. */
  lemma UpsertRecord(subs: seq<SubmittedEntry>, next: int, entryId: int, status: SubmissionStatus,
                     message: Option<string>, attempts: int, now: int)
    ensures var r := Upsert(subs, next, entryId, status, message, attempts, now);
      var rec := RecordOf(r.0, entryId);
      && rec.Some?
      && rec.value.status == status && rec.value.errorMessage == message
      && rec.value.attemptCount == attempts && rec.value.submittedAt == now
      && (RecordOf(subs, entryId).Some? ==> rec.value.id == RecordOf(subs, entryId).value.id && |r.0| == |subs| && r.1 == next)
      && (RecordOf(subs, entryId).None? ==> rec.value.id == next && |r.0| == |subs| + 1 && r.1 == next + 1)
  {
    var r := Upsert(subs, next, entryId, status, message, attempts, now);
    match RecordIndex(subs, entryId)
    case Some(k) =>
      FindIndexIs(r.0, SubmissionOfEntry(entryId), k);
    case None =>
      FindIndexIs(r.0, SubmissionOfEntry(entryId), |subs|);
  }

  /** The write leaves the record of every other entry as it was. */
  lemma UpsertKeepsOthers(subs: seq<SubmittedEntry>, next: int, entryId: int, status: SubmissionStatus,
                          message: Option<string>, attempts: int, now: int, other: int)
    requires other != entryId
    ensures RecordOf(Upsert(subs, next, entryId, status, message, attempts, now).0, other) == RecordOf(subs, other)
  {
    var r := Upsert(subs, next, entryId, status, message, attempts, now).0;
    match RecordIndex(subs, other)
    case Some(k) =>
      FindIndexIs(r, SubmissionOfEntry(other), k);
    case None =>
      assert forall j :: 0 <= j < |r| ==> r[j].entryId != other;
  }

  /** A posted entry: the request carries the task's id and the work date
      as yyyy-MM-dd, and the entry becomes Submitted on success and Failed
      otherwise, every other field and every other entry unchanged; the
      audit table is written for that response. */
  lemma PostEntries(l: Ledger, i: nat, taskId: int, remote: Remote, now: int)
    requires i < |l.entries|
    ensures var r := Post(l, i, taskId, remote, now);
      var e := l.entries[i];
      && r.0 == remote.post(Registration(taskId, FormatDate(e.workDate), e.timeSpentSeconds, e.description, false))
      && r.1.entries == l.entries[i := e.(status := if r.0.Accepted? then Submitted else Failed)]
      && (r.1.submissions, r.1.nextId) == Audit(l.submissions, l.nextId, e.id, r.0, now)
  {
    VerdictStatus(remote.post(RequestFor(l.entries[i], taskId)));
  }

  /** A post keeps one audit record per entry, under unique keys. */
  lemma PostKeepsValid(l: Ledger, i: nat, taskId: int, remote: Remote, now: int)
    requires i < |l.entries| && SubmissionsValid(l.submissions, l.nextId)
    ensures var r := Post(l, i, taskId, remote, now);
      SubmissionsValid(r.1.submissions, r.1.nextId) && l.nextId <= r.1.nextId
  {
    var e := l.entries[i];
    AuditValid(l.submissions, l.nextId, e.id, remote.post(RequestFor(e, taskId)), now);
  }

  lemma AuditValid(subs: seq<SubmittedEntry>, next: int, entryId: int, response: ApiResponse, now: int)
    requires SubmissionsValid(subs, next)
    ensures var r := Audit(subs, next, entryId, response, now);
      SubmissionsValid(r.0, r.1) && next <= r.1
  {
    var verdict := Verdict(response);
    UpsertValid(subs, next, entryId, verdict.1, verdict.2, PriorAttempts(subs, entryId) + 1, now);
  }

  /** The entry and record statuses a response leads to. */
  lemma VerdictStatus(response: ApiResponse)
    ensures Verdict(response).0 == if response.Accepted? then Submitted else Failed
    ensures Verdict(response).1 == if response.Accepted? then Success else SubmissionFailed
  {
  }

  /** After the audit write the entry has one record, which counts one more
      attempt than before (1 when it is new), is stamped with the time, and
      is a Success without message, or a failure carrying "<status code>:
      <error>" or the exception's message. */
  lemma AuditRecord(subs: seq<SubmittedEntry>, next: int, entryId: int, response: ApiResponse, now: int)
    ensures var rec := RecordOf(Audit(subs, next, entryId, response, now).0, entryId);
      && rec.Some?
      && rec.value.attemptCount == PriorAttempts(subs, entryId) + 1
      && rec.value.submittedAt == now
      && (response.Accepted? ==> rec.value.status == Success && rec.value.errorMessage.None?)
      && (response.Rejected? ==>
            rec.value.status == SubmissionFailed && rec.value.errorMessage == Some(IntToString(response.statusCode) + ": " + response.error.GetOr("")))
      && (response.Threw? ==> rec.value.status == SubmissionFailed && rec.value.errorMessage == Some(response.message))
  {
    var verdict := Verdict(response);
    UpsertRecord(subs, next, entryId, verdict.1, verdict.2, PriorAttempts(subs, entryId) + 1, now);
    match response {
      case Accepted =>
        assert verdict == (Submitted, Success, None);
      case Rejected(code, error) =>
        assert verdict == (Failed, SubmissionFailed, Some(IntToString(code) + ": " + error.GetOr("")));
      case Threw(message) =>
        assert verdict == (Failed, SubmissionFailed, Some(message));
    }
  }

  /** The audit write leaves the record of every other entry as it was. */
  lemma AuditKeepsOthers(subs: seq<SubmittedEntry>, next: int, entryId: int, response: ApiResponse, now: int, other: int)
    requires other != entryId
    ensures RecordOf(Audit(subs, next, entryId, response, now).0, other) == RecordOf(subs, other)
  {
    var verdict := Verdict(response);
    UpsertKeepsOthers(subs, next, entryId, verdict.1, verdict.2, PriorAttempts(subs, entryId) + 1, now, other);
  }

  /** An entry with a task whose external id parses is posted with that
      id. */
  lemma SubmitPosts(l: Ledger, tasks: seq<TimelogTask>, i: nat, remote: Remote, now: int, t: nat)
    requires i < |l.entries|
    requires l.entries[i].taskId.Some? && t < |tasks| && tasks[t].id == l.entries[i].taskId.value
    requires forall j :: 0 <= j < t ==> tasks[j].id != l.entries[i].taskId.value
    requires remote.parseInt(tasks[t].externalId).Some?
    ensures var posted := Post(l, i, remote.parseInt(tasks[t].externalId).value, remote, now);
      SubmitSpec(l, tasks, i, remote, now) == (Sent(posted.0), posted.1)
  {
    FindIndexIs(tasks, TaskWithId(l.entries[i].taskId.value), t);
  }

  // ------------------------------------------------------------------
  // The service
  // ------------------------------------------------------------------

  /** `PersistFailure`: the failed attempt recorded on the existing record,
      or on a new one. */
  method PersistFailure(db: Db, existing: Option<nat>, entryId: int, attempts: int, message: string, now: int)
    requires db.Valid() && existing == RecordIndex(db.submissions, entryId)
    modifies db`submissions, db`nextId
    ensures db.Valid()
    ensures (db.submissions, db.nextId) ==
      Upsert(old(db.submissions), old(db.nextId), entryId, SubmissionFailed, Some(message), attempts, now)
  {
    UpsertValid(db.submissions, db.nextId, entryId, SubmissionFailed, Some(message), attempts, now);
    if existing.None? {
      db.submissions := db.submissions + [SubmittedEntry(db.nextId, entryId, None, SubmissionFailed, now, Some(message), attempts)];
      db.nextId := db.nextId + 1;
    } else {
      var k := existing.value;
      db.submissions := db.submissions[k := db.submissions[k].(status := SubmissionFailed, submittedAt := now,
                                                              attemptCount := attempts, errorMessage := Some(message))];
    }
  }

  /** The success branch: the record set to Success with no error message,
      existing or new. */
  method PersistSuccess(db: Db, existing: Option<nat>, entryId: int, attempts: int, now: int)
    requires db.Valid() && existing == RecordIndex(db.submissions, entryId)
    modifies db`submissions, db`nextId
    ensures db.Valid()
    ensures (db.submissions, db.nextId) == Upsert(old(db.submissions), old(db.nextId), entryId, Success, None, attempts, now)
  {
    UpsertValid(db.submissions, db.nextId, entryId, Success, None, attempts, now);
    if existing.None? {
      db.submissions := db.submissions + [SubmittedEntry(db.nextId, entryId, None, Success, now, None, attempts)];
      db.nextId := db.nextId + 1;
    } else {
      var k := existing.value;
      db.submissions := db.submissions[k := db.submissions[k].(status := Success, submittedAt := now,
                                                              attemptCount := attempts, errorMessage := None)];
    }
  }

  /** Sets the status of the entry at position `i`. */
  method SetStatus(db: Db, i: nat, status: ImportStatus)
    requires db.Valid() && i < |db.entries|
    modifies db`entries
    ensures db.Valid()
    ensures db.entries == old(db.entries)[i := old(db.entries)[i].(status := status)]
  {
    EntriesRewritten(db.entries, db.entries[i := db.entries[i].(status := status)], db.nextId);
    db.entries := db.entries[i := db.entries[i].(status := status)];
  }

  /** The `try` block of `SubmitAsync` and the save. */
  method PostEntry(db: Db, i: nat, taskId: int, remote: Remote, now: int) returns (response: ApiResponse)
    requires db.Valid() && i < |db.entries|
    modifies db`entries, db`submissions, db`nextId
    ensures db.Valid()
    ensures (response, Ledger(db.entries, db.submissions, db.nextId)) ==
      Post(Ledger(old(db.entries), old(db.submissions), old(db.nextId)), i, taskId, remote, now)
  {
    var entry := db.entries[i];
    var model := Registration(taskId, FormatDate(entry.workDate), entry.timeSpentSeconds, entry.description, false);
    var existing := RecordIndex(db.submissions, entry.id);
    var attemptCount := PriorAttempts(db.submissions, entry.id) + 1;
    response := remote.post(model);
    if response.Accepted? {
      SetStatus(db, i, Submitted);
      PersistSuccess(db, existing, entry.id, attemptCount, now);
    } else if response.Rejected? {
      SetStatus(db, i, Failed);
      PersistFailure(db, existing, entry.id, attemptCount, IntToString(response.statusCode) + ": " + response.error.GetOr(""), now);
    } else {
      SetStatus(db, i, Failed);
      PersistFailure(db, existing, entry.id, attemptCount, response.message, now);
    }
  }

  /** `SubmitAsync` for the entry at position `i`. */
  method Submit(db: Db, i: nat, remote: Remote, now: int) returns (r: SubmitResult)
    requires db.Valid() && i < |db.entries|
    modifies db`entries, db`submissions, db`nextId
    ensures db.Valid()
    ensures (r, Ledger(db.entries, db.submissions, db.nextId)) ==
      SubmitSpec(Ledger(old(db.entries), old(db.submissions), old(db.nextId)), db.tasks, i, remote, now)
  {
    var entry := db.entries[i];
    if entry.taskId.None? {
      return NoTask;
    }
    var t := FindIndex(db.tasks, TaskWithId(entry.taskId.value));
    if t.None? {
      return TaskNotFound;
    }
    var taskId := remote.parseInt(db.tasks[t.value].externalId);
    if taskId.None? {
      return BadTaskId;
    }
    var response := PostEntry(db, i, taskId.value, remote, now);
    return Sent(response);
  }

  // ------------------------------------------------------------------
  // Submitting a list of entries
  // ------------------------------------------------------------------

  /** The entries `SubmitAllPendingAsync` picks: Mapped or Failed, with a
      task. */
  predicate IsDue(e: ImportedEntry) {
    (e.status == Mapped || e.status == Failed) && e.taskId.Some?
  }

  /** `SubmitAsync` on the entries at `ps` one after another; a `BadTaskId`
      is an exception that ends the loop, the earlier saves kept. Returns
      whether it threw. */
  function SubmitEach(l: Ledger, tasks: seq<TimelogTask>, ps: seq<nat>, remote: Remote, now: int): (r: (bool, Ledger))
    requires forall k :: 0 <= k < |ps| ==> ps[k] < |l.entries|
    ensures |r.1.entries| == |l.entries|
    decreases |ps|
  {
    if |ps| == 0 then (false, l)
    else
      var step := SubmitSpec(l, tasks, ps[0], remote, now);
      if step.0 == BadTaskId then (true, step.1)
      else SubmitEach(step.1, tasks, ps[1..], remote, now)
  }

  /** Entries that are not in the list keep every field; the ones in the
      list change their status at most; the table keeps one record per
      entry. */
  lemma {:induction false} SubmitEachTouches(l: Ledger, tasks: seq<TimelogTask>, ps: seq<nat>, remote: Remote, now: int)
    requires forall k :: 0 <= k < |ps| ==> ps[k] < |l.entries|
    requires SubmissionsValid(l.submissions, l.nextId)
    ensures var r := SubmitEach(l, tasks, ps, remote, now).1;
      && SubmissionsValid(r.submissions, r.nextId)
      && (forall p :: 0 <= p < |l.entries| && p !in ps ==> r.entries[p] == l.entries[p])
      && (forall p :: 0 <= p < |l.entries| ==> r.entries[p] == l.entries[p].(status := r.entries[p].status))
    decreases |ps|
  {
    if |ps| > 0 {
      var step := SubmitSpec(l, tasks, ps[0], remote, now);
      SubmitSpecTouches(l, tasks, ps[0], remote, now);
      if step.0 != BadTaskId {
        SubmitEachTouches(step.1, tasks, ps[1..], remote, now);
        var r := SubmitEach(step.1, tasks, ps[1..], remote, now).1;
        assert r == SubmitEach(l, tasks, ps, remote, now).1;
        forall p | 0 <= p < |l.entries| && p !in ps ensures r.entries[p] == l.entries[p] {
          assert p !in ps[1..];
        }
      }
    }
  }

  /** One submission changes at most the status of its own entry and keeps
      one record per entry. */
  lemma SubmitSpecTouches(l: Ledger, tasks: seq<TimelogTask>, i: nat, remote: Remote, now: int)
    requires i < |l.entries| && SubmissionsValid(l.submissions, l.nextId)
    ensures var r := SubmitSpec(l, tasks, i, remote, now).1;
      && SubmissionsValid(r.submissions, r.nextId)
      && (forall p :: 0 <= p < |l.entries| && p != i ==> r.entries[p] == l.entries[p])
      && r.entries[i] == l.entries[i].(status := r.entries[i].status)
  {
    var e := l.entries[i];
    if SubmitSpec(l, tasks, i, remote, now).0.Sent? {
      var t := FindIndex(tasks, TaskWithId(e.taskId.value)).value;
      PostEntries(l, i, remote.parseInt(tasks[t].externalId).value, remote, now);
      PostKeepsValid(l, i, remote.parseInt(tasks[t].externalId).value, remote, now);
    }
  }

  lemma SubmitEachStep(l: Ledger, tasks: seq<TimelogTask>, ps: seq<nat>, i: nat, remote: Remote, now: int)
    requires i < |ps| && forall k :: 0 <= k < |ps| ==> ps[k] < |l.entries|
    requires SubmitSpec(l, tasks, ps[i], remote, now).0 != BadTaskId
    ensures SubmitEach(l, tasks, ps[i..], remote, now) == SubmitEach(SubmitSpec(l, tasks, ps[i], remote, now).1, tasks, ps[i + 1..], remote, now)
  {
    assert ps[i..][1..] == ps[i + 1..];
  }

  /** The `foreach` of `SubmitAllPendingAsync` and `SubmitSelectedAsync`
      over the positions of the entities the query returned. */
  method SubmitPositions(db: Db, ps: seq<nat>, remote: Remote, now: int) returns (threw: bool)
    requires db.Valid() && forall k :: 0 <= k < |ps| ==> ps[k] < |db.entries|
    modifies db`entries, db`submissions, db`nextId
    ensures db.Valid()
    ensures (threw, Ledger(db.entries, db.submissions, db.nextId)) ==
      SubmitEach(Ledger(old(db.entries), old(db.submissions), old(db.nextId)), db.tasks, ps, remote, now)
  {
    ghost var goal := SubmitEach(Ledger(db.entries, db.submissions, db.nextId), db.tasks, ps, remote, now);
    var i := 0;
    while i < |ps|
      invariant 0 <= i <= |ps| && db.Valid()
      invariant forall k :: 0 <= k < |ps| ==> ps[k] < |db.entries|
      invariant SubmitEach(Ledger(db.entries, db.submissions, db.nextId), db.tasks, ps[i..], remote, now) == goal
    {
      ghost var before := Ledger(db.entries, db.submissions, db.nextId);
      var r := Submit(db, ps[i], remote, now);
      if r == BadTaskId {
        assert ps[i..][0] == ps[i];
        return true;
      }
      SubmitEachStep(before, db.tasks, ps, i, remote, now);
      i := i + 1;
    }
    return false;
  }

  /** `SubmitAllPendingAsync`: submits, one at a time and in table order,
      the entries that were Mapped or Failed with a task when it started. */
  method SubmitAllPending(db: Db, remote: Remote, now: int) returns (threw: bool)
    requires db.Valid()
    modifies db`entries, db`submissions, db`nextId
    ensures db.Valid()
    ensures (threw, Ledger(db.entries, db.submissions, db.nextId)) ==
      SubmitEach(Ledger(old(db.entries), old(db.submissions), old(db.nextId)), db.tasks, Positions(old(db.entries), IsDue), remote, now)
  {
    var due := Positions(db.entries, IsDue);
    threw := SubmitPositions(db, due, remote, now);
  }
}
