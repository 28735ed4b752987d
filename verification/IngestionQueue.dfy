/**
 The life of a queue row: several uncoordinated workers send statements to one table. A run
 is any sequence of those statements, so every interleaving of the workers is one.
 */
module IngestionQueue {
  import opened Options

  datatype Status = PENDING | PROCESSING | PROCESSED | PREVIEW_READY | FINALIZED | CANCELLED | EXPIRED | FAILED

  datatype Entry = Entry(blob: string, status: Status, startedAt: Option<int>, completedAt: Option<int>,
                         retryCount: nat, maxAttempts: nat, priority: int, createdAt: int)

  type Rows = map<string, Entry>

  /** What the pipeline writes when it ends; SKIPPED is no status the table allows. */
  datatype Ending = EndFailed | EndPreview | EndFinalized | EndSkipped

  datatype Statement =
    | Enqueue(id: string, blob: string, priority: int, now: int)
    | Claim(id: string, now: int)
    | MarkProcessed(id: string)
    | RecordFailure(id: string)
    | End(id: string, ending: Ending, now: int)
    | Recover(cutoff: int)
    | GiveUp(cutoff: int)
    | FailStale(id: string, now: int)
    | Expire(id: string)
    | CleanUp(cutoff: int)

  predicate Stale(e: Entry, cutoff: int) {
    e.status == PROCESSING && e.startedAt.Some? && e.startedAt.value < cutoff
  }

  /** What a statement does to a row that is there. */
  function Touch(e: Entry, id: string, st: Statement): Entry {
    match st
    case Enqueue(_, _, _, _) => e
    case Claim(x, now) =>
      if x == id && e.status == PENDING then e.(status := PROCESSING, startedAt := Some(now)) else e
    case MarkProcessed(x) => if x == id then e.(status := PROCESSED) else e
    case RecordFailure(x) => if x == id then e.(status := FAILED, retryCount := e.retryCount + 1) else e
    case End(x, ending, now) =>
      if x != id then e
      else (match ending
            case EndFailed => e.(status := FAILED, completedAt := Some(now))
            case EndPreview => e.(status := PREVIEW_READY, completedAt := Some(now))
            case EndFinalized => e.(status := FINALIZED)
            case EndSkipped => e)
    case Recover(cutoff) =>
      if Stale(e, cutoff) && e.retryCount < e.maxAttempts
      then e.(status := PENDING, retryCount := e.retryCount + 1) else e
    case GiveUp(cutoff) => if Stale(e, cutoff) && e.retryCount >= e.maxAttempts then e.(status := FAILED) else e
    case FailStale(x, now) =>
      if x == id && e.status == PROCESSING then e.(status := FAILED, completedAt := Some(now)) else e
    case Expire(x) => if x == id then e.(status := EXPIRED) else e
    case CleanUp(_) => e
  }

  /** The hourly cleanup deletes rows that completed long enough ago. */
  predicate Deletes(e: Entry, st: Statement) {
    st.CleanUp? && (e.status == PREVIEW_READY || e.status == FINALIZED)
    && e.completedAt.Some? && e.completedAt.value < st.cutoff
  }

  predicate BlobQueued(rows: Rows, blob: string) {
    exists id :: id in rows && rows[id].blob == blob
  }

  function NewEntry(limit: nat, st: Statement): Entry
    requires st.Enqueue?
  {
    Entry(st.blob, PENDING, None, None, 0, limit, st.priority, st.now)
  }

  /** One statement; `limit` is the table's default for max_attempts. A second row for a blob
      or an id breaks a key and is not inserted. */
  function Exec(limit: nat, rows: Rows, st: Statement): Rows {
    var touched := map id | id in rows && !Deletes(rows[id], st) :: Touch(rows[id], id, st);
    if st.Enqueue? && st.id !in rows && !BlobQueued(rows, st.blob) then touched[st.id := NewEntry(limit, st)]
    else touched
  }

  /** The table after the first n statements of a run. */
  function At(limit: nat, run: seq<Statement>, n: nat): Rows
    requires n <= |run|
  {
    if n == 0 then map[] else Exec(limit, At(limit, run, n - 1), run[n - 1])
  }

  function After(limit: nat, run: seq<Statement>): Rows {
    At(limit, run, |run|)
  }

  // ------------------------------------------------------------- what is counted

  /** The statement takes the row from PENDING to PROCESSING. */
  predicate Claims(rows: Rows, st: Statement, id: string) {
    st.Claim? && st.id == id && id in rows && rows[id].status == PENDING
  }

  predicate Recovers(rows: Rows, st: Statement, id: string) {
    st.Recover? && id in rows && Stale(rows[id], st.cutoff) && rows[id].retryCount < rows[id].maxAttempts
  }

  predicate RecordsFailure(rows: Rows, st: Statement, id: string) {
    st.RecordFailure? && st.id == id && id in rows
  }

  function One(b: bool): nat { if b then 1 else 0 }

  function ClaimCount(limit: nat, run: seq<Statement>, n: nat, id: string): nat
    requires n <= |run|
  {
    if n == 0 then 0 else ClaimCount(limit, run, n - 1, id) + One(Claims(At(limit, run, n - 1), run[n - 1], id))
  }

  function RecoveryCount(limit: nat, run: seq<Statement>, n: nat, id: string): nat
    requires n <= |run|
  {
    if n == 0 then 0 else RecoveryCount(limit, run, n - 1, id) + One(Recovers(At(limit, run, n - 1), run[n - 1], id))
  }

  function FailureCount(limit: nat, run: seq<Statement>, n: nat, id: string): nat
    requires n <= |run|
  {
    if n == 0 then 0
    else FailureCount(limit, run, n - 1, id) + One(RecordsFailure(At(limit, run, n - 1), run[n - 1], id))
  }

  /** The words of the definitions: a claim and nothing else makes a pending row processing,
      and a recovery and nothing else makes a row pending again. */
  lemma CountedSteps(limit: nat, rows: Rows, st: Statement, id: string)
    requires id in rows && id in Exec(limit, rows, st)
    ensures Claims(rows, st, id) <==> rows[id].status == PENDING && Exec(limit, rows, st)[id].status == PROCESSING
    ensures Recovers(rows, st, id) <==> rows[id].status != PENDING && Exec(limit, rows, st)[id].status == PENDING
    ensures Exec(limit, rows, st)[id].status == PROCESSING && rows[id].status != PROCESSING ==> Claims(rows, st, id)
  {
  }

  // ------------------------------------------------------------------- invariants

  ghost predicate RowInv(limit: nat, e: Entry, claims: nat, recoveries: nat, failures: nat) {
    && e.maxAttempts == limit && e.retryCount == recoveries + failures
    && recoveries <= limit
    && claims <= recoveries + (if e.status == PENDING then 0 else 1)
    && (e.status == PROCESSING ==> e.startedAt.Some?)
  }

  /** Ids are drawn fresh for each enqueue; no two are the same. */
  ghost predicate FreshIds(run: seq<Statement>) {
    forall i, j :: 0 <= i < j < |run| && run[i].Enqueue? && run[j].Enqueue? ==> run[i].id != run[j].id
  }

  ghost predicate Enqueued(run: seq<Statement>, n: nat, id: string)
    requires n <= |run|
  {
    exists i :: 0 <= i < n && run[i].Enqueue? && run[i].id == id
  }

  ghost predicate Bounded(limit: nat, claims: nat, recoveries: nat) {
    recoveries <= limit && claims <= recoveries + 1
  }

  /** A row not yet enqueued has been neither claimed nor recovered nor failed; a deleted one
      keeps its bounds. */
  ghost predicate Inv(limit: nat, run: seq<Statement>, n: nat, id: string)
    requires n <= |run|
  {
    var rows := At(limit, run, n);
    var claims, recoveries, failures :=
      ClaimCount(limit, run, n, id), RecoveryCount(limit, run, n, id), FailureCount(limit, run, n, id);
    && Bounded(limit, claims, recoveries)
    && (id in rows ==> Enqueued(run, n, id) && RowInv(limit, rows[id], claims, recoveries, failures))
    && (!Enqueued(run, n, id) ==> claims == 0 && recoveries == 0 && failures == 0)
  }

  lemma StepKeepsRowInv(limit: nat, rows: Rows, st: Statement, id: string, claims: nat, recoveries: nat, failures: nat)
    requires id in rows && RowInv(limit, rows[id], claims, recoveries, failures)
    ensures RowInv(limit, Touch(rows[id], id, st), claims + One(Claims(rows, st, id)),
                   recoveries + One(Recovers(rows, st, id)), failures + One(RecordsFailure(rows, st, id)))
  {
  }

  lemma EnqueuedOneMore(run: seq<Statement>, n: nat, id: string)
    requires n < |run| && FreshIds(run)
    ensures Enqueued(run, n + 1, id) <==> Enqueued(run, n, id) || (run[n].Enqueue? && run[n].id == id)
    ensures run[n].Enqueue? ==> !Enqueued(run, n, run[n].id)
  {
  }

  lemma InvStep(limit: nat, run: seq<Statement>, n: nat, id: string)
    requires n < |run| && FreshIds(run) && Inv(limit, run, n, id)
    ensures Inv(limit, run, n + 1, id)
  {
    var rows := At(limit, run, n);
    EnqueuedOneMore(run, n, id);
    if id in rows {
      StepKeepsRowInv(limit, rows, run[n], id, ClaimCount(limit, run, n, id), RecoveryCount(limit, run, n, id),
                      FailureCount(limit, run, n, id));
    }
  }

  lemma {:induction false} InvRun(limit: nat, run: seq<Statement>, n: nat, id: string)
    requires FreshIds(run) && n <= |run|
    ensures Inv(limit, run, n, id)
  {
    if n > 0 {
      InvRun(limit, run, n - 1, id);
      InvStep(limit, run, n - 1, id);
    }
  }

  /** In every interleaving, at every point, a row has been claimed at most max_attempts + 1
      times, its retry count is its recoveries plus its recorded failures, at most max_attempts
      of them recoveries, and a row being processed has a start time. */
  lemma BoundedWork(limit: nat, run: seq<Statement>, n: nat, id: string)
    requires FreshIds(run) && n <= |run|
    ensures ClaimCount(limit, run, n, id) <= limit + 1
    ensures ClaimCount(limit, run, n, id) <= RecoveryCount(limit, run, n, id) + 1
    ensures RecoveryCount(limit, run, n, id) <= limit
    ensures id in At(limit, run, n) ==>
              var e := At(limit, run, n)[id];
              && e.retryCount == RecoveryCount(limit, run, n, id) + FailureCount(limit, run, n, id)
              && (e.status == PROCESSING ==> e.startedAt.Some?)
              && (e.status == PENDING ==> ClaimCount(limit, run, n, id) <= RecoveryCount(limit, run, n, id))
  {
    InvRun(limit, run, n, id);
  }

  /** The row was enqueued and is not pending now; it may be gone. */
  ghost predicate Taken(limit: nat, run: seq<Statement>, n: nat, id: string)
    requires n <= |run|
  {
    var rows := At(limit, run, n);
    Enqueued(run, n, id) && (id in rows ==> rows[id].status != PENDING)
  }

  lemma TakenUntilRecovered(limit: nat, rows: Rows, st: Statement, id: string)
    requires id in rows ==> rows[id].status != PENDING
    requires !Recovers(rows, st, id) && !(st.Enqueue? && st.id == id)
    ensures id in Exec(limit, rows, st) ==> Exec(limit, rows, st)[id].status != PENDING
  {
  }

  predicate ClaimedAt(limit: nat, run: seq<Statement>, k: nat, id: string)
    requires k < |run|
  {
    Claims(At(limit, run, k), run[k], id)
  }

  predicate RecoveredAt(limit: nat, run: seq<Statement>, k: nat, id: string)
    requires k < |run|
  {
    Recovers(At(limit, run, k), run[k], id)
  }

  ghost predicate NoRecovery(limit: nat, run: seq<Statement>, i: nat, j: nat, id: string)
    requires i <= j <= |run|
  {
    forall k: nat :: i <= k < j ==> !RecoveredAt(limit, run, k, id)
  }

  lemma {:induction false} PendingOnlyByRecovery(limit: nat, run: seq<Statement>, i: nat, j: nat, id: string)
    requires FreshIds(run) && i <= j <= |run| && Taken(limit, run, i, id) && NoRecovery(limit, run, i, j, id)
    ensures Taken(limit, run, j, id)
  {
    if i < j {
      assert NoRecovery(limit, run, i, j - 1, id);
      PendingOnlyByRecovery(limit, run, i, j - 1, id);
      EnqueuedOneMore(run, j - 1, id);
      assert !RecoveredAt(limit, run, j - 1, id);
      TakenUntilRecovered(limit, At(limit, run, j - 1), run[j - 1], id);
    }
  }

  lemma ClaimTakes(limit: nat, run: seq<Statement>, i: nat, id: string)
    requires FreshIds(run) && i < |run| && ClaimedAt(limit, run, i, id)
    ensures Taken(limit, run, i + 1, id)
  {
    InvRun(limit, run, i, id);
    EnqueuedOneMore(run, i, id);
  }

  /** Each pending period has at most one claim: between two claims lies a recovery. */
  lemma OneClaimPerPendingPeriod(limit: nat, run: seq<Statement>, i: nat, j: nat, id: string)
    requires FreshIds(run) && i < j < |run|
    requires ClaimedAt(limit, run, i, id) && ClaimedAt(limit, run, j, id)
    ensures exists k: nat :: i < k < j && RecoveredAt(limit, run, k, id)
  {
    if NoRecovery(limit, run, i + 1, j, id) {
      ClaimTakes(limit, run, i, id);
      PendingOnlyByRecovery(limit, run, i + 1, j, id);
    }
  }

  // -------------------------------------------------------------- the clocks of a row

  /** The row has been processing since statement k, a claim at this time. */
  ghost predicate ProcessingSince(limit: nat, run: seq<Statement>, n: nat, id: string, k: nat, t: int)
    requires n <= |run|
  {
    && k < n && run[k] == Claim(id, t)
    && id in At(limit, run, k) && At(limit, run, k)[id].status == PENDING
    && forall m: nat :: k < m <= n ==> id in At(limit, run, m) && At(limit, run, m)[id].status == PROCESSING
  }

  lemma StartStays(limit: nat, rows: Rows, st: Statement, id: string)
    requires id in rows && rows[id].status == PROCESSING
    requires id in Exec(limit, rows, st) && Exec(limit, rows, st)[id].status == PROCESSING
    ensures Exec(limit, rows, st)[id].startedAt == rows[id].startedAt
  {
  }

  lemma SinceOneMore(limit: nat, run: seq<Statement>, n: nat, id: string, k: nat, t: int)
    requires n < |run| && ProcessingSince(limit, run, n, id, k, t)
    requires id in At(limit, run, n + 1) && At(limit, run, n + 1)[id].status == PROCESSING
    ensures ProcessingSince(limit, run, n + 1, id, k, t)
    ensures At(limit, run, n + 1)[id].startedAt == At(limit, run, n)[id].startedAt
  {
    StartStays(limit, At(limit, run, n), run[n], id);
  }

  lemma SinceClaim(limit: nat, run: seq<Statement>, n: nat, id: string)
    requires n < |run| && id in At(limit, run, n + 1) && At(limit, run, n + 1)[id].status == PROCESSING
    requires id in At(limit, run, n) ==> At(limit, run, n)[id].status != PROCESSING
    ensures run[n].Claim? && ProcessingSince(limit, run, n + 1, id, n, run[n].now)
    ensures At(limit, run, n + 1)[id].startedAt == Some(run[n].now)
  {
    var t := if run[n].Claim? then run[n].now else 0;
    assert run[n] == Claim(id, t);
    assert ProcessingSince(limit, run, n + 1, id, n, t);
  }

  /** In every run a row that is being processed started at the time of the claim that took
      it, and has been processing ever since. */
  lemma {:induction false} StartedByItsClaim(limit: nat, run: seq<Statement>, n: nat, id: string)
    returns (k: nat, t: int)
    requires n <= |run| && id in At(limit, run, n) && At(limit, run, n)[id].status == PROCESSING
    ensures ProcessingSince(limit, run, n, id, k, t) && At(limit, run, n)[id].startedAt == Some(t)
  {
    if id in At(limit, run, n - 1) && At(limit, run, n - 1)[id].status == PROCESSING {
      k, t := StartedByItsClaim(limit, run, n - 1, id);
      SinceOneMore(limit, run, n - 1, id, k, t);
    } else {
      k, t := n - 1, run[n - 1].now;
      SinceClaim(limit, run, n - 1, id);
    }
  }

  /** So recovery, giving up and the stale detector take a row exactly if it is processing and
      the claim that took it is older than the cutoff: one claimed at the cutoff or later is
      left alone. */
  lemma OnlyOldClaimsAreStale(limit: nat, run: seq<Statement>, n: nat, id: string, k: nat, t: int, cutoff: int)
    requires n <= |run| && ProcessingSince(limit, run, n, id, k, t)
    ensures var rows := At(limit, run, n);
      var e := rows[id];
      && (Stale(e, cutoff) <==> t < cutoff)
      && id in Exec(limit, rows, Recover(cutoff)) && id in Exec(limit, rows, GiveUp(cutoff))
      && Exec(limit, rows, Recover(cutoff))[id]
         == (if t < cutoff && e.retryCount < e.maxAttempts
             then e.(status := PENDING, retryCount := e.retryCount + 1) else e)
      && Exec(limit, rows, GiveUp(cutoff))[id]
         == if t < cutoff && e.retryCount >= e.maxAttempts then e.(status := FAILED) else e
  {
    var k', t' := StartedByItsClaim(limit, run, n, id);
    SinceIsUnique(limit, run, n, id, k, t, k', t');
    TakenBack(limit, At(limit, run, n), id, t, cutoff);
  }

  lemma TakenBack(limit: nat, rows: Rows, id: string, t: int, cutoff: int)
    requires id in rows && rows[id].status == PROCESSING && rows[id].startedAt == Some(t)
    ensures var e := rows[id];
      && (Stale(e, cutoff) <==> t < cutoff)
      && id in Exec(limit, rows, Recover(cutoff)) && id in Exec(limit, rows, GiveUp(cutoff))
      && Exec(limit, rows, Recover(cutoff))[id]
         == (if t < cutoff && e.retryCount < e.maxAttempts
             then e.(status := PENDING, retryCount := e.retryCount + 1) else e)
      && Exec(limit, rows, GiveUp(cutoff))[id]
         == if t < cutoff && e.retryCount >= e.maxAttempts then e.(status := FAILED) else e
  {
  }

  lemma NotPendingSince(limit: nat, run: seq<Statement>, n: nat, id: string, k: nat, t: int, m: nat)
    requires n <= |run| && ProcessingSince(limit, run, n, id, k, t) && k < m <= n
    ensures id in At(limit, run, m) ==> At(limit, run, m)[id].status != PENDING
  {
  }

  lemma SinceIsUnique(limit: nat, run: seq<Statement>, n: nat, id: string, k: nat, t: int, k': nat, t': int)
    requires n <= |run| && ProcessingSince(limit, run, n, id, k, t) && ProcessingSince(limit, run, n, id, k', t')
    ensures k == k' && t == t'
  {
    if k < k' { NotPendingSince(limit, run, n, id, k, t, k'); }
    if k' < k { NotPendingSince(limit, run, n, id, k', t', k); }
  }

  /** A row that is not processing is never stale. */
  lemma OnlyProcessingIsStale(limit: nat, rows: Rows, id: string, cutoff: int)
    requires id in rows && rows[id].status != PROCESSING
    ensures !Stale(rows[id], cutoff)
    ensures Exec(limit, rows, Recover(cutoff))[id] == rows[id] == Exec(limit, rows, GiveUp(cutoff))[id]
  {
  }

  /** The statement ends the row and writes the time. */
  predicate Stamps(rows: Rows, st: Statement, id: string) {
    && id in rows
    && match st
       case End(x, ending, _) => x == id && (ending.EndFailed? || ending.EndPreview?)
       case FailStale(x, _) => x == id && rows[id].status == PROCESSING
       case _ => false
  }

  /** The last time a statement stamped the row. */
  function LastStamp(limit: nat, run: seq<Statement>, n: nat, id: string): Option<int>
    requires n <= |run|
  {
    if n == 0 then None
    else if Stamps(At(limit, run, n - 1), run[n - 1], id) then Some(run[n - 1].now)
    else LastStamp(limit, run, n - 1, id)
  }

  lemma {:induction false} NoStampBefore(limit: nat, run: seq<Statement>, n: nat, id: string)
    requires n <= |run| && FreshIds(run) && !Enqueued(run, n, id)
    ensures LastStamp(limit, run, n, id).None?
  {
    if n > 0 {
      EnqueuedOneMore(run, n - 1, id);
      NoStampBefore(limit, run, n - 1, id);
      InvRun(limit, run, n - 1, id);
    }
  }

  lemma StampStep(limit: nat, rows: Rows, st: Statement, id: string)
    requires id in rows && id in Exec(limit, rows, st)
    ensures Exec(limit, rows, st)[id].completedAt
            == if Stamps(rows, st, id) then Some(st.now) else rows[id].completedAt
  {
  }

  lemma NewRowIsUnstamped(limit: nat, rows: Rows, st: Statement, id: string)
    requires id !in rows && id in Exec(limit, rows, st)
    ensures st.Enqueue? && st.id == id && Exec(limit, rows, st)[id].completedAt.None? && !Stamps(rows, st, id)
  {
  }

  /** In every run a row's completion time is that of the last failure, preview or stale
      failure written to it. */
  lemma {:induction false} CompletedByTheLastStamp(limit: nat, run: seq<Statement>, n: nat, id: string)
    requires n <= |run| && FreshIds(run) && id in At(limit, run, n)
    ensures At(limit, run, n)[id].completedAt == LastStamp(limit, run, n, id)
  {
    if id in At(limit, run, n - 1) {
      CompletedByTheLastStamp(limit, run, n - 1, id);
      StampStep(limit, At(limit, run, n - 1), run[n - 1], id);
    } else {
      NewRowIsUnstamped(limit, At(limit, run, n - 1), run[n - 1], id);
      EnqueuedOneMore(run, n - 1, id);
      NoStampBefore(limit, run, n - 1, id);
    }
  }

  /** So the hourly cleanup deletes a row exactly if it is a preview or finalized and its last
      such time is older than the cutoff. */
  lemma CleanedUpExactly(limit: nat, run: seq<Statement>, n: nat, id: string, cutoff: int)
    requires n <= |run| && FreshIds(run) && id in At(limit, run, n)
    ensures var rows, done := At(limit, run, n), LastStamp(limit, run, n, id);
      id !in Exec(limit, rows, CleanUp(cutoff))
      <==> (rows[id].status == PREVIEW_READY || rows[id].status == FINALIZED) && done.Some? && done.value < cutoff
  {
    CompletedByTheLastStamp(limit, run, n, id);
  }

  /** And the daily one expires it exactly if it is a preview that old. */
  lemma ExpiredExactly(limit: nat, run: seq<Statement>, n: nat, id: string, threshold: int)
    requires n <= |run| && FreshIds(run) && id in At(limit, run, n)
    ensures var e, done := At(limit, run, n)[id], LastStamp(limit, run, n, id);
      OldPreview(e, threshold) <==> e.status == PREVIEW_READY && done.Some? && done.value < threshold
  {
    CompletedByTheLastStamp(limit, run, n, id);
  }

  // ------------------------------------------------------------------- ended rows

  /** Neither waiting nor being processed. */
  predicate Ended(rows: Rows, id: string) {
    id in rows && rows[id].status != PENDING && rows[id].status != PROCESSING
  }

  predicate Ends(ending: Ending, status: Status) {
    match ending
    case EndFailed => status == FAILED
    case EndPreview => status == PREVIEW_READY
    case EndFinalized => status == FINALIZED
    case EndSkipped => false
  }

  /** One of the writes that ask for no status, with another status, or the row's deletion. */
  predicate Overwrites(rows: Rows, st: Statement, id: string)
    requires id in rows
  {
    match st
    case MarkProcessed(x) => x == id && rows[id].status != PROCESSED
    case RecordFailure(x) => x == id && rows[id].status != FAILED
    case End(x, ending, _) => x == id && !ending.EndSkipped? && !Ends(ending, rows[id].status)
    case Expire(x) => x == id && rows[id].status != EXPIRED
    case CleanUp(_) => Deletes(rows[id], st)
    case _ => false
  }

  predicate SameStatus(rows: Rows, rows': Rows, id: string)
    requires id in rows
  {
    id in rows' && rows'[id].status == rows[id].status
  }

  /** An ended row keeps its status over a statement exactly when that is not one of the
      unconditional writes of another status, nor deletes it. */
  lemma EndedKeepsItsStatusExactly(limit: nat, rows: Rows, st: Statement, id: string)
    requires Ended(rows, id)
    ensures SameStatus(rows, Exec(limit, rows, st), id) <==> !Overwrites(rows, st, id)
    ensures id in Exec(limit, rows, st) ==> Ended(Exec(limit, rows, st), id)
    ensures !Claims(rows, st, id) && !Recovers(rows, st, id)
  {
  }

  /** The row was enqueued, and if it is still there it has ended. */
  ghost predicate EndedOrGone(limit: nat, run: seq<Statement>, n: nat, id: string)
    requires n <= |run|
  {
    Enqueued(run, n, id) && (id in At(limit, run, n) ==> Ended(At(limit, run, n), id))
  }

  lemma {:induction false} EndedOrGoneStays(limit: nat, run: seq<Statement>, i: nat, j: nat, id: string)
    requires FreshIds(run) && i <= j <= |run| && EndedOrGone(limit, run, i, id)
    ensures EndedOrGone(limit, run, j, id)
  {
    if i < j {
      EndedOrGoneStays(limit, run, i, j - 1, id);
      EnqueuedOneMore(run, j - 1, id);
      var rows := At(limit, run, j - 1);
      if id in rows { EndedKeepsItsStatusExactly(limit, rows, run[j - 1], id); }
    }
  }

  /** In no interleaving is an ended row claimed or recovered again: once ended, it is ended or
      deleted ever after. */
  lemma EndedForGood(limit: nat, run: seq<Statement>, i: nat, j: nat, id: string)
    requires FreshIds(run) && i <= j <= |run| && Ended(At(limit, run, i), id)
    ensures id in At(limit, run, j) ==> Ended(At(limit, run, j), id)
    ensures j < |run| ==> !Claims(At(limit, run, j), run[j], id) && !Recovers(At(limit, run, j), run[j], id)
  {
    InvRun(limit, run, i, id);
    EndedOrGoneStays(limit, run, i, j, id);
  }

  /** The row is there with the same status at every point from i to j. */
  ghost predicate Keeps(limit: nat, run: seq<Statement>, i: nat, j: nat, id: string)
    requires i <= j <= |run| && id in At(limit, run, i)
  {
    forall m: nat :: i <= m <= j ==> SameStatus(At(limit, run, i), At(limit, run, m), id)
  }

  ghost predicate OverwrittenAt(limit: nat, run: seq<Statement>, k: nat, id: string)
    requires k < |run|
  {
    id in At(limit, run, k) && Overwrites(At(limit, run, k), run[k], id)
  }

  lemma KeepsOneMore(limit: nat, run: seq<Statement>, i: nat, j: nat, id: string)
    requires i < j <= |run| && Ended(At(limit, run, i), id)
    ensures Keeps(limit, run, i, j, id) <==> Keeps(limit, run, i, j - 1, id) && !OverwrittenAt(limit, run, j - 1, id)
  {
    if Keeps(limit, run, i, j - 1, id) {
      var rows, rows' := At(limit, run, j - 1), At(limit, run, j);
      assert SameStatus(At(limit, run, i), rows, id);
      EndedKeepsItsStatusExactly(limit, rows, run[j - 1], id);
      assert SameStatus(At(limit, run, i), rows', id) <==> SameStatus(rows, rows', id);
      assert Keeps(limit, run, i, j, id) <==> SameStatus(At(limit, run, i), rows', id);
    }
  }

  /** Over a run an ended row keeps its status exactly as long as no unconditional write of
      another status reaches it and it is not deleted. */
  lemma {:induction false} EndedKeepsExactlyUntilOverwritten(limit: nat, run: seq<Statement>, i: nat, j: nat,
                                                             id: string)
    requires i <= j <= |run| && Ended(At(limit, run, i), id)
    ensures Keeps(limit, run, i, j, id) <==> forall k: nat :: i <= k < j ==> !OverwrittenAt(limit, run, k, id)
  {
    if i < j {
      EndedKeepsExactlyUntilOverwritten(limit, run, i, j - 1, id);
      KeepsOneMore(limit, run, i, j, id);
    }
  }

  ghost predicate DistinctBlobs(rows: Rows) {
    forall a, b :: a in rows && b in rows && rows[a].blob == rows[b].blob ==> a == b
  }

  lemma BlobStep(limit: nat, rows: Rows, st: Statement)
    requires DistinctBlobs(rows)
    ensures DistinctBlobs(Exec(limit, rows, st))
  {
    var rows' := Exec(limit, rows, st);
    forall a, b | a in rows' && b in rows' && rows'[a].blob == rows'[b].blob ensures a == b {
      BlobStays(limit, rows, st, a);
      BlobStays(limit, rows, st, b);
    }
  }

  lemma BlobStays(limit: nat, rows: Rows, st: Statement, id: string)
    requires id in Exec(limit, rows, st)
    ensures id in rows ==> Exec(limit, rows, st)[id].blob == rows[id].blob
    ensures id !in rows ==>
            st.Enqueue? && st.id == id && Exec(limit, rows, st)[id].blob == st.blob && !BlobQueued(rows, st.blob)
  {
  }

  /** At any time a blob has at most one row. */
  lemma {:induction false} BlobsAreUnique(limit: nat, run: seq<Statement>, n: nat)
    requires n <= |run|
    ensures DistinctBlobs(At(limit, run, n))
  {
    if n > 0 {
      BlobsAreUnique(limit, run, n - 1);
      BlobStep(limit, At(limit, run, n - 1), run[n - 1]);
    }
  }

  // --------------------------------------------------------------- the bound is met

  /** Claimed and recovered, over and over. */
  function Rounds(n: nat): seq<Statement> {
    if n == 0 then [Enqueue("q", "b", 3, 0)] else Rounds(n - 1) + [Claim("q", 0), Recover(1)]
  }

  lemma {:induction false} PrefixDecides(limit: nat, a: seq<Statement>, b: seq<Statement>, n: nat, id: string)
    requires n <= |a|
    ensures At(limit, a + b, n) == At(limit, a, n)
    ensures ClaimCount(limit, a + b, n, id) == ClaimCount(limit, a, n, id)
  {
    if n > 0 {
      PrefixDecides(limit, a, b, n - 1, id);
      assert (a + b)[n - 1] == a[n - 1];
    }
  }

  function AllClaims(limit: nat, run: seq<Statement>, id: string): nat {
    ClaimCount(limit, run, |run|, id)
  }

  lemma RunSnoc(limit: nat, run: seq<Statement>, st: Statement, id: string)
    ensures After(limit, run + [st]) == Exec(limit, After(limit, run), st)
    ensures AllClaims(limit, run + [st], id) == AllClaims(limit, run, id) + One(Claims(After(limit, run), st, id))
  {
    PrefixDecides(limit, run, [st], |run|, id);
  }

  ghost predicate Pending(rows: Rows, limit: nat, n: nat) {
    "q" in rows && rows["q"].status == PENDING && rows["q"].retryCount == n && rows["q"].maxAttempts == limit
  }

  lemma OneRound(rows: Rows, limit: nat, n: nat)
    requires Pending(rows, limit, n) && n < limit
    ensures Claims(rows, Claim("q", 0), "q")
    ensures Pending(Exec(limit, Exec(limit, rows, Claim("q", 0)), Recover(1)), limit, n + 1)
  {
  }

  lemma OneMoreRound(limit: nat, run: seq<Statement>, n: nat)
    requires Pending(After(limit, run), limit, n) && n < limit
    ensures Pending(After(limit, run + [Claim("q", 0), Recover(1)]), limit, n + 1)
    ensures AllClaims(limit, run + [Claim("q", 0), Recover(1)], "q") == AllClaims(limit, run, "q") + 1
  {
    var c, r := Claim("q", 0), Recover(1);
    RunSnoc(limit, run, c, "q");
    RunSnoc(limit, run + [c], r, "q");
    OneRound(After(limit, run), limit, n);
    assert run + [c] + [r] == run + [c, r];
  }

  lemma {:induction false} RoundsRun(limit: nat, n: nat)
    requires n <= limit
    ensures Pending(After(limit, Rounds(n)), limit, n)
    ensures AllClaims(limit, Rounds(n), "q") == n
  {
    if n == 0 {
      RunSnoc(limit, [], Enqueue("q", "b", 3, 0), "q");
      assert [] + [Enqueue("q", "b", 3, 0)] == Rounds(0);
    } else {
      RoundsRun(limit, n - 1);
      OneMoreRound(limit, Rounds(n - 1), n - 1);
    }
  }

  /** The bound on claims is reached whatever max_attempts is. */
  lemma BoundIsReached(limit: nat)
    ensures AllClaims(limit, Rounds(limit) + [Claim("q", 0)], "q") == limit + 1
  {
    RoundsRun(limit, limit);
    RunSnoc(limit, Rounds(limit), Claim("q", 0), "q");
  }

  lemma FourSteps(limit: nat, a: Statement, b: Statement, c: Statement, d: Statement, id: string)
    ensures var r1 := Exec(limit, map[], a);
      var r2 := Exec(limit, r1, b);
      var r3 := Exec(limit, r2, c);
      && After(limit, [a, b, c, d]) == Exec(limit, r3, d)
      && AllClaims(limit, [a, b, c, d], id)
         == One(Claims(map[], a, id)) + One(Claims(r1, b, id)) + One(Claims(r2, c, id)) + One(Claims(r3, d, id))
  {
    RunSnoc(limit, [], a, id);
    assert [] + [a] == [a];
    RunSnoc(limit, [a], b, id);
    RunSnoc(limit, [a, b], c, id);
    RunSnoc(limit, [a, b, c], d, id);
    assert [a] + [b] == [a, b] && [a, b] + [c] == [a, b, c] && [a, b, c] + [d] == [a, b, c, d];
  }

  /** Ended is not for good, and a claim that matches nothing does not stop its worker: two
      workers take the row, one claim counts, one finalizes it, and then the late failure of
      the other puts it to FAILED. */
  lemma EndedRowsAreNotStable(limit: nat)
    ensures var run := [Enqueue("q", "b", 3, 0), Claim("q", 1), Claim("q", 2), End("q", EndFinalized, 3)];
      && AllClaims(limit, run, "q") == 1 && "q" in After(limit, run) && After(limit, run)["q"].status == FINALIZED
      && "q" in After(limit, run + [RecordFailure("q")])
      && After(limit, run + [RecordFailure("q")])["q"].status == FAILED
  {
    var run := [Enqueue("q", "b", 3, 0), Claim("q", 1), Claim("q", 2), End("q", EndFinalized, 3)];
    FourSteps(limit, run[0], run[1], run[2], run[3], "q");
    RunSnoc(limit, run, RecordFailure("q"), "q");
  }

  /** After the cleanup a blob can be queued again, under another id. */
  lemma CleanedUpBlobsCanReturn(limit: nat)
    ensures var run := [Enqueue("q", "b", 3, 0), End("q", EndPreview, 1), CleanUp(2), Enqueue("r", "b", 3, 3)];
      FreshIds(run) && "q" !in After(limit, run) && "r" in After(limit, run) && After(limit, run)["r"].blob == "b"
  {
    var run := [Enqueue("q", "b", 3, 0), End("q", EndPreview, 1), CleanUp(2), Enqueue("r", "b", 3, 3)];
    FourSteps(limit, run[0], run[1], run[2], run[3], "q");
    assert "q"[0] != "r"[0];
    var r2 := Exec(limit, Exec(limit, map[], run[0]), run[1]);
    assert r2.Keys == {"q"} && Deletes(r2["q"], run[2]);
    assert Exec(limit, r2, run[2]) == map[];
  }

  // ------------------------------------------------------------------- the workers

  /** How each stage of one `process_entry` goes; its own two writes may fail as well. */
  datatype Fate = Fate(claimOk: bool, workOk: bool, markOk: bool, publishOk: bool, recordOk: bool)

  predicate Good(f: Fate) {
    f.claimOk && f.workOk && f.markOk && f.publishOk
  }

  function AttemptTrace(id: string, f: Fate, now: int): seq<Statement> {
    (if f.claimOk then [Claim(id, now)] else [])
    + (if f.claimOk && f.workOk && f.markOk then [MarkProcessed(id)] else [])
  }

  /** The statements one `process_entry` sends. Its claim may match no row; it goes on. */
  function EntryTrace(id: string, f: Fate, now: int): seq<Statement> {
    AttemptTrace(id, f, now) + (if !Good(f) && f.recordOk then [RecordFailure(id)] else [])
  }

  /** How a run of `process_entry` leaves its row. */
  predicate Settles(was: Entry, e: Entry, f: Fate) {
    if Good(f) then e.status == PROCESSED && e.retryCount == was.retryCount
    else if f.recordOk then e.status == FAILED && e.retryCount == was.retryCount + 1
    else f.claimOk || e == was
  }

  /** What is sent, stage by stage: a run that goes well claims and marks; any other sends what
      it came to, and then its failure if that can be written. */
  lemma StagesSend(id: string, f: Fate, now: int)
    ensures f.claimOk && f.workOk && f.markOk && f.publishOk ==>
              EntryTrace(id, f, now) == [Claim(id, now), MarkProcessed(id)]
    ensures f.claimOk && f.workOk && f.markOk && !f.publishOk ==>
              EntryTrace(id, f, now)
              == [Claim(id, now), MarkProcessed(id)] + if f.recordOk then [RecordFailure(id)] else []
    ensures f.claimOk && !(f.workOk && f.markOk) ==>
              EntryTrace(id, f, now) == [Claim(id, now)] + if f.recordOk then [RecordFailure(id)] else []
    ensures !f.claimOk ==> EntryTrace(id, f, now) == if f.recordOk then [RecordFailure(id)] else []
  {
  }

  lemma SettlingMeans(was: Entry, e: Entry, f: Fate)
    requires Settles(was, e, f)
    ensures f.claimOk && f.workOk && f.markOk && f.publishOk ==>
              e.status == PROCESSED && e.retryCount == was.retryCount
    ensures f.recordOk && !(f.claimOk && f.workOk && f.markOk && f.publishOk) ==>
              e.status == FAILED && e.retryCount == was.retryCount + 1
    ensures !f.claimOk && !f.recordOk ==> e == was
  {
  }

  predicate Before(a: Entry, b: Entry) {
    a.priority > b.priority || (a.priority == b.priority && a.createdAt <= b.createdAt)
  }

  /** What the scanner's SELECT may return. */
  ghost predicate IsBatch(rows: Rows, picked: seq<string>, size: nat) {
    && |picked| <= size
    && (forall i :: 0 <= i < |picked| ==> picked[i] in rows && rows[picked[i]].status == PENDING)
    && (forall i, j :: 0 <= i < j < |picked| ==> picked[i] != picked[j] && Before(rows[picked[i]], rows[picked[j]]))
    && (forall id :: id in rows && rows[id].status == PENDING && id !in picked ==>
          |picked| == size && forall i :: 0 <= i < |picked| ==> Before(rows[picked[i]], rows[id]))
  }

  /** Picked so far, in order, and before all that is left. */
  ghost predicate Picking(rows: Rows, picked: seq<string>, todo: set<string>) {
    && (forall id :: id in rows && rows[id].status == PENDING <==> id in todo || id in picked)
    && (forall i :: 0 <= i < |picked| ==> picked[i] in rows && picked[i] !in todo)
    && (forall i, j :: 0 <= i < j < |picked| ==> picked[i] != picked[j] && Before(rows[picked[i]], rows[picked[j]]))
    && (forall i, id :: 0 <= i < |picked| && id in todo && id in rows ==> Before(rows[picked[i]], rows[id]))
  }

  lemma PickOneMore(rows: Rows, picked: seq<string>, todo: set<string>, best: string)
    requires Picking(rows, picked, todo) && best in todo
    requires forall id :: id in todo && id in rows ==> best in rows && Before(rows[best], rows[id])
    ensures Picking(rows, picked + [best], todo - {best})
  {
  }

  datatype Reply = NotFound | Conflict | Ran

  class CoreQueue {
    const limit: nat
    var rows: Rows
    ghost var log: seq<Statement>

    /** Whatever workers did, the table is a run of statements. */
    ghost predicate Valid()
      reads this
    {
      rows == After(limit, log)
    }

    constructor (limit: nat)
      ensures Valid() && this.limit == limit && rows == map[]
    {
      this.limit, rows, log := limit, map[], [];
    }

    method Send(st: Statement)
      requires Valid()
      modifies this
      ensures Valid() && log == old(log) + [st] && rows == Exec(limit, old(rows), st)
    {
      RunSnoc(limit, log, st, "");
      rows := Exec(limit, rows, st);
      log := log + [st];
    }

    /** A write to one row, which may not be there. */
    method SendTo(id: string, st: Statement)
      requires Valid() && (st.Claim? || st.MarkProcessed? || st.RecordFailure?) && st.id == id
      modifies this
      ensures Valid() && log == old(log) + [st] && rows.Keys == old(rows).Keys
      ensures forall x :: x in rows ==> rows[x] == if x == id then Touch(old(rows)[x], x, st) else old(rows)[x]
    {
      Send(st);
    }

    method EnqueueBlob(id: string, blob: string, priority: int, now: int) returns (accepted: bool)
      requires Valid() && id !in rows
      modifies this
      ensures Valid() && (accepted <==> !BlobQueued(old(rows), blob))
      ensures rows == if accepted then old(rows)[id := Entry(blob, PENDING, None, None, 0, limit, priority, now)]
                      else old(rows)
    {
      if BlobQueued(rows, blob) {
        return false;
      }
      Send(Enqueue(id, blob, priority, now));
      return true;
    }

    /** Claim, work, mark: what `process_entry` tries. */
    method Attempt(id: string, f: Fate, now: int) returns (good: bool)
      requires Valid()
      modifies this
      ensures Valid() && (good <==> Good(f)) && log == old(log) + AttemptTrace(id, f, now)
      ensures rows.Keys == old(rows).Keys
      ensures forall x :: x in rows && x != id ==> rows[x] == old(rows)[x]
      ensures id in rows ==>
                && rows[id].retryCount == old(rows)[id].retryCount
                && (good ==> rows[id].status == PROCESSED) && (!f.claimOk ==> rows[id] == old(rows)[id])
    {
      good := f.claimOk;
      if good {
        SendTo(id, Claim(id, now));
        good := f.workOk;
      }
      if good {
        if f.markOk {
          SendTo(id, MarkProcessed(id));
          good := f.publishOk;
        } else {
          good := false;
        }
      }
    }

    /** Whatever the row's status, a run that goes well ends it PROCESSED and any other run
        whose failure can be written ends it FAILED with one more retry. */
    method ProcessEntry(id: string, f: Fate, now: int)
      requires Valid()
      modifies this
      ensures Valid() && log == old(log) + EntryTrace(id, f, now)
      ensures rows.Keys == old(rows).Keys
      ensures forall x :: x in rows && x != id ==> rows[x] == old(rows)[x]
      ensures id in rows ==> Settles(old(rows)[id], rows[id], f)
    {
      var good := Attempt(id, f, now);
      if !good && f.recordOk {
        SendTo(id, RecordFailure(id));
      }
    }

    method ProcessAll(picked: seq<string>, fates: seq<Fate>, now: int)
      requires Valid() && |fates| == |picked| && forall i, j :: 0 <= i < j < |picked| ==> picked[i] != picked[j]
      modifies this
      ensures Valid() && rows.Keys == old(rows).Keys
      ensures forall id :: id in rows && id !in picked ==> rows[id] == old(rows)[id]
      ensures forall i :: 0 <= i < |picked| && picked[i] in rows ==>
              Settles(old(rows)[picked[i]], rows[picked[i]], fates[i])
    {
      var i := 0;
      while i < |picked|
        invariant 0 <= i <= |picked| && Valid() && rows.Keys == old(rows).Keys
        invariant forall id :: id in rows && id !in picked[..i] ==> rows[id] == old(rows)[id]
        invariant forall k :: 0 <= k < i && picked[k] in rows ==>
                  Settles(old(rows)[picked[k]], rows[picked[k]], fates[k])
      {
        assert picked[i] !in picked[..i];
        ProcessEntry(picked[i], fates[i], now);
        assert picked[..i + 1] == picked[..i] + [picked[i]];
        i := i + 1;
      }
      assert picked[..i] == picked;
    }

    /** One row no pending one comes before. */
    method First(todo: set<string>) returns (best: string)
      requires todo != {} && forall id :: id in todo ==> id in rows
      ensures best in todo && forall id :: id in todo ==> Before(rows[best], rows[id])
    {
      best :| best in todo;
      var left := todo - {best};
      while left != {}
        invariant left <= todo && best in todo
        invariant forall id :: id in todo - left ==> Before(rows[best], rows[id])
        decreases left
      {
        var id :| id in left;
        left := left - {id};
        if !Before(rows[best], rows[id]) {
          best := id;
        }
      }
    }

    /** The scanner's SELECT: pending rows by priority, then age, up to the batch size. */
    method SelectPending(size: nat) returns (picked: seq<string>)
      ensures IsBatch(rows, picked, size)
      ensures forall id :: id in picked ==> id in rows && rows[id].status == PENDING
      ensures forall p, q :: p in picked && q in rows && rows[q].status == PENDING && q !in picked ==>
                && |picked| == size && rows[p].priority >= rows[q].priority
                && (rows[p].priority == rows[q].priority ==> rows[p].createdAt <= rows[q].createdAt)
      ensures forall i, j :: 0 <= i < j < |picked| ==>
                && rows[picked[i]].priority >= rows[picked[j]].priority
                && (rows[picked[i]].priority == rows[picked[j]].priority ==>
                      rows[picked[i]].createdAt <= rows[picked[j]].createdAt)
    {
      picked := [];
      var todo := set id | id in rows && rows[id].status == PENDING;
      while |picked| < size && todo != {}
        invariant |picked| <= size
        invariant Picking(rows, picked, todo)
        decreases todo
      {
        var best := First(todo);
        PickOneMore(rows, picked, todo, best);
        picked := picked + [best];
        todo := todo - {best};
      }
    }

    /** A scanner tick that nobody disturbs settles the rows of one batch. */
    method Tick(fates: string -> Fate, size: nat, now: int) returns (picked: seq<string>)
      requires Valid()
      modifies this
      ensures Valid() && rows.Keys == old(rows).Keys && IsBatch(old(rows), picked, size)
      ensures forall id :: id in rows && id !in picked ==> rows[id] == old(rows)[id]
      ensures forall i :: 0 <= i < |picked| ==>
                picked[i] in rows && Settles(old(rows)[picked[i]], rows[picked[i]], fates(picked[i]))
    {
      picked := SelectPending(size);
      ProcessAll(picked, seq(|picked|, i requires 0 <= i < |picked| => fates(picked[i])), now);
    }

    /** After a stale recovery no row is stale: those with attempts left are pending again,
        the others failed. */
    method RecoverStale(cutoff: int)
      requires Valid()
      modifies this
      ensures Valid() && rows.Keys == old(rows).Keys
      ensures forall id :: id in rows ==> !Stale(rows[id], cutoff)
      ensures forall id :: id in rows ==>
                var e := old(rows)[id];
                rows[id] == if !Stale(e, cutoff) then e
                            else if e.retryCount < e.maxAttempts
                            then e.(status := PENDING, retryCount := e.retryCount + 1)
                            else e.(status := FAILED)
    {
      Send(Recover(cutoff));
      Send(GiveUp(cutoff));
    }

    /** `_update_queue_status`: a write that the table refuses is logged and forgotten. */
    method UpdateQueueStatus(id: string, ending: Ending, now: int, ok: bool)
      requires Valid()
      modifies this
      ensures Valid() && log == old(log) + if ok && !ending.EndSkipped? then [End(id, ending, now)] else []
      ensures ending.EndSkipped? ==> rows == old(rows)
    {
      if ok && !ending.EndSkipped? {
        Send(End(id, ending, now));
      }
    }

    /** `process_preview`; what others do between its check and its claim is `between`. A
        claim that fails outright is logged and the pipeline runs all the same. */
    method ProcessPreview(id: string, between: seq<Statement>, claimOk: bool, ending: Ending, endOk: bool, now: int)
      returns (reply: Reply)
      requires Valid()
      modifies this
      ensures Valid()
      ensures id !in old(rows) ==> reply.NotFound? && log == old(log)
      ensures id in old(rows) && old(rows)[id].status != PENDING ==> reply.Conflict? && log == old(log)
      ensures id in old(rows) && old(rows)[id].status == PENDING ==>
                var mid := After(limit, old(log) + between);
                && (reply.Conflict? <==> claimOk && !(id in mid && mid[id].status == PENDING))
                && (reply.Conflict? ==> log == old(log) + between)
                && (!reply.Conflict? ==>
                      reply.Ran? && log == old(log) + between + (if claimOk then [Claim(id, now)] else [])
                                           + (if endOk && !ending.EndSkipped? then [End(id, ending, now)] else []))
    {
      if id !in rows {
        return NotFound;
      }
      if rows[id].status != PENDING {
        return Conflict;
      }
      Others(between);
      if claimOk {
        if !(id in rows && rows[id].status == PENDING) {
          return Conflict;
        }
        Send(Claim(id, now));
      }
      UpdateQueueStatus(id, ending, now, endOk);
      return Ran;
    }

    method Others(sts: seq<Statement>)
      requires Valid()
      modifies this
      ensures Valid() && log == old(log) + sts
    {
      var i := 0;
      while i < |sts|
        invariant 0 <= i <= |sts| && Valid() && log == old(log) + sts[..i]
      {
        Send(sts[i]);
        i := i + 1;
      }
      assert sts[..i] == sts;
    }

    /** Fails every row that has been processing since before the threshold, and only those. */
    method StaleProcessingDetector(threshold: int, now: int)
      requires Valid()
      modifies this
      ensures Valid() && rows.Keys == old(rows).Keys
      ensures forall id :: id in rows ==>
                rows[id] == if Stale(old(rows)[id], threshold)
                            then old(rows)[id].(status := FAILED, completedAt := Some(now)) else old(rows)[id]
    {
      var todo := set id | id in rows && Stale(rows[id], threshold);
      while todo != {}
        invariant Valid() && rows.Keys == old(rows).Keys
        invariant forall id :: id in todo ==> id in rows && Stale(old(rows)[id], threshold)
        invariant forall id :: id in rows ==>
                    rows[id] == if Stale(old(rows)[id], threshold) && id !in todo
                                then old(rows)[id].(status := FAILED, completedAt := Some(now)) else old(rows)[id]
        decreases todo
      {
        var id :| id in todo;
        Send(FailStale(id, now));
        todo := todo - {id};
      }
    }

    /** Deletes every preview and finalized row completed before the cutoff, and only those. */
    method CleanupCompleted(cutoff: int)
      requires Valid()
      modifies this
      ensures Valid() && log == old(log) + [CleanUp(cutoff)]
      ensures rows == map id | id in old(rows) && !Deletes(old(rows)[id], CleanUp(cutoff)) :: old(rows)[id]
    {
      Send(CleanUp(cutoff));
    }

    /** Expires every preview completed before the threshold, and only those. */
    method PreviewCleanup(threshold: int)
      requires Valid()
      modifies this
      ensures Valid() && rows.Keys == old(rows).Keys
      ensures forall id :: id in rows ==>
                rows[id] == if OldPreview(old(rows)[id], threshold)
                            then old(rows)[id].(status := EXPIRED) else old(rows)[id]
    {
      var todo := set id | id in rows && OldPreview(rows[id], threshold);
      while todo != {}
        invariant Valid() && rows.Keys == old(rows).Keys
        invariant forall id :: id in todo ==> id in rows && OldPreview(old(rows)[id], threshold)
        invariant forall id :: id in rows ==>
                    rows[id] == if OldPreview(old(rows)[id], threshold) && id !in todo
                                then old(rows)[id].(status := EXPIRED) else old(rows)[id]
        decreases todo
      {
        var id :| id in todo;
        Send(Expire(id));
        todo := todo - {id};
      }
    }
  }

  predicate OldPreview(e: Entry, threshold: int) {
    e.status == PREVIEW_READY && e.completedAt.Some? && e.completedAt.value < threshold
  }
}
