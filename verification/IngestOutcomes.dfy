/** Where a handled payload goes and what its progress row says, told from the answers alone. */
module IngestOutcomes {
  import opened Options
  import opened IngestQueue

  // ---------------------------------------------------------------- the payload

  /** The job has a row of its own in the table. */
  predicate HasRow(rows: map<nat, Row>, job: Job) {
    job.jobId.Some? && job.jobId.value in rows
  }

  /** The attempt is tracked in a row: an existing one, or a new one for a document that is there. */
  predicate IsTracked(rows: map<nat, Row>, job: Job, reply: Reply) {
    reply.tracks && (HasRow(rows, job) || reply.present)
  }

  function RowId(rows: map<nat, Row>, job: Job, reply: Reply): nat {
    if HasRow(rows, job) then job.jobId.value else reply.newId
  }

  /** The document was indexed and, if the attempt is tracked, that was recorded. */
  predicate Succeeds(rows: map<nat, Row>, job: Job, reply: Reply) {
    reply.indexes && (reply.records || !IsTracked(rows, job, reply))
  }

  /** The attempt failed, that was recorded if the attempt is tracked, and the push took effect. */
  predicate GoesOn(rows: map<nat, Row>, job: Job, reply: Reply) {
    && !Succeeds(rows, job, reply)
    && (IsTracked(rows, job, reply) ==> reply.recordsError)
    && (reply.pushes == Works || reply.pushes == RaisesAfter)
  }

  /**
   * The table of endings. A payload without row whose document is gone is dropped; without
   * tracking and without rollback it is lost; a success ends it; otherwise it goes back on
   * the queue with one attempt more while attempts are left, then to the dead letters, and is
   * lost if its failure is not recorded or the push has no effect. It keeps its document and
   * ticket and refers to its row from then on.
   */
  lemma WhereAPayloadGoes(maxRetries: int, s: State, reply: Reply)
    requires s.queue != []
    ensures var t, job, rest := Handled(maxRetries, s, reply), s.queue[0], s.queue[1..];
            var gone := reply.tracks && !HasRow(s.rows, job) && !reply.present;
            var runs := !gone && (reply.tracks || reply.rollsBack);
            var ok, on := Succeeds(s.rows, job, reply), GoesOn(s.rows, job, reply);
            var ref := if IsTracked(s.rows, job, reply) then Some(RowId(s.rows, job, reply)) else None;
            && t.queue == (if runs && on && job.attempt + 1 < maxRetries
                           then rest + [Job(job.doc, job.attempt + 1, ref, job.ticket)] else rest)
            && t.dlq == (if runs && on && job.attempt + 1 >= maxRetries
                         then s.dlq + [Letter(Job(job.doc, job.attempt, ref, job.ticket), Cut(reply.error))] else s.dlq)
            && t.indexed == (if runs && ok then s.indexed + [job.ticket] else s.indexed)
            && t.dropped == (if gone then s.dropped + [job.ticket] else s.dropped)
            && t.lost == (if !gone && !(runs && (ok || on)) then s.lost + [job.ticket] else s.lost)
  {
    HandledMoves(maxRetries, s, reply);
    hide Handled, RowsAfter, CallsOf, Cut;
  }

  /** At most the first 2000 characters of an error are kept. */
  lemma ErrorsAreCut(error: string)
    ensures Cut(error) <= error && (|Cut(error)| == 2000 || Cut(error) == error) && |Cut(error)| <= 2000
  {
  }

  // ---------------------------------------------------------------- the row

  /** What the row of a tracked attempt says when the attempt is over. */
  function FinalRow(maxRetries: int, rows: map<nat, Row>, job: Job, reply: Reply): Row {
    if Succeeds(rows, job, reply) then Row(INDEXED, job.attempt, None, true)
    else if reply.recordsError then
      Row(if job.attempt + 1 < maxRetries then QUEUED else FAILED, job.attempt, Some(Cut(reply.error)), true)
    else Row(if reply.stages == [] then PARSING else reply.stages[|reply.stages| - 1], job.attempt, None, false)
  }

  /** A tracked attempt writes its own row and no other; any other attempt writes none. */
  lemma WhatTheRowSays(maxRetries: int, s: State, reply: Reply)
    requires s.queue != []
    ensures var t, job := Handled(maxRetries, s, reply), s.queue[0];
            t.rows == if IsTracked(s.rows, job, reply)
                      then s.rows[RowId(s.rows, job, reply) := FinalRow(maxRetries, s.rows, job, reply)] else s.rows
  {
    HandledMoves(maxRetries, s, reply);
    hide Handled, CallsOf, Cut;
  }

  // ---------------------------------------------------------------- requeueing

  lemma {:induction false} AgainInOrder(ls: seq<Letter>)
    ensures |Again(ls)| == |ls|
    ensures forall i | 0 <= i < |ls| :: Again(ls)[i] == Job(ls[i].job.doc, 0, ls[i].job.jobId, ls[i].job.ticket)
  {
    if ls != [] {
      AgainInOrder(ls[..|ls| - 1]);
    }
  }

  /** Requeueing that nothing stops moves the oldest dead letters, up to the limit, to the end of the queue in order. */
  lemma RequeueMovesTheOldest(s: State, limit: nat, i: nat)
    ensures var t, k := Requeued(s, limit, NoStop), if limit < |s.dlq| then limit else |s.dlq|;
            && t.dlq == s.dlq[k..] && t.lost == s.lost && t.indexed == s.indexed && t.dropped == s.dropped && t.rows == s.rows
            && |t.queue| == |s.queue| + k && t.queue[..|s.queue|] == s.queue
            && (i < k ==> var job := s.dlq[i].job; t.queue[|s.queue| + i] == Job(job.doc, 0, job.jobId, job.ticket))
  {
    AgainInOrder(s.dlq[..if limit < |s.dlq| then limit else |s.dlq|]);
    hide Again, Rounds;
  }
}
