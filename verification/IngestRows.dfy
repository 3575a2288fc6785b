/** What the progress rows of ingestion jobs tell about their payloads. */
module IngestRows {
  import opened IngestQueue
  import opened Options

  // ---------------------------------------------------------------- one job

  /** What the indexer reports while it works. */
  predicate IsStage(status: Status) {
    status == PARSING || status == CAPTIONING || status == INDEXING
  }

  /**
   * The progress row of a tracked job tells how its handling ended: INDEXED exactly for
   * an indexed payload, FAILED exactly for a dead letter and QUEUED exactly for a
   * retry, provided the push after it took effect.
   */
  lemma RowTellsEnding(maxRetries: int, s: State, reply: Reply, id: nat)
    requires s.queue != [] && Track(s.rows, s.queue[0], reply) == Tracked(id)
    requires forall i | 0 <= i < |reply.stages| :: IsStage(reply.stages[i])
    ensures var t := Handled(maxRetries, s, reply);
            && id in t.rows
            && (t.rows[id].status == INDEXED <==> t.indexed == s.indexed + [s.queue[0].ticket])
            && (t.rows[id].status == FAILED && reply.pushes.Acts() <==> |t.dlq| == |s.dlq| + 1)
            && (t.rows[id].status == QUEUED && reply.pushes.Acts() <==> |t.queue| == |s.queue|)
  {
    hide Cut, Track;
    assert reply.stages != [] ==> IsStage(reply.stages[|reply.stages| - 1]);
  }

  // ---------------------------------------------------------------- every run

  /**
   * A queued payload's row says QUEUED with the attempt that comes next, or still FAILED
   * when the payload was requeued from the dead letters.
   */
  predicate RowWaits(rows: map<nat, Row>, job: Job) {
    job.jobId.Some? ==>
      && job.jobId.value in rows
      && var row := rows[job.jobId.value];
         || (row.status == QUEUED && job.attempt == row.attempt + (if row.finished then 1 else 0))
         || (row.status == FAILED && job.attempt == 0)
  }

  /** A dead letter's row says FAILED, with its last attempt and error. */
  predicate RowFailed(rows: map<nat, Row>, letter: Letter) {
    letter.job.jobId.Some? ==>
      && letter.job.jobId.value in rows
      && rows[letter.job.jobId.value] == Row(FAILED, letter.job.attempt, Some(letter.error), true)
  }

  predicate SameRow(a: Job, b: Job) {
    a.jobId.Some? && a.jobId == b.jobId
  }

  /** No two waiting payloads share a row. */
  ghost predicate OwnRows(s: State) {
    && (forall i, j | 0 <= i < j < |s.queue| :: !SameRow(s.queue[i], s.queue[j]))
    && (forall i, j | 0 <= i < j < |s.dlq| :: !SameRow(s.dlq[i].job, s.dlq[j].job))
    && (forall i, j | 0 <= i < |s.queue| && 0 <= j < |s.dlq| :: !SameRow(s.queue[i], s.dlq[j].job))
  }

  ghost predicate RowsAgree(s: State) {
    && OwnRows(s)
    && (forall i | 0 <= i < |s.queue| :: RowWaits(s.rows, s.queue[i]))
    && (forall i | 0 <= i < |s.dlq| :: RowFailed(s.rows, s.dlq[i]))
  }

  /** Row ids are fresh when a row is created. */
  predicate FreshRow(s: State, e: Event) {
    match e
    case Upload(_, jobId, _) => jobId !in s.rows
    case Handle(reply) => reply.newId !in s.rows
    case Requeue(_, _) => true
  }

  ghost predicate FreshRows(maxRetries: int, s: State, events: seq<Event>)
    decreases |events|
  {
    events != [] && Enabled(s, events[0]) ==>
      FreshRow(s, events[0]) && FreshRows(maxRetries, Happens(maxRetries, s, events[0]), events[1..])
  }

  /** Handling a job writes its own row only, and leaves it as its ending says. */
  lemma RowsAfterIsLocal(maxRetries: int, rows: map<nat, Row>, job: Job, reply: Reply)
    ensures var after, t := RowsAfter(maxRetries, rows, job, reply), Track(rows, job, reply);
            && (forall id | id in rows && t != Tracked(id) :: id in after && after[id] == rows[id])
            && (t.Tracked? && EndingOf(maxRetries, rows, job, reply).Retried? ==>
                  t.id in after && after[t.id] == Row(QUEUED, job.attempt, Some(Cut(reply.error)), true))
            && (t.Tracked? && EndingOf(maxRetries, rows, job, reply).DeadLettered? ==>
                  t.id in after && after[t.id] == Row(FAILED, job.attempt, Some(Cut(reply.error)), true))
  {
    hide Track, Cut;
  }

  /** The row a job is tracked by belongs to no other waiting payload. */
  lemma TrackedRowIsOwn(s: State, reply: Reply, other: Job)
    requires s.queue != [] && RowsAgree(s) && reply.newId !in s.rows
    requires !SameRow(s.queue[0], other) && (other.jobId.Some? ==> other.jobId.value in s.rows)
    ensures other.jobId.Some? ==> Track(s.rows, s.queue[0], reply) != Tracked(other.jobId.value)
    ensures RefOf(Track(s.rows, s.queue[0], reply)).Some? ==> RefOf(Track(s.rows, s.queue[0], reply)) != other.jobId
  {
    hide RowsAgree;
  }

  /** What waits beside the handled job keeps its row, and shares it neither with a retry nor with a dead letter. */
  lemma OthersKeepRows(maxRetries: int, s: State, reply: Reply, rows: map<nat, Row>)
    requires s.queue != [] && RowsAgree(s) && reply.newId !in s.rows
    requires rows == RowsAfter(maxRetries, s.rows, s.queue[0], reply)
    ensures forall i | 0 < i < |s.queue| ::
              RowWaits(rows, s.queue[i]) && !SameRow(Retry(s, reply), s.queue[i]) && !SameRow(Dead(s, reply).job, s.queue[i])
    ensures forall i | 0 <= i < |s.dlq| ::
              RowFailed(rows, s.dlq[i]) && !SameRow(Retry(s, reply), s.dlq[i].job) && !SameRow(Dead(s, reply).job, s.dlq[i].job)
  {
    hide RowsAfter, Track, EndingOf, Cut;
    RowsAfterIsLocal(maxRetries, s.rows, s.queue[0], reply);
    forall i | 0 < i < |s.queue|
      ensures RowWaits(rows, s.queue[i]) && !SameRow(Retry(s, reply), s.queue[i]) && !SameRow(Dead(s, reply).job, s.queue[i])
    {
      assert RowWaits(s.rows, s.queue[i]) && !SameRow(s.queue[0], s.queue[i]);
      TrackedRowIsOwn(s, reply, s.queue[i]);
    }
    forall i | 0 <= i < |s.dlq|
      ensures RowFailed(rows, s.dlq[i])
      ensures !SameRow(Retry(s, reply), s.dlq[i].job) && !SameRow(Dead(s, reply).job, s.dlq[i].job)
    {
      assert RowFailed(s.rows, s.dlq[i]) && !SameRow(s.queue[0], s.dlq[i].job);
      TrackedRowIsOwn(s, reply, s.dlq[i].job);
    }
  }

  lemma RowsAgreeOnly(s: State, t: State)
    requires RowsAgree(s) && t.queue == s.queue && t.dlq == s.dlq && t.rows == s.rows
    ensures RowsAgree(t)
  {
    hide RowWaits, RowFailed, SameRow;
  }

  lemma JoinsQueue(s: State, job: Job)
    requires RowsAgree(s) && RowWaits(s.rows, job)
    requires forall i | 0 <= i < |s.queue| :: !SameRow(job, s.queue[i])
    requires forall i | 0 <= i < |s.dlq| :: !SameRow(job, s.dlq[i].job)
    ensures RowsAgree(s.(queue := s.queue + [job]))
  {
    forall i | 0 <= i < |s.queue| ensures !SameRow(s.queue[i], job) {
      assert !SameRow(job, s.queue[i]);
    }
    hide RowWaits, RowFailed, SameRow;
  }

  lemma JoinsLetters(s: State, letter: Letter)
    requires RowsAgree(s) && RowFailed(s.rows, letter)
    requires forall i | 0 <= i < |s.queue| :: !SameRow(letter.job, s.queue[i])
    requires forall i | 0 <= i < |s.dlq| :: !SameRow(letter.job, s.dlq[i].job)
    ensures RowsAgree(s.(dlq := s.dlq + [letter]))
  {
    forall i | 0 <= i < |s.queue| ensures !SameRow(s.queue[i], letter.job) {
      assert !SameRow(letter.job, s.queue[i]);
    }
    forall i | 0 <= i < |s.dlq| ensures !SameRow(s.dlq[i].job, letter.job) {
      assert !SameRow(letter.job, s.dlq[i].job);
    }
    hide RowWaits, RowFailed, SameRow;
  }

  lemma OthersAgree(s: State, rows: map<nat, Row>)
    requires RowsAgree(s) && s.queue != []
    requires forall i | 0 < i < |s.queue| :: RowWaits(rows, s.queue[i])
    requires forall i | 0 <= i < |s.dlq| :: RowFailed(rows, s.dlq[i])
    ensures RowsAgree(s.(queue := s.queue[1..], rows := rows))
  {
    hide RowWaits, RowFailed, SameRow;
  }

  lemma HandledKeepsRowsAgree(maxRetries: int, s: State, reply: Reply)
    requires s.queue != [] && RowsAgree(s) && reply.newId !in s.rows
    ensures RowsAgree(Handled(maxRetries, s, reply))
  {
    hide Handled, RowsAfter, Track, EndingOf, CallsOf, Cut, RowsAgree, SameRow;
    var t := Handled(maxRetries, s, reply);
    HandledMoves(maxRetries, s, reply);
    RowsAfterIsLocal(maxRetries, s.rows, s.queue[0], reply);
    OthersKeepRows(maxRetries, s, reply, t.rows);
    OthersAgree(s, t.rows);
    var rest := s.(queue := s.queue[1..], rows := t.rows);
    match EndingOf(maxRetries, s.rows, s.queue[0], reply) {
      case Retried =>
        JoinsQueue(rest, Retry(s, reply));
        RowsAgreeOnly(rest.(queue := rest.queue + [Retry(s, reply)]), t);
      case DeadLettered =>
        JoinsLetters(rest, Dead(s, reply));
        RowsAgreeOnly(rest.(dlq := rest.dlq + [Dead(s, reply)]), t);
      case _ => RowsAgreeOnly(rest, t);
    }
  }

  lemma UploadedKeepsRowsAgree(s: State, doc: nat, jobId: nat, ticket: nat)
    requires RowsAgree(s) && jobId !in s.rows
    ensures RowsAgree(Uploaded(s, doc, jobId, ticket))
  {
    var t := Uploaded(s, doc, jobId, ticket);
    forall i | 0 <= i < |s.queue| ensures RowWaits(t.rows, s.queue[i]) && !SameRow(s.queue[i], t.queue[|s.queue|]) {
      assert RowWaits(s.rows, s.queue[i]);
    }
    forall i | 0 <= i < |s.dlq| ensures RowFailed(t.rows, s.dlq[i]) && !SameRow(t.queue[|s.queue|], s.dlq[i].job) {
      assert RowFailed(s.rows, s.dlq[i]);
    }
  }

  lemma {:induction false} AgainAt(letters: seq<Letter>)
    ensures |Again(letters)| == |letters|
    ensures forall i | 0 <= i < |letters| :: Again(letters)[i] == letters[i].job.(attempt := 0)
  {
    if letters != [] {
      AgainAt(letters[..|letters| - 1]);
    }
  }

  /** The first `j` dead letters are queued again, and those from `drop` on stay. */
  lemma RequeuedKeepsRowsAgree(s: State, j: nat, drop: nat, t: State)
    requires RowsAgree(s) && j <= drop <= |s.dlq|
    requires t.rows == s.rows && t.queue == s.queue + Again(s.dlq[..j]) && t.dlq == s.dlq[drop..]
    ensures RowsAgree(t)
  {
    var again, n := Again(s.dlq[..j]), |s.queue|;
    AgainAt(s.dlq[..j]);
    hide Again;
    forall i | 0 <= i < |t.queue| ensures RowWaits(t.rows, t.queue[i]) {
      if i < n {
        assert RowWaits(s.rows, s.queue[i]);
      } else {
        assert again[i - n] == s.dlq[i - n].job.(attempt := 0) && RowFailed(s.rows, s.dlq[i - n]);
      }
    }
    forall i, k | 0 <= i < k < |t.queue| ensures !SameRow(t.queue[i], t.queue[k]) {
      if k < n {
        assert !SameRow(s.queue[i], s.queue[k]);
      } else if i < n {
        assert again[k - n].jobId == s.dlq[k - n].job.jobId && !SameRow(s.queue[i], s.dlq[k - n].job);
      } else {
        assert again[i - n].jobId == s.dlq[i - n].job.jobId && again[k - n].jobId == s.dlq[k - n].job.jobId;
        assert !SameRow(s.dlq[i - n].job, s.dlq[k - n].job);
      }
    }
    forall i, k | 0 <= i < |t.queue| && 0 <= k < |t.dlq| ensures !SameRow(t.queue[i], t.dlq[k].job) {
      if i < n {
        assert !SameRow(s.queue[i], s.dlq[drop + k].job);
      } else {
        assert again[i - n].jobId == s.dlq[i - n].job.jobId && !SameRow(s.dlq[i - n].job, s.dlq[drop + k].job);
      }
    }
    forall i, k | 0 <= i < k < |t.dlq| ensures !SameRow(t.dlq[i].job, t.dlq[k].job) {
      assert !SameRow(s.dlq[drop + i].job, s.dlq[drop + k].job);
    }
  }

  lemma PoppedKeepsRowsAgree(s: State)
    requires RowsAgree(s) && s.queue != []
    ensures RowsAgree(s.(queue := s.queue[1..]))
  {
    hide RowWaits, RowFailed, SameRow;
  }

  lemma RoundKeepsRowsAgree(maxRetries: int, s: State, reply: Reply)
    requires s.queue != [] && RowsAgree(s) && reply.newId !in s.rows
    ensures RowsAgree(Round(maxRetries, s, reply))
  {
    hide RowsAgree, Handled;
    var popped := s.(calls := s.calls + [Call(PopJob, reply.pops)]);
    RowsAgreeOnly(s, popped);
    HandledKeepsRowsAgree(maxRetries, popped, reply);
    PoppedKeepsRowsAgree(s);
    RowsAgreeOnly(s.(queue := s.queue[1..]), popped.(queue := s.queue[1..], lost := s.lost + [s.queue[0].ticket]));
  }

  lemma EventKeepsRowsAgree(maxRetries: int, s: State, e: Event)
    requires RowsAgree(s) && Enabled(s, e) && FreshRow(s, e)
    ensures RowsAgree(Happens(maxRetries, s, e))
  {
    match e {
      case Upload(doc, jobId, ticket) => UploadedKeepsRowsAgree(s, doc, jobId, ticket);
      case Handle(reply) => RoundKeepsRowsAgree(maxRetries, s, reply);
      case Requeue(limit, stop) =>
        var k := if limit < |s.dlq| then limit else |s.dlq|;
        RequeuedKeepsRowsAgree(s, QueuedUpTo(stop, k), PoppedUpTo(stop, k), Requeued(s, limit, stop));
    }
    hide RowsAgree, Round, Uploaded, Again, CallsUpTo;
  }

  lemma {:induction false} RunKeepsRowsAgree(maxRetries: int, s: State, events: seq<Event>, end: State)
    requires RowsAgree(s) && IsRun(maxRetries, s, events, end) && FreshRows(maxRetries, s, events)
    ensures RowsAgree(end)
    decreases |events|
  {
    hide RowsAgree, Happens, FreshRow;
    if events != [] {
      EventKeepsRowsAgree(maxRetries, s, events[0]);
      RunKeepsRowsAgree(maxRetries, Happens(maxRetries, s, events[0]), events[1..], end);
    }
  }

  /**
   * In every run each tracked payload that waits has a row of its own which tells where
   * it is: QUEUED with the next attempt, or FAILED if it was requeued, while it is
   * queued; FAILED with its last attempt and its error while it is a dead letter.
   */
  lemma RowsTellWhereabouts(maxRetries: int, events: seq<Event>, s: State)
    requires IsRun(maxRetries, EMPTY, events, s) && FreshRows(maxRetries, EMPTY, events)
    ensures OwnRows(s)
    ensures forall i | 0 <= i < |s.queue| :: RowWaits(s.rows, s.queue[i])
    ensures forall i | 0 <= i < |s.dlq| :: RowFailed(s.rows, s.dlq[i])
  {
    RunKeepsRowsAgree(maxRetries, EMPTY, events, s);
    hide IsRun, FreshRows;
  }
}
