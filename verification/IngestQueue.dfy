/** The ingestion queue: jobs popped by the worker, retried, dropped, dead-lettered and requeued. */
module IngestQueue {
  import opened Options
  import Text

  datatype Status = QUEUED | PARSING | CAPTIONING | INDEXING | INDEXED | FAILED

  /** A progress row. */
  datatype Row = Row(status: Status, attempt: nat, error: Option<string>, finished: bool)

  /** A payload; `ticket` names the upload it stems from and is not part of the stored text. */
  datatype Job = Job(doc: nat, attempt: nat, jobId: Option<nat>, ticket: nat)

  datatype Letter = Letter(job: Job, error: string)

  /** A call goes through, or raises on the caller's side before or after it took effect. */
  datatype Fate = Works | RaisesBefore | RaisesAfter {
    predicate Acts() {
      !RaisesBefore?
    }
  }

  /** A call to the database, the indexer or a list, and its fate. */
  datatype Call = Call(action: Action, fate: Fate)

  datatype Action =
    | PopJob | TrackJob | RollBack | IndexDocument | RecordSuccess | RecordFailure | PushJob | PushLetter
    | PopLetter | RequeueLetter

  /** A call that goes through, or raises without effect. */
  function Did(a: Action, works: bool): Call {
    Call(a, if works then Works else RaisesBefore)
  }

  /** `indexed`, `dropped` and `lost` list the tickets of the payloads that ended so; `calls` is every call made. */
  datatype State = State(queue: seq<Job>, dlq: seq<Letter>, rows: map<nat, Row>,
                         indexed: seq<nat>, dropped: seq<nat>, lost: seq<nat>, calls: seq<Call>)

  const EMPTY := State([], [], map[], [], [], [], [])

  /** What the database, the indexer and the queue answer while one job is handled. */
  datatype Reply = Reply(
    pops: Fate,         // of the pop that takes the job
    tracks: bool,       // job tracking does not raise
    rollsBack: bool,    // the rollback after it does not raise
    present: bool,      // the document is there
    newId: nat,         // the id of a row created now
    stages: seq<Status>,  // the stages reported
    indexes: bool,      // indexing succeeds
    records: bool,      // recording the success does not raise
    recordsError: bool, // recording the failure does not raise
    pushes: Fate,       // of the push on the queue or the dead letters
    error: string)

  const ERROR_LENGTH := 2000

  function Cut(error: string): string {
    if |error| <= ERROR_LENGTH then error else error[..ERROR_LENGTH]
  }

  // ---------------------------------------------------------------- progress rows

  datatype Tracking = Gone | Untracked | Tracked(id: nat)

  /** The row of the payload, or a new one when it has none and the document exists. */
  function Track(rows: map<nat, Row>, job: Job, reply: Reply): Tracking {
    if !reply.tracks then Untracked
    else if job.jobId.Some? && job.jobId.value in rows then Tracked(job.jobId.value)
    else if !reply.present then Gone
    else Tracked(reply.newId)
  }

  function JobStarted(rows: map<nat, Row>, t: Tracking, attempt: nat): map<nat, Row> {
    if t.Tracked? then rows[t.id := Row(PARSING, attempt, None, false)] else rows
  }

  function JobStages(rows: map<nat, Row>, t: Tracking, stages: seq<Status>): map<nat, Row> {
    if t.Tracked? && t.id in rows && stages != [] then rows[t.id := rows[t.id].(status := stages[|stages| - 1])] else rows
  }

  function JobFinished(rows: map<nat, Row>, t: Tracking, error: Option<string>, requeued: bool): map<nat, Row> {
    if !t.Tracked? || t.id !in rows then rows
    else match error
         case None => rows[t.id := rows[t.id].(status := INDEXED, finished := true)]
         case Some(text) =>
           rows[t.id := rows[t.id].(status := if requeued then QUEUED else FAILED, error := Some(Cut(text)), finished := true)]
  }

  // ---------------------------------------------------------------- one job

  datatype Ending = Dropped | Indexed | Retried | DeadLettered | Lost

  function WillRetry(maxRetries: int, job: Job): bool {
    job.attempt + 1 < maxRetries
  }

  /** How handling a job ends. A success that cannot be recorded counts as a failure. */
  function EndingOf(maxRetries: int, rows: map<nat, Row>, job: Job, reply: Reply): Ending {
    var t := Track(rows, job, reply);
    if t.Gone? then Dropped
    else if t.Untracked? && !reply.rollsBack then Lost
    else if reply.indexes && (t.Untracked? || reply.records) then Indexed
    else if (t.Tracked? && !reply.recordsError) || !reply.pushes.Acts() then Lost
    else if WillRetry(maxRetries, job) then Retried
    else DeadLettered
  }

  /** The calls made while a job is handled, in order; each is made only if the worker gets that far. */
  function CallsOf(maxRetries: int, rows: map<nat, Row>, job: Job, reply: Reply): seq<Call> {
    var t := Track(rows, job, reply);
    if t.Gone? then [Call(TrackJob, Works)]
    else if t.Tracked? then [Call(TrackJob, Works)] + IndexCalls(maxRetries, t, job, reply)
    else if reply.rollsBack then [Call(TrackJob, RaisesBefore), Call(RollBack, Works)] + IndexCalls(maxRetries, t, job, reply)
    else [Call(TrackJob, RaisesBefore), Call(RollBack, RaisesBefore)]
  }

  function IndexCalls(maxRetries: int, t: Tracking, job: Job, reply: Reply): seq<Call> {
    if !reply.indexes then [Call(IndexDocument, RaisesBefore)] + FailureCalls(maxRetries, t, job, reply)
    else if t.Untracked? then [Call(IndexDocument, Works)]
    else if reply.records then [Call(IndexDocument, Works), Call(RecordSuccess, Works)]
    else [Call(IndexDocument, Works), Call(RecordSuccess, RaisesBefore)] + FailureCalls(maxRetries, t, job, reply)
  }

  function FailureCalls(maxRetries: int, t: Tracking, job: Job, reply: Reply): seq<Call> {
    var push := [Call(if WillRetry(maxRetries, job) then PushJob else PushLetter, reply.pushes)];
    if t.Untracked? then push
    else if reply.recordsError then [Call(RecordFailure, Works)] + push
    else [Call(RecordFailure, RaisesBefore)]
  }

  function RefOf(t: Tracking): Option<nat> {
    match t
    case Tracked(id) => Some(id)
    case _ => None
  }

  function RowsAfter(maxRetries: int, rows: map<nat, Row>, job: Job, reply: Reply): map<nat, Row> {
    var t := Track(rows, job, reply);
    var staged := JobStages(JobStarted(rows, t, job.attempt), t, reply.stages);
    if t.Gone? || (t.Untracked? && !reply.rollsBack) then rows
    else if EndingOf(maxRetries, rows, job, reply).Indexed? then JobFinished(staged, t, None, false)
    else if t.Tracked? && !reply.recordsError then staged
    else JobFinished(staged, t, Some(reply.error), WillRetry(maxRetries, job))
  }

  /** The first job of the queue is popped and handled. */
  function Handled(maxRetries: int, s: State, reply: Reply): State
    requires s.queue != []
  {
    var job := s.queue[0];
    var rest := s.(queue := s.queue[1..], rows := RowsAfter(maxRetries, s.rows, job, reply),
                   calls := s.calls + CallsOf(maxRetries, s.rows, job, reply));
    var ref := RefOf(Track(s.rows, job, reply));
    match EndingOf(maxRetries, s.rows, job, reply)
    case Dropped => rest.(dropped := s.dropped + [job.ticket])
    case Indexed => rest.(indexed := s.indexed + [job.ticket])
    case Retried => rest.(queue := rest.queue + [job.(attempt := job.attempt + 1, jobId := ref)])
    case DeadLettered => rest.(dlq := s.dlq + [Letter(job.(jobId := ref), Cut(reply.error))])
    case Lost => rest.(lost := s.lost + [job.ticket])
  }

  function Uploaded(s: State, doc: nat, jobId: nat, ticket: nat): State {
    s.(queue := s.queue + [Job(doc, 0, Some(jobId), ticket)], rows := s.rows[jobId := Row(QUEUED, 0, None, false)])
  }

  function Again(ls: seq<Letter>): seq<Job> {
    if ls == [] then [] else Again(ls[..|ls| - 1]) + [ls[|ls| - 1].job.(attempt := 0)]
  }

  /** One round of the worker on a queue that holds a job: the pop, and the job if it arrives. */
  function Round(maxRetries: int, s: State, reply: Reply): State
    requires s.queue != []
  {
    var popped := s.(calls := s.calls + [Call(PopJob, reply.pops)]);
    match reply.pops
    case Works => Handled(maxRetries, popped, reply)
    case RaisesBefore => popped
    case RaisesAfter => popped.(queue := s.queue[1..], lost := s.lost + [s.queue[0].ticket])
  }

  /** The calls that requeue `n` letters. */
  function Rounds(n: nat): seq<Call> {
    if n == 0 then [] else Rounds(n - 1) + [Call(PopLetter, Works), Call(RequeueLetter, Works)]
  }

  /** Where requeueing raises, if anywhere: at the pop or the push of letter `at`, before or after its effect. */
  datatype Stop = NoStop | PopStops(at: nat, took: bool) | PushStops(at: nat, landed: bool)

  predicate Stops(stop: Stop, k: nat) {
    !stop.NoStop? && stop.at < k
  }

  /** How many of `k` letters get on the queue, and how many leave the dead letters. */
  function QueuedUpTo(stop: Stop, k: nat): nat {
    if !Stops(stop, k) then k else if stop.PushStops? && stop.landed then stop.at + 1 else stop.at
  }

  function PoppedUpTo(stop: Stop, k: nat): nat {
    if !Stops(stop, k) then k else if stop.PopStops? && !stop.took then stop.at else stop.at + 1
  }

  function CallsUpTo(stop: Stop, k: nat): seq<Call> {
    if !Stops(stop, k) then Rounds(k)
    else if stop.PopStops? then Rounds(stop.at) + [Call(PopLetter, if stop.took then RaisesAfter else RaisesBefore)]
    else Rounds(stop.at) + [Call(PopLetter, Works), Call(RequeueLetter, if stop.landed then RaisesAfter else RaisesBefore)]
  }

  /** Up to `limit` dead letters go back on the queue with a full retry budget, unless a call raises on the way. */
  function Requeued(s: State, limit: nat, stop: Stop): State {
    var k := if limit < |s.dlq| then limit else |s.dlq|;
    var q, d := QueuedUpTo(stop, k), PoppedUpTo(stop, k);
    s.(queue := s.queue + Again(s.dlq[..q]), dlq := s.dlq[d..],
       lost := if q < d then s.lost + [s.dlq[q].job.ticket] else s.lost,
       calls := s.calls + CallsUpTo(stop, k))
  }

  /** After `n` letters requeued without incident. */
  function Moved(s: State, n: nat): (t: State)
    requires n <= |s.dlq|
    ensures t.dlq == s.dlq[n..]
  {
    s.(queue := s.queue + Again(s.dlq[..n]), dlq := s.dlq[n..], calls := s.calls + Rounds(n))
  }

  /** A letter popped, the call on record. */
  function Popped(s: State, fate: Fate): State
    requires s.dlq != []
  {
    s.(dlq := if fate.Acts() then s.dlq[1..] else s.dlq, calls := s.calls + [Call(PopLetter, fate)],
       lost := if fate.RaisesAfter? then s.lost + [s.dlq[0].job.ticket] else s.lost)
  }

  function Pushed(s: State, letter: Letter, fate: Fate): State {
    s.(queue := if fate.Acts() then s.queue + [letter.job.(attempt := 0)] else s.queue,
       lost := if fate.Acts() then s.lost else s.lost + [letter.job.ticket],
       calls := s.calls + [Call(RequeueLetter, fate)])
  }

  lemma MovedStep(s: State, n: nat)
    requires n < |s.dlq|
    ensures Moved(s, n + 1) == Pushed(Popped(Moved(s, n), Works), s.dlq[n], Works)
  {
    assert s.dlq[..n + 1][..n] == s.dlq[..n];
    Text.Regroup(s.calls, Rounds(n), [Call(PopLetter, Works), Call(RequeueLetter, Works)]);
    Text.Regroup(s.queue, Again(s.dlq[..n]), [s.dlq[n].job.(attempt := 0)]);
    hide Again, Rounds;
  }

  lemma MovedAll(s: State, limit: nat, stop: Stop)
    requires !Stops(stop, if limit < |s.dlq| then limit else |s.dlq|)
    ensures Requeued(s, limit, stop) == Moved(s, if limit < |s.dlq| then limit else |s.dlq|)
  {
    hide Again, Rounds;
  }

  lemma StoppedAtPop(s: State, limit: nat, stop: Stop)
    requires stop.PopStops? && stop.at < limit && stop.at < |s.dlq|
    ensures Requeued(s, limit, stop) == Popped(Moved(s, stop.at), if stop.took then RaisesAfter else RaisesBefore)
  {
    hide Again, Rounds;
  }

  lemma StoppedAtPush(s: State, limit: nat, stop: Stop)
    requires stop.PushStops? && stop.at < limit && stop.at < |s.dlq|
    ensures Requeued(s, limit, stop)
            == Pushed(Popped(Moved(s, stop.at), Works), s.dlq[stop.at], if stop.landed then RaisesAfter else RaisesBefore)
  {
    var n := stop.at;
    assert s.dlq[..n + 1][..n] == s.dlq[..n];
    assert Again(s.dlq[..n + 1]) == Again(s.dlq[..n]) + [s.dlq[n].job.(attempt := 0)];
    hide Again, Rounds;
  }

  // ---------------------------------------------------------------- the worker

  class Worker {
    var queue: seq<Job>
    var dlq: seq<Letter>
    var rows: map<nat, Row>
    ghost var indexed: seq<nat>
    ghost var dropped: seq<nat>
    ghost var lost: seq<nat>
    ghost var calls: seq<Call>
    const maxRetries: int

    constructor (maxRetries: int)
      ensures Now() == EMPTY && this.maxRetries == maxRetries
    {
      queue, dlq, rows := [], [], map[];
      indexed, dropped, lost, calls := [], [], [], [];
      this.maxRetries := maxRetries;
    }

    ghost function Now(): State
      reads this
    {
      State(queue, dlq, rows, indexed, dropped, lost, calls)
    }

    method Upload(doc: nat, jobId: nat, ticket: nat)
      modifies this
      ensures Now() == Uploaded(old(Now()), doc, jobId, ticket)
    {
      rows := rows[jobId := Row(QUEUED, 0, None, false)];
      queue := queue + [Job(doc, 0, Some(jobId), ticket)];
    }

    method StartJob(job: Job, reply: Reply) returns (t: Tracking)
      modifies `rows
      ensures t == Track(old(rows), job, reply)
      ensures rows == JobStarted(old(rows), t, job.attempt)
      ensures !t.Tracked? ==> rows == old(rows)
    {
      if !reply.tracks {
        return Untracked;
      }
      if job.jobId.Some? && job.jobId.value in rows {
        t := Tracked(job.jobId.value);
      } else if !reply.present {
        return Gone;
      } else {
        t := Tracked(reply.newId);
      }
      rows := rows[t.id := Row(PARSING, job.attempt, None, false)];
    }

    /** The stage callback of the indexer, for every stage it reports. */
    method ReportStages(t: Tracking, stages: seq<Status>)
      modifies `rows
      ensures rows == JobStages(old(rows), t, stages)
    {
      for i := 0 to |stages|
        invariant rows == JobStages(old(rows), t, stages[..i])
      {
        if t.Tracked? && t.id in rows {
          rows := rows[t.id := rows[t.id].(status := stages[i])];
        }
      }
      assert stages[..|stages|] == stages;
    }

    method FinishJob(t: Tracking, error: Option<string>, requeued: bool)
      modifies `rows
      ensures rows == JobFinished(old(rows), t, error, requeued)
    {
      if t.Tracked? && t.id in rows {
        var row := rows[t.id];
        match error {
          case None => row := row.(status := INDEXED);
          case Some(text) => row := row.(status := if requeued then QUEUED else FAILED, error := Some(Cut(text)));
        }
        rows := rows[t.id := row.(finished := true)];
      }
    }

    /** One round of the consume loop on a queue that holds a job. */
    method Consume(reply: Reply)
      requires queue != []
      modifies this
      ensures Now() == Round(maxRetries, old(Now()), reply)
    {
      hide Handled;
      calls := calls + [Call(PopJob, reply.pops)];
      if reply.pops.RaisesBefore? {
        return;
      }
      var job := queue[0];
      queue := queue[1..];
      if reply.pops.RaisesAfter? {
        lost := lost + [job.ticket];
        return;
      }
      assert [job] + queue == old(queue);
      HandleJob(job, reply);
    }

    /** Handles a popped job as it would be handled at the front of the queue. */
    method HandleJob(job: Job, reply: Reply)
      modifies this
      ensures Now() == Handled(maxRetries, old(Now()).(queue := [job] + old(queue)), reply)
    {
      assert ([job] + queue)[1..] == queue;
      hide IndexCalls, FailureCalls, WillRetry, Cut, JobStages, JobFinished, JobStarted;
      var t := StartJob(job, reply);
      if t.Gone? {
        calls := calls + [Call(TrackJob, Works)];
        dropped := dropped + [job.ticket];
        return;
      }
      if t.Untracked? {
        calls := calls + [Call(TrackJob, RaisesBefore), Did(RollBack, reply.rollsBack)];
        if !reply.rollsBack {
          lost := lost + [job.ticket];
          return;
        }
      } else {
        calls := calls + [Call(TrackJob, Works)];
      }
      ghost var before := calls[|old(calls)|..];
      Text.Regroup(old(calls), before, IndexCalls(maxRetries, t, job, reply));
      Attempt(job, t, reply);
    }

    /** Indexes the document, with its stages, and records how that ended. */
    method Attempt(job: Job, t: Tracking, reply: Reply)
      requires !t.Gone?
      modifies this
      ensures calls == old(calls) + IndexCalls(maxRetries, t, job, reply)
      ensures var ok, staged := reply.indexes && (t.Untracked? || reply.records), JobStages(old(rows), t, reply.stages);
              && (ok ==> indexed == old(indexed) + [job.ticket] && rows == JobFinished(staged, t, None, false)
                         && queue == old(queue) && dlq == old(dlq) && lost == old(lost))
              && (!ok ==> indexed == old(indexed) && PushedOn(old(queue), old(dlq), old(lost), staged, job, t, reply))
      ensures dropped == old(dropped)
    {
      hide FailureCalls, JobFinished, PushedOn;
      ReportStages(t, reply.stages);
      hide JobStages;
      if reply.indexes {
        if t.Untracked? {
          calls := calls + [Call(IndexDocument, Works)];
        } else {
          calls := calls + [Call(IndexDocument, Works), Did(RecordSuccess, reply.records)];
        }
        if t.Untracked? || reply.records {
          FinishJob(t, None, false);
          indexed := indexed + [job.ticket];
          return;
        }
      } else {
        calls := calls + [Call(IndexDocument, RaisesBefore)];
      }
      HandleFailure(job, t, reply);
    }

    /** Where the payload and its row are after a failed attempt. */
    ghost predicate PushedOn(queue0: seq<Job>, dlq0: seq<Letter>, lost0: seq<nat>, rows0: map<nat, Row>,
                             job: Job, t: Tracking, reply: Reply)
      reads this
    {
      var retry := job.(attempt := job.attempt + 1, jobId := RefOf(t));
      var letter := Letter(job.(jobId := RefOf(t)), Cut(reply.error));
      var recorded := t.Untracked? || reply.recordsError;
      var away := recorded && reply.pushes.Acts();
      && rows == (if recorded then JobFinished(rows0, t, Some(reply.error), WillRetry(maxRetries, job)) else rows0)
      && lost == (if away then lost0 else lost0 + [job.ticket])
      && queue == (if away && WillRetry(maxRetries, job) then queue0 + [retry] else queue0)
      && dlq == (if away && !WillRetry(maxRetries, job) then dlq0 + [letter] else dlq0)
    }

    /** What the worker does once an attempt has raised. */
    method HandleFailure(job: Job, t: Tracking, reply: Reply)
      requires !t.Gone?
      modifies this
      ensures calls == old(calls) + FailureCalls(maxRetries, t, job, reply)
      ensures PushedOn(old(queue), old(dlq), old(lost), old(rows), job, t, reply)
      ensures indexed == old(indexed) && dropped == old(dropped)
    {
      var willRetry := job.attempt + 1 < maxRetries;
      if t.Tracked? {
        calls := calls + [Did(RecordFailure, reply.recordsError)];
        if !reply.recordsError {
          lost := lost + [job.ticket];
          return;
        }
        FinishJob(t, Some(reply.error), willRetry);
      }
      calls := calls + [Call(if willRetry then PushJob else PushLetter, reply.pushes)];
      if !reply.pushes.Acts() {
        lost := lost + [job.ticket];
      } else if willRetry {
        queue := queue + [job.(attempt := job.attempt + 1, jobId := RefOf(t))];
      } else {
        dlq := dlq + [Letter(job.(jobId := RefOf(t)), Cut(reply.error))];
      }
    }

    method PopLetterOff(fate: Fate) returns (entry: Letter)
      requires dlq != []
      modifies this
      ensures entry == old(dlq)[0] && Now() == Popped(old(Now()), fate)
    {
      entry := dlq[0];
      calls := calls + [Call(PopLetter, fate)];
      if fate.Acts() {
        dlq := dlq[1..];
      }
      if fate.RaisesAfter? {
        lost := lost + [entry.job.ticket];
      }
    }

    method PushAgain(entry: Letter, fate: Fate)
      modifies this
      ensures Now() == Pushed(old(Now()), entry, fate)
    {
      calls := calls + [Call(RequeueLetter, fate)];
      if fate.Acts() {
        queue := queue + [entry.job.(attempt := 0)];
      } else {
        lost := lost + [entry.job.ticket];
      }
    }

    /** The loop of `requeue_dlq`, which raises where `stop` says, if it comes to that. */
    method RequeueDeadLetters(limit: nat, stop: Stop) returns (n: nat, raised: bool)
      modifies this
      ensures Now() == Requeued(old(Now()), limit, stop)
      ensures raised <==> Stops(stop, if limit < |old(dlq)| then limit else |old(dlq)|)
      ensures !raised ==> n == |old(dlq)| - |dlq|
    {
      ghost var s := Now();
      n, raised := 0, false;
      assert Now() == Moved(s, 0) by {
        assert s.dlq[..0] == [];
      }
      hide Moved, Requeued, Popped, Pushed;
      while n < limit
        invariant n <= limit && n <= |s.dlq| && !raised
        invariant Now() == Moved(s, n)
        invariant stop.NoStop? || n <= stop.at
      {
        if dlq == [] {
          break;
        }
        if stop.PopStops? && stop.at == n {
          StoppedAtPop(s, limit, stop);
          var _ := PopLetterOff(if stop.took then RaisesAfter else RaisesBefore);
          return n, true;
        }
        var entry := PopLetterOff(Works);
        if stop.PushStops? && stop.at == n {
          StoppedAtPush(s, limit, stop);
          PushAgain(entry, if stop.landed then RaisesAfter else RaisesBefore);
          return n, true;
        }
        MovedStep(s, n);
        PushAgain(entry, Works);
        n := n + 1;
      }
      MovedAll(s, limit, stop);
    }

    /**
     * The consume loop for as many rounds as there are replies, or until the queue is
     * empty. Without uploads it is empty once as many pops took a job as there were
     * attempts left, whatever else raised.
     */
    method Drain(replies: seq<Reply>) returns (n: nat)
      modifies this
      ensures n <= |replies|
      ensures Taken(replies[..n]) + Work(maxRetries, queue) <= Work(maxRetries, old(queue))
      ensures Taken(replies) >= Work(maxRetries, old(queue)) ==> queue == []
    {
      n := 0;
      while queue != [] && n < |replies|
        invariant n <= |replies|
        invariant Taken(replies[..n]) + Work(maxRetries, queue) <= Work(maxRetries, old(queue))
        decreases |replies| - n
      {
        hide Round;
        assert replies[..n + 1][..n] == replies[..n];
        RoundLowersWork(maxRetries, Now(), replies[n]);
        Consume(replies[n]);
        n := n + 1;
      }
      if queue != [] {
        assert replies[..n] == replies;
        WorkOfFirst(maxRetries, queue);
      }
    }
  }

  /** How many of the pops take a job. */
  function Taken(replies: seq<Reply>): nat {
    if replies == [] then 0 else Taken(replies[..|replies| - 1]) + One(replies[|replies| - 1].pops.Acts())
  }

  // ---------------------------------------------------------------- what handling changes

  function Retry(s: State, reply: Reply): (job: Job)
    requires s.queue != []
    ensures job.ticket == s.queue[0].ticket && job.attempt == s.queue[0].attempt + 1
  {
    s.queue[0].(attempt := s.queue[0].attempt + 1, jobId := RefOf(Track(s.rows, s.queue[0], reply)))
  }

  function Dead(s: State, reply: Reply): (letter: Letter)
    requires s.queue != []
    ensures letter.job.ticket == s.queue[0].ticket && letter.job.attempt == s.queue[0].attempt
  {
    Letter(s.queue[0].(jobId := RefOf(Track(s.rows, s.queue[0], reply))), Cut(reply.error))
  }

  /** The first job leaves the front of the queue for exactly one place. */
  lemma HandledMoves(maxRetries: int, s: State, reply: Reply)
    requires s.queue != []
    ensures var t, end, ticket := Handled(maxRetries, s, reply), EndingOf(maxRetries, s.rows, s.queue[0], reply), s.queue[0].ticket;
            && t.queue == (if end.Retried? then s.queue[1..] + [Retry(s, reply)] else s.queue[1..])
            && t.dlq == (if end.DeadLettered? then s.dlq + [Dead(s, reply)] else s.dlq)
            && t.indexed == (if end.Indexed? then s.indexed + [ticket] else s.indexed)
            && t.dropped == (if end.Dropped? then s.dropped + [ticket] else s.dropped)
            && t.lost == (if end.Lost? then s.lost + [ticket] else s.lost)
            && t.calls == s.calls + CallsOf(maxRetries, s.rows, s.queue[0], reply)
            && t.rows == RowsAfter(maxRetries, s.rows, s.queue[0], reply)
  {
    hide RowsAfter, Track, EndingOf, CallsOf, Cut, RefOf;
  }

  // ---------------------------------------------------------------- attempts

  function Budget(maxRetries: int): nat {
    if maxRetries < 1 then 1 else maxRetries
  }

  ghost predicate AttemptsBelowCap(maxRetries: int, jobs: seq<Job>) {
    forall i | 0 <= i < |jobs| :: jobs[i].attempt < Budget(maxRetries)
  }

  /** A payload is only dead-lettered with its attempts used up. */
  ghost predicate LettersAreSpent(maxRetries: int, letters: seq<Letter>) {
    forall i | 0 <= i < |letters| :: maxRetries <= letters[i].job.attempt + 1 <= Budget(maxRetries)
  }

  /** The attempts left to the jobs of a queue, at least one each. */
  function Work(maxRetries: int, jobs: seq<Job>): nat {
    if jobs == [] then 0
    else Work(maxRetries, jobs[..|jobs| - 1]) + AttemptsLeft(maxRetries, jobs[|jobs| - 1])
  }

  function AttemptsLeft(maxRetries: int, job: Job): nat {
    if job.attempt + 1 < maxRetries then maxRetries - job.attempt else 1
  }

  lemma {:induction false} WorkOfFirst(maxRetries: int, jobs: seq<Job>)
    requires jobs != []
    ensures Work(maxRetries, jobs) == AttemptsLeft(maxRetries, jobs[0]) + Work(maxRetries, jobs[1..])
  {
    if |jobs| > 1 {
      var init := jobs[..|jobs| - 1];
      WorkOfFirst(maxRetries, init);
      assert init[1..] == jobs[1..][..|jobs[1..]| - 1];
      hide AttemptsLeft;
    }
  }

  lemma WorkOfLast(maxRetries: int, jobs: seq<Job>, job: Job)
    ensures Work(maxRetries, jobs + [job]) == Work(maxRetries, jobs) + AttemptsLeft(maxRetries, job)
  {
    assert (jobs + [job])[..|jobs|] == jobs;
  }

  lemma HandlingLowersWork(maxRetries: int, s: State, reply: Reply)
    requires s.queue != []
    ensures Work(maxRetries, Handled(maxRetries, s, reply).queue) < Work(maxRetries, s.queue)
  {
    hide Handled, RowsAfter, Track, EndingOf, CallsOf, Retry, Dead, Work;
    HandledMoves(maxRetries, s, reply);
    WorkOfFirst(maxRetries, s.queue);
    WorkOfLast(maxRetries, s.queue[1..], Retry(s, reply));
    RetriedBelowCap(maxRetries, s.rows, s.queue[0], reply);
  }

  /** Every pop that takes a job lowers the attempts left, and one that does not leaves them. */
  lemma RoundLowersWork(maxRetries: int, s: State, reply: Reply)
    requires s.queue != []
    ensures Work(maxRetries, Round(maxRetries, s, reply).queue) + One(reply.pops.Acts()) <= Work(maxRetries, s.queue)
  {
    HandlingLowersWork(maxRetries, s.(calls := s.calls + [Call(PopJob, reply.pops)]), reply);
    WorkOfFirst(maxRetries, s.queue);
    hide Handled, Work;
  }

  lemma RetriedBelowCap(maxRetries: int, rows: map<nat, Row>, job: Job, reply: Reply)
    ensures EndingOf(maxRetries, rows, job, reply).Retried? ==> job.attempt + 1 < maxRetries
    ensures EndingOf(maxRetries, rows, job, reply).DeadLettered? ==> maxRetries <= job.attempt + 1
  {
  }

  // ---------------------------------------------------------------- every run

  datatype Event =
    | Upload(doc: nat, jobId: nat, ticket: nat)
    | Handle(reply: Reply)
    | Requeue(limit: nat, stop: Stop)

  predicate Enabled(s: State, e: Event) {
    e.Handle? ==> s.queue != []
  }

  function Happens(maxRetries: int, s: State, e: Event): State
    requires Enabled(s, e)
  {
    match e
    case Upload(doc, jobId, ticket) => Uploaded(s, doc, jobId, ticket)
    case Handle(reply) => Round(maxRetries, s, reply)
    case Requeue(limit, stop) => Requeued(s, limit, stop)
  }

  ghost predicate IsRun(maxRetries: int, s: State, events: seq<Event>, end: State)
    decreases |events|
  {
    if events == [] then end == s
    else Enabled(s, events[0]) && IsRun(maxRetries, Happens(maxRetries, s, events[0]), events[1..], end)
  }

  // ---------------------------------------------------------------- conservation

  function One(found: bool): nat {
    if found then 1 else 0
  }

  /** How many of the jobs carry the ticket; `letters` and `log` likewise below. */
  function JobTimes(jobs: seq<Job>, x: nat): nat {
    if jobs == [] then 0 else JobTimes(jobs[..|jobs| - 1], x) + One(jobs[|jobs| - 1].ticket == x)
  }

  function LetterTimes(letters: seq<Letter>, x: nat): nat {
    if letters == [] then 0 else LetterTimes(letters[..|letters| - 1], x) + One(letters[|letters| - 1].job.ticket == x)
  }

  function Times(log: seq<nat>, x: nat): nat {
    if log == [] then 0 else Times(log[..|log| - 1], x) + One(log[|log| - 1] == x)
  }

  /** How many payloads carry the ticket, wherever they are. */
  function AllTimes(s: State, x: nat): nat {
    JobTimes(s.queue, x) + LetterTimes(s.dlq, x) + Times(s.indexed, x) + Times(s.dropped, x) + Times(s.lost, x)
  }

  function UploadTimes(events: seq<Event>, x: nat): nat {
    if events == [] then 0 else One(events[0].Upload? && events[0].ticket == x) + UploadTimes(events[1..], x)
  }

  lemma {:induction false} JobTimesAppend(a: seq<Job>, b: seq<Job>, x: nat)
    ensures JobTimes(a + b, x) == JobTimes(a, x) + JobTimes(b, x)
  {
    if b == [] {
      assert a + b == a;
    } else {
      JobTimesAppend(a, b[..|b| - 1], x);
      assert (a + b)[..|a + b| - 1] == a + b[..|b| - 1];
    }
  }

  lemma {:induction false} LetterTimesAppend(a: seq<Letter>, b: seq<Letter>, x: nat)
    ensures LetterTimes(a + b, x) == LetterTimes(a, x) + LetterTimes(b, x)
  {
    if b == [] {
      assert a + b == a;
    } else {
      LetterTimesAppend(a, b[..|b| - 1], x);
      assert (a + b)[..|a + b| - 1] == a + b[..|b| - 1];
    }
  }

  lemma {:induction false} AgainKeeps(maxRetries: int, letters: seq<Letter>, x: nat)
    ensures JobTimes(Again(letters), x) == LetterTimes(letters, x)
    ensures AttemptsBelowCap(maxRetries, Again(letters))
  {
    if letters != [] {
      AgainKeeps(maxRetries, letters[..|letters| - 1], x);
      var init, last := Again(letters[..|letters| - 1]), letters[|letters| - 1].job.(attempt := 0);
      assert (init + [last])[..|init|] == init;
    }
  }

  /** One more job, letter or log entry counts for its own ticket only. */
  lemma OneMore(jobs: seq<Job>, job: Job, letters: seq<Letter>, letter: Letter, log: seq<nat>, n: nat, x: nat)
    ensures JobTimes(jobs + [job], x) == JobTimes(jobs, x) + One(job.ticket == x)
    ensures LetterTimes(letters + [letter], x) == LetterTimes(letters, x) + One(letter.job.ticket == x)
    ensures Times(log + [n], x) == Times(log, x) + One(n == x)
  {
    assert (jobs + [job])[..|jobs|] == jobs && (letters + [letter])[..|letters|] == letters && (log + [n])[..|log|] == log;
  }

  lemma FirstOfQueue(jobs: seq<Job>, x: nat)
    requires jobs != []
    ensures JobTimes(jobs, x) == One(jobs[0].ticket == x) + JobTimes(jobs[1..], x)
  {
    assert jobs == [jobs[0]] + jobs[1..] && [jobs[0]][..0] == [];
    JobTimesAppend([jobs[0]], jobs[1..], x);
  }

  lemma HandledKeepsTimes(maxRetries: int, s: State, reply: Reply, x: nat)
    requires s.queue != []
    ensures AllTimes(Handled(maxRetries, s, reply), x) == AllTimes(s, x)
  {
    hide Handled, RowsAfter, Track, EndingOf, CallsOf, JobTimes, LetterTimes, Times, One, Retry, Dead;
    FirstOfQueue(s.queue, x);
    HandledMoves(maxRetries, s, reply);
    var ticket := s.queue[0].ticket;
    match EndingOf(maxRetries, s.rows, s.queue[0], reply) {
      case Dropped => OneMore([], Retry(s, reply), [], Dead(s, reply), s.dropped, ticket, x);
      case Indexed => OneMore([], Retry(s, reply), [], Dead(s, reply), s.indexed, ticket, x);
      case Lost => OneMore([], Retry(s, reply), [], Dead(s, reply), s.lost, ticket, x);
      case _ => OneMore(s.queue[1..], Retry(s, reply), s.dlq, Dead(s, reply), [], ticket, x);
    }
  }

  lemma RoundKeepsTimes(maxRetries: int, s: State, reply: Reply, x: nat)
    requires s.queue != []
    ensures AllTimes(Round(maxRetries, s, reply), x) == AllTimes(s, x)
  {
    var popped := s.(calls := s.calls + [Call(PopJob, reply.pops)]);
    HandledKeepsTimes(maxRetries, popped, reply, x);
    FirstOfQueue(s.queue, x);
    OneMore([], s.queue[0], [], Letter(s.queue[0], ""), s.lost, s.queue[0].ticket, x);
    hide Handled, JobTimes, LetterTimes, Times;
  }

  lemma RequeuedKeepsTimes(maxRetries: int, s: State, limit: nat, stop: Stop, x: nat)
    ensures AllTimes(Requeued(s, limit, stop), x) == AllTimes(s, x)
  {
    hide JobTimes, LetterTimes, Again, Times, CallsUpTo, AttemptsBelowCap, One;
    var k := if limit < |s.dlq| then limit else |s.dlq|;
    var q, d := QueuedUpTo(stop, k), PoppedUpTo(stop, k);
    FrontKeepsTimes(maxRetries, s.queue, s.dlq, q, x);
    if q < d {
      FirstOfLetters(s.dlq[q..], s.lost, x);
      assert s.dlq[q..][1..] == s.dlq[d..];
    }
  }

  lemma FrontKeepsTimes(maxRetries: int, queue: seq<Job>, letters: seq<Letter>, j: nat, x: nat)
    requires j <= |letters|
    ensures JobTimes(queue + Again(letters[..j]), x) + LetterTimes(letters[j..], x)
            == JobTimes(queue, x) + LetterTimes(letters, x)
  {
    hide JobTimes, LetterTimes, Again, AttemptsBelowCap;
    assert letters == letters[..j] + letters[j..];
    LetterTimesAppend(letters[..j], letters[j..], x);
    AgainKeeps(maxRetries, letters[..j], x);
    JobTimesAppend(queue, Again(letters[..j]), x);
  }

  lemma FirstOfLetters(letters: seq<Letter>, log: seq<nat>, x: nat)
    requires letters != []
    ensures LetterTimes(letters, x) == One(letters[0].job.ticket == x) + LetterTimes(letters[1..], x)
    ensures Times(log + [letters[0].job.ticket], x) == Times(log, x) + One(letters[0].job.ticket == x)
  {
    assert letters == [letters[0]] + letters[1..];
    LetterTimesAppend([letters[0]], letters[1..], x);
    OneMore([], letters[0].job, [], letters[0], log, letters[0].job.ticket, x);
    assert [] + [letters[0]] == [letters[0]];
  }

  lemma EventKeepsTimes(maxRetries: int, s: State, e: Event, x: nat)
    requires Enabled(s, e)
    ensures AllTimes(Happens(maxRetries, s, e), x) == AllTimes(s, x) + One(e.Upload? && e.ticket == x)
  {
    match e {
      case Upload(doc, jobId, ticket) =>
        var job := Job(doc, 0, Some(jobId), ticket);
        OneMore(s.queue, job, [], Letter(job, ""), [], ticket, x);
        hide JobTimes, LetterTimes, Times;
      case Handle(reply) =>
        RoundKeepsTimes(maxRetries, s, reply, x);
        hide AllTimes, Round;
      case Requeue(limit, stop) =>
        RequeuedKeepsTimes(maxRetries, s, limit, stop, x);
        hide AllTimes, Requeued;
    }
  }

  lemma {:induction false} RunConservesTickets(maxRetries: int, s: State, events: seq<Event>, end: State, x: nat)
    requires IsRun(maxRetries, s, events, end)
    ensures AllTimes(end, x) == AllTimes(s, x) + UploadTimes(events, x)
    decreases |events|
  {
    hide AllTimes, Happens, Enabled;
    if events != [] {
      EventKeepsTimes(maxRetries, s, events[0], x);
      RunConservesTickets(maxRetries, Happens(maxRetries, s, events[0]), events[1..], end, x);
    }
  }

  ghost predicate Bounded(maxRetries: int, s: State) {
    AttemptsBelowCap(maxRetries, s.queue) && LettersAreSpent(maxRetries, s.dlq)
  }

  lemma HandledKeepsBounded(maxRetries: int, s: State, reply: Reply)
    requires Bounded(maxRetries, s) && s.queue != []
    ensures Bounded(maxRetries, Handled(maxRetries, s, reply))
  {
    RetriedBelowCap(maxRetries, s.rows, s.queue[0], reply);
    hide Handled, RowsAfter, Track, EndingOf, CallsOf, Retry, Dead;
    HandledMoves(maxRetries, s, reply);
  }

  lemma BelowCapConcat(maxRetries: int, a: seq<Job>, b: seq<Job>)
    requires AttemptsBelowCap(maxRetries, a) && AttemptsBelowCap(maxRetries, b)
    ensures AttemptsBelowCap(maxRetries, a + b)
  {
    hide Budget;
  }

  lemma SpentTail(maxRetries: int, letters: seq<Letter>, j: nat)
    requires LettersAreSpent(maxRetries, letters) && j <= |letters|
    ensures LettersAreSpent(maxRetries, letters[j..])
  {
    hide Budget;
  }

  lemma RequeuedKeepsBounded(maxRetries: int, s: State, limit: nat, stop: Stop)
    requires Bounded(maxRetries, s)
    ensures Bounded(maxRetries, Requeued(s, limit, stop))
  {
    hide Again, CallsUpTo, JobTimes, LetterTimes, AttemptsBelowCap, LettersAreSpent;
    var k := if limit < |s.dlq| then limit else |s.dlq|;
    AgainKeeps(maxRetries, s.dlq[..QueuedUpTo(stop, k)], 0);
    BelowCapConcat(maxRetries, s.queue, Again(s.dlq[..QueuedUpTo(stop, k)]));
    SpentTail(maxRetries, s.dlq, PoppedUpTo(stop, k));
  }

  lemma BelowCapTail(maxRetries: int, jobs: seq<Job>)
    requires AttemptsBelowCap(maxRetries, jobs) && jobs != []
    ensures AttemptsBelowCap(maxRetries, jobs[1..])
  {
    hide Budget;
  }

  lemma RoundKeepsBounded(maxRetries: int, s: State, reply: Reply)
    requires Bounded(maxRetries, s) && s.queue != []
    ensures Bounded(maxRetries, Round(maxRetries, s, reply))
  {
    hide AttemptsBelowCap, LettersAreSpent, Handled;
    HandledKeepsBounded(maxRetries, s.(calls := s.calls + [Call(PopJob, reply.pops)]), reply);
    BelowCapTail(maxRetries, s.queue);
  }

  lemma EventKeepsBounded(maxRetries: int, s: State, e: Event)
    requires Bounded(maxRetries, s) && Enabled(s, e)
    ensures Bounded(maxRetries, Happens(maxRetries, s, e))
  {
    hide Round, Requeued;
    match e {
      case Upload(_, _, _) =>
      case Handle(reply) => RoundKeepsBounded(maxRetries, s, reply);
      case Requeue(limit, stop) => RequeuedKeepsBounded(maxRetries, s, limit, stop);
    }
  }

  lemma {:induction false} RunKeepsBounded(maxRetries: int, s: State, events: seq<Event>, end: State)
    requires Bounded(maxRetries, s) && IsRun(maxRetries, s, events, end)
    ensures Bounded(maxRetries, end)
    decreases |events|
  {
    hide Bounded, Happens;
    if events != [] {
      EventKeepsBounded(maxRetries, s, events[0]);
      RunKeepsBounded(maxRetries, Happens(maxRetries, s, events[0]), events[1..], end);
    }
  }

  // ---------------------------------------------------------------- what is lost

  /**
   * A call loses the payload in hand: a rollback or the record of a failure that raises,
   * a push that raises without effect, a pop that raises after its effect.
   */
  predicate Loses(c: Call) {
    match c.action
    case RollBack => !c.fate.Works?
    case RecordFailure => !c.fate.Works?
    case PushJob => c.fate.RaisesBefore?
    case PushLetter => c.fate.RaisesBefore?
    case RequeueLetter => c.fate.RaisesBefore?
    case PopJob => c.fate.RaisesAfter?
    case PopLetter => c.fate.RaisesAfter?
    case _ => false
  }

  /** How many of the calls lose a payload. */
  function Losses(calls: seq<Call>): nat {
    if calls == [] then 0 else Losses(calls[..|calls| - 1]) + One(Loses(calls[|calls| - 1]))
  }

  lemma {:induction false} LossesAppend(a: seq<Call>, b: seq<Call>)
    ensures Losses(a + b) == Losses(a) + Losses(b)
  {
    if b == [] {
      assert a + b == a;
    } else {
      LossesAppend(a, b[..|b| - 1]);
      assert (a + b)[..|a + b| - 1] == a + b[..|b| - 1];
    }
  }

  lemma LossesOfFew(a: Call, b: Call)
    ensures Losses([a]) == One(Loses(a)) && Losses([a, b]) == One(Loses(a)) + One(Loses(b))
  {
    assert [a][..0] == [] && [a, b][..1] == [a];
  }

  lemma LossesOfFailure(maxRetries: int, t: Tracking, job: Job, reply: Reply)
    ensures Losses(FailureCalls(maxRetries, t, job, reply))
            == One((!t.Untracked? && !reply.recordsError) || !reply.pushes.Acts())
  {
    var push := Call(if WillRetry(maxRetries, job) then PushJob else PushLetter, reply.pushes);
    LossesOfFew(push, push);
    LossesOfFew(Call(RecordFailure, Works), push);
    LossesOfFew(Call(RecordFailure, RaisesBefore), push);
    assert [Call(RecordFailure, Works)] + [push] == [Call(RecordFailure, Works), push];
    hide Losses, WillRetry;
  }

  lemma LossesOfIndex(maxRetries: int, t: Tracking, job: Job, reply: Reply)
    ensures Losses(IndexCalls(maxRetries, t, job, reply))
            == One(!(reply.indexes && (t.Untracked? || reply.records))
                   && ((!t.Untracked? && !reply.recordsError) || !reply.pushes.Acts()))
  {
    var rest := FailureCalls(maxRetries, t, job, reply);
    LossesOfFailure(maxRetries, t, job, reply);
    LossesOfFew(Call(IndexDocument, RaisesBefore), Call(RecordSuccess, RaisesBefore));
    LossesOfFew(Call(IndexDocument, Works), Call(RecordSuccess, Works));
    LossesOfFew(Call(IndexDocument, Works), Call(RecordSuccess, RaisesBefore));
    LossesAppend([Call(IndexDocument, RaisesBefore)], rest);
    LossesAppend([Call(IndexDocument, Works), Call(RecordSuccess, RaisesBefore)], rest);
    hide Losses, FailureCalls;
  }

  /** Handling a job loses its payload exactly if one of the calls made does, and never do two. */
  lemma HandlingLosses(maxRetries: int, rows: map<nat, Row>, job: Job, reply: Reply)
    ensures Losses(CallsOf(maxRetries, rows, job, reply)) == One(EndingOf(maxRetries, rows, job, reply) == Lost)
  {
    var t := Track(rows, job, reply);
    LossesOfIndex(maxRetries, t, job, reply);
    LossesOfFew(Call(TrackJob, Works), Call(TrackJob, Works));
    LossesOfFew(Call(TrackJob, RaisesBefore), Call(RollBack, Works));
    LossesOfFew(Call(TrackJob, RaisesBefore), Call(RollBack, RaisesBefore));
    LossesAppend([Call(TrackJob, Works)], IndexCalls(maxRetries, t, job, reply));
    LossesAppend([Call(TrackJob, RaisesBefore), Call(RollBack, Works)], IndexCalls(maxRetries, t, job, reply));
    hide Losses, IndexCalls, Track, WillRetry;
  }

  lemma RoundLosses(maxRetries: int, s: State, reply: Reply)
    requires s.queue != []
    ensures var t := Round(maxRetries, s, reply); |t.lost| - |s.lost| == Losses(t.calls) - Losses(s.calls)
  {
    var pop := Call(PopJob, reply.pops);
    var popped := s.(calls := s.calls + [pop]);
    LossesAppend(s.calls, [pop]);
    LossesOfFew(pop, pop);
    HandledMoves(maxRetries, popped, reply);
    HandlingLosses(maxRetries, s.rows, s.queue[0], reply);
    LossesAppend(popped.calls, CallsOf(maxRetries, s.rows, s.queue[0], reply));
    hide Losses, CallsOf, EndingOf, RowsAfter, Handled;
  }

  lemma {:induction false} LossesOfRounds(n: nat)
    ensures Losses(Rounds(n)) == 0
  {
    if n > 0 {
      LossesOfRounds(n - 1);
      LossesAppend(Rounds(n - 1), [Call(PopLetter, Works), Call(RequeueLetter, Works)]);
      LossesOfFew(Call(PopLetter, Works), Call(RequeueLetter, Works));
    }
  }

  lemma LossesOfRequeue(stop: Stop, k: nat)
    ensures Losses(CallsUpTo(stop, k)) == PoppedUpTo(stop, k) - QueuedUpTo(stop, k)
  {
    LossesOfRounds(k);
    if Stops(stop, k) {
      LossesOfRounds(stop.at);
      var pop := Call(PopLetter, if stop.PushStops? then Works else if stop.took then RaisesAfter else RaisesBefore);
      var push := Call(RequeueLetter, if stop.PopStops? || stop.landed then RaisesAfter else RaisesBefore);
      LossesOfFew(pop, push);
      LossesAppend(Rounds(stop.at), [pop]);
      LossesAppend(Rounds(stop.at), [pop, push]);
    }
    hide Losses, Rounds;
  }

  lemma RequeueLosses(s: State, limit: nat, stop: Stop)
    ensures var t := Requeued(s, limit, stop); |t.lost| - |s.lost| == Losses(t.calls) - Losses(s.calls)
  {
    var k := if limit < |s.dlq| then limit else |s.dlq|;
    LossesOfRequeue(stop, k);
    LossesAppend(s.calls, CallsUpTo(stop, k));
    hide Losses, CallsUpTo, Again;
  }

  lemma {:induction false} RunLosses(maxRetries: int, s: State, events: seq<Event>, end: State)
    requires IsRun(maxRetries, s, events, end)
    ensures |end.lost| - |s.lost| == Losses(end.calls) - Losses(s.calls)
    decreases |events|
  {
    if events != [] {
      hide Losses, Round, Requeued;
      match events[0] {
        case Upload(_, _, _) =>
        case Handle(reply) => RoundLosses(maxRetries, s, reply);
        case Requeue(limit, stop) => RequeueLosses(s, limit, stop);
      }
      RunLosses(maxRetries, Happens(maxRetries, s, events[0]), events[1..], end);
    }
  }

  lemma {:induction false} NoLoss(calls: seq<Call>)
    ensures Losses(calls) == 0 <==> forall i | 0 <= i < |calls| :: !Loses(calls[i])
  {
    if calls != [] {
      NoLoss(calls[..|calls| - 1]);
    }
  }

  /**
   * Over every sequence of uploads, rounds of the worker and requeued dead letters, with
   * any pop or push raising before or after its effect: each payload is in exactly one
   * place or has ended exactly one way, as often as it was uploaded; queued attempts stay
   * below the cap and dead letters have used theirs up. As many payloads vanish without
   * trace as rollbacks and records of a failure raised, pushes raised without effect and
   * pops raised after their effect; so none vanishes if and only if no such call was made.
   */
  lemma QueueConservesPayloads(maxRetries: int, events: seq<Event>, s: State)
    requires IsRun(maxRetries, EMPTY, events, s)
    ensures forall x ::
              JobTimes(s.queue, x) + LetterTimes(s.dlq, x) + Times(s.indexed, x) + Times(s.dropped, x) + Times(s.lost, x)
              == UploadTimes(events, x)
    ensures forall i | 0 <= i < |s.queue| :: s.queue[i].attempt < Budget(maxRetries)
    ensures forall i | 0 <= i < |s.dlq| :: maxRetries <= s.dlq[i].job.attempt + 1 <= Budget(maxRetries)
    ensures |s.lost| == Losses(s.calls)
    ensures s.lost == [] <==> forall i | 0 <= i < |s.calls| :: !Loses(s.calls[i])
  {
    forall x ensures AllTimes(s, x) == UploadTimes(events, x) {
      RunConservesTickets(maxRetries, EMPTY, events, s, x);
    }
    RunKeepsBounded(maxRetries, EMPTY, events, s);
    RunLosses(maxRetries, EMPTY, events, s);
    NoLoss(s.calls);
    hide IsRun, Losses, Loses;
  }

  /** A reply under which indexing fails and the row is updated. */
  function Failing(pops: Fate, pushes: Fate): Reply {
    Reply(pops, true, true, true, 0, [], false, true, true, pushes, "")
  }

  /** Two runs that lose their payload: a push that raises without effect, a pop that raises after it. */
  lemma SomePayloadsAreLost(maxRetries: int, reply: Reply)
    requires reply == Failing(Works, RaisesBefore) || reply == Failing(RaisesAfter, Works)
    ensures exists s :: IsRun(maxRetries, EMPTY, [Upload(0, 0, 7), Handle(reply)], s)
                        && s.lost == [7] && s.queue == [] && s.dlq == []
  {
    var first := Uploaded(EMPTY, 0, 0, 7);
    var s := Round(maxRetries, first, reply);
    var events := [Upload(0, 0, 7), Handle(reply)];
    assert first.queue == [Job(0, 0, Some(0), 7)];
    HandledMoves(maxRetries, first.(calls := first.calls + [Call(PopJob, reply.pops)]), reply);
    assert [Job(0, 0, Some(0), 7)][1..] == [];
    assert s.lost == [7] && s.queue == [] && s.dlq == [];
    hide Round, RowsAfter, CallsOf, Handled;
    assert events[1..] == [Handle(reply)] && events[1..][1..] == [];
    assert IsRun(maxRetries, s, [], s);
    assert IsRun(maxRetries, first, [Handle(reply)], s);
  }

  /** Some push of the action took effect. */
  predicate Landed(calls: seq<Call>, a: Action) {
    Call(a, Works) in calls || Call(a, RaisesAfter) in calls
  }

  /**
   * A payload whose document was indexed is nevertheless pushed on exactly if recording
   * the success raised, recording that as a failure did not, and the push took effect:
   * with an attempt left it is retried, otherwise it becomes a dead letter.
   */
  lemma IndexedYetPushedOn(maxRetries: int, s: State, reply: Reply)
    requires s.queue != [] && Call(IndexDocument, Works) in CallsOf(maxRetries, s.rows, s.queue[0], reply)
    ensures var t, job := Handled(maxRetries, s, reply), s.queue[0];
            var calls := CallsOf(maxRetries, s.rows, job, reply);
            var slips := Call(RecordSuccess, RaisesBefore) in calls && Call(RecordFailure, Works) in calls;
            && (|t.queue| == |s.queue| <==> slips && Landed(calls, PushJob))
            && (|t.dlq| > |s.dlq| <==> slips && Landed(calls, PushLetter))
            && (|t.queue| == |s.queue| ==> job.attempt + 1 < maxRetries)
            && (|t.dlq| > |s.dlq| ==> job.attempt + 1 >= maxRetries)
            && (t.indexed == s.indexed + [job.ticket] <==> Call(RecordSuccess, RaisesBefore) !in calls)
  {
    HandledMoves(maxRetries, s, reply);
    hide Handled, RowsAfter, Track, Retry, Dead;
    CallsOfIndexed(maxRetries, s.rows, s.queue[0], reply);
    hide CallsOf, EndingOf;
  }

  /** An indexed document whose payload becomes a dead letter: no attempt is left and its success is not recorded. */
  lemma SomeIndexedPayloadDies(s: State, reply: Reply)
    requires s.queue != [] && s.queue[0].jobId == None
    requires reply == Failing(Works, Works).(indexes := true, records := false)
    ensures Call(IndexDocument, Works) in CallsOf(1, s.rows, s.queue[0], reply)
    ensures |Handled(1, s, reply).dlq| == |s.dlq| + 1
  {
    assert Track(s.rows, s.queue[0], reply) == Tracked(0);
    assert EndingOf(1, s.rows, s.queue[0], reply) == DeadLettered;
    HandledMoves(1, s, reply);
    hide Handled, RowsAfter;
  }

  lemma CallsInFailure(maxRetries: int, t: Tracking, job: Job, reply: Reply)
    ensures var calls, away := FailureCalls(maxRetries, t, job, reply), (t.Untracked? || reply.recordsError) && reply.pushes.Acts();
            && (Call(RecordFailure, Works) in calls <==> !t.Untracked? && reply.recordsError)
            && (Landed(calls, PushJob) <==> away && WillRetry(maxRetries, job))
            && (Landed(calls, PushLetter) <==> away && !WillRetry(maxRetries, job))
            && Call(RecordSuccess, RaisesBefore) !in calls && Call(IndexDocument, Works) !in calls
  {
    hide WillRetry;
  }

  /** How a job ends whose document was indexed, from the calls made. */
  lemma CallsOfIndexed(maxRetries: int, rows: map<nat, Row>, job: Job, reply: Reply)
    requires Call(IndexDocument, Works) in CallsOf(maxRetries, rows, job, reply)
    ensures var calls, end := CallsOf(maxRetries, rows, job, reply), EndingOf(maxRetries, rows, job, reply);
            var slips := Call(RecordSuccess, RaisesBefore) in calls && Call(RecordFailure, Works) in calls;
            && (end.Retried? <==> slips && Landed(calls, PushJob))
            && (end.DeadLettered? <==> slips && Landed(calls, PushLetter))
            && (end.Retried? ==> job.attempt + 1 < maxRetries)
            && (end.DeadLettered? ==> job.attempt + 1 >= maxRetries)
            && (end.Indexed? <==> Call(RecordSuccess, RaisesBefore) !in calls)
  {
    CallsInFailure(maxRetries, Track(rows, job, reply), job, reply);
    hide Track, FailureCalls;
  }
}
