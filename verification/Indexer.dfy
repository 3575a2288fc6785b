/**
 * Indexing a document into two stores: chunk rows inside a database transaction and
 * search points written at once. Any call may raise or crash the worker, before or
 * after it took effect.
 */
module Indexer {

  datatype Status = PENDING | PROCESSING | INDEXED | FAILED

  /** Chunk texts by chunk id. */
  type Chunks = map<nat, string>

  /** What survives a crash: the committed status and rows of the document, and its points. */
  datatype Durable = Durable(status: Status, rows: Chunks, points: Chunks)

  datatype Fault = Works | RaisesBefore | RaisesAfter | CrashesBefore | CrashesAfter {
    predicate Acts() {
      Works? || RaisesAfter? || CrashesAfter?
    }

    function Outcome(): Outcome {
      if Works? then Fine else if RaisesBefore? || RaisesAfter? then Raised else Crashed
    }
  }

  datatype Outcome = Fine | Raised | Crashed {
    predicate IsFailure() {
      !Fine?
    }

    function PropagateFailure(): Outcome
      requires IsFailure()
    {
      this
    }
  }

  /** What parsing yields: the figures met on the way, and the chunks with their fresh ids. */
  datatype Parsed = Parsed(figures: nat, chunks: seq<(nat, string)>)

  function ChunkMap(chunks: seq<(nat, string)>): Chunks {
    if chunks == [] then map[] else ChunkMap(chunks[..|chunks| - 1])[chunks[|chunks| - 1].0 := chunks[|chunks| - 1].1]
  }

  /** An indexed document has the same rows and points, all from one version. */
  ghost predicate Whole(d: Durable, versions: set<Chunks>) {
    d.status == INDEXED ==> d.rows == d.points && d.rows in versions
  }

  class Worker {
    var committedStatus: Status
    var committedRows: Chunks
    var status: Status
    var rows: Chunks
    var points: Chunks
    var clock: nat
    const faults: nat -> Fault
    /** Every durable state so far, the present one last. */
    ghost var history: seq<Durable>
    /** The versions of the document that were ever to be indexed. */
    ghost const versions: set<Chunks>

    constructor (d: Durable, faults: nat -> Fault, ghost versions: set<Chunks>)
      requires Whole(d, versions)
      ensures Now() == d && history == [d] && this.faults == faults && this.versions == versions
      ensures AllWhole() && NothingPending()
    {
      committedStatus, committedRows, status, rows, points := d.status, d.rows, d.status, d.rows, d.points;
      clock := 0;
      this.faults := faults;
      history := [d];
      this.versions := versions;
    }

    ghost function Now(): Durable
      reads `committedStatus, `committedRows, `points
    {
      Durable(committedStatus, committedRows, points)
    }

    /** No durable state so far, so no crash so far, has shown an indexed document in pieces. */
    ghost predicate AllWhole()
      reads `committedStatus, `committedRows, `points, `history
    {
      && history != [] && history[|history| - 1] == Now()
      && forall i | 0 <= i < |history| :: Whole(history[i], versions)
    }

    ghost predicate NothingPending()
      reads `committedStatus, `committedRows, `status, `rows
    {
      status == committedStatus && rows == committedRows
    }

    /** Every call since then went through. */
    ghost predicate AllWorked(since: nat)
      reads `clock
    {
      forall k | since <= k < clock :: faults(k).Works?
    }

    /** The last call, if there was any since then, went through. */
    ghost predicate LastWorked(since: nat)
      reads `clock
    {
      since < clock ==> faults(clock - 1).Works?
    }

    // -------------------------------------------------------------- the stores

    method Call() returns (f: Fault)
      modifies `clock
      ensures f == faults(old(clock)) && clock == old(clock) + 1
    {
      f := faults(clock);
      clock := clock + 1;
    }

    method Commit() returns (r: Outcome)
      requires AllWhole() && Whole(Durable(status, rows, points), versions)
      modifies `clock, `committedStatus, `committedRows, `history
      ensures old(clock) <= clock && (r.Fine? <==> AllWorked(old(clock)))
      ensures AllWhole() && old(history) <= history
      ensures Now() == old(Now()) || Now() == Durable(status, rows, points)
      ensures r.Fine? ==> NothingPending() && Now() == Durable(status, rows, points)
      ensures clock == old(clock) + 1 && r == faults(old(clock)).Outcome()
    {
      var f := Call();
      if f.Acts() {
        committedStatus, committedRows := status, rows;
        history := history + [Now()];
      }
      return f.Outcome();
    }

    /** Rolling back, or losing the session with the worker. */
    method Rollback()
      modifies `status, `rows
      ensures NothingPending()
    {
      status, rows := committedStatus, committedRows;
    }

    method DeletePoints() returns (r: Outcome)
      requires AllWhole() && committedStatus != INDEXED
      modifies `clock, `points, `history
      ensures old(clock) <= clock && (r.Fine? <==> AllWorked(old(clock)))
      ensures AllWhole() && old(history) <= history
      ensures r.Fine? ==> points == map[]
    {
      var f := Call();
      if f.Acts() {
        points := map[];
        history := history + [Now()];
      }
      return f.Outcome();
    }

    method UpsertPoints(added: Chunks) returns (r: Outcome)
      requires AllWhole() && committedStatus != INDEXED
      modifies `clock, `points, `history
      ensures old(clock) <= clock && (r.Fine? <==> AllWorked(old(clock)))
      ensures AllWhole() && old(history) <= history
      ensures r.Fine? ==> points == old(points) + added
    {
      if added == map[] {
        return Fine;
      }
      var f := Call();
      if f.Acts() {
        points := points + added;
        history := history + [Now()];
      }
      return f.Outcome();
    }

    /** Storage, parsing, captions and embeddings: calls that touch neither store. */
    method Elsewhere() returns (r: Outcome)
      modifies `clock
      ensures old(clock) <= clock && (r.Fine? <==> AllWorked(old(clock)))
    {
      var f := Call();
      return f.Outcome();
    }

    // -------------------------------------------------------------- indexing

    /** The stage callback updates the job row, and so commits whatever the session holds. */
    method OnStage(tracked: bool) returns (r: Outcome)
      requires AllWhole() && committedStatus == PROCESSING && status == PROCESSING
      modifies `clock, `committedStatus, `committedRows, `history
      ensures old(clock) <= clock && (r.Fine? <==> AllWorked(old(clock)))
      ensures AllWhole() && old(history) <= history && committedStatus == PROCESSING
    {
      if !tracked {
        return Fine;
      }
      r := Commit();
    }

    method ClearExisting() returns (r: Outcome)
      requires AllWhole() && committedStatus == PROCESSING && status == PROCESSING
      modifies `clock, `rows, `points, `history
      ensures old(clock) <= clock && (r.Fine? <==> AllWorked(old(clock)))
      ensures AllWhole() && old(history) <= history
      ensures r.Fine? ==> rows == map[] && points == map[]
    {
      rows := map[];
      r := DeletePoints();
    }

    /** Up to the end of parsing: the old rows and points are cleared, and figures report their stage. */
    method ClearAndParse(figures: nat, tracked: bool) returns (r: Outcome)
      requires AllWhole() && committedStatus == PROCESSING && status == PROCESSING
      modifies `clock, `committedStatus, `committedRows, `rows, `points, `history
      ensures old(clock) <= clock && (r.Fine? <==> AllWorked(old(clock)))
      ensures AllWhole() && old(history) <= history && committedStatus == PROCESSING
      ensures r.Fine? ==> rows == map[] && points == map[]
    {
      hide AllWhole;
      :- OnStage(tracked);
      :- Elsewhere();
      :- ClearExisting();
      :- Elsewhere();
      for i := 0 to figures
        invariant AllWhole() && old(history) <= history
        invariant committedStatus == PROCESSING && rows == map[] && points == map[]
        invariant old(clock) <= clock && AllWorked(old(clock))
      {
        :- OnStage(tracked);
        :- Elsewhere();
      }
      r := OnStage(tracked);
    }

    /** Adds a row for each chunk and writes all points at once. */
    method WriteChunks(chunks: seq<(nat, string)>) returns (r: Outcome)
      requires AllWhole() && committedStatus == PROCESSING && rows == map[] && points == map[]
      modifies `clock, `rows, `points, `history
      ensures old(clock) <= clock && (r.Fine? <==> AllWorked(old(clock)))
      ensures AllWhole() && old(history) <= history
      ensures r.Fine? ==> rows == ChunkMap(chunks) && points == ChunkMap(chunks)
    {
      hide AllWhole;
      var added: Chunks := map[];
      for i := 0 to |chunks|
        invariant AllWhole() && history == old(history) && points == map[]
        invariant rows == ChunkMap(chunks[..i]) && added == rows
        invariant old(clock) <= clock && AllWorked(old(clock))
      {
        ChunkMapStep(chunks, i);
        rows := rows[chunks[i].0 := chunks[i].1];
        :- Elsewhere();
        added := added[chunks[i].0 := chunks[i].1];
      }
      assert chunks[..|chunks|] == chunks;
      r := UpsertPoints(added);
      assert map[] + added == added;
    }

    /** The steps inside the `try`. */
    method Index(parsed: Parsed, tracked: bool) returns (r: Outcome)
      requires AllWhole() && committedStatus == PROCESSING && status == PROCESSING
      requires ChunkMap(parsed.chunks) in versions
      modifies this
      ensures old(clock) <= clock && (r.Fine? <==> AllWorked(old(clock)))
      ensures AllWhole() && old(history) <= history
      ensures r.Fine? ==> NothingPending() && Now() == Durable(INDEXED, ChunkMap(parsed.chunks), ChunkMap(parsed.chunks))
    {
      hide AllWhole, ChunkMap;
      :- ClearAndParse(parsed.figures, tracked);
      :- WriteChunks(parsed.chunks);
      status := INDEXED;
      r := Commit();
    }

    /** One attempt on a session of its own; a failure is recorded unless the worker dies. */
    method IndexDocument(parsed: Parsed, tracked: bool) returns (r: Outcome)
      requires AllWhole() && NothingPending()
      requires ChunkMap(parsed.chunks) in versions
      modifies this
      ensures old(clock) <= clock && (r.Fine? <==> AllWorked(old(clock)))
      ensures AllWhole() && old(history) <= history
      ensures r.Fine? ==> NothingPending() && Now() == Durable(INDEXED, ChunkMap(parsed.chunks), ChunkMap(parsed.chunks))
      ensures !r.Fine? ==> status != INDEXED || r.Crashed?
      ensures r.Raised? && LastWorked(old(clock)) ==> NothingPending() && committedStatus == FAILED
    {
      status := PROCESSING;
      :- Commit();
      r := Index(parsed, tracked);
      if r.Raised? {
        Rollback();
        status := FAILED;
        var c := Commit();
        if c.Crashed? {
          return Crashed;
        }
      }
    }

    /**
     * Any number of attempts, one at a time, each with its own session and followed by
     * the commit of its job row; each may raise or crash anywhere.
     */
    method RunAttempts(attempts: seq<Parsed>, tracked: bool)
      requires AllWhole()
      requires forall i | 0 <= i < |attempts| :: ChunkMap(attempts[i].chunks) in versions
      modifies this
      ensures AllWhole() && old(history) <= history
    {
      for i := 0 to |attempts|
        invariant AllWhole() && old(history) <= history
      {
        Rollback();
        var r := IndexDocument(attempts[i], tracked);
        if !r.Crashed? {
          var _ := Commit();
        }
      }
    }
  }

  lemma ChunkMapStep(chunks: seq<(nat, string)>, i: nat)
    requires i < |chunks|
    ensures ChunkMap(chunks[..i + 1]) == ChunkMap(chunks[..i])[chunks[i].0 := chunks[i].1]
  {
    assert chunks[..i + 1][..i] == chunks[..i];
  }
}
