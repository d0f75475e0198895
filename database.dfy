/**
 * The one persisted entity, AnalysisJob, and the table of jobs: lookup by
 * primary key, insertion, update of a loaded row, deletion, and the
 * newest-first order in which rows are listed.
 */
module Database {
  import opened Wrappers

  /** The four values the status column takes. */
  datatype Status = Pending | Processing | Completed | Failed

  /** The text stored in the status column, which holds at most 20 characters. */
  function StatusName(s: Status): (name: string)
    ensures 0 < |name| <= 20
  {
    match s
    case Pending => "pending"
    case Processing => "processing"
    case Completed => "completed"
    case Failed => "failed"
  }

  /** One row of the job table. `filename`, `result`, `error` and
      `completedAt` may be null; timestamps are instants on one clock. */
  datatype Job = Job(
    id: string,
    filename: Option<string>,
    query: string,
    status: Status,
    result: Option<string>,
    error: Option<string>,
    createdAt: int,
    completedAt: Option<int>)

  /** The primary-key constraint: no two rows share an id. */
  predicate UniqueIds(rows: seq<Job>) {
    forall i, j :: 0 <= i < j < |rows| ==> rows[i].id != rows[j].id
  }

  predicate HasId(rows: seq<Job>, id: string) {
    exists k :: 0 <= k < |rows| && rows[k].id == id
  }

  /** Where `.filter(AnalysisJob.id == id).first()` finds its row: the first
      position holding `id`, or nothing when no row has it. */
  function IndexOf(rows: seq<Job>, id: string): (r: Option<nat>)
    ensures r.Some? ==> r.value < |rows| && rows[r.value].id == id
    ensures r.Some? ==> forall k :: 0 <= k < r.value ==> rows[k].id != id
    ensures r.None? <==> !HasId(rows, id)
  {
    if rows == [] then None
    else if rows[0].id == id then Some(0)
    else
      match IndexOf(rows[1..], id)
      case None =>
        assert forall k :: 1 <= k < |rows| ==> rows[k] == rows[1..][k - 1];
        None
      case Some(i) => Some(i + 1)
  }

  /** With unique ids, the first row holding an id is the only one. */
  lemma IndexOfUnique(rows: seq<Job>, id: string, k: nat)
    requires UniqueIds(rows)
    requires k < |rows| && rows[k].id == id
    ensures IndexOf(rows, id) == Some(k)
  {
  }

  /** created_at never increases along the sequence: newest first. */
  predicate NewestFirst(rows: seq<Job>) {
    forall i, j :: 0 <= i < j < |rows| ==> rows[i].createdAt >= rows[j].createdAt
  }

  /** A row no older than the head of a newest-first sequence can go in
      front of it. */
  lemma ConsNewestFirst(job: Job, sorted: seq<Job>)
    requires NewestFirst(sorted)
    requires sorted != [] ==> job.createdAt >= sorted[0].createdAt
    ensures NewestFirst([job] + sorted)
  {
    var r := [job] + sorted;
    forall i, j | 0 <= i < j < |r|
      ensures r[i].createdAt >= r[j].createdAt
    {
      if i == 0 && j > 1 {
        assert sorted[0].createdAt >= sorted[j - 1].createdAt;
      }
    }
  }

  /** Puts `job` into a newest-first sequence ahead of the first row that is
      not newer than it. */
  function InsertNewestFirst(job: Job, sorted: seq<Job>): (r: seq<Job>)
    requires NewestFirst(sorted)
    ensures |r| == |sorted| + 1
    ensures r[0] == job || (sorted != [] && r[0] == sorted[0])
    ensures NewestFirst(r)
    ensures multiset(r) == multiset(sorted) + multiset{job}
  {
    if sorted == [] || sorted[0].createdAt <= job.createdAt then
      ConsNewestFirst(job, sorted);
      [job] + sorted
    else
      var rest := InsertNewestFirst(job, sorted[1..]);
      assert sorted == [sorted[0]] + sorted[1..];
      ConsNewestFirst(sorted[0], rest);
      [sorted[0]] + rest
  }

  /** The rows in the order `.order_by(AnalysisJob.created_at.desc())`
      returns them: newest first, and every row exactly once. Rows with equal
      created_at keep their table order. */
  function OrderByCreatedDesc(rows: seq<Job>): (r: seq<Job>)
    ensures |r| == |rows|
    ensures NewestFirst(r)
    ensures multiset(r) == multiset(rows)
  {
    if rows == [] then []
    else
      assert rows == [rows[0]] + rows[1..];
      InsertNewestFirst(rows[0], OrderByCreatedDesc(rows[1..]))
  }

  /** A contiguous window of a newest-first sequence is newest first. */
  lemma WindowNewestFirst(rows: seq<Job>, lo: nat, hi: nat)
    requires NewestFirst(rows) && lo <= hi <= |rows|
    ensures NewestFirst(rows[lo..hi])
  {
    var window := rows[lo..hi];
    forall i, j | 0 <= i < j < |window|
      ensures window[i].createdAt >= window[j].createdAt
    {
      assert window[i] == rows[lo + i] && window[j] == rows[lo + j];
    }
  }

  /** Every row of the newest-first listing is a row of the table. */
  lemma OrderedRowsFromTable(rows: seq<Job>)
    ensures forall k :: 0 <= k < |rows| ==> OrderByCreatedDesc(rows)[k] in rows
  {
    var ordered := OrderByCreatedDesc(rows);
    forall k | 0 <= k < |rows|
      ensures ordered[k] in rows
    {
      assert ordered[k] in multiset(ordered);
    }
  }

  /** The job table. Rows are kept in insertion order; the primary key is
      the object invariant. */
  class JobTable {
    var rows: seq<Job>

    ghost predicate Valid()
      reads this
    {
      UniqueIds(rows)
    }

    constructor ()
      ensures Valid() && rows == []
    {
      rows := [];
    }

    /** The row a query filtered on the primary key loads, if any. */
    function Get(id: string): (r: Option<Job>)
      reads this
      ensures r.Some? <==> HasId(rows, id)
      ensures r.Some? ==> r.value in rows && r.value.id == id
    {
      match IndexOf(rows, id)
      case None => None
      case Some(i) => Some(rows[i])
    }

    /** `db.add(job); db.commit()` for a key not yet in the table. */
    method Add(job: Job)
      requires Valid() && !HasId(rows, job.id)
      modifies this
      ensures Valid()
      ensures rows == old(rows) + [job]
    {
      rows := rows + [job];
    }

    /** Committing new field values for the loaded row at position `i`;
        its key stays the same and no other row changes. */
    method Put(i: nat, job: Job)
      requires Valid() && i < |rows| && rows[i].id == job.id
      modifies this
      ensures Valid()
      ensures rows == old(rows)[i := job]
    {
      rows := rows[i := job];
    }

    /** `db.delete(job); db.commit()` for the row at position `i`: that row
        is gone, its key with it, and the other rows keep their order. */
    method Remove(i: nat)
      requires Valid() && i < |rows|
      modifies this
      ensures Valid()
      ensures rows == old(rows)[..i] + old(rows)[i + 1..]
      ensures !HasId(rows, old(rows)[i].id)
    {
      ghost var before := rows;
      rows := rows[..i] + rows[i + 1..];
      forall k | 0 <= k < |rows|
        ensures rows[k].id != before[i].id
      {
        if k < i {
          assert rows[k] == before[k];
        } else {
          assert rows[k] == before[k + 1];
        }
      }
    }
  }
}
