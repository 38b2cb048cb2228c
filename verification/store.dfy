/**
 * The `seen_jobs` table: rows keyed by job id, written with insert-or-ignore
 * semantics (a duplicate primary key raises `IntegrityError`, which
 * `mark_job_seen` swallows).
 */
module Store {
  import opened Jobs

  /**
   * The table after an insert that is ignored on a duplicate key: the new
   * row appears only when its id is absent, and no existing row changes.
   */
  function Insert(rows: map<string, JobRecord>, id: string, row: JobRecord): (r: map<string, JobRecord>)
    ensures r.Keys == rows.Keys + {id}
    ensures forall k :: k in rows ==> r[k] == rows[k]
    ensures id !in rows ==> r[id] == row
  {
    if id in rows then rows else rows[id := row]
  }

  /** Inserting an id that is present is a no-op: the stored row wins. */
  lemma InsertExistingIsNoOp(rows: map<string, JobRecord>, id: string, row: JobRecord)
    requires id in rows
    ensures Insert(rows, id, row) == rows
  {
  }

  /** A second insert of the same id, with any row, changes nothing. */
  lemma InsertIdempotent(rows: map<string, JobRecord>, id: string, row1: JobRecord, row2: JobRecord)
    ensures Insert(Insert(rows, id, row1), id, row2) == Insert(rows, id, row1)
  {
  }

  /** Inserts of different ids commute. */
  lemma InsertCommutes(rows: map<string, JobRecord>, id1: string, row1: JobRecord, id2: string, row2: JobRecord)
    requires id1 != id2
    ensures Insert(Insert(rows, id1, row1), id2, row2) == Insert(Insert(rows, id2, row2), id1, row1)
  {
  }

  /** The table behind `is_job_seen` / `mark_job_seen`. */
  class SeenJobStore {
    /** job_id -> (title, company, url, portal, posted_date, days_ago). */
    var rows: map<string, JobRecord>

    /**
     * `init_database`: `CREATE TABLE IF NOT EXISTS` keeps whatever rows the
     * database file already holds.
     */
    constructor(existing: map<string, JobRecord>)
      ensures rows == existing
    {
      rows := existing;
    }

    /** `is_job_seen(job_id)`: a row with this primary key exists. */
    method IsJobSeen(id: string) returns (seen: bool)
      ensures seen <==> id in rows
    {
      seen := id in rows;
    }

    /**
     * `mark_job_seen(...)`: insert the row, or leave the table untouched
     * when the id is already present.
     */
    method MarkJobSeen(id: string, title: string, company: string, url: string,
                       portal: string, postedDate: string, daysAgo: int)
      modifies this
      ensures rows == Insert(old(rows), id, JobRecord(title, company, url, portal, postedDate, daysAgo))
      ensures id in rows
      ensures old(rows).Keys <= rows.Keys
    {
      if id !in rows {
        rows := rows[id := JobRecord(title, company, url, portal, postedDate, daysAgo)];
      }
    }
  }
}
