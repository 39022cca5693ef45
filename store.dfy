/**
 * The hosted `urls` table, reduced to what the pages and the redirect
 * function do with it: rows keyed by slug (the key is unique), a
 * single-row select, an insert and a click-count update.
 */
module Store {
  import opened Wrappers

  /** A row of `urls`: `original_url`, `click_count` (null when never written) and `created_at`. */
  datatype Row = Row(originalUrl: string, clickCount: Option<int>, createdAt: string)

  /** `click_count || 0`. */
  function ClickCount(row: Row): int {
    match row.clickCount
    case Some(n) => n
    case None => 0
  }

  /** How a client call ends apart from its data: normally, with a returned `error`, or by throwing. */
  datatype Fault = NoFault | QueryError | Throws

  /** The `{ data, error }` of `select(...).eq('slug', slug).single()`, or the exception it threw. */
  datatype Lookup = LookupError | NoRow | Found(row: Row) | Threw

  /**
   * A single-row select by slug. `.single()` reports zero matching rows as an
   * error, so a missing slug comes back as `LookupError`, never as `NoRow`.
   */
  function SelectSingle(rows: map<string, Row>, slug: string, fault: Fault): (r: Lookup)
    ensures r.Found? <==> fault == NoFault && slug in rows
    ensures r.Found? ==> r.row == rows[slug]
    ensures r == Threw <==> fault == Throws
    ensures r != NoRow
  {
    match fault
    case Throws => Threw
    case QueryError => LookupError
    case NoFault => if slug in rows then Found(rows[slug]) else LookupError
  }

  /** `update({ click_count: n }).eq('slug', slug)`: only the row with that slug changes, and only its count. */
  function SetClickCount(rows: map<string, Row>, slug: string, n: int): (r: map<string, Row>)
    ensures r.Keys == rows.Keys
    ensures forall k :: k in rows && k != slug ==> r[k] == rows[k]
    ensures slug in rows ==>
      r[slug].originalUrl == rows[slug].originalUrl && r[slug].createdAt == rows[slug].createdAt && ClickCount(r[slug]) == n
  {
    if slug in rows then rows[slug := rows[slug].(clickCount := Some(n))] else rows
  }

  /** The write both redirect paths make after a successful lookup: the count they read, plus one. */
  function CountVisit(rows: map<string, Row>, slug: string): (r: map<string, Row>)
    requires slug in rows
    ensures r.Keys == rows.Keys && ClickCount(r[slug]) == ClickCount(rows[slug]) + 1
    ensures r[slug].originalUrl == rows[slug].originalUrl
    ensures forall k :: k in rows && k != slug ==> r[k] == rows[k]
  {
    SetClickCount(rows, slug, ClickCount(rows[slug]) + 1)
  }

  /** The table's rows after `n` counted visits to `slug`. */
  function Visits(rows: map<string, Row>, slug: string, n: nat): (r: map<string, Row>)
    requires slug in rows
    ensures r.Keys == rows.Keys
  {
    if n == 0 then rows else CountVisit(Visits(rows, slug, n - 1), slug)
  }

  /** After `n` counted visits the count has grown by exactly `n`, and every other row is as it was. */
  lemma {:induction false} VisitsCount(rows: map<string, Row>, slug: string, n: nat)
    requires slug in rows
    ensures ClickCount(Visits(rows, slug, n)[slug]) == ClickCount(rows[slug]) + n
    ensures Visits(rows, slug, n)[slug].originalUrl == rows[slug].originalUrl
    ensures forall k :: k in rows && k != slug ==> Visits(rows, slug, n)[k] == rows[k]
  {
    if n > 0 {
      VisitsCount(rows, slug, n - 1);
    }
  }

  class UrlTable {
    var rows: map<string, Row>

    constructor (rows: map<string, Row>)
      ensures this.rows == rows
    {
      this.rows := rows;
    }

    function Select(slug: string, fault: Fault): (r: Lookup)
      reads this
      ensures r.Found? <==> fault == NoFault && slug in rows
    {
      SelectSingle(rows, slug, fault)
    }

    /**
     * `insert({ slug, original_url }).select().single()`: a new row whose
     * `click_count` is left to the column default and whose `created_at` is
     * `now`. It fails, leaving the table as it was, when the slug is already
     * a key (the unique key) or when the call itself fails.
     */
    method Insert(slug: string, originalUrl: string, now: string, fails: bool) returns (inserted: Option<Row>)
      modifies this
      ensures inserted.Some? <==> !fails && slug !in old(rows)
      ensures inserted.Some? ==>
        inserted.value == Row(originalUrl, None, now) && rows == old(rows)[slug := inserted.value]
      ensures inserted.None? ==> rows == old(rows)
    {
      if fails || slug in rows {
        inserted := None;
      } else {
        inserted := Some(Row(originalUrl, None, now));
        rows := rows[slug := inserted.value];
      }
    }

    /** The click-count write; when it fails nothing changes. */
    method UpdateClickCount(slug: string, n: int, fails: bool)
      modifies this
      ensures rows == if fails then old(rows) else SetClickCount(old(rows), slug, n)
    {
      if !fails {
        rows := SetClickCount(rows, slug, n);
      }
    }
  }
}
