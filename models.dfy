/** The one table of the store, `history`, and its insert-time defaults
    (leanservice/models.py). */
module Models {
  import opened Wrappers
  import opened Schemas

  /** A row of `history`. `id` is the primary key; `url` is nullable. */
  datatype Row = Row(id: string, url: Option<string>, postUrl: string, createdAt: Time)

  /** A row as inserted without `id` or `created_at`: the column defaults supply a
      freshly generated identifier and the clock reading at insert time. */
  function NewRow(url: Option<string>, postUrl: string, freshId: string, now: Time): (r: Row)
    ensures r.url == url && r.postUrl == postUrl
    ensures r.id == freshId && r.createdAt == now
  {
    Row(freshId, url, postUrl, now)
  }

  /** The identifiers already taken. */
  function Ids(rows: seq<Row>): set<string> {
    set r | r in rows :: r.id
  }

  /** The primary-key constraint: no two rows share an identifier. */
  ghost predicate UniqueIds(rows: seq<Row>) {
    forall i, j :: 0 <= i < j < |rows| ==> rows[i].id != rows[j].id
  }

  /** Appending a row with an identifier not yet taken keeps the primary key unique. */
  lemma AppendFreshKeepsKeysUnique(rows: seq<Row>, row: Row)
    requires UniqueIds(rows)
    requires row.id !in Ids(rows)
    ensures UniqueIds(rows + [row])
    ensures Ids(rows + [row]) == Ids(rows) + {row.id}
  {
    var s := rows + [row];
    forall i, j | 0 <= i < j < |s|
      ensures s[i].id != s[j].id
    {
      if j == |rows| {
        assert s[i] in rows;
      }
    }
  }

  /** A row read back through the response record: an address is required. */
  function ToPicture(row: Row): (r: Option<Picture>)
    ensures r.Some? <==> row.url.Some?
    ensures r.Some? ==> r.value.url == row.url.value && r.value.postUrl == row.postUrl
    ensures r.Some? ==> r.value.createdAt == row.createdAt
  {
    match row.url
    case Some(u) => Some(Picture(u, row.postUrl, row.createdAt))
    case None => None
  }
}
