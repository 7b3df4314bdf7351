/** The history store: add one pick, read back all picks (leanservice/crud.py). */
module Crud {
  import opened Wrappers
  import opened Schemas
  import opened Models

  /** What a history read yields for each row: every column but `id`. */
  datatype HistoryEntry = HistoryEntry(url: Option<string>, postUrl: string, createdAt: Time)

  function Summary(row: Row): HistoryEntry {
    HistoryEntry(row.url, row.postUrl, row.createdAt)
  }

  /** The rows projected one by one, in table order. */
  function Summaries(rows: seq<Row>): (r: seq<HistoryEntry>)
    ensures |r| == |rows|
    ensures forall k :: 0 <= k < |rows| ==> r[k] == Summary(rows[k])
  {
    if rows == [] then [] else [Summary(rows[0])] + Summaries(rows[1..])
  }

  /** The address stored for a post: the text of its URL, if it has one. */
  function UrlText(post: RedditPost): (r: Option<string>)
    ensures r.Some? <==> post.url.Some?
    ensures r.Some? ==> r.value == post.url.value.text
  {
    match post.url
    case Some(u) => Some(u.text)
    case None => None
  }

  /** The `history` table, as seen by one session. */
  class HistoryTable {
    var rows: seq<Row>

    ghost predicate Valid()
      reads this
    {
      UniqueIds(rows)
    }

    /** A freshly created, empty table. */
    constructor ()
      ensures Valid() && rows == []
    {
      rows := [];
    }

    /** Insert one row for `post` and return it, with the generated identifier and
        the insert time filled in. Rows already present are left as they were. */
    method AddToHistory(post: RedditPost, freshId: string, now: Time) returns (entry: Row)
      requires Valid()
      requires freshId !in Ids(rows)
      modifies this
      ensures Valid()
      ensures entry.url == UrlText(post) && entry.postUrl == PostUrl(post)
      ensures entry.id == freshId && entry.createdAt == now
      ensures rows == old(rows) + [entry]
      ensures Ids(rows) == old(Ids(rows)) + {freshId}
    {
      entry := NewRow(UrlText(post), PostUrl(post), freshId, now);
      AppendFreshKeepsKeysUnique(rows, entry);
      rows := rows + [entry];
    }

    /** Every row, projected to its address, link and time. The query has no
        ordering, so only which entries come back is promised, not their order. */
    function GetHistory(): (r: seq<HistoryEntry>)
      reads this
      ensures |r| == |rows|
      ensures multiset(r) == multiset(Summaries(rows))
      ensures forall k :: 0 <= k < |rows| ==> Summary(rows[k]) in r
      ensures forall e :: e in r ==> exists k :: 0 <= k < |rows| && Summary(rows[k]) == e
    {
      var r := Summaries(rows);
      assert forall k :: 0 <= k < |rows| ==> r[k] == Summary(rows[k]);
      r
    }
  }

  /** A fresh table reads back empty; after one insert it reads back one entry, the
      inserted post's address, link and time. */
  method AddThenReadBack(post: RedditPost, freshId: string, now: Time)
    returns (before: seq<HistoryEntry>, entry: Row, after: seq<HistoryEntry>)
    ensures before == []
    ensures entry.url == UrlText(post) && entry.postUrl == PostUrl(post) && entry.createdAt == now
    ensures after == [HistoryEntry(UrlText(post), PostUrl(post), now)]
  {
    var table := new HistoryTable();
    before := table.GetHistory();
    entry := table.AddToHistory(post, freshId, now);
    after := table.GetHistory();
    assert Summary(entry) in after;
  }
}
