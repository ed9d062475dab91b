/** Listing by pages: the server's page (mods/pgdata/src/api/list.ts) and the client's loop (mods/ctl/src/utils.ts). */
module Pagination {
  import opened Wrappers

  datatype Row = Row(ref: string, dto: string)

  datatype ListResponse = ListResponse(items: seq<Row>, nextPageToken: Option<string>)

  predicate DistinctRefs(table: seq<Row>) {
    && (forall i :: 0 <= i < |table| ==> table[i].ref != "")
    && (forall i, j :: 0 <= i < j < |table| ==> table[i].ref != table[j].ref)
  }

  // ---------------------------------------------------------------- the server

  function Take(rows: seq<Row>, n: nat): seq<Row> {
    if |rows| <= n then rows else rows[..n]
  }

  /** The rows that follow the one with this reference, or none when there is no such row. */
  function AfterRef(table: seq<Row>, ref: string): seq<Row> {
    if table == [] then [] else if table[0].ref == ref then table[1..] else AfterRef(table[1..], ref)
  }

  /** `table` is in the order of the query, newest first. An empty token asks for the first page. */
  function List(table: seq<Row>, pageSize: nat, pageToken: string): ListResponse {
    var items := Take(if pageToken == "" then table else AfterRef(table, pageToken), pageSize);
    ListResponse(items, if items == [] then None else Some(items[|items| - 1].ref))
  }

  // ---------------------------------------------------------------- the client

  /** What the loop may leave shown: some pages, all but the last confirmed, and all of them unless one was declined. */
  predicate Shown(table: seq<Row>, pageSize: nat, confirm: nat -> bool, shown: seq<seq<Row>>) {
    && shown <= Pages(table, pageSize)
    && (forall j :: 0 <= j < |shown| - 1 ==> confirm(j))
    && (|shown| < |Pages(table, pageSize)| ==> |shown| > 0 && !confirm(|shown| - 1))
  }

  /**
   Asks for page after page and shows them. Rows may be created between the requests, which puts them in front:
   the table of request k is `newer(k) + table`. `confirm(j)` is the answer to the j-th question for more.
   */
  method ShowPaginatedList(table: seq<Row>, newer: nat -> seq<Row>, pageSize: nat, confirm: nat -> bool)
    returns (shown: seq<seq<Row>>)
    requires newer(0) == [] && forall k :: DistinctRefs(newer(k) + table)
    ensures Shown(table, pageSize, confirm, shown)
  {
    hide *;
    var firstBatch, pageToken, request := true, "", 0;
    shown := [];
    ghost var front, back: seq<Row> := [], table;
    NothingShownYet(table, pageSize, confirm);
    while true
      invariant firstBatch == (shown == []) && |shown| == request
      invariant Token(front, pageToken) && (front == [] ==> request == 0)
      invariant Progress(table, pageSize, confirm, shown, front, back)
      decreases |back|
    {
      var result := List(newer(request) + table, pageSize, pageToken);
      NextPage(table, newer(request), pageSize, confirm, shown, front, back, pageToken);
      var list := result.items;
      if |list| > 0 && !firstBatch {
        var more := confirm(request - 1);
        if !more {
          break;
        }
      }
      if |list| < 1 {
        break;
      }
      OnePageOn(table, pageSize, confirm, shown, front, back);
      pageToken := result.nextPageToken.value;
      shown := shown + [list];
      firstBatch := false;
      front, back, request := front + list, back[|list|..], request + 1;
      if pageToken == "" {
        break;
      }
    }
    StoppedHere(table, pageSize, confirm, shown, front, back);
  }

  // ---------------------------------------------------------------- the pages of a table

  /** The table cut into pages; nothing comes in pages of no rows. */
  function Pages(table: seq<Row>, pageSize: nat): seq<seq<Row>> {
    if table == [] || pageSize == 0 then []
    else [Take(table, pageSize)] + Pages(table[|Take(table, pageSize)|..], pageSize)
  }

  function Flatten(pages: seq<seq<Row>>): seq<Row> {
    if pages == [] then [] else pages[0] + Flatten(pages[1..])
  }

  lemma {:induction false} AfterItsRow(before: seq<Row>, row: Row, back: seq<Row>)
    requires DistinctRefs(before + [row] + back)
    ensures AfterRef(before + [row] + back, row.ref) == back
  {
    var table := before + [row] + back;
    if before == [] {
      assert table == [row] + back;
    } else {
      assert table[0].ref != table[|before|].ref;
      assert table[1..] == before[1..] + [row] + back;
      AfterItsRow(before[1..], row, back);
    }
  }

  /** The token that asks for what follows `front`. */
  predicate Token(front: seq<Row>, pageToken: string) {
    if front == [] then pageToken == "" else pageToken == front[|front| - 1].ref
  }

  /** The token of a page asks for the page right after it, whatever has come in front in between. */
  lemma PageIsNext(newer: seq<Row>, front: seq<Row>, back: seq<Row>, pageSize: nat, pageToken: string)
    requires DistinctRefs(newer + front + back)
    requires Token(front, pageToken) && (front == [] ==> newer == [])
    ensures List(newer + front + back, pageSize, pageToken).items == Take(back, pageSize)
  {
    if front == [] {
      assert newer + front + back == back;
    } else {
      var n := |front| - 1;
      assert newer + front + back == newer + front[..n] + [front[n]] + back;
      AfterItsRow(newer + front[..n], front[n], back);
      assert (newer + front + back)[|newer| + n] == front[n];
    }
  }

  /** The pages of `front` are shown, with every question but the last answered, and `back` is to come. */
  ghost predicate Progress(table: seq<Row>, pageSize: nat, confirm: nat -> bool, shown: seq<seq<Row>>, front: seq<Row>,
                           back: seq<Row>)
  {
    && table == front + back
    && Pages(table, pageSize) == shown + Pages(back, pageSize)
    && forall j :: 0 <= j < |shown| - 1 ==> confirm(j)
  }

  lemma NothingShownYet(table: seq<Row>, pageSize: nat, confirm: nat -> bool)
    ensures Progress(table, pageSize, confirm, [], [], table) && Token([], "")
  {
    assert table == [] + table;
  }

  lemma NextPage(table: seq<Row>, newer: seq<Row>, pageSize: nat, confirm: nat -> bool, shown: seq<seq<Row>>,
                 front: seq<Row>, back: seq<Row>, pageToken: string)
    requires Progress(table, pageSize, confirm, shown, front, back) && DistinctRefs(newer + table)
    requires Token(front, pageToken) && (front == [] ==> newer == [])
    ensures var response := List(newer + table, pageSize, pageToken);
            && response.items == Take(back, pageSize) && response.items <= back
            && (response.items != [] ==>
                  response.nextPageToken.Some? && response.nextPageToken.value != ""
                  && Token(front + response.items, response.nextPageToken.value))
  {
    assert newer + table == newer + front + back;
    PageIsNext(newer, front, back, pageSize, pageToken);
    var items := Take(back, pageSize);
    if items != [] {
      assert (newer + table)[|newer| + |front| + |items| - 1] == back[|items| - 1] == items[|items| - 1];
    }
  }

  lemma OnePageOn(table: seq<Row>, pageSize: nat, confirm: nat -> bool, shown: seq<seq<Row>>, front: seq<Row>,
                  back: seq<Row>)
    requires Progress(table, pageSize, confirm, shown, front, back)
    requires Take(back, pageSize) != [] && (shown != [] ==> confirm(|shown| - 1))
    ensures var list := Take(back, pageSize);
            list <= back && Progress(table, pageSize, confirm, shown + [list], front + list, back[|list|..])
  {
    var list := Take(back, pageSize);
    assert back == list + back[|list|..];
    assert Pages(back, pageSize) == [list] + Pages(back[|list|..], pageSize);
  }

  lemma StoppedHere(table: seq<Row>, pageSize: nat, confirm: nat -> bool, shown: seq<seq<Row>>, front: seq<Row>,
                    back: seq<Row>)
    requires Progress(table, pageSize, confirm, shown, front, back)
    requires Take(back, pageSize) == [] || (shown != [] && !confirm(|shown| - 1))
    ensures Shown(table, pageSize, confirm, shown)
  {
    assert Take(back, pageSize) == [] ==> Pages(back, pageSize) == [];
  }

  /** The pages hold every row exactly once and in order. */
  lemma {:induction false} PagesMakeUpTheTable(table: seq<Row>, pageSize: nat)
    ensures pageSize > 0 ==> Flatten(Pages(table, pageSize)) == table
  {
    if table != [] && pageSize > 0 {
      var page := Take(table, pageSize);
      PagesMakeUpTheTable(table[|page|..], pageSize);
      assert table == page + table[|page|..];
    }
  }

  /** The first k pages are the first k times `pageSize` rows. */
  lemma {:induction false} FirstPages(table: seq<Row>, pageSize: nat, k: nat)
    requires k <= |Pages(table, pageSize)|
    ensures Flatten(Pages(table, pageSize)[..k]) == Take(table, k * pageSize)
    decreases k
  {
    var pages := Pages(table, pageSize);
    if k > 0 {
      var page := Take(table, pageSize);
      var rest := table[|page|..];
      FirstPages(rest, pageSize, k - 1);
      assert pages[..k] == [page] + Pages(rest, pageSize)[..k - 1];
      assert k * pageSize == pageSize + (k - 1) * pageSize;
    }
  }

  /**
   Everything is shown, once and in order, exactly when there is nothing, or pages have rows and no question is
   declined.
   */
  lemma EverythingIsShownIff(table: seq<Row>, pageSize: nat, confirm: nat -> bool, shown: seq<seq<Row>>)
    requires Shown(table, pageSize, confirm, shown)
    ensures Flatten(shown) == table <==>
              table == [] || (pageSize > 0 && forall j :: 0 <= j < |Pages(table, pageSize)| - 1 ==> confirm(j))
  {
    var pages := Pages(table, pageSize);
    assert shown == pages[..|shown|];
    FirstPages(table, pageSize, |shown|);
    if |shown| < |pages| {
      MorePagesMoreRows(table, pageSize, |shown|);
    } else {
      PagesMakeUpTheTable(table, pageSize);
    }
  }

  lemma {:induction false} MorePagesMoreRows(table: seq<Row>, pageSize: nat, k: nat)
    requires k < |Pages(table, pageSize)|
    ensures k * pageSize < |table|
    decreases k
  {
    if k > 0 {
      MorePagesMoreRows(table[|Take(table, pageSize)|..], pageSize, k - 1);
      assert k * pageSize == pageSize + (k - 1) * pageSize;
    }
  }

  /** A row that is deleted while it is the cursor ends the listing there: the next page is empty. */
  lemma {:induction false} DeletedCursorEndsTheListing(table: seq<Row>, pageSize: nat, pageToken: string)
    requires pageToken != "" && forall i :: 0 <= i < |table| ==> table[i].ref != pageToken
    ensures List(table, pageSize, pageToken) == ListResponse([], None)
  {
    if table != [] {
      DeletedCursorEndsTheListing(table[1..], pageSize, pageToken);
    }
  }

  // ---------------------------------------------------------------- by row numbers

  function Smaller(a: int, b: int): int {
    if a < b then a else b
  }

  /**
   The page after row `i` is the rows that follow it, as many as a page has room for, and its token is the last one's
   reference; without a token it is the first rows.
   */
  lemma {:induction false} PageByRowNumber(table: seq<Row>, pageSize: nat, i: int, pageToken: string)
    requires DistinctRefs(table) && -1 <= i < |table|
    requires pageToken == if i == -1 then "" else table[i].ref
    ensures var response, end := List(table, pageSize, pageToken), Smaller(i + 1 + pageSize, |table|);
            && response.items == table[i + 1..end]
            && response.nextPageToken == if end == i + 1 then None else Some(table[end - 1].ref)
  {
    if i >= 0 {
      assert table == table[..i] + [table[i]] + table[i + 1..];
      AfterItsRow(table[..i], table[i], table[i + 1..]);
    }
  }

  /** The k-th page is the rows from k times the page size on, and the last page ends with the table. */
  lemma {:induction false} PageHoldsItsRows(table: seq<Row>, pageSize: nat, k: nat)
    requires k < |Pages(table, pageSize)|
    ensures k * pageSize < |table|
    ensures Pages(table, pageSize)[k] == table[k * pageSize..Smaller(k * pageSize + pageSize, |table|)]
    decreases k
  {
    MorePagesMoreRows(table, pageSize, k);
    if k > 0 {
      assert k * pageSize == pageSize + (k - 1) * pageSize;
      assert (k - 1) * pageSize >= 0;
      assert |table| > pageSize && Take(table, pageSize) == table[..pageSize];
      PageHoldsItsRows(table[pageSize..], pageSize, k - 1);
      TakenLater(table, pageSize, (k - 1) * pageSize, Smaller((k - 1) * pageSize + pageSize, |table| - pageSize));
    }
  }

  lemma TakenLater(table: seq<Row>, n: nat, from: nat, to: nat)
    requires n + to <= |table| && from <= to
    ensures table[n..][from..to] == table[n + from..n + to]
  {
  }

  /** The j-th list that the client shows is the j-th stretch of rows. */
  lemma ShownByRowNumber(table: seq<Row>, pageSize: nat, confirm: nat -> bool, shown: seq<seq<Row>>, j: nat)
    requires Shown(table, pageSize, confirm, shown) && j < |shown|
    ensures j * pageSize < |table|
    ensures shown[j] == table[j * pageSize..Smaller(j * pageSize + pageSize, |table|)]
  {
    PageHoldsItsRows(table, pageSize, j);
  }

  /** A question before the end that is declined leaves the lists shown so far. */
  lemma StopsWhereDeclined(table: seq<Row>, pageSize: nat, confirm: nat -> bool, shown: seq<seq<Row>>, j: nat)
    requires Shown(table, pageSize, confirm, shown) && !confirm(j) && forall i :: 0 <= i < j ==> confirm(i)
    requires pageSize > 0 && (j + 1) * pageSize <= |table|
    ensures |shown| == j + 1
  {
    EnoughRowsEnoughPages(table, pageSize, j);
  }

  lemma {:induction false} EnoughRowsEnoughPages(table: seq<Row>, pageSize: nat, j: nat)
    requires pageSize > 0 && (j + 1) * pageSize <= |table|
    ensures |Pages(table, pageSize)| > j
    decreases j
  {
    assert (j + 1) * pageSize == pageSize + j * pageSize;
    if j > 0 {
      assert j * pageSize >= 0;
      EnoughRowsEnoughPages(table[pageSize..], pageSize, j - 1);
      assert Take(table, pageSize) == table[..pageSize];
    }
  }
}
