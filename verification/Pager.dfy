/** The paging loop of `_list_scheduled_assistants`, against servers that page, that do not, and that do anything. */
module Pager {
  import opened Prelude

  /** An assistant as listed; `agentId` may be missing. */
  datatype Row = Row(agentId: Option<string>, details: string)

  function Ids(rows: seq<Row>): set<Option<string>> {
    set i | 0 <= i < |rows| :: rows[i].agentId
  }

  ghost predicate DistinctIds(rows: seq<Row>) {
    forall i, j :: 0 <= i < j < |rows| ==> rows[i].agentId != rows[j].agentId
  }

  function Clamp(n: int, size: nat): nat {
    if n < 0 then 0 else if n > size then size else n
  }

  /** The page at `offset` of a server that honours limit and offset. */
  function Slice(fleet: seq<Row>, limit: int, offset: int): seq<Row> {
    if limit <= 0 then [] else fleet[Clamp(offset, |fleet|)..Clamp(offset + limit, |fleet|)]
  }

  datatype Kind =
    | Honours   // pages by limit and offset
    | Ignores   // an older server: the full list, every time
    | Anything  // any pages at all drawn from the fleet

  class Server {
    const fleet: seq<Row>
    const kind: Kind
    /** The pages it sent, and how many requests got none. */
    ghost var served: seq<seq<Row>>
    ghost var failures: nat

    constructor (fleet: seq<Row>, kind: Kind)
      ensures this.fleet == fleet && this.kind == kind && served == [] && failures == 0
    {
      this.fleet := fleet;
      this.kind := kind;
      this.served := [];
      this.failures := 0;
    }

    /** One page, or None once the retries of a request are used up. */
    method GetPage(limit: int, offset: int) returns (page: Option<seq<Row>>)
      modifies this
      ensures failures == old(failures) + if page.None? then 1 else 0
      ensures served == old(served) + if page.None? then [] else [page.value]
      ensures page.Some? ==> Ids(page.value) <= Ids(fleet)
      ensures page.Some? && kind.Honours? ==> page.value == Slice(fleet, limit, offset)
      ensures page.Some? && kind.Ignores? ==> page.value == fleet
    {
      var fails: bool := *;
      if fails {
        failures := failures + 1;
        return None;
      }
      var rows: seq<Row> := *;
      match kind {
        case Honours =>
          rows := Slice(fleet, limit, offset);
        case Ignores =>
          rows := fleet;
        case Anything =>
          if !(Ids(rows) <= Ids(fleet)) {
            rows := [];
          }
      }
      served := served + [rows];
      return Some(rows);
    }
  }

  /** The rows of a page whose id no earlier page had; a page may repeat an id within itself. */
  function Unseen(page: seq<Row>, seen: set<Option<string>>): seq<Row> {
    if page == [] then [] else
      var before, last := Unseen(page[..|page| - 1], seen), page[|page| - 1];
      if last.agentId in seen then before else before + [last]
  }

  /** Row by row: one whose id was seen is dropped, any other kept as it is. */
  lemma UnseenOfSum(page: seq<Row>, row: Row, seen: set<Option<string>>)
    ensures Unseen([], seen) == []
    ensures Unseen(page + [row], seen) == Unseen(page, seen) + if row.agentId in seen then [] else [row]
  {
    assert (page + [row])[..|page|] == page;
  }

  lemma {:induction false} UnseenIds(page: seq<Row>, seen: set<Option<string>>)
    ensures Ids(Unseen(page, seen)) == Ids(page) - seen
    ensures Unseen(page, seen) == [] <==> Ids(page) <= seen
  {
    if page != [] {
      var before, last := page[..|page| - 1], page[|page| - 1];
      UnseenIds(before, seen);
      IdsOfSum(before, [last]);
      assert page == before + [last] && Ids([last]) == {last.agentId};
      IdsOfSum(Unseen(before, seen), [last]);
      if last.agentId !in seen {
        assert last.agentId in Ids(page);
      }
    }
  }

  lemma IdsOfSum(a: seq<Row>, b: seq<Row>)
    ensures Ids(a + b) == Ids(a) + Ids(b)
  {
    forall id | id in Ids(a) + Ids(b) ensures id in Ids(a + b) {
      if id in Ids(a) {
        var i :| 0 <= i < |a| && a[i].agentId == id;
        assert (a + b)[i].agentId == id;
      } else {
        var i :| 0 <= i < |b| && b[i].agentId == id;
        assert (a + b)[|a| + i].agentId == id;
      }
    }
  }

  lemma {:induction false} AllUnseen(page: seq<Row>, seen: set<Option<string>>)
    requires Ids(page) !! seen
    ensures Unseen(page, seen) == page
  {
    if page != [] {
      var before, last := page[..|page| - 1], page[|page| - 1];
      IdsOfSum(before, [last]);
      assert page == before + [last] && last.agentId in Ids(page);
      AllUnseen(before, seen);
    }
  }

  /** Pages merged in order: each contributes the rows no page before it had. */
  function Merged(pages: seq<seq<Row>>): seq<Row> {
    if pages == [] then [] else
      var before := Merged(pages[..|pages| - 1]);
      before + Unseen(pages[|pages| - 1], Ids(before))
  }

  /** Merging loses no id that any page had, and invents none. */
  lemma {:induction false} MergedHasEveryId(pages: seq<seq<Row>>, id: Option<string>)
    ensures id in Ids(Merged(pages)) <==> exists i :: 0 <= i < |pages| && id in Ids(pages[i])
  {
    if pages != [] {
      var before, last := pages[..|pages| - 1], pages[|pages| - 1];
      MergedHasEveryId(before, id);
      UnseenIds(last, Ids(Merged(before)));
      IdsOfSum(Merged(before), Unseen(last, Ids(Merged(before))));
      assert forall i :: 0 <= i < |before| ==> before[i] == pages[i];
    }
  }

  /** What is known while the pages keep coming, per kind of server. */
  ghost predicate Progress(kind: Kind, fleet: seq<Row>, limit: int, offset: int, out: seq<Row>) {
    DistinctIds(fleet) && limit > 0 ==>
      && (kind.Honours? ==> offset >= 0 && out == fleet[..Clamp(offset, |fleet|)])
      && (kind.Ignores? ==> out == [] || out == fleet)
  }

  ghost predicate Complete(kind: Kind, fleet: seq<Row>, limit: int, out: seq<Row>) {
    DistinctIds(fleet) && limit > 0 && !kind.Anything? ==> out == fleet
  }

  lemma Grows(seen: set<Option<string>>, more: set<Option<string>>, all: set<Option<string>>)
    requires seen <= all && more <= all && seen !! more
    ensures |seen| <= |seen + more| <= |all| && (more != {} ==> |seen| < |seen + more|)
  {
    assert all == (seen + more) + (all - (seen + more));
    assert |seen + more| == |seen| + |more|;
  }

  lemma NextHonoured(fleet: seq<Row>, limit: int, offset: int)
    requires DistinctIds(fleet) && limit > 0 && offset >= 0
    ensures Unseen(Slice(fleet, limit, offset), Ids(fleet[..Clamp(offset, |fleet|)])) == Slice(fleet, limit, offset)
    ensures fleet[..Clamp(offset, |fleet|)] + Slice(fleet, limit, offset) == fleet[..Clamp(offset + limit, |fleet|)]
    ensures |Slice(fleet, limit, offset)| < limit || Slice(fleet, limit, offset) == [] ==>
            Clamp(offset + limit, |fleet|) == |fleet|
  {
    var from := Clamp(offset, |fleet|);
    var out, page := fleet[..from], Slice(fleet, limit, offset);
    forall i, j | 0 <= i < |out| && 0 <= j < |page| ensures out[i].agentId != page[j].agentId {
      assert out[i] == fleet[i] && page[j] == fleet[from + j];
    }
    AllUnseen(page, Ids(out));
  }

  /** One more page keeps the progress; a short page, or one without news, completes it. */
  lemma NextPage(kind: Kind, fleet: seq<Row>, limit: int, offset: int, out: seq<Row>, page: seq<Row>)
    requires Progress(kind, fleet, limit, offset, out)
    requires kind.Honours? ==> page == Slice(fleet, limit, offset)
    requires kind.Ignores? ==> page == fleet
    ensures Progress(kind, fleet, limit, offset + limit, out + Unseen(page, Ids(out)))
    ensures |page| < limit || Unseen(page, Ids(out)) == [] ==>
            Complete(kind, fleet, limit, out + Unseen(page, Ids(out)))
  {
    if DistinctIds(fleet) && limit > 0 {
      if kind.Honours? {
        NextHonoured(fleet, limit, offset);
        assert fleet[..|fleet|] == fleet;
      } else if kind.Ignores? {
        NextIgnored(fleet, out);
      }
    }
  }

  lemma NextIgnored(fleet: seq<Row>, out: seq<Row>)
    requires out == [] || out == fleet
    ensures out + Unseen(fleet, Ids(out)) == fleet
  {
    if out == [] {
      AllUnseen(fleet, Ids(out));
    } else {
      UnseenIds(fleet, Ids(out));
    }
  }

  /** The state of the loop after `pages`: merged so far, each of them with news. */
  ghost predicate Underway(kind: Kind, fleet: seq<Row>, limit: int, offset: int, pages: seq<seq<Row>>, rows: seq<Row>) {
    && rows == Merged(pages)
    && Ids(rows) <= Ids(fleet)
    && |pages| <= |Ids(rows)| <= |Ids(fleet)|
    && Progress(kind, fleet, limit, offset, rows)
  }

  /** The latest page is short, or has no id that the pages before it had not. */
  ghost predicate IsLast(pages: seq<seq<Row>>, limit: int) {
    && pages != []
    && (|pages[|pages| - 1]| < limit || Ids(pages[|pages| - 1]) <= Ids(Merged(pages[..|pages| - 1])))
  }

  lemma TakePage(kind: Kind, fleet: seq<Row>, limit: int, offset: int, pages: seq<seq<Row>>, rows: seq<Row>,
      page: seq<Row>, next: seq<Row>)
    requires Underway(kind, fleet, limit, offset, pages, rows) && Ids(page) <= Ids(fleet)
    requires kind.Honours? ==> page == Slice(fleet, limit, offset)
    requires kind.Ignores? ==> page == fleet
    requires next == rows + Unseen(page, Ids(rows))
    ensures next == Merged(pages + [page]) && Ids(next) == Ids(rows) + Ids(Unseen(page, Ids(rows)))
    ensures Ids(next) <= Ids(fleet)
    ensures Unseen(page, Ids(rows)) != [] ==>
            Underway(kind, fleet, limit, offset + limit, pages + [page], next) && |Ids(rows)| < |Ids(next)|
    ensures |page| < limit || Unseen(page, Ids(rows)) == [] ==>
            Complete(kind, fleet, limit, next) && IsLast(pages + [page], limit)
  {
    assert (pages + [page])[..|pages|] == pages;
    UnseenIds(page, Ids(rows));
    IdsOfSum(rows, Unseen(page, Ids(rows)));
    NextPage(kind, fleet, limit, offset, rows, page);
    Grows(Ids(rows), Ids(Unseen(page, Ids(rows))), Ids(fleet));
  }

  lemma LogPage(before: seq<seq<Row>>, pages: seq<seq<Row>>, page: seq<Row>)
    ensures before + pages + [page] == before + (pages + [page])
  {
  }

  /**
   * The loop ends whatever the server sends: every page it goes on from brings an id not seen before, so
   * there are at most as many pages as ids, plus one. With distinct ids and a positive limit it returns the
   * whole fleet, once and in order, from a server that pages and from one that does not.
   */
  method ListScheduledAssistants(server: Server, limit: int) returns (out: Option<seq<Row>>, ghost pages: seq<seq<Row>>)
    modifies server
    ensures server.failures == old(server.failures) + if out.None? then 1 else 0
    ensures server.served == old(server.served) + pages
    ensures out.Some? ==> IsLast(pages, limit)
    ensures out.Some? ==> out.value == Merged(pages) && Ids(out.value) <= Ids(server.fleet)
    ensures |pages| <= |Ids(server.fleet)| + 1
    ensures out.Some? ==> Complete(server.kind, server.fleet, limit, out.value)
  {
    var rows: seq<Row> := [];
    var seen: set<Option<string>> := {};
    var offset := 0;
    pages := [];
    while true
      invariant seen == Ids(rows) && Underway(server.kind, server.fleet, limit, offset, pages, rows)
      invariant server.failures == old(server.failures) && server.served == old(server.served) + pages
      decreases |Ids(server.fleet)| - |seen|
    {
      var page := server.GetPage(limit, offset);
      if page.None? {
        return None, pages;
      }
      var newRows := Unseen(page.value, seen);
      TakePage(server.kind, server.fleet, limit, offset, pages, rows, page.value, rows + newRows);
      LogPage(old(server.served), pages, page.value);
      pages := pages + [page.value];
      rows := rows + newRows;
      seen := seen + Ids(newRows);
      if |page.value| < limit || newRows == [] {
        return Some(rows), pages;
      }
      offset := offset + limit;
    }
  }
}
