// Results that come in pages: the iterator of the Go binding (iterator.go) and that of
// the C++ client (coroqueryresults.cc), against the flat list of results.

module Paging {
  import opened Wrappers

  // An item of the results, whatever it is.
  type Item = int

  // The server's side: the results, how many of them a fetch from an offset brings, or
  // that it fails, and which of them cannot be decoded.
  datatype Server = Server(results: seq<Item>, page: nat -> Option<nat>, broken: set<nat>)

  // A page that comes is not empty and within the results.
  ghost predicate Pages(server: Server) {
    forall o: nat :: o < |server.results| && server.page(o).Some? ==> 0 < server.page(o).value <= |server.results| - o
  }

  ghost predicate AllCome(server: Server) {
    forall o: nat :: o < |server.results| ==> server.page(o).Some? && o !in server.broken
  }

  // ---- iterator.go ----

  class Iterator {
    const server: Server
    var ptr: nat              // items given so far
    var resPtr: nat           // of the current page
    var count: nat            // items of the page
    var qcount: nat
    var buf: seq<Item>
    var err: bool
    var current: Item

    ghost predicate Valid()
      reads this
    {
      && Pages(server) && qcount == |server.results|
      && |buf| == count && resPtr <= count && resPtr <= ptr <= qcount
      && ptr - resPtr + count <= qcount
      && buf == server.results[ptr - resPtr..ptr - resPtr + count]
    }

    // The query's own answer brings the first page, possibly empty.
    constructor (server: Server, first: nat)
      requires Pages(server) && first <= |server.results|
      ensures Valid() && this.server == server && ptr == 0 && !err
    {
      this.server := server;
      ptr, resPtr, count, qcount, err, current := 0, 0, first, |server.results|, false, 0;
      buf := server.results[..first];
    }

    predicate NeedMore()
      reads this
    {
      resPtr >= count && ptr <= qcount
    }

    // The fetch of the page there, if it is needed, or the item itself fails.
    ghost predicate Breaks(fetch: bool, at: nat) {
      (fetch && server.page(at).None?) || at in server.broken
    }

    // fetchResults and setBuffer
    method FetchResults()
      requires Valid() && ptr < qcount && resPtr == count
      modifies this
      ensures Valid() && ptr == old(ptr) && current == old(current)
      ensures err <==> server.page(ptr).None?
      ensures !err ==> resPtr == 0 && server.page(ptr) == Some(count) && count > 0
    {
      match server.page(ptr)
      case None => err := true;
      case Some(n) =>
        err, resPtr, count, buf := false, 0, n, server.results[ptr..ptr + n];
    }

    // NextObj: the next of the results in order, until there are none, a fetch fails or an
    // item cannot be decoded.
    method Next() returns (hasNext: bool)
      requires Valid()
      modifies this
      ensures Valid()
      ensures hasNext ==> !old(err) && !err && old(ptr) < qcount && ptr == old(ptr) + 1 && current == server.results[old(ptr)]
      ensures !hasNext ==> ptr == old(ptr)
      ensures !hasNext <==> err || (ptr == old(ptr) == qcount)
      ensures !old(err) ==> (err <==> old(ptr) < qcount && Breaks(old(NeedMore()), old(ptr)))
      ensures old(err) ==> err
    {
      if ptr >= qcount || err {
        return false;
      }
      if NeedMore() {
        FetchResults();
        if err {
          return false;
        }
      }
      current := buf[resPtr];
      if ptr in server.broken {
        err := true;
        return false;
      }
      resPtr := resPtr + 1;
      ptr := ptr + 1;
      return ptr <= qcount;
    }

    // All results in order; after a failure, those before it and then nothing.
    method FetchAll() returns (items: seq<Option<Item>>)
      requires Valid() && ptr == 0 && !err
      modifies this
      ensures Valid()
      ensures !err ==> items == Given(server.results, |server.results|)
      ensures err ==> ptr < |server.results| && Breaks(true, ptr)
      ensures err ==> items == if ptr == 0 then [] else Given(server.results[..ptr], |server.results|)
      ensures AllCome(server) ==> !err
    {
      var next := Next();
      if next {
        items := Fill();
      } else {
        items := [];
      }
    }

    // The loop, once the first result is there.
    method Fill() returns (items: seq<Option<Item>>)
      requires Valid() && ptr == 1 <= qcount && !err && current == server.results[0]
      modifies this
      ensures Valid()
      ensures !err ==> items == Given(server.results, |server.results|)
      ensures err ==> 0 < ptr < |server.results| && Breaks(true, ptr) && items == Given(server.results[..ptr], |server.results|)
    {
      var n := qcount;
      items := Given([], n);
      for i := 0 to n
        invariant Valid() && n == |server.results| == |items|
        invariant !err && i < n && ptr == i + 1 && current == server.results[i]
        invariant items == Given(server.results[..i], n)
      {
        GivenOne(server.results, i, n);
        items := items[i := Some(current)];
        var next := Next();
        if !next {
          Whole(server.results, n);
          return;
        }
      }
    }
  }

  lemma Whole(xs: seq<Item>, n: nat)
    requires n == |xs|
    ensures xs[..n] == xs
  {
  }

  // The first of n places filled, the rest empty.
  function Given(xs: seq<Item>, n: nat): (r: seq<Option<Item>>)
    requires |xs| <= n
    ensures |r| == n
  {
    seq(n, i requires 0 <= i => if i < |xs| then Some(xs[i]) else None)
  }

  lemma GivenOne(xs: seq<Item>, i: nat, n: nat)
    requires i < |xs| <= n
    ensures Given(xs[..i], n)[i := Some(xs[i])] == Given(xs[..i + 1], n)
  {
  }

  // ---- coroqueryresults.cc ----

  // What a fetch does: a page, a failed call, or an answer that cannot be used after the
  // offset has moved on.
  datatype Answer = Page(n: nat) | CallFails | AnswerFails(n: nat)

  class CoroIterator {
    const results: seq<Item>
    const answer: nat -> Answer
    var idx: nat
    var pos: nat               // position in the page, counted in items
    var nextPos: nat           // 0: the item at pos has not been read
    var fetchOffset: nat
    var count: nat
    var qcount: nat
    var page: seq<Item>
    var ok: bool               // status_
    var item: Item

    ghost predicate Fair() {
      forall o: nat :: o < |results| && answer(o).Page? ==> 0 < answer(o).n <= |results| - o
    }

    // While the status is good, the page is the window fetchOffset.. of the results and
    // the iterator stands in it, at its end only when all is done.
    ghost predicate Window()
      reads this
    {
      && fetchOffset <= idx <= fetchOffset + count <= qcount == |results|
      && page == results[fetchOffset..fetchOffset + count]
      && pos == idx - fetchOffset && (idx == fetchOffset + count ==> idx == qcount)
      && (nextPos != 0 ==> nextPos == pos + 1 && pos < count && item == page[pos])
    }

    ghost predicate Valid()
      reads this
    {
      Fair() && qcount == |results| && idx <= qcount && (ok ==> Window())
    }

    constructor (results: seq<Item>, answer: nat -> Answer, first: nat)
      requires forall o: nat :: o < |results| && answer(o).Page? ==> 0 < answer(o).n <= |results| - o
      requires first <= |results| && (first == 0 ==> results == [])
      ensures Valid() && ok && idx == 0 && this.results == results && this.answer == answer
    {
      this.results, this.answer := results, answer;
      idx, pos, nextPos, fetchOffset, count, qcount := 0, 0, 0, 0, first, |results|;
      page, ok, item := results[..first], true, 0;
    }

    method ReadNext()
      requires Valid()
      modifies this`item, this`nextPos, this`ok
      ensures Valid() && (old(ok) && idx < qcount ==> ok && nextPos == pos + 1 && item == results[idx])
      ensures !old(ok) ==> !ok
    {
      if nextPos != 0 || !ok {
        return;
      }
      if pos >= |page| {
        ok := false;
      } else {
        item := page[pos];
        nextPos := pos + 1;
      }
    }

    // operator++
    method Advance()
      requires Valid() && idx < qcount
      modifies this
      ensures Valid() && idx == old(idx) + 1
      ensures old(ok) ==>
        (ok <==> idx == qcount || old(fetchOffset + count) != idx || answer(idx).Page?)
    {
      ReadNext();
      idx := idx + 1;
      pos := nextPos;
      nextPos := 0;
      if idx != qcount && idx == count + fetchOffset {
        FetchNext();
      }
    }

    // fetchNextResults and handleFetchedBuf, and the reset of pos
    method FetchNext()
      requires idx < qcount == |results| && Fair() && idx == count + fetchOffset && nextPos == 0
      modifies this`fetchOffset, this`count, this`page, this`ok, this`pos
      ensures ok <==> answer(idx).Page?
      ensures ok ==> Window() && answer(idx) == Page(count)
    {
      match answer(count + fetchOffset)
      case CallFails => ok := false;
      case AnswerFails(n) =>
        fetchOffset := fetchOffset + count;
        count := n;
        ok := false;
      case Page(n) =>
        fetchOffset := fetchOffset + count;
        count := n;
        page := results[fetchOffset..fetchOffset + n];
        ok := true;
        pos := 0;
    }

    // A loop over all results that stops taking items at the first bad status: it ends
    // after qcount steps whatever fails, and has taken the results in order up to where
    // the first fetch failed, or all of them.
    method Traverse() returns (items: seq<Item>, failed: bool)
      requires Valid() && ok && idx == 0
      modifies this
      ensures idx == qcount && items <= results
      ensures !failed ==> items == results
      ensures failed ==> 0 < |items| < qcount && !answer(|items|).Page?
    {
      items, failed := [], false;
      while idx != qcount
        invariant Valid() && |items| <= qcount && items == results[..|items|]
        invariant !failed ==> ok && |items| == idx
        invariant failed ==> 0 < |items| < qcount && !answer(|items|).Page?
        decreases qcount - idx
      {
        ReadNext();
        if !failed {
          items := items + [item];
        }
        Advance();
        if !ok {
          failed := true;
        }
      }
      assert results[..qcount] == results;
    }
  }
}
