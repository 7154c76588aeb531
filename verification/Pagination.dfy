/** KalshiClient.paginate: cursor pagination against a server that may answer anything, repeated
    and cyclic cursors included, and may raise. */
module Pagination {
  import opened Results

  /** One `get`: a page (its cursor possibly missing or empty), or the exception it raised. */
  datatype PageReply<+T> = Page(items: seq<T>, cursor: Option<string>) | Raised

  /** What the server answers to its k-th request, sent with the given cursor. */
  type Server<T> = (nat, Option<string>) -> PageReply<T>

  /** The cursors of the requests sent so far, the first request having none. */
  type Trail = seq<Option<string>>

  function ReplyAt<T>(server: Server<T>, sent: Trail, k: nat): PageReply<T>
    requires k < |sent|
  {
    server(k, sent[k])
  }

  /** Whether the loop goes on after its k-th reply: below the page cap, a page with items, with a
      nonempty cursor, and one not followed before. */
  predicate GoesOn<T>(server: Server<T>, maxPages: Option<int>, sent: Trail, k: nat)
    requires k < |sent|
  {
    var reply := ReplyAt(server, sent, k);
    && reply.Page?
    && !(maxPages.Some? && k + 1 >= maxPages.value)
    && |reply.items| > 0
    && reply.cursor.Some? && reply.cursor.value != ""
    && reply.cursor !in sent[..k + 1]
  }

  /** The run of the loop: starting with no cursor, each request follows the cursor of the page
      before it, and the trail stops at the first reply after which the loop does not go on. */
  ghost predicate IsRun<T>(server: Server<T>, maxPages: Option<int>, sent: Trail) {
    && |sent| >= 1 && sent[0] == None
    && (forall k :: 0 <= k < |sent| - 1 ==>
          GoesOn(server, maxPages, sent, k) && sent[k + 1] == ReplyAt(server, sent, k).cursor)
    && !GoesOn(server, maxPages, sent, |sent| - 1)
  }

  function ItemsOf<T>(reply: PageReply<T>): seq<T> {
    if reply.Page? then reply.items else []
  }

  /** The items of the first `n` replies, in order. */
  function ItemsUpTo<T>(server: Server<T>, sent: Trail, n: nat): seq<T>
    requires n <= |sent|
  {
    if n == 0 then []
    else ItemsUpTo(server, sent, n - 1) + ItemsOf(ReplyAt(server, sent, n - 1))
  }

  /** Every nonempty cursor the server can hand out. */
  ghost predicate CursorsWithin<T>(server: Server<T>, universe: set<string>) {
    forall k: nat, c: Option<string> :: server(k, c).Page? && server(k, c).cursor.Some? ==>
      server(k, c).cursor.value in universe
  }

  /** Midway through a run: every reply so far let the loop go on, and `cursor` is next. */
  ghost predicate Following<T>(server: Server<T>, maxPages: Option<int>, sent: Trail, cursor: Option<string>) {
    && (sent + [cursor])[0] == None
    && (forall k :: 0 <= k < |sent| ==>
          GoesOn(server, maxPages, sent, k)
          && (sent + [cursor])[k + 1] == ReplyAt(server, sent, k).cursor)
  }

  /** One more request: the run is over, or it follows the new page's cursor. */
  lemma FollowOne<T>(server: Server<T>, maxPages: Option<int>, sent: Trail, cursor: Option<string>)
    requires Following(server, maxPages, sent, cursor)
    ensures var longer := sent + [cursor];
            && ItemsUpTo(server, longer, |longer|)
               == ItemsUpTo(server, sent, |sent|) + ItemsOf(server(|sent|, cursor))
            && (if GoesOn(server, maxPages, longer, |sent|)
                then Following(server, maxPages, longer, server(|sent|, cursor).cursor)
                else IsRun(server, maxPages, longer))
  {
    var longer := sent + [cursor];
    assert longer[..|sent|] == sent == sent[..|sent|];
    SameItems(server, longer, sent, |sent|);
    assert ReplyAt(server, longer, |sent|) == server(|sent|, cursor);
    forall k | 0 <= k < |sent|
      ensures ReplyAt(server, longer, k) == ReplyAt(server, sent, k)
      ensures GoesOn(server, maxPages, longer, k)
    {
      assert longer[..k + 1] == sent[..k + 1];
      assert GoesOn(server, maxPages, sent, k);
    }
    var next := ReplyAt(server, longer, |sent|);
    if GoesOn(server, maxPages, longer, |sent|) {
      assert forall k :: 0 <= k < |longer| ==> (longer + [next.cursor])[k] == longer[k];
    }
  }

  /** The loop's own reasons to stop after a reply, having followed the cursors `seen`. */
  predicate Stops<T>(reply: PageReply<T>, maxPages: Option<int>, pages: nat, seen: set<string>) {
    || reply.Raised?
    || (maxPages.Some? && pages >= maxPages.value)
    || |reply.items| == 0
    || reply.cursor.None? || reply.cursor.value == "" || reply.cursor.value in seen
  }

  /** The cursors followed so far. */
  ghost predicate Followed(seen: set<string>, sent: Trail) {
    forall c :: c in seen <==> Some(c) in sent
  }

  /** They are the reasons a run ends. */
  lemma LoopFollows<T>(server: Server<T>, maxPages: Option<int>, sent: Trail, cursor: Option<string>, seen: set<string>)
    requires Following(server, maxPages, sent, cursor) && Followed(seen, sent + [cursor])
    ensures var longer, reply := sent + [cursor], server(|sent|, cursor);
            && ItemsUpTo(server, longer, |longer|) == ItemsUpTo(server, sent, |sent|) + ItemsOf(reply)
            && ReplyAt(server, longer, |longer| - 1) == reply
            && (if Stops(reply, maxPages, |longer|, seen) then IsRun(server, maxPages, longer)
                else Following(server, maxPages, longer, reply.cursor)
                     && Followed(seen + {reply.cursor.value}, longer + [reply.cursor]))
  {
    FollowOne(server, maxPages, sent, cursor);
    hide IsRun, Following, ItemsUpTo, GoesOn, Stops, Followed;
    GoesOnUnlessStopped(server, maxPages, sent, cursor, seen);
  }

  lemma GoesOnUnlessStopped<T>(server: Server<T>, maxPages: Option<int>, sent: Trail, cursor: Option<string>,
                               seen: set<string>)
    requires Followed(seen, sent + [cursor])
    ensures var longer, reply := sent + [cursor], server(|sent|, cursor);
            && ReplyAt(server, longer, |sent|) == reply
            && (GoesOn(server, maxPages, longer, |sent|) <==> !Stops(reply, maxPages, |longer|, seen))
            && (!Stops(reply, maxPages, |longer|, seen) ==>
                  Followed(seen + {reply.cursor.value}, longer + [reply.cursor]))
  {
    var longer, reply := sent + [cursor], server(|sent|, cursor);
    assert longer[..|sent| + 1] == longer;
    if reply.Page? && reply.cursor.Some? {
      assert reply.cursor in longer <==> reply.cursor.value in seen;
    }
  }

  /** The server as the loop meets it: it answers its k-th request with `answer(k, cursor)`, and
      every request it receives leaves its mark. */
  class Endpoint<T(!new)> {
    const answer: Server<T>
    var count: nat
    ghost var received: Trail

    constructor (answer: Server<T>)
      ensures this.answer == answer && Valid() && received == []
    {
      this.answer := answer;
      count := 0;
      received := [];
    }

    ghost predicate Valid()
      reads this
    {
      |received| == count
    }

    method Get(cursor: Option<string>) returns (reply: PageReply<T>)
      requires Valid()
      modifies this
      ensures Valid()
      ensures received == old(received) + [cursor]
      ensures reply == answer(old(count), cursor)
    {
      reply := answer(count, cursor);
      count := count + 1;
      received := received + [cursor];
    }
  }

  /** The server from its request numbered `base` on. */
  function Later<T>(server: Server<T>, base: nat): Server<T> {
    (k: nat, cursor: Option<string>) => server(base + k, cursor)
  }

  /** paginate, consumed to its end: what it asks, what it yields, and whether it ended by raising.
      With no page cap it terminates because the server has only so many cursors and none is
      followed twice; with one, because pages are counted. */
  method Paginate<T(!new, ==)>(endpoint: Endpoint<T>, maxPages: Option<int>, ghost universe: set<string>)
    returns (yielded: seq<T>, raised: bool)
    requires endpoint.Valid()
    requires maxPages.None? ==> CursorsWithin(Later(endpoint.answer, endpoint.count), universe)
    modifies endpoint
    ensures endpoint.Valid() && old(endpoint.received) <= endpoint.received
    ensures var server := Later(endpoint.answer, old(endpoint.count));
            var sent := endpoint.received[|old(endpoint.received)|..];
            && IsRun(server, maxPages, sent)
            && yielded == ItemsUpTo(server, sent, |sent|)
            && (raised <==> ReplyAt(server, sent, |sent| - 1).Raised?)
  {
    hide IsRun, ItemsUpTo, Following, Followed, CursorsWithin;
    ghost var server, before := Later(endpoint.answer, endpoint.count), endpoint.received;
    yielded, raised := [], false;
    ghost var sent: Trail := [];
    var cursor: Option<string> := None;
    var seen: set<string> := {};
    var pages := 0;
    NothingFollowed(server, maxPages);
    while true
      invariant endpoint.Valid() && endpoint.received == before + sent
      invariant pages == |sent| && endpoint.count == |before| + pages
      invariant Following(server, maxPages, sent, cursor)
      invariant Followed(seen, sent + [cursor])
      invariant yielded == ItemsUpTo(server, sent, pages)
      invariant maxPages.None? ==> seen <= universe
      decreases if maxPages.Some? then Clamp(maxPages.value - pages) else |universe - seen|
    {
      LoopFollows(server, maxPages, sent, cursor, seen);
      var reply := endpoint.Get(cursor);
      assert reply == server(pages, cursor);
      sent := sent + [cursor];
      assert endpoint.received[|before|..] == sent;
      if reply.Raised? {
        raised := true;
        return;
      }
      yielded := yielded + reply.items;
      pages := pages + 1;
      if maxPages.Some? && pages >= maxPages.value {
        return;
      }
      if reply.items == [] || reply.cursor.None? || reply.cursor.value == "" || reply.cursor.value in seen {
        return;
      }
      if maxPages.None? { WithinUniverse(server, universe, pages - 1, cursor); }
      SmallerSet(universe, seen, reply.cursor.value);
      seen := seen + {reply.cursor.value};
      cursor := reply.cursor;
    }
  }

  lemma WithinUniverse<T>(server: Server<T>, universe: set<string>, k: nat, c: Option<string>)
    requires CursorsWithin(server, universe) && server(k, c).Page? && server(k, c).cursor.Some?
    ensures server(k, c).cursor.value in universe
  {}

  lemma NothingFollowed<T>(server: Server<T>, maxPages: Option<int>)
    ensures Following(server, maxPages, [], None) && Followed({}, [] + [None])
    ensures ItemsUpTo(server, [], 0) == []
  {}

  function Clamp(x: int): nat {
    if x < 0 then 0 else x
  }

  lemma SmallerSet(universe: set<string>, seen: set<string>, c: string)
    ensures c in universe && c !in seen ==> |universe - (seen + {c})| < |universe - seen|
  {
    if c in universe && c !in seen {
      assert universe - seen == (universe - (seen + {c})) + {c};
    }
  }

  lemma {:induction false} SameItems<T>(server: Server<T>, x: Trail, y: Trail, n: nat)
    requires n <= |x| && n <= |y| && x[..n] == y[..n]
    ensures ItemsUpTo(server, x, n) == ItemsUpTo(server, y, n)
  {
    if n > 0 {
      assert x[..n - 1] == x[..n][..n - 1] && y[..n - 1] == y[..n][..n - 1];
      assert x[n - 1] == x[..n][n - 1] && y[n - 1] == y[..n][n - 1];
      SameItems(server, x, y, n - 1);
    }
  }

  /** A run, spelled out: after every request but the last the server answered with a page that had
      items and a cursor not followed before, and there was room for one more; after the last it did
      not, or there was not. */
  lemma RunSpelledOut<T>(server: Server<T>, maxPages: Option<int>, sent: Trail, k: nat)
    requires IsRun(server, maxPages, sent) && k < |sent|
    ensures var reply := server(k, sent[k]);
            k < |sent| - 1 <==>
              && reply.Page? && reply.items != [] && reply.cursor.Some? && reply.cursor.value != ""
              && (forall j :: 0 <= j <= k ==> sent[j] != reply.cursor)
              && (maxPages.None? || k + 1 < maxPages.value)
    ensures sent[0] == None
    ensures k > 0 ==> server(k - 1, sent[k - 1]).Page? && sent[k] == server(k - 1, sent[k - 1]).cursor
  {
    var reply := ReplyAt(server, sent, k);
    assert k < |sent| - 1 <==> GoesOn(server, maxPages, sent, k);
    assert reply.Page? ==> (reply.cursor in sent[..k + 1] <==> exists j :: 0 <= j <= k && sent[j] == reply.cursor);
    assert k > 0 ==> GoesOn(server, maxPages, sent, k - 1);
  }

  /** What is yielded is the pages, whole and in order: page k is next to the pages before it, and a
      request that raised adds nothing. */
  lemma PagesAreYieldedWhole<T>(server: Server<T>, sent: Trail, k: nat, n: nat)
    requires k < n <= |sent|
    ensures var from, to := |ItemsUpTo(server, sent, k)|, |ItemsUpTo(server, sent, k + 1)|;
            && ItemsUpTo(server, sent, 0) == []
            && from <= to <= |ItemsUpTo(server, sent, n)|
            && match server(k, sent[k])
               case Page(items, _) => ItemsUpTo(server, sent, n)[from..to] == items
               case Raised => to == from
  {
    var before, page := ItemsUpTo(server, sent, k), ItemsOf(ReplyAt(server, sent, k));
    assert ItemsUpTo(server, sent, k + 1) == before + page;
    ItemsGrow(server, sent, k + 1, n);
    assert ItemsUpTo(server, sent, 0) == [];
    hide ItemsUpTo;
    MiddleOf(before, page, ItemsUpTo(server, sent, n));
  }

  lemma MiddleOf<T>(x: seq<T>, y: seq<T>, all: seq<T>)
    requires x + y <= all
    ensures all[|x|..|x + y|] == y
  {}

  // ---- what a run is -----------------------------------------------------------------------

  /** No cursor is followed twice, the missing one of the first request included. */
  lemma NoCursorTwice<T>(server: Server<T>, maxPages: Option<int>, sent: Trail, i: nat, j: nat)
    requires IsRun(server, maxPages, sent)
    requires i < j < |sent|
    ensures sent[i] != sent[j] && sent[j].Some? && sent[j].value != ""
  {
    assert GoesOn(server, maxPages, sent, j - 1);
    assert sent[i] == sent[..j][i];
  }

  /** A run makes at most one request more than the server has cursors. */
  lemma RequestsAreBounded<T>(server: Server<T>, maxPages: Option<int>, sent: Trail, universe: set<string>)
    requires IsRun(server, maxPages, sent) && CursorsWithin(server, universe)
    ensures |sent| <= 1 + |universe|
  {
    CursorsAreDistinct(server, maxPages, sent, universe, |sent| - 1);
  }

  lemma {:induction false} CursorsAreDistinct<T>(server: Server<T>, maxPages: Option<int>, sent: Trail,
                                                 universe: set<string>, n: nat)
    requires IsRun(server, maxPages, sent) && CursorsWithin(server, universe) && n < |sent|
    ensures n <= |universe|
    ensures (set k | 1 <= k <= n && sent[k].Some? :: sent[k].value) <= universe
    ensures |set k | 1 <= k <= n && sent[k].Some? :: sent[k].value| == n
  {
    var followed := set k | 1 <= k <= n && sent[k].Some? :: sent[k].value;
    if n > 0 {
      CursorsAreDistinct(server, maxPages, sent, universe, n - 1);
      var earlier := set k | 1 <= k <= n - 1 && sent[k].Some? :: sent[k].value;
      NoCursorTwice(server, maxPages, sent, n - 1, n);
      assert GoesOn(server, maxPages, sent, n - 1);
      assert followed == earlier + {sent[n].value};
      forall k | 1 <= k <= n - 1 ensures sent[k] != sent[n] {
        NoCursorTwice(server, maxPages, sent, k, n);
      }
      assert sent[n].value !in earlier;
    } else {
      assert followed == {};
    }
    SubsetSize(followed, universe);
  }

  lemma SubsetSize(x: set<string>, y: set<string>)
    ensures x <= y ==> |x| <= |y|
  {
    if x <= y {
      assert y == x + (y - x) && x !! (y - x);
    }
  }

  /** A server, being a function of what it is asked, allows exactly one run. */
  lemma {:induction false} RunsAgree<T>(server: Server<T>, maxPages: Option<int>, x: Trail, y: Trail, n: nat)
    requires IsRun(server, maxPages, x) && IsRun(server, maxPages, y)
    requires n <= |x| && n <= |y|
    ensures x[..n] == y[..n]
  {
    if n == 1 {
      assert x[..1] == [None] == y[..1];
    } else if n > 1 {
      RunsAgree(server, maxPages, x, y, n - 1);
      assert x[..n - 1][n - 2] == y[..n - 1][n - 2];
      assert x[..n] == x[..n - 1] + [x[n - 1]] && y[..n] == y[..n - 1] + [y[n - 1]];
      assert GoesOn(server, maxPages, x, n - 2) && GoesOn(server, maxPages, y, n - 2);
    }
  }

  lemma RunIsUnique<T>(server: Server<T>, maxPages: Option<int>, x: Trail, y: Trail)
    requires IsRun(server, maxPages, x) && IsRun(server, maxPages, y)
    ensures x == y
  {
    RunIsNotLonger(server, maxPages, x, y);
    RunIsNotLonger(server, maxPages, y, x);
    RunsAgree(server, maxPages, x, y, |x|);
    assert x[..|x|] == x && y[..|y|] == y;
  }

  lemma RunIsNotLonger<T>(server: Server<T>, maxPages: Option<int>, x: Trail, y: Trail)
    requires IsRun(server, maxPages, x) && IsRun(server, maxPages, y)
    ensures |x| <= |y|
  {
    var n := if |x| <= |y| then |x| else |y|;
    RunsAgree(server, maxPages, x, y, n);
    assert x[..n][n - 1] == y[..n][n - 1];
    assert GoesOn(server, maxPages, x, n - 1) <==> GoesOn(server, maxPages, y, n - 1);
  }

  /** How many pages a cap really allows: the first is fetched whatever the cap. */
  function Allowed(maxPages: int): nat {
    if maxPages < 1 then 1 else maxPages
  }

  /** A page cap cuts the uncapped run off after that many pages, and does nothing else. */
  lemma CapTakesPrefix<T>(server: Server<T>, maxPages: int, full: Trail)
    requires IsRun(server, None, full)
    ensures var n := if Allowed(maxPages) <= |full| then Allowed(maxPages) else |full|;
            IsRun(server, Some(maxPages), full[..n])
  {
    var n := if Allowed(maxPages) <= |full| then Allowed(maxPages) else |full|;
    var cut := full[..n];
    forall k | 0 <= k < n
      ensures ReplyAt(server, cut, k) == ReplyAt(server, full, k)
      ensures GoesOn(server, Some(maxPages), cut, k) <==> GoesOn(server, None, full, k) && k + 1 < maxPages
    {
      assert cut[..k + 1] == full[..k + 1];
    }
  }

  /** So a capped pagination yields a page-aligned prefix of what the uncapped one yields. */
  lemma CapYieldsPrefix<T>(server: Server<T>, maxPages: int, full: Trail, capped: Trail)
    requires IsRun(server, None, full) && IsRun(server, Some(maxPages), capped)
    ensures |capped| == if Allowed(maxPages) <= |full| then Allowed(maxPages) else |full|
    ensures capped == full[..|capped|]
    ensures ItemsUpTo(server, capped, |capped|) == ItemsUpTo(server, full, |capped|)
    ensures ItemsUpTo(server, capped, |capped|) <= ItemsUpTo(server, full, |full|)
  {
    var n := if Allowed(maxPages) <= |full| then Allowed(maxPages) else |full|;
    CapTakesPrefix(server, maxPages, full);
    RunIsUnique(server, Some(maxPages), capped, full[..n]);
    assert full[..n][..n] == full[..n];
    SameItems(server, capped, full, n);
    ItemsGrow(server, full, n, |full|);
  }

  lemma {:induction false} ItemsGrow<T>(server: Server<T>, sent: Trail, n: nat, m: nat)
    requires n <= m <= |sent|
    ensures ItemsUpTo(server, sent, n) <= ItemsUpTo(server, sent, m)
  {
    if n < m { ItemsGrow(server, sent, n, m - 1); }
  }
}
