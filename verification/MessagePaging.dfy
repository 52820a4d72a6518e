/** Cursor paging over a room: the window, the in-place reversal, and the walk through all pages. */
module MessagePaging {
  import opened Common

  /** Object ids as integers; ids are unique in the collection. */
  datatype Message = Message(id: int, roomID: string)

  // ---------- A set of ids in ascending order ----------

  ghost predicate IsTop(s: set<int>, m: int) {
    m in s && forall x :: x in s ==> x <= m
  }

  lemma {:induction false} TopExists(s: set<int>)
    requires s != {}
    ensures exists m :: IsTop(s, m)
    decreases |s|
  {
    var x := Member(s);
    if s == {x} {
      assert IsTop(s, x);
    } else {
      TopExists(s - {x});
      var y :| IsTop(s - {x}, y);
      assert forall z :: z in s && z != x ==> z in s - {x};
      assert IsTop(s, Max(x, y));
    }
  }

  ghost function Top(s: set<int>): (m: int)
    requires s != {}
    ensures IsTop(s, m)
  {
    TopExists(s);
    var m :| IsTop(s, m);
    m
  }

  ghost function Ascending(s: set<int>): (a: seq<int>)
    ensures |a| == |s|
  {
    if s == {} then [] else Ascending(s - {Top(s)}) + [Top(s)]
  }

  ghost predicate Increasing(a: seq<int>) {
    forall i, j :: 0 <= i < j < |a| ==> a[i] < a[j]
  }

  lemma {:induction false} AscendingSorted(s: set<int>)
    ensures Increasing(Ascending(s)) && forall x :: x in Ascending(s) <==> x in s
  {
    if s != {} {
      AscendingSorted(s - {Top(s)});
      var rest := Ascending(s - {Top(s)});
      assert forall i :: 0 <= i < |rest| ==> rest[i] in rest;
    }
  }

  /** The ascending listing is the only increasing sequence with these members. */
  lemma {:induction false} AscendingUnique(a: seq<int>, s: set<int>)
    requires Increasing(a) && forall x :: x in a <==> x in s
    ensures a == Ascending(s)
    decreases |a|
  {
    if a == [] {
      assert forall x :: x !in s;
      assert s == {};
    } else {
      var last := a[|a| - 1];
      assert last in s && forall x :: x in s ==> x in a;
      assert Top(s) == last;
      var rest := a[..|a| - 1];
      assert a == rest + [last];
      forall x
        ensures x in rest <==> x in s - {last}
      {
        if x in rest {
          assert x in a;
        }
        if x in s && x != last {
          assert x in a;
        }
      }
      AscendingUnique(rest, s - {last});
    }
  }

  // ---------- The query ----------

  /** The ids the filter selects. */
  ghost function Window(collection: set<Message>, roomID: string, before: Option<int>): set<int> {
    set m | m in collection && m.roomID == roomID && (before.Some? ==> m.id < before.value) :: m.id
  }

  function Reversed<T>(xs: seq<T>): (r: seq<T>)
    ensures |r| == |xs| && forall i :: 0 <= i < |xs| ==> r[i] == xs[|xs| - 1 - i]
  {
    seq(|xs|, i requires 0 <= i < |xs| => xs[|xs| - 1 - i])
  }

  /** How many ids a query returns; the store reads a limit of 0 as no limit. */
  function Taken(available: nat, limit: nat): nat {
    if limit == 0 || available < limit then available else limit
  }

  /** The newest `limit` ids of the window, in ascending order. */
  ghost function PageOf(window: set<int>, limit: nat): seq<int> {
    Ascending(window)[|window| - Taken(|window|, limit)..]
  }

  /** The store's answer: newest first. */
  ghost function Answer(window: set<int>, limit: nat): seq<int> {
    Reversed(PageOf(window, limit))
  }

  /** `GetPrivateMessages`, given the store's answer: the decoded slice is reversed in place. */
  method GetPrivateMessages(collection: set<Message>, roomID: string, limit: nat, before: Option<int>, answer: seq<int>)
    returns (messages: array<int>)
    requires answer == Answer(Window(collection, roomID, before), limit)
    ensures fresh(messages) && messages[..] == PageOf(Window(collection, roomID, before), limit)
  {
    messages := new int[|answer|](i requires 0 <= i < |answer| => answer[i]);
    ReverseInPlace(messages);
    ghost var page := PageOf(Window(collection, roomID, before), limit);
    assert messages[..] == Reversed(answer);
    assert Reversed(Reversed(page)) == page;
  }

  method ReverseInPlace(messages: array<int>)
    modifies messages
    ensures messages[..] == Reversed(old(messages[..]))
  {
    ghost var was := messages[..];
    var i, j := 0, messages.Length - 1;
    while i < j
      invariant 0 <= i <= j + 1 && i + j == messages.Length - 1
      invariant forall k :: i <= k <= j ==> messages[k] == was[k]
      invariant forall k :: 0 <= k < i ==> messages[k] == was[messages.Length - 1 - k]
      invariant forall k :: j < k < messages.Length ==> messages[k] == was[messages.Length - 1 - k]
    {
      messages[i], messages[j] := messages[j], messages[i];
      i, j := i + 1, j - 1;
    }
  }

  /** A page is increasing, holds the right number of ids of the window, and everything left out is older. */
  lemma PageIsNewest(window: set<int>, limit: nat)
    ensures var page := PageOf(window, limit);
            && Increasing(page) && |page| == Taken(|window|, limit)
            && (forall i :: 0 <= i < |page| ==> page[i] in window)
            && (forall x, i :: x in window && x !in page && 0 <= i < |page| ==> x < page[i])
  {
    AscendingSorted(window);
    var a := Ascending(window);
    var page := PageOf(window, limit);
    var cut := |window| - |page|;
    assert forall i :: 0 <= i < |page| ==> page[i] == a[cut + i];
    forall x, i | x in window && x !in page && 0 <= i < |page|
      ensures x < page[i]
    {
      assert x in a;
      var k :| 0 <= k < |a| && a[k] == x;
    }
  }

  /**
   A page in terms of the messages: it shows ids of messages of this room below the cursor only, and every such message
   that is newer than the first one shown; if it shows fewer than the limit, or there is no limit, every such message at all.
   */
  lemma PageOfRoom(collection: set<Message>, roomID: string, before: Option<int>, limit: nat)
    ensures var page := PageOf(Window(collection, roomID, before), limit);
            && (limit > 0 ==> |page| <= limit)
            && (forall i :: 0 <= i < |page| ==>
                  exists m :: m in collection && m.id == page[i] && m.roomID == roomID && (before.Some? ==> page[i] < before.value))
            && (forall m ::
                  m in collection && m.roomID == roomID && (before.Some? ==> m.id < before.value)
                  && (limit == 0 || |page| < limit || page[0] < m.id) ==>
                    m.id in page)
  {
    var window := Window(collection, roomID, before);
    var page := PageOf(window, limit);
    PageIsNewest(window, limit);
    if |page| == |window| {
      AscendingSorted(window);
      assert page == Ascending(window);
    }
    forall m | m in collection && m.roomID == roomID && (before.Some? ==> m.id < before.value)
               && (limit == 0 || |page| < limit || page[0] < m.id)
      ensures m.id in page
    {
      assert m.id in window;
    }
  }

  // ---------- The walk ----------

  /** The ids below the k-th of a window are the first k of it. */
  lemma BelowIs(collection: set<Message>, roomID: string, before: Option<int>, k: nat)
    requires k < |Window(collection, roomID, before)|
    ensures var a := Ascending(Window(collection, roomID, before));
            Ascending(Window(collection, roomID, Some(a[k]))) == a[..k]
  {
    var window := Window(collection, roomID, before);
    AscendingSorted(window);
    var a := Ascending(window);
    var rest := Window(collection, roomID, Some(a[k]));
    assert a[k] in a;
    forall x
      ensures x in a[..k] <==> x in rest
    {
      if x in a[..k] {
        var i :| 0 <= i < k && a[i] == x;
        assert x in a;
        var m :| m in collection && m.roomID == roomID && m.id == x;
      }
      if x in rest {
        assert x in window;
        assert x in a;
        var i :| 0 <= i < |a| && a[i] == x;
        assert a[..k][i] == x;
      }
    }
    AscendingUnique(a[..k], rest);
  }

  /** Restarting below the smallest id of the page leaves exactly the ids before the page. */
  lemma BelowPage(collection: set<Message>, roomID: string, before: Option<int>, limit: nat)
    requires PageOf(Window(collection, roomID, before), limit) != []
    ensures var window := Window(collection, roomID, before);
            var page := PageOf(window, limit);
            var rest := Window(collection, roomID, Some(page[0]));
            Ascending(rest) + page == Ascending(window) && |rest| < |window|
  {
    var window := Window(collection, roomID, before);
    BelowIs(collection, roomID, before, |window| - Taken(|window|, limit));
  }

  /** All pages, newest first, each query restarting below the smallest id of the page before. */
  ghost function Walk(collection: set<Message>, roomID: string, limit: nat, before: Option<int>): seq<seq<int>>
    decreases |Window(collection, roomID, before)|
  {
    var page := PageOf(Window(collection, roomID, before), limit);
    if page == [] then [] else
      assert |Window(collection, roomID, Some(page[0]))| < |Window(collection, roomID, before)| by {
        BelowPage(collection, roomID, before, limit);
      }
      [page] + Walk(collection, roomID, limit, Some(page[0]))
  }

  /** The pages in reverse order, one after another. */
  function Assemble(pages: seq<seq<int>>): seq<int> {
    if pages == [] then [] else Assemble(pages[1..]) + pages[0]
  }

  /**
   The walk ends, and its pages put together oldest first are the whole window in ascending order. The listing is
   increasing, so no id is on two pages and none is missing.
   */
  lemma {:induction false} WalkPartitions(collection: set<Message>, roomID: string, limit: nat, before: Option<int>)
    ensures Assemble(Walk(collection, roomID, limit, before)) == Ascending(Window(collection, roomID, before))
    ensures Increasing(Assemble(Walk(collection, roomID, limit, before)))
    decreases |Window(collection, roomID, before)|
  {
    var window := Window(collection, roomID, before);
    var page := PageOf(window, limit);
    AscendingSorted(window);
    if page != [] {
      BelowPage(collection, roomID, before, limit);
      WalkPartitions(collection, roomID, limit, Some(page[0]));
      assert Walk(collection, roomID, limit, before)[1..] == Walk(collection, roomID, limit, Some(page[0]));
    }
  }

  // ---------- What the service hands out ----------

  /** The service's next cursor is the last, that is the newest, id of the page. */
  function NextCursor(page: seq<int>): Option<int> {
    if page == [] then None else Some(page[|page| - 1])
  }

  /** The service compares with the limit as requested, before 0 becomes 20. */
  function HasMore(page: seq<int>, requested: nat): bool {
    |page| == requested
  }

  function EffectiveLimit(requested: nat): nat {
    if requested == 0 then 20 else requested
  }

  /** Following the service's cursor shows the whole page again except its newest id. */
  lemma NextCursorOverlaps(collection: set<Message>, roomID: string, before: Option<int>, limit: nat)
    requires PageOf(Window(collection, roomID, before), limit) != []
    ensures var page := PageOf(Window(collection, roomID, before), limit);
            var next := PageOf(Window(collection, roomID, NextCursor(page)), limit);
            |next| >= |page| - 1 && next[|next| - (|page| - 1)..] == page[..|page| - 1]
  {
    var window := Window(collection, roomID, before);
    var n := |window|;
    BelowIs(collection, roomID, before, n - 1);
  }

  lemma SingleAdvances(collection: set<Message>, roomID: string, last: int, limit: nat, next: seq<int>)
    requires next == PageOf(Window(collection, roomID, Some(last)), limit)
    ensures forall i :: 0 <= i < |next| ==> next[i] != last
  {
    var rest := Window(collection, roomID, Some(last));
    assert forall x :: x in rest ==> x < last;
    PageIsNewest(rest, limit);
  }

  /** The service's cursor moves on to messages not shown yet exactly when the page holds a single one. */
  lemma NextCursorAdvancesExactly(collection: set<Message>, roomID: string, before: Option<int>, limit: nat)
    requires PageOf(Window(collection, roomID, before), limit) != []
    ensures var page := PageOf(Window(collection, roomID, before), limit);
            var next := PageOf(Window(collection, roomID, NextCursor(page)), limit);
            (forall i :: 0 <= i < |next| ==> next[i] !in page) <==> |page| == 1
  {
    hide Window, PageOf;
    var page := PageOf(Window(collection, roomID, before), limit);
    var next := PageOf(Window(collection, roomID, NextCursor(page)), limit);
    if |page| == 1 {
      SingleAdvances(collection, roomID, page[0], limit, next);
    } else {
      NextCursorOverlaps(collection, roomID, before, limit);
      var k := |next| - (|page| - 1);
      assert next[k..][0] == page[..|page| - 1][0];
      assert next[k] == page[0];
    }
  }

  /**
   `has_more` with an explicit limit says only that the page is full, so it is wrong exactly when the window holds
   `limit` ids. With the default limit of 20 it says that the page is empty, so it is right exactly when the window holds
   between 1 and 20.
   */
  lemma HasMoreExactly(window: set<int>, requested: nat)
    ensures var page := PageOf(window, EffectiveLimit(requested));
            && (requested > 0 ==> (HasMore(page, requested) <==> |window| >= requested))
            && (requested > 0 ==> ((HasMore(page, requested) <==> |window| > |page|) <==> |window| != requested))
            && (requested == 0 ==> (HasMore(page, requested) <==> window == {}))
            && (requested == 0 ==> ((HasMore(page, requested) <==> |window| > |page|) <==> 1 <= |window| <= 20))
  {
  }
}
