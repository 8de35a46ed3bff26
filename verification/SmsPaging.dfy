/** Cursor paging over the SMS cache (ubus_glib.c) and the browser's loop that follows the
    cursors (sms.js), up to the strict load that prepares "delete all". */
module SmsPaging {
  import opened Common
  import opened Stamps
  import opened SmsCache

  const SMS_LIMIT: nat := 100
  const MAX_SMS_PAGES: nat := 11

  datatype Folder = All | Inbox | Outbox | Draft | Unknown

  /** A cached message: its folder, and its timestamp and ID as the listing orders them. */
  datatype Item = Item(folder: Folder, stamp: Stamp)

  datatype Page = StaleCursor | Page(messages: seq<Stamp>, hasMore: bool, nextCursor: string)

  predicate InFolder(item: Item, folder: Folder) {
    folder == All || item.folder == folder
  }

  function Filtered(items: seq<Item>, folder: Folder): seq<Stamp> {
    if items == [] then []
    else
      var rest := Filtered(items[..|items| - 1], folder);
      if InFolder(items[|items| - 1], folder) then rest + [items[|items| - 1].stamp] else rest
  }

  /** The view of a folder: its messages, newest first. */
  function Listing(items: seq<Item>, folder: Folder): seq<Stamp> {
    Sort(Filtered(items, folder))
  }

  function IndexOf(view: seq<Stamp>, id: string): (i: nat)
    ensures i <= |view| && (i < |view| ==> view[i].name == Some(id)) && forall k | 0 <= k < i :: view[k].name != Some(id)
  {
    if view == [] || view[0].name == Some(id) then 0 else 1 + IndexOf(view[1..], id)
  }

  function Least(a: nat, b: nat): nat {
    if a < b then a else b
  }

  function IdOf(m: Stamp): string {
    if m.name.Some? then m.name.value else ""
  }

  function Slice(view: seq<Stamp>, start: nat, limit: nat): Page
    requires start <= |view|
  {
    var end := Least(|view|, start + limit);
    Page(view[start..end], end < |view|, if end < |view| && end > start then IdOf(view[end - 1]) else "")
  }

  function PageOf(view: seq<Stamp>, limit: nat, cursor: string): Page {
    if cursor == "" then Slice(view, 0, limit)
    else if IndexOf(view, cursor) < |view| then Slice(view, IndexOf(view, cursor) + 1, limit)
    else StaleCursor
  }

  method FilterItems(snapshot: seq<Item>, folder: Folder) returns (filtered: seq<Stamp>)
    ensures filtered == Filtered(snapshot, folder)
  {
    filtered := [];
    var i := 0;
    while i < |snapshot|
      invariant i <= |snapshot| && filtered == Filtered(snapshot[..i], folder)
    {
      assert snapshot[..i + 1][..i] == snapshot[..i];
      if InFolder(snapshot[i], folder) {
        filtered := filtered + [snapshot[i].stamp];
      }
      i := i + 1;
    }
    assert snapshot[..i] == snapshot;
  }

  method FindCursor(view: seq<Stamp>, cursor: string) returns (i: nat)
    ensures i == IndexOf(view, cursor)
  {
    i := 0;
    while i < |view| && view[i].name != Some(cursor)
      invariant i <= |view| && IndexOf(view, cursor) == i + IndexOf(view[i..], cursor)
    {
      assert view[i..][1..] == view[i + 1..];
      i := i + 1;
    }
  }

  /** The server's method: filter the snapshot, sort it, look for the cursor, cut a page. */
  method ListSms(snapshot: seq<Item>, folder: Folder, limit: nat, cursor: string) returns (page: Page)
    ensures page == PageOf(Listing(snapshot, folder), limit, cursor)
  {
    var filtered := FilterItems(snapshot, folder);
    var view := Sort(filtered);
    var start := 0;
    if cursor != "" {
      var i := FindCursor(view, cursor);
      if i == |view| {
        return StaleCursor;
      }
      start := i + 1;
    }
    page := Slice(view, start, limit);
  }

  // ----- the view does not depend on iteration order ------------------------------------------------

  lemma {:induction false} FilteredSplits(a: seq<Item>, b: seq<Item>, folder: Folder)
    ensures Filtered(a + b, folder) == Filtered(a, folder) + Filtered(b, folder)
  {
    if b == [] {
      assert a + b == a;
    } else {
      var last := |b| - 1;
      assert (a + b)[..|a + b| - 1] == a + b[..last];
      FilteredSplits(a, b[..last], folder);
    }
  }

  function Without(items: seq<Item>, i: nat): seq<Item>
    requires i < |items|
  {
    items[..i] + items[i + 1..]
  }

  lemma WithoutCounts(items: seq<Item>, i: nat)
    requires i < |items|
    ensures multiset(items) == multiset(Without(items, i)) + multiset{items[i]}
  {
    assert items == items[..i] + [items[i]] + items[i + 1..];
  }

  lemma FilteredWithout(items: seq<Item>, i: nat, folder: Folder)
    requires i < |items|
    ensures multiset(Filtered(items, folder)) ==
            multiset(Filtered(Without(items, i), folder)) + multiset(Filtered([items[i]], folder))
  {
    var head, mid, tail := items[..i], [items[i]], items[i + 1..];
    assert items == (head + mid) + tail;
    FilteredSplits(head + mid, tail, folder);
    FilteredSplits(head, mid, folder);
    FilteredSplits(head, tail, folder);
  }

  lemma {:induction false} FilteredPermutes(a: seq<Item>, b: seq<Item>, folder: Folder)
    requires multiset(a) == multiset(b)
    ensures multiset(Filtered(a, folder)) == multiset(Filtered(b, folder))
    decreases |a|
  {
    if a == [] {
      assert |multiset(b)| == |b|;
    } else {
      assert a[0] in multiset(b);
      var i :| 0 <= i < |b| && b[i] == a[0];
      WithoutCounts(a, 0);
      WithoutCounts(b, i);
      assert multiset(Without(a, 0)) == multiset(a) - multiset{a[0]};
      assert multiset(Without(b, i)) == multiset(b) - multiset{a[0]};
      FilteredPermutes(Without(a, 0), Without(b, i), folder);
      FilteredWithout(a, 0, folder);
      FilteredWithout(b, i, folder);
    }
  }

  /** Whatever order the hash table is walked in, a folder has one view. */
  lemma ListingIgnoresOrder(a: seq<Item>, b: seq<Item>, folder: Folder)
    requires multiset(a) == multiset(b)
    ensures Listing(a, folder) == Listing(b, folder)
  {
    FilteredPermutes(a, b, folder);
    SortPermutes(Filtered(a, folder));
    SortPermutes(Filtered(b, folder));
    SortOrders(Filtered(a, folder));
    SortOrders(Filtered(b, folder));
    OrderedIsUnique(Listing(a, folder), Listing(b, folder));
  }

  // ----- what a listing shows, and in which order ----------------------------------------------------

  lemma {:induction false} FilteredShows(items: seq<Item>, folder: Folder, m: Stamp)
    ensures m in Filtered(items, folder) <==>
            exists k :: 0 <= k < |items| && items[k].stamp == m && (folder == All || items[k].folder == folder)
  {
    if items != [] {
      var last := |items| - 1;
      FilteredShows(items[..last], folder, m);
      assert forall k | 0 <= k < last :: items[..last][k] == items[k];
      if k :| 0 <= k < |items| && items[k].stamp == m && (folder == All || items[k].folder == folder) {
        assert k == last || items[..last][k] == items[k];
      }
    }
  }

  /** A listing of "all" shows every message and one of a folder exactly the messages of that
      folder; none is listed after an earlier one, and among equal timestamps the smaller ID
      comes first. */
  lemma ListingShows(items: seq<Item>, folder: Folder)
    ensures forall m :: m in Listing(items, folder) <==>
              exists k :: 0 <= k < |items| && items[k].stamp == m && (folder == All || items[k].folder == folder)
    ensures var view := Listing(items, folder);
            forall i, j | 0 <= i < j < |view| ::
              !Lower(view[i].time, view[j].time) && (view[i].time == view[j].time ==> !Lower(view[j].name, view[i].name))
  {
    var filtered := Filtered(items, folder);
    SortPermutes(filtered);
    forall m ensures m in Listing(items, folder) <==> m in filtered {
      assert m in Listing(items, folder) <==> m in multiset(Sort(filtered));
    }
    forall m ensures m in filtered <==>
              exists k :: 0 <= k < |items| && items[k].stamp == m && (folder == All || items[k].folder == folder)
    {
      FilteredShows(items, folder, m);
    }
    SortOrders(filtered);
    var view := Listing(items, folder);
    forall i, j | 0 <= i < j < |view|
      ensures !Lower(view[i].time, view[j].time) && (view[i].time == view[j].time ==> !Lower(view[j].name, view[i].name))
    {
      BeforeIff(view[j], view[i]);
    }
  }

  // ----- following the cursors -----------------------------------------------------------------------

  /** Message IDs are present, not empty and pairwise distinct. */
  ghost predicate GoodIds(view: seq<Stamp>) {
    && (forall i | 0 <= i < |view| :: view[i].name.Some? && view[i].name.value != "")
    && (forall i, j | 0 <= i < j < |view| :: view[i].name != view[j].name)
  }

  /** Where the n-th page starts. */
  function Offset(limit: nat, n: nat): nat {
    if n == 0 then 0 else Offset(limit, n - 1) + limit
  }

  lemma CursorFindsStart(view: seq<Stamp>, end: nat, limit: nat)
    requires GoodIds(view) && 0 < end <= |view|
    ensures PageOf(view, limit, IdOf(view[end - 1])) == Slice(view, end, limit)
  {
    var id := view[end - 1].name.value;
    assert IndexOf(view, id) == end - 1;
  }

  /** Cursor of the n-th page when `next_cursor` is followed from the empty cursor; none when
      the pages end before. */
  function Follow(view: seq<Stamp>, limit: nat, n: nat): Option<string> {
    if n == 0 then Some("")
    else
      var before := Follow(view, limit, n - 1);
      if before.None? then None else Onward(PageOf(view, limit, before.value))
  }

  function Onward(page: Page): Option<string> {
    if page.Page? && page.hasMore then Some(page.nextCursor) else None
  }

  lemma NextPage(view: seq<Stamp>, start: nat, limit: nat)
    requires GoodIds(view) && limit > 0 && start <= |view| && Slice(view, start, limit).hasMore
    ensures start + limit < |view|
    ensures PageOf(view, limit, Slice(view, start, limit).nextCursor) == Slice(view, start + limit, limit)
  {
    CursorFindsStart(view, start + limit, limit);
  }

  /** The n-th page is the n-th block, and it is there exactly when the view reaches that far. */
  ghost predicate IsBlock(view: seq<Stamp>, limit: nat, n: nat) {
    && (Follow(view, limit, n).Some? <==> n == 0 || Offset(limit, n) < |view|)
    && (Follow(view, limit, n).Some? ==>
          Offset(limit, n) <= |view|
          && PageOf(view, limit, Follow(view, limit, n).value) == Slice(view, Offset(limit, n), limit))
  }

  lemma OnwardFrom(view: seq<Stamp>, start: nat, limit: nat, cursor: string)
    requires GoodIds(view) && limit > 0 && start <= |view| && PageOf(view, limit, cursor) == Slice(view, start, limit)
    ensures Onward(PageOf(view, limit, cursor)).Some? <==> start + limit < |view|
    ensures start + limit < |view| ==>
              PageOf(view, limit, Onward(PageOf(view, limit, cursor)).value) == Slice(view, start + limit, limit)
  {
    if start + limit < |view| { NextPage(view, start, limit); }
  }

  lemma NextIsBlock(view: seq<Stamp>, limit: nat, n: nat)
    requires GoodIds(view) && limit > 0 && IsBlock(view, limit, n)
    ensures IsBlock(view, limit, n + 1)
  {
    var start, before := Offset(limit, n), Follow(view, limit, n);
    assert Offset(limit, n + 1) == start + limit;
    assert Follow(view, limit, n + 1) == if before.None? then None else Onward(PageOf(view, limit, before.value));
    if before.Some? { OnwardFrom(view, start, limit, before.value); }
  }

  lemma FirstBlock(view: seq<Stamp>, limit: nat)
    ensures IsBlock(view, limit, 0)
  {
  }

  lemma {:induction false} EveryBlock(view: seq<Stamp>, limit: nat, n: nat, k: nat)
    requires GoodIds(view) && limit > 0 && k <= n && IsBlock(view, limit, k)
    ensures IsBlock(view, limit, n)
    decreases n - k
  {
    if k < n {
      NextIsBlock(view, limit, k);
      EveryBlock(view, limit, n, k + 1);
    }
  }

  /** Following the cursors, the n-th page is exactly the n-th block of the view, and there is
      an n-th page exactly when the view reaches that far: together the pages give every
      message once, in order. */
  lemma PagesPartition(view: seq<Stamp>, limit: nat, n: nat)
    requires GoodIds(view) && limit > 0
    ensures Follow(view, limit, n).Some? <==> n == 0 || Offset(limit, n) < |view|
    ensures Follow(view, limit, n).Some? ==>
              Offset(limit, n) <= |view|
              && PageOf(view, limit, Follow(view, limit, n).value) == Slice(view, Offset(limit, n), limit)
  {
    FirstBlock(view, limit);
    EveryBlock(view, limit, n, 0);
  }

  // ----- the browser's loop ----------------------------------------------------------------------------

  /** A page as the browser receives it, or a failed call. */
  datatype Answer =
    | Failed(staleCursor: bool)
    | Received(stamp: (nat, nat, nat), page: Page)

  datatype Loaded = Loaded(messages: seq<Stamp>, nextCursor: string, hasMore: bool, reset: bool) | LoadError

  predicate Known(messages: seq<Stamp>, m: Stamp) {
    exists k | 0 <= k < |messages| :: messages[k].name == m.name
  }

  function AddNew(messages: seq<Stamp>, page: seq<Stamp>): seq<Stamp>
    decreases |page|
  {
    if page == [] then messages
    else AddNew(if Known(messages, page[0]) then messages else messages + [page[0]], page[1..])
  }

  /** The loop from page number `page` on, with what it has gathered so far. */
  function LoadFrom(call: (nat, string) -> Answer, pageCount: nat, strict: bool, page: nat, cursor: string,
                    first: Option<Answer>, messages: seq<Stamp>): Loaded
    requires first.Some? ==> first.value.Received? && first.value.page.Page?
    decreases pageCount - page
  {
    var answer := call(page, cursor);
    if answer.Failed? || answer.page.StaleCursor? then
      if answer.Failed? && answer.staleCursor && page > 0 && !strict && first.Some? then
        Loaded(messages, first.value.page.nextCursor, first.value.page.hasMore, true)
      else LoadError
    else if first.Some? && answer.stamp != first.value.stamp then LoadError
    else if |messages| + |answer.page.messages| > MAX_SMS_CACHE then LoadError
    else
      var more := AddNew(messages, answer.page.messages);
      if strict && |more| < |messages| + |answer.page.messages| then LoadError
      else if page + 1 < pageCount && answer.page.hasMore then
        LoadFrom(call, pageCount, strict, page + 1, answer.page.nextCursor, if first.Some? then first else Some(answer), more)
      else Loaded(more, answer.page.nextCursor, answer.page.hasMore, false)
  }

  method AddPage(messages: seq<Stamp>, page: seq<Stamp>) returns (more: seq<Stamp>, duplicate: bool)
    ensures more == AddNew(messages, page)
    ensures duplicate <==> |more| < |messages| + |page|
  {
    more, duplicate := messages, false;
    var i := 0;
    while i < |page|
      invariant i <= |page| && AddNew(more, page[i..]) == AddNew(messages, page)
      invariant |more| <= |messages| + i && (duplicate <==> |more| < |messages| + i)
    {
      assert page[i..][1..] == page[i + 1..];
      if Known(more, page[i]) {
        duplicate := true;
      } else {
        more := more + [page[i]];
      }
      i := i + 1;
    }
  }

  method LoadSmsPages(call: (nat, string) -> Answer, pageCount: nat, strict: bool) returns (result: Loaded)
    ensures result == LoadFrom(call, pageCount, strict, 0, "", None, [])
  {
    var page, cursor := 0, "";
    var first: Option<Answer> := None;
    var messages: seq<Stamp> := [];
    var going := true;
    result := LoadError;
    while going
      invariant first.Some? ==> first.value.Received? && first.value.page.Page?
      invariant LoadFrom(call, pageCount, strict, 0, "", None, []) ==
                if going then LoadFrom(call, pageCount, strict, page, cursor, first, messages) else result
      decreases if going then 1 else 0, pageCount - page
    {
      var answer := call(page, cursor);
      if answer.Failed? || answer.page.StaleCursor? {
        if answer.Failed? && answer.staleCursor && page > 0 && !strict && first.Some? {
          return Loaded(messages, first.value.page.nextCursor, first.value.page.hasMore, true);
        }
        return LoadError;
      }
      if first.Some? && answer.stamp != first.value.stamp {
        return LoadError;
      }
      if |messages| + |answer.page.messages| > MAX_SMS_CACHE {
        return LoadError;
      }
      var more, duplicate := AddPage(messages, answer.page.messages);
      if strict && duplicate {
        return LoadError;
      }
      if first.None? {
        first := Some(answer);
      }
      messages, page, cursor := more, page + 1, answer.page.nextCursor;
      if !(page < pageCount && answer.page.hasMore) {
        result := Loaded(messages, cursor, answer.page.hasMore, false);
        going := false;
      }
    }
  }

  // ----- what a strict load saw ----------------------------------------------------------------------------

  lemma {:induction false} NewPageIsAdded(messages: seq<Stamp>, page: seq<Stamp>)
    requires GoodIds(messages + page)
    ensures AddNew(messages, page) == messages + page
    decreases |page|
  {
    if page != [] {
      var all := messages + page;
      forall k | 0 <= k < |messages| ensures messages[k].name != page[0].name {
        assert all[k].name != all[|messages|].name;
      }
      assert messages + [page[0]] + page[1..] == all;
      NewPageIsAdded(messages + [page[0]], page[1..]);
    } else {
      assert messages + page == messages;
    }
  }

  /** The loop's state after `page` good pages of `view`. */
  ghost predicate Midway(view: seq<Stamp>, page: nat, cursor: string, messages: seq<Stamp>) {
    && page * SMS_LIMIT <= |view| && (page > 0 ==> page * SMS_LIMIT < |view|)
    && messages == view[..page * SMS_LIMIT]
    && cursor == (if page == 0 then "" else IdOf(view[page * SMS_LIMIT - 1]))
  }

  lemma MidwaySlice(view: seq<Stamp>, page: nat, cursor: string, messages: seq<Stamp>)
    requires GoodIds(view) && Midway(view, page, cursor, messages)
    ensures PageOf(view, SMS_LIMIT, cursor) == Slice(view, page * SMS_LIMIT, SMS_LIMIT)
  {
    if page > 0 { CursorFindsStart(view, page * SMS_LIMIT, SMS_LIMIT); }
  }

  lemma BlockIsAdded(view: seq<Stamp>, start: nat, end: nat)
    requires GoodIds(view) && start <= end <= |view|
    ensures AddNew(view[..start], view[start..end]) == view[..end] && |view[..start]| + |view[start..end]| == end
  {
    assert view[..start] + view[start..end] == view[..end];
    NewPageIsAdded(view[..start], view[start..end]);
  }

  lemma MidwayPage(view: seq<Stamp>, page: nat, cursor: string, messages: seq<Stamp>)
    requires GoodIds(view) && Midway(view, page, cursor, messages)
    ensures var p := PageOf(view, SMS_LIMIT, cursor);
            var end := Least(|view|, page * SMS_LIMIT + SMS_LIMIT);
            && p.Page? && AddNew(messages, p.messages) == view[..end] && |messages| + |p.messages| == end
            && p.hasMore == (end < |view|)
            && (p.hasMore ==> Midway(view, page + 1, p.nextCursor, view[..end]))
            && (!p.hasMore ==> p.nextCursor == "")
  {
    MidwaySlice(view, page, cursor, messages);
    BlockIsAdded(view, page * SMS_LIMIT, Least(|view|, page * SMS_LIMIT + SMS_LIMIT));
  }

  /** One turn of the loop on a page of `view`. */
  lemma LoadTurn(call: (nat, string) -> Answer, view: seq<Stamp>, stamp: (nat, nat, nat),
                 pageCount: nat, strict: bool, page: nat, cursor: string, first: Option<Answer>, messages: seq<Stamp>)
    requires GoodIds(view) && call(page, cursor) == Received(stamp, PageOf(view, SMS_LIMIT, cursor))
    requires first.Some? ==> first.value.Received? && first.value.page.Page? && first.value.stamp == stamp
    requires Midway(view, page, cursor, messages)
    ensures var answer := call(page, cursor);
            var end := Least(|view|, page * SMS_LIMIT + SMS_LIMIT);
            && answer.page.Page?
            && (end < |view| ==> Midway(view, page + 1, answer.page.nextCursor, view[..end]))
            && (end == |view| ==> view[..end] == view && answer.page.nextCursor == "")
            && LoadFrom(call, pageCount, strict, page, cursor, first, messages) ==
               if end > MAX_SMS_CACHE then LoadError
               else if page + 1 < pageCount && end < |view| then
                 LoadFrom(call, pageCount, strict, page + 1, answer.page.nextCursor,
                          if first.Some? then first else Some(answer), view[..end])
               else Loaded(view[..end], answer.page.nextCursor, end < |view|, false)
  {
    MidwayPage(view, page, cursor, messages);
  }

  /** Every answer with this stamp is a page of this view. */
  ghost predicate Faithful(call: (nat, string) -> Answer, view: seq<Stamp>, stamp: (nat, nat, nat)) {
    forall k, cursor :: call(k, cursor).Received? && call(k, cursor).stamp == stamp ==>
      call(k, cursor).page == PageOf(view, SMS_LIMIT, cursor)
  }

  /** A load that reports neither a reset nor more pages has exactly the view that its first
      page came from; a strict one never reports a reset. */
  lemma {:induction false} LoadSeesView(
      call: (nat, string) -> Answer, view: seq<Stamp>, stamp: (nat, nat, nat),
      pageCount: nat, strict: bool, page: nat, cursor: string, first: Option<Answer>, messages: seq<Stamp>)
    requires Faithful(call, view, stamp) && GoodIds(view)
    requires if first.Some? then first.value.Received? && first.value.page.Page? && first.value.stamp == stamp
             else call(page, cursor).Received? ==> call(page, cursor).stamp == stamp
    requires Midway(view, page, cursor, messages)
    ensures var result := LoadFrom(call, pageCount, strict, page, cursor, first, messages);
            && (result.Loaded? && !result.hasMore && !result.reset ==> result.messages == view)
            && (result.Loaded? && strict ==> !result.reset)
    decreases pageCount - page
  {
    var answer := call(page, cursor);
    if answer.Failed? || (first.Some? && answer.stamp != first.value.stamp) {
    } else {
      LoadTurn(call, view, stamp, pageCount, strict, page, cursor, first, messages);
      var end := Least(|view|, page * SMS_LIMIT + SMS_LIMIT);
      if page + 1 < pageCount && end < |view| {
        LoadSeesView(call, view, stamp, pageCount, strict, page + 1, answer.page.nextCursor,
                     if first.Some? then first else Some(answer), view[..end]);
      }
    }
  }

  /** The cursor has gone stale at page n: a lenient load returns the n pages it has, with the
      continuation of its first page, and says that it was reset. */
  lemma {:induction false} LenientReset(
      call: (nat, string) -> Answer, view: seq<Stamp>, stamp: (nat, nat, nat), pageCount: nat, n: nat,
      page: nat, cursor: string, first: Option<Answer>, messages: seq<Stamp>)
    requires GoodIds(view) && 0 < n < pageCount && n * SMS_LIMIT < |view| && n * SMS_LIMIT <= MAX_SMS_CACHE && page <= n
    requires forall k: nat, c | k < n :: call(k, c) == Received(stamp, PageOf(view, SMS_LIMIT, c))
    requires forall c :: call(n, c) == Answer.Failed(true)
    requires if page == 0 then first.None? else first == Some(Received(stamp, Slice(view, 0, SMS_LIMIT)))
    requires Midway(view, page, cursor, messages)
    ensures LoadFrom(call, pageCount, false, page, cursor, first, messages) ==
            Loaded(view[..n * SMS_LIMIT], IdOf(view[SMS_LIMIT - 1]), true, true)
    decreases n - page
  {
    if page < n {
      LoadTurn(call, view, stamp, pageCount, false, page, cursor, first, messages);
      var answer := call(page, cursor);
      LenientReset(call, view, stamp, pageCount, n, page + 1, answer.page.nextCursor,
                   if first.Some? then first else Some(answer), view[..page * SMS_LIMIT + SMS_LIMIT]);
    }
  }

  /** From any page on, an unchanged view of at most 1,024 messages is loaded to its end. */
  lemma {:induction false} LoadEnds(
      call: (nat, string) -> Answer, view: seq<Stamp>, stamp: (nat, nat, nat),
      page: nat, cursor: string, first: Option<Answer>, messages: seq<Stamp>)
    requires GoodIds(view) && |view| <= MAX_SMS_CACHE && page < MAX_SMS_PAGES
    requires forall k, c :: call(k, c) == Received(stamp, PageOf(view, SMS_LIMIT, c))
    requires first.Some? ==> first.value.Received? && first.value.page.Page? && first.value.stamp == stamp
    requires Midway(view, page, cursor, messages)
    ensures LoadFrom(call, MAX_SMS_PAGES, true, page, cursor, first, messages) == Loaded(view, "", false, false)
    decreases MAX_SMS_PAGES - page
  {
    LoadTurn(call, view, stamp, MAX_SMS_PAGES, true, page, cursor, first, messages);
    var answer := call(page, cursor);
    var end := Least(|view|, page * SMS_LIMIT + SMS_LIMIT);
    if end < |view| {
      LoadEnds(call, view, stamp, page + 1, answer.page.nextCursor, if first.Some? then first else Some(answer), view[..end]);
    } else {
      assert view[..end] == view;
    }
  }

  /** Eleven pages of 100 always exhaust an unchanged cache: the strict load succeeds and
      returns every message of the folder once, in the one order of its view. */
  lemma ElevenPagesSuffice(call: (nat, string) -> Answer, view: seq<Stamp>, stamp: (nat, nat, nat))
    requires GoodIds(view) && |view| <= MAX_SMS_CACHE
    requires forall k, c :: call(k, c) == Received(stamp, PageOf(view, SMS_LIMIT, c))
    ensures LoadFrom(call, MAX_SMS_PAGES, true, 0, "", None, []) == Loaded(view, "", false, false)
  {
    LoadEnds(call, view, stamp, 0, "", None, []);
  }
}
