/** Message history page by page: the flags `fetchMessages` derives from a page, against the
    server's own page functions. A history is the list of message ids, newest first. */
module Paging {
  import opened Wrappers

  ghost predicate IsHistory(h: seq<nat>) {
    forall i, j :: 0 <= i < j < |h| ==> h[i] > h[j]
  }

  // ---------------------------------------------------------------- the server

  /** How many messages have an id of at least `id`. */
  function CountFrom(h: seq<nat>, id: nat): (n: nat)
    requires IsHistory(h)
    ensures n <= |h| && (forall i :: 0 <= i < n ==> h[i] >= id) && (forall i :: n <= i < |h| ==> h[i] < id)
  {
    if h == [] || h[0] < id then 0 else 1 + CountFrom(h[1..], id)
  }

  /** `listMessages` with `before`: the newest messages older than it. */
  function ListBefore(h: seq<nat>, before: nat, limit: nat): seq<nat>
    requires IsHistory(h)
  {
    var i := CountFrom(h, before);
    h[i..i + Min(limit, |h| - i)]
  }

  /** `listMessages` with `after` and `immediateAfter`: the oldest messages newer than it. */
  function ListAfter(h: seq<nat>, after: nat, limit: nat): seq<nat>
    requires IsHistory(h)
  {
    var i := CountFrom(h, after + 1);
    h[i - Min(limit, i)..i]
  }

  /** `listMessages` with `after` alone: of the messages newer than it, the newest. */
  function ListNewest(h: seq<nat>, after: nat, limit: nat): seq<nat>
    requires IsHistory(h)
  {
    h[..Min(limit, CountFrom(h, after + 1))]
  }

  lemma CountAt(h: seq<nat>, k: nat)
    requires IsHistory(h) && k < |h|
    ensures CountFrom(h, h[k]) == k + 1 && CountFrom(h, h[k] + 1) == k
  {
    hide CountFrom;
    assert k + 1 < |h| ==> h[k + 1] < h[k];
    var m := CountFrom(h, h[k] + 1);
    var atM := if m < |h| then h[m] else 0;
    assert forall i :: 0 <= i < k ==> h[i] > h[k];
  }

  lemma Glue(h: seq<nat>, a: nat, b: nat, c: nat)
    requires a <= b <= c <= |h|
    ensures h[a..b] + h[b..c] == h[a..c]
  {
  }

  /** The positions that the messages newer and older than `id` begin and end at: one apart if
      there is a message `id`. */
  lemma Positions(h: seq<nat>, id: nat)
    requires IsHistory(h)
    ensures var x, y := CountFrom(h, id + 1), CountFrom(h, id);
            if id in h then y == x + 1 && h[x] == id else y == x
  {
    var x, y := CountFrom(h, id + 1), CountFrom(h, id);
    var atY := if y < |h| then h[y] else 0;
    assert x < y ==> h[x] == id;
    if id in h {
      var k :| 0 <= k < |h| && h[k] == id;
      CountAt(h, k);
    }
  }

  /** How many messages of a page around a target are newer than it: `x` is how many there are,
      `r` how many are older, and `c` is 1 if the target is there and 0 if not. */
  function NewerShare(x: nat, r: nat, c: nat, limit: nat): nat
    requires c <= 1 <= limit
  {
    if x < limit - 1 - limit / 2 then x else Min(x, limit - c - Min(limit / 2, r))
  }

  /** ... and how many are older. */
  function OlderShare(x: nat, r: nat, c: nat, limit: nat): nat
    requires c <= 1 <= limit
  {
    if x < limit - 1 - limit / 2 then Min(r, limit - c - x) else Min(limit / 2, r)
  }

  /** How the shares come about: by what is missing after the first two lists. */
  lemma SharesRefill(x: nat, r: nat, c: nat, limit: nat)
    requires c <= 1 <= limit
    ensures var n, o := Min(limit - 1 - limit / 2, x), Min(limit / 2, r);
            var missing := limit - n - c - o;
            && n + c + o <= limit
            && NewerShare(x, r, c, limit) ==
                 n + (if missing > 0 && n == limit - 1 - limit / 2 then Min(missing, x - n) else 0)
            && OlderShare(x, r, c, limit) ==
                 o + (if missing > 0 && n < limit - 1 - limit / 2 then Min(missing, r - o) else 0)
            && NewerShare(x, r, c, limit) <= x && OlderShare(x, r, c, limit) <= r
            && NewerShare(x, r, c, limit) + c + OlderShare(x, r, c, limit) <= limit
  {
  }

  /** Where in the history the page around a target begins ... */
  function PageStart(h: seq<nat>, limit: nat, around: nat): (lo: nat)
    requires IsHistory(h) && limit >= 1
    ensures lo <= CountFrom(h, around + 1)
  {
    var x, y := CountFrom(h, around + 1), CountFrom(h, around);
    Positions(h, around);
    SharesRefill(x, |h| - y, y - x, limit);
    x - NewerShare(x, |h| - y, y - x, limit)
  }

  /** ... and ends. */
  function PageEnd(h: seq<nat>, limit: nat, around: nat): (hi: nat)
    requires IsHistory(h) && limit >= 1
    ensures CountFrom(h, around) <= hi <= |h|
    ensures PageStart(h, limit, around) <= hi <= PageStart(h, limit, around) + limit
  {
    var x, y := CountFrom(h, around + 1), CountFrom(h, around);
    Positions(h, around);
    SharesRefill(x, |h| - y, y - x, limit);
    y + OlderShare(x, |h| - y, y - x, limit)
  }

  function PageAround(h: seq<nat>, limit: nat, around: nat): (page: seq<nat>)
    requires IsHistory(h) && limit >= 1
    ensures |page| <= limit
  {
    h[PageStart(h, limit, around)..PageEnd(h, limit, around)]
  }

  /** What the lists make up: stretches of the history above position `x` and below `y`. */
  ghost predicate Parts(h: seq<nat>, x: nat, y: nat, newer: seq<nat>, older: seq<nat>) {
    && x <= y <= |h| && |newer| <= x && |older| <= |h| - y
    && newer == h[x - |newer|..x] && older == h[y..y + |older|]
  }

  /** What a query before the last of the older messages answers with. */
  lemma OlderCursor(h: seq<nat>, around: nat, x: nat, y: nat, newer: seq<nat>, older: seq<nat>, missing: nat)
    requires IsHistory(h) && y == CountFrom(h, around) && Parts(h, x, y, newer, older)
    ensures var n := y + |older|;
            n <= |h| && ListBefore(h, if |older| > 0 then older[|older| - 1] else around, missing) == h[n..n + Min(missing, |h| - n)]
  {
    hide CountFrom, IsHistory;
    var n := y + |older|;
    if |older| > 0 {
      assert older[|older| - 1] == h[n - 1];
      CountAt(h, n - 1);
    }
  }

  /** What a query after the first of the newer messages answers with. */
  lemma NewerCursor(h: seq<nat>, around: nat, x: nat, y: nat, newer: seq<nat>, older: seq<nat>, missing: nat)
    requires IsHistory(h) && x == CountFrom(h, around + 1) && Parts(h, x, y, newer, older)
    ensures var n := x - |newer|;
            0 <= n <= |h| && ListAfter(h, if |newer| > 0 then newer[0] else around, missing) == h[n - Min(missing, n)..n]
  {
    hide CountFrom, IsHistory;
    var n := x - |newer|;
    if |newer| > 0 {
      assert newer[0] == h[n];
      CountAt(h, n);
    }
  }

  /** The second query for older messages continues the first. */
  lemma MoreOlder(h: seq<nat>, around: nat, x: nat, y: nat, newer: seq<nat>, older: seq<nat>, missing: nat)
    requires IsHistory(h) && x == CountFrom(h, around + 1) && y == CountFrom(h, around) && Parts(h, x, y, newer, older)
    ensures var cursor := if |older| > 0 then older[|older| - 1] else around;
            var more := ListBefore(h, cursor, missing);
            Parts(h, x, y, newer, older + more) && |more| == Min(missing, |h| - y - |older|)
  {
    hide CountFrom, IsHistory, ListBefore;
    OlderCursor(h, around, x, y, newer, older, missing);
    var n := y + |older|;
    Glue(h, y, n, n + Min(missing, |h| - n));
  }

  /** The second query for newer messages continues the first. */
  lemma MoreNewer(h: seq<nat>, around: nat, x: nat, y: nat, newer: seq<nat>, older: seq<nat>, missing: nat)
    requires IsHistory(h) && x == CountFrom(h, around + 1) && y == CountFrom(h, around) && Parts(h, x, y, newer, older)
    ensures var cursor := if |newer| > 0 then newer[0] else around;
            var more := ListAfter(h, cursor, missing);
            Parts(h, x, y, more + newer, older) && |more| == Min(missing, x - |newer|)
  {
    hide CountFrom, IsHistory, ListAfter;
    NewerCursor(h, around, x, y, newer, older, missing);
    var n := x - |newer|;
    Glue(h, n - Min(missing, n), n, x);
  }

  ghost predicate Distinct(messages: seq<nat>) {
    forall i, j :: 0 <= i < j < |messages| ==> messages[i] != messages[j]
  }

  /** The loops of `push`: each message once, in order. */
  method Unseen(messages: seq<nat>) returns (out: seq<nat>)
    ensures forall m :: m in out <==> m in messages
    ensures Distinct(messages) ==> out == messages
  {
    out := [];
    var seen: set<nat> := {};
    for i := 0 to |messages|
      invariant forall m :: m in seen <==> m in out
      invariant forall m :: m in out <==> m in messages[..i]
      invariant Distinct(messages) ==> out == messages[..i]
    {
      assert messages[..i + 1] == messages[..i] + [messages[i]];
      if messages[i] !in seen {
        seen := seen + {messages[i]};
        out := out + [messages[i]];
      }
    }
    assert messages[..|messages|] == messages;
  }

  /** `fetchMessagesAround`; the target need not be there any more. */
  method FetchMessagesAround(h: seq<nat>, limit: nat, around: nat) returns (page: seq<nat>)
    requires IsHistory(h) && limit >= 1
    ensures page == PageAround(h, limit, around)
  {
    hide *;
    ghost var (x, y) := (CountFrom(h, around + 1), CountFrom(h, around));
    var initialOlder := limit / 2;
    var initialNewer := limit - 1 - initialOlder;
    var newer := ListAfter(h, around, initialNewer);
    var older := ListBefore(h, around, initialOlder);
    var center := if around in h then [around] else [];
    FirstLists(h, around, initialNewer, initialOlder);
    Refill(h, limit, around, newer, older, |center|);
    var total := |newer| + |center| + |older|;
    if total < limit {
      var missing := limit - total;
      if |newer| < initialNewer {
        var cursor := if |older| > 0 then older[|older| - 1] else around;
        older := older + ListBefore(h, cursor, missing);
      } else {
        var cursor := if |newer| > 0 then newer[0] else around;
        newer := ListAfter(h, cursor, missing) + newer;
      }
    }
    PartsArePage(h, limit, around, x, y, newer, center, older);
    var out := Unseen(newer + center + older);
    page := if |out| < limit then out else out[..limit];
  }

  /** The lists after the second query, if there is one, have the shares that are due. */
  lemma Refill(h: seq<nat>, limit: nat, around: nat, newer: seq<nat>, older: seq<nat>, c: nat)
    requires IsHistory(h) && limit >= 1 && c <= 1
    requires Parts(h, CountFrom(h, around + 1), CountFrom(h, around), newer, older)
    requires |newer| == Min(limit - 1 - limit / 2, CountFrom(h, around + 1))
    requires |older| == Min(limit / 2, |h| - CountFrom(h, around))
    ensures |newer| <= limit - 1 - limit / 2
    ensures var x, y, missing := CountFrom(h, around + 1), CountFrom(h, around), limit - |newer| - c - |older|;
            var n, o := NewerShare(x, |h| - y, c, limit), OlderShare(x, |h| - y, c, limit);
            if missing <= 0 then |newer| == n && |older| == o
            else if |newer| < limit - 1 - limit / 2 then
              var all := older + ListBefore(h, if |older| > 0 then older[|older| - 1] else around, missing);
              Parts(h, x, y, newer, all) && |newer| == n && |all| == o
            else
              var all := ListAfter(h, if |newer| > 0 then newer[0] else around, missing) + newer;
              Parts(h, x, y, all, older) && |all| == n && |older| == o
  {
    hide CountFrom, IsHistory, Parts, ListBefore, ListAfter, NewerShare, OlderShare;
    var x, y, missing := CountFrom(h, around + 1), CountFrom(h, around), limit - |newer| - c - |older|;
    SharesRefill(x, |h| - y, c, limit);
    if missing > 0 {
      MoreOlder(h, around, x, y, newer, older, missing);
      MoreNewer(h, around, x, y, newer, older, missing);
    }
  }

  lemma FirstLists(h: seq<nat>, around: nat, initialNewer: nat, initialOlder: nat)
    requires IsHistory(h)
    ensures var x, y := CountFrom(h, around + 1), CountFrom(h, around);
            var newer, older := ListAfter(h, around, initialNewer), ListBefore(h, around, initialOlder);
            && Parts(h, x, y, newer, older) && |newer| == Min(initialNewer, x) && |older| == Min(initialOlder, |h| - y)
            && y - x == if around in h then 1 else 0
  {
    hide CountFrom, IsHistory;
    Positions(h, around);
  }

  lemma PartsJoin(h: seq<nat>, x: nat, y: nat, newer: seq<nat>, center: seq<nat>, older: seq<nat>)
    requires Parts(h, x, y, newer, older) && center == h[x..y]
    ensures x <= y <= |h| && |newer| <= x && |older| <= |h| - y
    ensures newer + center + older == h[x - |newer|..y + |older|]
  {
    Glue(h, x - |newer|, x, y);
    Glue(h, x - |newer|, y, y + |older|);
  }

  lemma PartsArePage(h: seq<nat>, limit: nat, around: nat, x: nat, y: nat, newer: seq<nat>, center: seq<nat>, older: seq<nat>)
    requires IsHistory(h) && limit >= 1 && x == CountFrom(h, around + 1) && y == CountFrom(h, around)
    requires Parts(h, x, y, newer, older) && center == if around in h then [around] else []
    requires |newer| == NewerShare(x, |h| - y, |center|, limit) && |older| == OlderShare(x, |h| - y, |center|, limit)
    ensures newer + center + older == PageAround(h, limit, around) && Distinct(newer + center + older)
  {
    hide CountFrom, Parts, IsHistory, Distinct, NewerShare, OlderShare;
    Positions(h, around);
    assert center == h[x..y];
    PartsJoin(h, x, y, newer, center, older);
    StretchIsDistinct(h, x - |newer|, y + |older|);
  }

  lemma StretchIsDistinct(h: seq<nat>, a: nat, b: nat)
    requires IsHistory(h) && a <= b <= |h|
    ensures Distinct(h[a..b])
  {
  }

  // ---------------------------------------------------------------- the reader

  /** Whether a reader has the right to read history, and the guild's cutoff, if it has one. The
      cutoff is the least id of its time: ids grow with time. */
  datatype Reader = Reader(readsHistory: bool, cutoff: Option<nat>)

  /** How many messages the reader may see, from the newest on. */
  function SeenCount(h: seq<nat>, reader: Reader): (n: nat)
    requires IsHistory(h)
    ensures n <= |h|
  {
    if reader.readsHistory then |h| else if reader.cutoff.None? then 0 else CountFrom(h, reader.cutoff.value)
  }

  /** The history as far as the reader may see it. */
  function Seen(h: seq<nat>, reader: Reader): (v: seq<nat>)
    requires IsHistory(h)
    ensures IsHistory(v)
  {
    h[..SeenCount(h, reader)]
  }

  /** `messages.filter` with `isMessageAfterCutoff` */
  function AfterCutoff(messages: seq<nat>, cutoff: nat): seq<nat> {
    if messages == [] then []
    else (if messages[0] >= cutoff then [messages[0]] else []) + AfterCutoff(messages[1..], cutoff)
  }

  lemma StretchCons(h: seq<nat>, a: nat, b: nat)
    requires a < |h| && b <= |h|
    ensures a < b ==> h[a..b][0] == h[a] && h[a..b][1..] == h[a + 1..b] && [h[a]] + h[a + 1..b] == h[a..b]
  {
  }

  lemma {:induction false} CutStretch(h: seq<nat>, cutoff: nat, a: nat, b: nat)
    requires IsHistory(h) && a <= b <= |h|
    ensures var n := CountFrom(h, cutoff);
            AfterCutoff(h[a..b], cutoff) == if n <= a then [] else h[a..Min(b, n)]
    decreases b - a
  {
    hide CountFrom, IsHistory;
    if a < b {
      CutStretch(h, cutoff, a + 1, b);
      StretchCons(h, a, b);
      StretchCons(h, a, Min(b, CountFrom(h, cutoff)));
    }
  }

  /** Which messages are asked for. */
  datatype Query = Around(id: nat) | Before(id: nat) | After(id: nat)

  /** `getMessages`: a reader without history gets what is left of the page after the cutoff. */
  method GetMessages(h: seq<nat>, limit: nat, query: Query, reader: Reader) returns (page: seq<nat>)
    requires IsHistory(h) && limit >= 1
    ensures query.Before? ==> page == ListBefore(Seen(h, reader), query.id, limit)
    ensures query.After? ==> page == ListNewest(Seen(h, reader), query.id, limit)
    ensures query.Around? ==>
              var lo, hi, n := PageStart(h, limit, query.id), PageEnd(h, limit, query.id), SeenCount(h, reader);
              page == if n <= lo then [] else h[lo..Min(hi, n)]
  {
    hide CountFrom, IsHistory, AfterCutoff, PageStart, PageEnd, ListBefore, ListNewest;
    SeenPage(h, query.id, limit, reader);
    SeenNewest(h, query.id, limit, reader);
    if !reader.readsHistory && reader.cutoff.None? {
      return [];
    }
    match query {
      case Around(id) => page := FetchMessagesAround(h, limit, id);
      case Before(id) => page := ListBefore(h, id, limit);
      case After(id) => page := ListNewest(h, id, limit);
    }
    if !reader.readsHistory {
      page := AfterCutoff(page, reader.cutoff.value);
      CutStretch(h, reader.cutoff.value, PageStart(h, limit, query.id), PageEnd(h, limit, query.id));
    }
  }

  /** A page of a prefix is the prefix of the page. */
  lemma PrefixPage(h: seq<nat>, v: seq<nat>, i: nat, j: nat, limit: nat)
    requires v <= h && i <= |h| && j == Min(|v|, i)
    ensures v[j..j + Min(limit, |v| - j)] == if |v| <= i then [] else h[i..Min(i + Min(limit, |h| - i), |v|)]
  {
  }

  /** A page before an id, cut off, is the page of the history as far as it is seen. */
  lemma SeenPage(h: seq<nat>, before: nat, limit: nat, reader: Reader)
    requires IsHistory(h)
    ensures ListBefore(Seen(h, reader), before, limit) ==
              if reader.readsHistory then ListBefore(h, before, limit)
              else if reader.cutoff.None? then []
              else AfterCutoff(ListBefore(h, before, limit), reader.cutoff.value)
  {
    if reader.readsHistory {
      assert Seen(h, reader) == h;
    } else if reader.cutoff.Some? {
      CutPage(h, before, limit, reader.cutoff.value);
    }
  }

  lemma ListBeforeIs(h: seq<nat>, before: nat, limit: nat)
    requires IsHistory(h)
    ensures var i := CountFrom(h, before); ListBefore(h, before, limit) == h[i..i + Min(limit, |h| - i)]
  {
    hide CountFrom, IsHistory;
  }

  lemma ListOfPrefix(h: seq<nat>, n: nat, before: nat, limit: nat)
    requires IsHistory(h) && n <= |h|
    ensures IsHistory(h[..n])
    ensures var i := CountFrom(h, before);
            ListBefore(h[..n], before, limit) == if n <= i then [] else h[i..Min(i + Min(limit, |h| - i), n)]
  {
    hide *;
    CountInPrefix(h, before, n);
    ListBeforeIs(h[..n], before, limit);
    PrefixPage(h, h[..n], CountFrom(h, before), CountFrom(h[..n], before), limit);
  }

  lemma CutList(h: seq<nat>, before: nat, limit: nat, cutoff: nat)
    requires IsHistory(h)
    ensures var i, n := CountFrom(h, before), CountFrom(h, cutoff);
            AfterCutoff(ListBefore(h, before, limit), cutoff) == if n <= i then [] else h[i..Min(i + Min(limit, |h| - i), n)]
  {
    hide CountFrom, IsHistory, AfterCutoff;
    var i := CountFrom(h, before);
    CutStretch(h, cutoff, i, i + Min(limit, |h| - i));
  }

  lemma CutPage(h: seq<nat>, before: nat, limit: nat, cutoff: nat)
    requires IsHistory(h)
    ensures IsHistory(h[..CountFrom(h, cutoff)])
    ensures ListBefore(h[..CountFrom(h, cutoff)], before, limit) == AfterCutoff(ListBefore(h, before, limit), cutoff)
  {
    hide IsHistory, AfterCutoff, ListBefore, CountFrom;
    ListOfPrefix(h, CountFrom(h, cutoff), before, limit);
    CutList(h, before, limit, cutoff);
  }

  /** So is a page after an id. */
  lemma SeenNewest(h: seq<nat>, after: nat, limit: nat, reader: Reader)
    requires IsHistory(h)
    ensures ListNewest(Seen(h, reader), after, limit) ==
              if reader.readsHistory then ListNewest(h, after, limit)
              else if reader.cutoff.None? then []
              else AfterCutoff(ListNewest(h, after, limit), reader.cutoff.value)
  {
    if reader.readsHistory {
      assert Seen(h, reader) == h;
    } else if reader.cutoff.Some? {
      CutNewest(h, after, limit, reader.cutoff.value);
    }
  }

  lemma CutNewest(h: seq<nat>, after: nat, limit: nat, cutoff: nat)
    requires IsHistory(h)
    ensures IsHistory(h[..CountFrom(h, cutoff)])
    ensures ListNewest(h[..CountFrom(h, cutoff)], after, limit) == AfterCutoff(ListNewest(h, after, limit), cutoff)
  {
    var n, x := CountFrom(h, cutoff), CountFrom(h, after + 1);
    CountInPrefix(h, after + 1, n);
    CutStretch(h, cutoff, 0, Min(limit, x));
    hide CountFrom, IsHistory, AfterCutoff;
    PrefixOfPrefix(h, n, Min(limit, Min(n, x)));
    assert h[0..Min(limit, x)] == h[..Min(limit, x)];
  }

  lemma PrefixOfPrefix(h: seq<nat>, n: nat, m: nat)
    requires m <= n <= |h|
    ensures h[..n][..m] == h[0..m]
  {
  }

  lemma CountInPrefix(h: seq<nat>, id: nat, n: nat)
    requires IsHistory(h) && n <= |h|
    ensures IsHistory(h[..n]) && CountFrom(h[..n], id) == Min(n, CountFrom(h, id))
  {
    var v := h[..n];
    var m, k := CountFrom(v, id), CountFrom(h, id);
    var atM, atK := if m < |v| then v[m] else 0, if k < |v| then v[k] else 0;
  }

  // ---------------------------------------------------------------- the client

  /** `jump?.messageId`: none, the empty string, or an id. */
  datatype Target = NoTarget | EmptyTarget | At(id: nat)

  predicate FirstAt(page: seq<nat>, id: nat, i: nat) {
    i < |page| && page[i] == id && id !in page[..i]
  }

  /** What the flags of a page come to if its target is message `i` of it. */
  predicate MoreBefore(page: seq<nat>, i: nat, limit: nat) {
    |page| == limit || |page| - i - 1 >= limit / 2
  }

  predicate MoreAfter(page: seq<nat>, i: nat, limit: nat, knownLatest: Option<nat>)
    requires i < |page|
  {
    |page| == limit || (i >= limit / 2 && Some(page[0]) != knownLatest)
  }

  /** The flags `hasMoreBefore` and `hasMoreAfter` of a fetched page. */
  method HasMoreFlags(isBefore: bool, isAfter: bool, around: Target, limit: nat, page: seq<nat>, knownLatest: Option<nat>)
    returns (hasMoreBefore: bool, hasMoreAfter: bool)
    ensures around.NoTarget? ==>
              && (hasMoreBefore <==> |page| == limit && (isBefore || !isAfter))
              && (hasMoreAfter <==> |page| == limit && isAfter)
    ensures around.EmptyTarget? || (around.At? && around.id !in page) ==> hasMoreBefore && hasMoreAfter
    ensures around.At? && around.id in page ==>
              forall i: nat :: FirstAt(page, around.id, i) ==>
                && (hasMoreBefore <==> MoreBefore(page, i, limit))
                && (hasMoreAfter <==> MoreAfter(page, i, limit, knownLatest))
  {
    var isReplacement := !isBefore && !isAfter;
    var halfLimit := limit / 2;
    hasMoreBefore := !around.NoTarget? || (|page| == limit && (isBefore || isReplacement));
    hasMoreAfter := !around.NoTarget? || (isAfter && |page| == limit);
    if around.At? {
      var newest := if |page| > 0 then Some(page[0]) else None;
      var targetIndex := FindIndex(page, around.id);
      var pageFilled := |page| == limit;
      if targetIndex.Some? {
        var messagesNewer := targetIndex.value;
        var messagesOlder := |page| - targetIndex.value - 1;
        var isAtKnownLatest := newest.Some? && newest == knownLatest;
        hasMoreBefore := pageFilled || messagesOlder >= halfLimit;
        hasMoreAfter := pageFilled || (messagesNewer >= halfLimit && !isAtKnownLatest);
      }
    }
  }

  method FindIndex(page: seq<nat>, id: nat) returns (index: Option<nat>)
    ensures index.None? <==> id !in page
    ensures index.Some? ==> FirstAt(page, id, index.value)
    ensures forall i: nat :: FirstAt(page, id, i) ==> index == Some(i)
  {
    for i := 0 to |page|
      invariant id !in page[..i]
    {
      if page[i] == id {
        return Some(i);
      }
      assert page[..i + 1] == page[..i] + [page[i]];
    }
    assert page[..|page|] == page;
    return None;
  }

  /** An `around` page as a server may answer it: a stretch of the history with the target in it
      that has up to half the limit on each side, or is full. */
  predicate HonestPage(h: seq<nat>, page: seq<nat>, around: nat, limit: nat, lo: nat, hi: nat, i: nat) {
    && lo <= hi <= |h| && page == h[lo..hi] && FirstAt(page, around, i)
    && (|page| == limit || ((i >= limit / 2 || lo == 0) && (|page| - i - 1 >= limit / 2 || hi == |h|)))
  }

  /** With an honest page and the true latest id, or none, a false flag means that its side is exhausted. */
  method JumpFlagsAreSound(h: seq<nat>, page: seq<nat>, around: nat, limit: nat, knownLatest: Option<nat>,
                           ghost lo: nat, ghost hi: nat, ghost i: nat)
    returns (hasMoreBefore: bool, hasMoreAfter: bool)
    requires IsHistory(h) && HonestPage(h, page, around, limit, lo, hi, i)
    ensures !hasMoreBefore ==> hi == |h|
    ensures !hasMoreAfter && (knownLatest.None? || knownLatest == Some(h[0])) ==> lo == 0
    // and with a latest id that is out of date, it fails in exactly one case
    ensures !hasMoreAfter && lo > 0 <==> |page| != limit && i >= limit / 2 && knownLatest == Some(h[lo]) && lo > 0
  {
    hasMoreBefore, hasMoreAfter := HasMoreFlags(false, false, At(around), limit, page, knownLatest);
    assert page[0] == h[lo];
  }

  /** The newer messages that a page leaves out go unnoticed: there are `newer` of them in all; of
      the older ones that the server fetches the cutoff takes some away, so that the page is not
      full; and either the limit is even and at least half of it older messages exist, or the newest
      message of the page is taken for the latest. */
  predicate MissesNewer(newer: nat, older: nat, seenOlder: nat, limit: nat, takenForLatest: bool) {
    var fetched := Min(limit / 2, older);
    && newer + fetched + 1 > limit && seenOlder < fetched
    && (limit - 1 - fetched < limit / 2 || takenForLatest)
  }

  /** The flags after a jump to message `k` of what the reader sees: `hasMoreBefore` is false only
      if nothing older is left; `hasMoreAfter` is false with newer messages left exactly in the
      case above. */
  lemma JumpFlagsIff(h: seq<nat>, k: nat, limit: nat, reader: Reader, knownLatest: Option<nat>)
    requires IsHistory(h) && limit >= 1 && k < SeenCount(h, reader)
    ensures var n, lo, hi := SeenCount(h, reader), PageStart(h, limit, h[k]), Min(PageEnd(h, limit, h[k]), SeenCount(h, reader));
            && lo <= k < hi
            && FirstAt(h[lo..hi], h[k], k - lo)
            && (!MoreBefore(h[lo..hi], k - lo, limit) ==> hi == n)
            && (!MoreAfter(h[lo..hi], k - lo, limit, knownLatest) && lo > 0 <==>
                  MissesNewer(k, |h| - k - 1, n - k - 1, limit, knownLatest == Some(h[lo])))
            && (reader.readsHistory ==> hi - lo == limit || (lo == 0 && hi == |h|))
  {
    CountAt(h, k);
    hide CountFrom;
    var lo := PageStart(h, limit, h[k]);
    assert h[k] !in h[lo..k];
  }

  /** What is right about the page and the flags of a jump to message `k`. */
  ghost predicate JumpRight(h: seq<nat>, k: nat, limit: nat, reader: Reader, knownLatest: Option<nat>,
                            page: seq<nat>, hasMoreBefore: bool, hasMoreAfter: bool)
    requires IsHistory(h) && limit >= 1 && k < SeenCount(h, reader)
  {
    var n, lo, hi := SeenCount(h, reader), PageStart(h, limit, h[k]), Min(PageEnd(h, limit, h[k]), SeenCount(h, reader));
    && lo <= k < hi && page == h[lo..hi]
    && (!hasMoreBefore ==> hi == n)
    && (!hasMoreAfter && lo > 0 <==> MissesNewer(k, |h| - k - 1, n - k - 1, limit, knownLatest == Some(h[lo])))
    // a reader with the right to read history is never misled
    && (reader.readsHistory ==> |page| == limit || page == h)
    && (reader.readsHistory && (!hasMoreBefore || !hasMoreAfter) ==> page == h)
  }

  /** A jump to a message, from the request to the flags. */
  method JumpToMessage(h: seq<nat>, around: nat, limit: nat, reader: Reader, knownLatest: Option<nat>)
    returns (page: seq<nat>, hasMoreBefore: bool, hasMoreAfter: bool)
    requires IsHistory(h) && limit >= 1
    ensures around !in Seen(h, reader) ==> hasMoreBefore && hasMoreAfter
    ensures forall k: nat :: k < SeenCount(h, reader) && h[k] == around ==>
              JumpRight(h, k, limit, reader, knownLatest, page, hasMoreBefore, hasMoreAfter)
  {
    hide *;
    page := GetMessages(h, limit, Around(around), reader);
    hasMoreBefore, hasMoreAfter := HasMoreFlags(false, false, At(around), limit, page, knownLatest);
    forall k: nat | k < SeenCount(h, reader) && h[k] == around
      ensures JumpRight(h, k, limit, reader, knownLatest, page, hasMoreBefore, hasMoreAfter)
    {
      JumpSeen(h, k, limit, reader, knownLatest, page, hasMoreBefore, hasMoreAfter);
    }
    if around !in Seen(h, reader) {
      NotInPage(h, around, reader, PageStart(h, limit, around), PageEnd(h, limit, around));
    }
  }

  lemma JumpSeen(h: seq<nat>, k: nat, limit: nat, reader: Reader, knownLatest: Option<nat>,
                 page: seq<nat>, hasMoreBefore: bool, hasMoreAfter: bool)
    requires IsHistory(h) && limit >= 1 && k < SeenCount(h, reader)
    requires var lo, hi, n := PageStart(h, limit, h[k]), PageEnd(h, limit, h[k]), SeenCount(h, reader);
             page == if n <= lo then [] else h[lo..Min(hi, n)]
    requires h[k] in page ==>
               forall i: nat :: FirstAt(page, h[k], i) ==>
                 (hasMoreBefore <==> MoreBefore(page, i, limit)) && (hasMoreAfter <==> MoreAfter(page, i, limit, knownLatest))
    ensures JumpRight(h, k, limit, reader, knownLatest, page, hasMoreBefore, hasMoreAfter)
  {
    JumpFlagsIff(h, k, limit, reader, knownLatest);
    if reader.readsHistory {
      JumpReads(h, k, limit, reader);
    }
    FirstIsIn(page, h[k], k - PageStart(h, limit, h[k]));
    hide PageStart, PageEnd, SeenCount, IsHistory, MissesNewer, MoreBefore, MoreAfter, FirstAt;
    assert h[0..|h|] == h;
  }

  /** A reader of the whole history has a full page or all there is, and no newer message is missed. */
  lemma JumpReads(h: seq<nat>, k: nat, limit: nat, reader: Reader)
    requires IsHistory(h) && limit >= 1 && k < SeenCount(h, reader) && reader.readsHistory
    ensures SeenCount(h, reader) == |h|
    ensures !MissesNewer(k, |h| - k - 1, |h| - k - 1, limit, true) && !MissesNewer(k, |h| - k - 1, |h| - k - 1, limit, false)
  {
  }

  lemma FirstIsIn(page: seq<nat>, id: nat, i: nat)
    ensures FirstAt(page, id, i) ==> id in page
  {
  }

  lemma NotInPage(h: seq<nat>, around: nat, reader: Reader, lo: nat, hi: nat)
    requires IsHistory(h) && around !in Seen(h, reader) && lo <= hi <= |h|
    ensures var n := SeenCount(h, reader); n > lo ==> around !in h[lo..Min(hi, n)]
  {
    hide SeenCount, IsHistory;
    var n := SeenCount(h, reader);
    forall i | lo <= i < n ensures h[i] != around {
      assert Seen(h, reader)[i] == h[i];
    }
  }

  /** It happens: five messages, of which the oldest two are cut off; a jump to the oldest that is
      seen loads two, and both flags say that these are all, though a newer one is seen. */
  lemma CutoffHidesNewer()
    ensures var h: seq<nat> := [5, 4, 3, 2, 1];
            var reader := Reader(false, Some(3));
            && IsHistory(h) && Seen(h, reader) == [5, 4, 3]
            && PageAround(h, 4, 3) == [4, 3, 2, 1] && AfterCutoff([4, 3, 2, 1], 3) == [4, 3]
            && !MoreBefore([4, 3], 1, 4) && !MoreAfter([4, 3], 1, 4, Some(5))
  {
    var h: seq<nat> := [5, 4, 3, 2, 1];
    assert IsHistory(h);
    CountAt(h, 2);
    hide CountFrom;
  }

  lemma PageBefore(h: seq<nat>, before: nat, limit: nat)
    requires IsHistory(h)
    ensures var page := ListBefore(h, before, limit);
            var at := CountFrom(h, before);
            && |page| == Min(limit, |h| - at) && page == h[at..at + |page|]
            && (page != [] ==> CountFrom(h, page[|page| - 1]) == at + |page|)
  {
    hide CountFrom, IsHistory;
    var at := CountFrom(h, before);
    var n := Min(limit, |h| - at);
    if n > 0 {
      CountAt(h, at + n - 1);
    }
  }

  /** What `n` requests can load. */
  function Capacity(n: nat, limit: nat): (c: nat)
    ensures c == n * limit
  {
    if n == 0 then 0 else Capacity(n - 1, limit) + limit
  }

  lemma CapacityIs(requests: nat, limit: nat)
    requires requests > 0
    ensures Capacity(requests, limit) == requests * limit && (requests - 1) * limit == Capacity(requests - 1, limit)
  {
  }

  /** From position `first` on all was loaded up to where the messages before `before` begin; or all
      there is, once no more is expected; so many requests were full, and the last one was not. */
  ghost predicate LoadedTo(v: seq<nat>, first: nat, limit: nat, loaded: seq<nat>, requests: nat, before: nat, more: bool)
    requires IsHistory(v)
  {
    && first + |loaded| <= |v| && loaded == v[first..first + |loaded|]
    && if more then CountFrom(v, before) == first + |loaded| && |loaded| == Capacity(requests, limit)
       else
         && first + |loaded| == |v| && requests > 0
         && Capacity(requests - 1, limit) <= |loaded| < Capacity(requests, limit)
  }

  lemma LoadedStep(v: seq<nat>, first: nat, limit: nat, loaded: seq<nat>, requests: nat, before: nat)
    requires IsHistory(v) && limit >= 1 && LoadedTo(v, first, limit, loaded, requests, before, true)
    ensures var page := ListBefore(v, before, limit);
            && LoadedTo(v, first, limit, loaded + page, requests + 1, if |page| > 0 then page[|page| - 1] else before, |page| == limit)
            && (|page| == limit ==> |loaded + page| > |loaded| && first + |loaded + page| <= |v|)
  {
    hide CountFrom, IsHistory, ListBefore;
    PageBefore(v, before, limit);
    var page := ListBefore(v, before, limit);
    var at := first + |loaded|;
    Glue(v, first, at, at + |page|);
    assert Capacity(requests + 1, limit) == Capacity(requests, limit) + limit;
  }

  lemma LoadedEnds(v: seq<nat>, first: nat, limit: nat, loaded: seq<nat>, requests: nat, before: nat)
    requires IsHistory(v) && LoadedTo(v, first, limit, loaded, requests, before, false)
    ensures first <= |v| && loaded == v[first..]
    ensures (requests - 1) * limit <= |loaded| < requests * limit
  {
    CapacityIs(requests, limit);
  }

  /** Asking for what is before the oldest message loaded, as long as there is said to be more:
      each older message that the reader sees is loaded exactly once, in order, and the asking ends. */
  method LoadAllBefore(h: seq<nat>, oldest: nat, limit: nat, reader: Reader) returns (loaded: seq<nat>, requests: nat)
    requires IsHistory(h) && limit >= 1
    ensures var v := Seen(h, reader); loaded == v[CountFrom(v, oldest)..]
    ensures (requests - 1) * limit <= |loaded| < requests * limit
  {
    ghost var v := Seen(h, reader);
    ghost var first := CountFrom(v, oldest);
    var before := oldest;
    loaded, requests := [], 0;
    var hasMoreBefore := true;
    assert v[first..first] == [];
    while hasMoreBefore
      invariant LoadedTo(v, first, limit, loaded, requests, before, hasMoreBefore)
      invariant first + |loaded| <= |v|
      decreases hasMoreBefore, |v| - first - |loaded|
    {
      hide *;
      var page := GetMessages(h, limit, Before(before), reader);
      LoadedStep(v, first, limit, loaded, requests, before);
      requests := requests + 1;
      var hasMoreAfter;
      hasMoreBefore, hasMoreAfter := HasMoreFlags(true, false, NoTarget, limit, page, None);
      loaded := loaded + page;
      if |page| > 0 {
        before := page[|page| - 1];
      }
    }
    LoadedEnds(v, first, limit, loaded, requests, before);
  }

  /** Asking for what is after the newest message loaded, as long as there is said to be more: the
      first page has the newest messages, and with it the asking ends, or with the empty page after
      it. Each newer message that the reader sees is loaded, once and in order, exactly if there
      are no more of them than the limit. */
  method LoadAllAfter(h: seq<nat>, newest: nat, limit: nat, reader: Reader) returns (loaded: seq<nat>, requests: nat)
    requires IsHistory(h) && limit >= 1
    ensures var v := Seen(h, reader);
            && loaded == v[..Min(limit, CountFrom(v, newest + 1))]
            && (loaded == v[..CountFrom(v, newest + 1)] <==> CountFrom(v, newest + 1) <= limit)
            && requests == if CountFrom(v, newest + 1) < limit then 1 else 2
  {
    ghost var v := Seen(h, reader);
    ghost var x := CountFrom(v, newest + 1);
    var after := newest;
    loaded, requests := [], 0;
    var hasMoreAfter := true;
    while hasMoreAfter
      invariant requests == 0 ==> hasMoreAfter && after == newest && loaded == []
      invariant requests > 0 ==> loaded == v[..Min(limit, x)]
      invariant requests == 1 ==> (hasMoreAfter <==> x >= limit) && (hasMoreAfter ==> CountFrom(v, after + 1) == 0)
      invariant requests > 1 ==> requests == 2 && !hasMoreAfter && x >= limit
      decreases 2 - requests
    {
      hide CountFrom, IsHistory, Seen;
      var page := GetMessages(h, limit, After(after), reader);
      NewestPage(v, after, limit);
      requests := requests + 1;
      var hasMoreBefore;
      hasMoreBefore, hasMoreAfter := HasMoreFlags(false, true, NoTarget, limit, page, None);
      loaded := page + loaded;
      if |page| > 0 {
        after := page[0];
      }
    }
  }

  lemma NewestPage(v: seq<nat>, after: nat, limit: nat)
    requires IsHistory(v)
    ensures var page, x := ListNewest(v, after, limit), CountFrom(v, after + 1);
            && |page| == Min(limit, x) && page == v[..Min(limit, x)]
            && (page != [] ==> CountFrom(v, page[0] + 1) == 0)
  {
    if |ListNewest(v, after, limit)| > 0 {
      CountAt(v, 0);
    }
  }

  /** Two newer messages, asked for one at a time: only the newer one is loaded. */
  lemma AfterSkips()
    ensures var h: seq<nat> := [3, 2, 1];
            && IsHistory(h) && CountFrom(h, 1 + 1) == 2
            && ListNewest(h, 1, 1) == [3] && ListNewest(h, 3, 1) == []
  {
    var h: seq<nat> := [3, 2, 1];
    assert IsHistory(h);
    CountAt(h, 2);
    CountAt(h, 0);
  }

  /** What a reader sees of the history: all of it with the right to read it, else what is not before
      the cutoff, and nothing without one. */
  lemma SeenIff(h: seq<nat>, reader: Reader, id: nat)
    requires IsHistory(h)
    ensures id in Seen(h, reader) <==> id in h && (reader.readsHistory || (reader.cutoff.Some? && id >= reader.cutoff.value))
  {
    var n := SeenCount(h, reader);
    if id in h {
      var i :| 0 <= i < |h| && h[i] == id;
      assert i < n ==> h[..n][i] == id;
    }
  }
}
