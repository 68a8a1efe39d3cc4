/** The scan over the buckets that a channel's messages are stored in: it answers with the pages
    that `Paging` reads off the history. */
module BucketScan {
  import opened Wrappers
  import opened Paging

  /** The time of an id is in its upper bits; a bucket is ten days. */
  const TIME_UNIT := 0x40_0000
  const TEN_DAYS_MS := 864_000_000

  /** `BucketUtils.makeBucket` */
  function BucketOf(id: nat): nat {
    id / TIME_UNIT / TEN_DAYS_MS
  }

  /** Later messages are in the same or a later bucket. */
  lemma BucketsInOrder(a: nat, b: nat)
    requires a <= b
    ensures BucketOf(a) <= BucketOf(b)
  {
  }

  function Max(a: nat, b: nat): nat {
    if a < b then b else a
  }

  // ---------------------------------------------------------------- the tables

  /** How many messages, from the newest on, are in a bucket from `bucket` on. */
  function CountInFrom(h: seq<nat>, bucket: nat): (n: nat)
    ensures n <= |h|
    ensures forall i :: 0 <= i < n ==> BucketOf(h[i]) >= bucket
    ensures n < |h| ==> BucketOf(h[n]) < bucket
  {
    if h == [] || BucketOf(h[0]) < bucket then 0 else 1 + CountInFrom(h[1..], bucket)
  }

  ghost predicate Descending(index: seq<nat>) {
    forall i, j :: 0 <= i < j < |index| ==> index[i] > index[j]
  }

  /** The index of buckets, latest first: every bucket with messages is in it, and others may be. */
  ghost predicate IsIndex(index: seq<nat>, h: seq<nat>) {
    Descending(index) && forall i :: 0 <= i < |h| ==> BucketOf(h[i]) in index
  }

  /** `listBucketsDescFromIndex` */
  function ListBuckets(index: seq<nat>, min: nat, max: nat, limit: nat): seq<nat>
    decreases |index|
  {
    if index == [] || limit == 0 then []
    else if min <= index[0] <= max then [index[0]] + ListBuckets(index[1..], min, max, limit - 1)
    else ListBuckets(index[1..], min, max, limit)
  }

  function Stretch(h: seq<nat>, from: nat, to: nat): seq<nat>
    requires to <= |h|
  {
    if to <= from then [] else h[from..to]
  }

  /** `fetchRowsForBucket`: the newest messages of one bucket, older or newer than an id if that is in it. */
  function FetchRows(h: seq<nat>, bucket: nat, limit: nat, before: Option<nat>, after: Option<nat>): seq<nat>
    requires IsHistory(h)
  {
    var from, to := CountInFrom(h, bucket + 1), CountInFrom(h, bucket);
    var first := if before.Some? && BucketOf(before.value) == bucket then Max(from, CountFrom(h, before.value)) else from;
    var last := if after.Some? && BucketOf(after.value) == bucket then Min(to, CountFrom(h, after.value + 1)) else to;
    Stretch(h, first, Min(last, first + limit))
  }

  // ---------------------------------------------------------------- what the scan is to find

  /** The positions in the history that the messages asked for begin and end at. */
  function Begin(h: seq<nat>, before: Option<nat>): (n: nat)
    requires IsHistory(h)
    ensures n <= |h|
  {
    if before.Some? then CountFrom(h, before.value) else 0
  }

  function End(h: seq<nat>, after: Option<nat>): (n: nat)
    requires IsHistory(h)
    ensures n <= |h|
  {
    if after.Some? then CountFrom(h, after.value + 1) else |h|
  }

  /** The newest of them, up to the limit. */
  function Wanted(h: seq<nat>, limit: nat, before: Option<nat>, after: Option<nat>): seq<nat>
    requires IsHistory(h)
  {
    Stretch(h, Begin(h, before), Min(End(h, after), Begin(h, before) + limit))
  }

  /** The range of buckets has all messages asked for, and begins or ends with that of the id. */
  ghost predicate InRange(h: seq<nat>, min: nat, max: nat, before: Option<nat>, after: Option<nat>)
    requires IsHistory(h)
  {
    && (before.None? || after.None?)
    && (before.Some? ==> max == BucketOf(before.value))
    && (after.Some? ==> min >= BucketOf(after.value))
    && forall i :: Begin(h, before) <= i < End(h, after) ==> min <= BucketOf(h[i]) <= max
  }

  // ---------------------------------------------------------------- how far it got

  /** The first position in the index of a bucket up to `c`. */
  function FirstUpTo(index: seq<nat>, c: nat): (p: nat)
    ensures p <= |index| && (p < |index| ==> index[p] <= c)
    ensures forall i :: 0 <= i < p ==> index[i] > c
  {
    if index == [] || index[0] <= c then 0 else 1 + FirstUpTo(index[1..], c)
  }

  /** How many messages are in buckets before position `p` of the index. */
  function CountUntil(h: seq<nat>, index: seq<nat>, p: nat): (n: nat)
    ensures n <= |h|
  {
    if p < |index| then CountInFrom(h, index[p] + 1) else |h|
  }

  /** The cursor is at position `p` of the index, or past the range, and above it all was processed. */
  ghost predicate AtCursor(index: seq<nat>, p: nat, min: nat, max: nat, cursor: Option<nat>, processed: set<nat>) {
    if cursor.Some? then p == FirstUpTo(index, cursor.value) && cursor.value <= max && forall b :: b in processed ==> b > cursor.value
    else p <= |index| && (p == |index| || index[p] < min)
  }

  /** All that is asked for in buckets before position `p` was found, up to the limit. */
  ghost predicate Scanned(h: seq<nat>, index: seq<nat>, limit: nat, before: Option<nat>, after: Option<nat>,
                          p: nat, out: seq<nat>, remaining: nat)
    requires IsHistory(h)
  {
    && p <= |index| && |out| + remaining == limit
    && out == Stretch(h, Begin(h, before), Min(Min(End(h, after), CountUntil(h, index, p)), Begin(h, before) + limit))
  }

  /** Messages in later buckets come first. */
  lemma CountIs(h: seq<nat>, bucket: nat, i: nat)
    requires IsHistory(h) && i < |h|
    ensures i < CountInFrom(h, bucket) <==> BucketOf(h[i]) >= bucket
  {
    var n := CountInFrom(h, bucket);
    if i >= n {
      BucketsInOrder(h[i], h[n]);
    }
  }

  /** Two bounds that part the messages alike. */
  lemma {:induction false} CountsAgree(h: seq<nat>, b: nat, c: nat)
    requires forall i :: 0 <= i < |h| ==> (BucketOf(h[i]) >= b <==> BucketOf(h[i]) >= c)
    ensures CountInFrom(h, b) == CountInFrom(h, c)
  {
    if h != [] {
      assert BucketOf(h[0]) >= b <==> BucketOf(h[0]) >= c;
      CountsAgree(h[1..], b, c);
    }
  }

  lemma {:induction false} CountsAll(h: seq<nat>, b: nat)
    requires forall i :: 0 <= i < |h| ==> BucketOf(h[i]) >= b
    ensures CountInFrom(h, b) == |h|
  {
    if h != [] {
      assert BucketOf(h[0]) >= b;
      CountsAll(h[1..], b);
    }
  }

  lemma {:induction false} CountGrows(h: seq<nat>, b: nat, c: nat)
    requires b <= c
    ensures CountInFrom(h, c) <= CountInFrom(h, b)
  {
    if h != [] {
      CountGrows(h[1..], b, c);
    }
  }

  lemma CountUntilNext(h: seq<nat>, index: seq<nat>, p: nat)
    requires IsIndex(index, h) && p < |index|
    ensures CountUntil(h, index, p + 1) == CountInFrom(h, index[p])
  {
    hide CountInFrom, BucketOf;
    forall i | 0 <= i < |h|
      ensures BucketOf(h[i]) < index[p] ==> p + 1 < |index| && BucketOf(h[i]) <= index[p + 1]
    {
      if BucketOf(h[i]) < index[p] {
        NoBucketBetween(index, p, BucketOf(h[i]));
      }
    }
    if p + 1 < |index| {
      CountsAgree(h, index[p], index[p + 1] + 1);
    } else {
      CountsAll(h, index[p]);
    }
  }

  lemma NoBucketBetween(index: seq<nat>, p: nat, b: nat)
    requires Descending(index) && p < |index| && b in index && b < index[p]
    ensures p + 1 < |index| && b <= index[p + 1]
  {
    var k :| 0 <= k < |index| && index[k] == b;
  }

  // ---------------------------------------------------------------- the code

  /** The loop over the rows of a bucket. */
  method Push(out0: seq<nat>, remaining0: nat, rows: seq<nat>) returns (out: seq<nat>, remaining: nat)
    ensures Distinct(out0 + rows) && |rows| <= remaining0 ==> out == out0 + rows && remaining == remaining0 - |rows|
  {
    out, remaining := out0, remaining0;
    var seen := set m | m in out0;
    for i := 0 to |rows|
      invariant forall m :: m in seen <==> m in out
      invariant Distinct(out0 + rows) && |rows| <= remaining0 ==> out == out0 + rows[..i] && remaining == remaining0 - i
    {
      hide Distinct;
      FreshRow(out0, rows, i);
      if remaining <= 0 {
        break;
      }
      if rows[i] !in seen {
        seen := seen + {rows[i]};
        out := out + [rows[i]];
        remaining := remaining - 1;
      }
    }
    assert rows[..|rows|] == rows;
  }

  lemma FreshRow(out: seq<nat>, rows: seq<nat>, i: nat)
    requires i < |rows|
    ensures Distinct(out + rows) ==> rows[i] !in out + rows[..i]
    ensures out + rows[..i + 1] == out + rows[..i] + [rows[i]]
  {
    var all := out + rows;
    assert all[|out| + i] == rows[i];
    assert forall k :: 0 <= k < |out| + i ==> (out + rows[..i])[k] == all[k];
  }

  /** The buckets of the index from position `start` on, as many as there are, all in the range. */
  ghost predicate IsPage(index: seq<nat>, buckets: seq<nat>, start: nat, min: nat, max: nat) {
    && Descending(index) && start + |buckets| <= |index|
    && forall i :: 0 <= i < |buckets| ==> buckets[i] == index[start + i] && min <= buckets[i] <= max
  }

  lemma PageAt(index: seq<nat>, buckets: seq<nat>, start: nat, min: nat, max: nat, i: nat)
    requires IsPage(index, buckets, start, min, max) && i < |buckets|
    ensures start + |buckets| <= |index| && buckets[i] == index[start + i] && min <= buckets[i] <= max
    ensures i + 1 < |buckets| ==> buckets[i + 1] < buckets[i]
    ensures buckets[|buckets| - 1] <= buckets[i]
  {
    assert i + 1 < |buckets| ==> index[start + i + 1] < index[start + i];
    assert i < |buckets| - 1 ==> index[start + |buckets| - 1] < index[start + i];
  }

  lemma PageEnds(index: seq<nat>, buckets: seq<nat>, start: nat, min: nat, max: nat)
    requires IsPage(index, buckets, start, min, max) && buckets != []
    ensures Descending(index) && start + |buckets| <= |index| && min <= buckets[|buckets| - 1] <= max && buckets[0] <= max
    ensures buckets[|buckets| - 1] <= buckets[0]
  {
    PageAt(index, buckets, start, min, max, 0);
  }

  /** The loop over one page of the index, which begins at position `start`. */
  method ScanPage(h: seq<nat>, ghost index: seq<nat>, ghost limit: nat, minBucket: nat, maxBucket: nat,
                  ghost max: nat, before: Option<nat>, after: Option<nat>, buckets: seq<nat>, ghost start: nat,
                  out0: seq<nat>, remaining0: nat, processed0: set<nat>)
    returns (out: seq<nat>, remaining: nat, processed: set<nat>)
    requires IsHistory(h) && IsIndex(index, h) && InRange(h, minBucket, maxBucket, before, after)
    requires IsPage(index, buckets, start, minBucket, max) && buckets != [] && max <= maxBucket
    requires forall b :: b in processed0 ==> b > max
    requires Scanned(h, index, limit, before, after, start, out0, remaining0)
    ensures Scanned(h, index, limit, before, after, start + |buckets|, out, remaining)
    ensures forall b :: b in processed ==> b >= buckets[|buckets| - 1]
  {
    hide *;
    PageEnds(index, buckets, start, minBucket, max);
    out, remaining, processed := out0, remaining0, processed0;
    var i := 0;
    while i < |buckets| && remaining > 0
      invariant i <= |buckets| && Scanned(h, index, limit, before, after, start + i, out, remaining)
      invariant forall b :: b in processed ==> b >= buckets[|buckets| - 1] && (i < |buckets| ==> b > buckets[i])
    {
      var bucket := buckets[i];
      PageAt(index, buckets, start, minBucket, max, i);
      if minBucket <= bucket <= maxBucket && bucket !in processed {
        processed := processed + {bucket};
        ScanStep(h, index, limit, minBucket, maxBucket, before, after, start + i, out, remaining);
        out, remaining := Push(out, remaining, FetchRows(h, bucket, remaining, before, after));
      }
      i := i + 1;
    }
    if remaining == 0 {
      ScannedEnough(h, index, limit, before, after, start + i, start + |buckets|, out);
    }
  }

  /** `scanBucketsWithIndex`, latest buckets first, over the pages of the index. */
  method ScanBuckets(h: seq<nat>, index: seq<nat>, pageSize: nat, limit: nat, minBucket: nat, maxBucket: nat,
                     before: Option<nat>, after: Option<nat>) returns (out: seq<nat>)
    requires IsHistory(h) && IsIndex(index, h) && pageSize >= 1
    requires InRange(h, minBucket, maxBucket, before, after)
    ensures out == Wanted(h, limit, before, after)
  {
    hide *;
    var remaining := limit;
    out := [];
    var processed: set<nat> := {};
    var cursorMax: Option<nat> := Some(maxBucket);
    ghost var p: nat := FirstUpTo(index, maxBucket);
    ScanStarts(h, index, limit, minBucket, maxBucket, before, after);
    while remaining > 0 && cursorMax.Some? && cursorMax.value >= minBucket
      invariant Scanned(h, index, limit, before, after, p, out, remaining)
      invariant AtCursor(index, p, minBucket, maxBucket, cursorMax, processed)
      decreases if cursorMax.Some? then cursorMax.value + 1 else 0
    {
      var buckets := ListBuckets(index, minBucket, cursorMax.value, pageSize);
      PageOfIndex(h, index, minBucket, maxBucket, pageSize, cursorMax.value, p, processed);
      if |buckets| == 0 {
        cursorMax := None;
        break;
      }
      out, remaining, processed := ScanPage(h, index, limit, minBucket, maxBucket, cursorMax.value, before, after, buckets, p,
                                            out, remaining, processed);
      NextPage(index, buckets, p, minBucket, cursorMax.value, maxBucket, processed);
      p := p + |buckets|;
      var last := buckets[|buckets| - 1];
      cursorMax := if last >= 1 && last - 1 >= minBucket then Some(last - 1) else None;
    }
    ScanEnds(h, index, limit, minBucket, maxBucket, before, after, p, out, remaining, cursorMax, processed);
  }

  /** What a page of the index is: the buckets of the range from the cursor on, up to the page size. */
  lemma PageOfIndex(h: seq<nat>, index: seq<nat>, min: nat, max: nat, pageSize: nat, cursor: nat, p: nat, processed: set<nat>)
    requires IsIndex(index, h) && pageSize >= 1 && min <= cursor
    requires AtCursor(index, p, min, max, Some(cursor), processed)
    ensures var buckets := ListBuckets(index, min, cursor, pageSize);
            && IsPage(index, buckets, p, min, cursor) && cursor <= max
            && (forall b :: b in processed ==> b > cursor)
            && (|buckets| == 0 ==> AtCursor(index, p, min, max, None, processed))
  {
    PageIs(index, min, cursor, pageSize);
  }

  lemma {:induction false} PageIs(index: seq<nat>, min: nat, max: nat, limit: nat)
    requires Descending(index) && min <= max
    ensures var buckets, p := ListBuckets(index, min, max, limit), FirstUpTo(index, max);
            && p + |buckets| <= |index|
            && (forall i :: 0 <= i < |buckets| ==> buckets[i] == index[p + i] && min <= buckets[i] <= max)
            && (|buckets| == 0 && limit >= 1 ==> p == |index| || index[p] < min)
    decreases |index|
  {
    if index != [] && limit > 0 {
      var rest := index[1..];
      DescendingRest(index);
      ListFirst(index, min, max, limit);
      hide ListBuckets, FirstUpTo, Descending;
      if index[0] > max {
        PageIs(rest, min, max, limit);
      } else if index[0] >= min {
        PageIs(rest, min, max, limit - 1);
        FirstIsNext(index, max);
      } else {
        NothingBelow(index, min, max, limit);
      }
    }
  }

  lemma ListFirst(index: seq<nat>, min: nat, max: nat, limit: nat)
    requires index != [] && limit > 0 && min <= max
    ensures index[0] > max ==>
              ListBuckets(index, min, max, limit) == ListBuckets(index[1..], min, max, limit)
              && FirstUpTo(index, max) == 1 + FirstUpTo(index[1..], max)
    ensures index[0] <= max ==> FirstUpTo(index, max) == 0
    ensures min <= index[0] <= max ==> ListBuckets(index, min, max, limit) == [index[0]] + ListBuckets(index[1..], min, max, limit - 1)
  {
  }

  lemma DescendingRest(index: seq<nat>)
    requires Descending(index) && index != []
    ensures Descending(index[1..]) && forall i :: 0 < i < |index| ==> index[i] < index[0] && index[i] == index[1..][i - 1]
  {
  }

  lemma FirstIsNext(index: seq<nat>, max: nat)
    requires Descending(index) && index != [] && index[0] <= max
    ensures FirstUpTo(index[1..], max) == 0
  {
    assert |index| > 1 ==> index[1..][0] == index[1];
  }

  lemma {:induction false} NothingBelow(rest: seq<nat>, min: nat, max: nat, limit: nat)
    requires forall i :: 0 <= i < |rest| ==> rest[i] < min
    ensures ListBuckets(rest, min, max, limit) == []
  {
    if rest != [] {
      NothingBelow(rest[1..], min, max, limit);
    }
  }

  // ---------------------------------------------------------------- the steps of the scan

  /** Messages in buckets above the range come before those asked for. */
  lemma ScanStarts(h: seq<nat>, index: seq<nat>, limit: nat, min: nat, max: nat, before: Option<nat>, after: Option<nat>)
    requires IsHistory(h) && IsIndex(index, h) && InRange(h, min, max, before, after)
    ensures Scanned(h, index, limit, before, after, FirstUpTo(index, max), [], limit)
    ensures AtCursor(index, FirstUpTo(index, max), min, max, Some(max), {})
  {
    var p := FirstUpTo(index, max);
    var i0, e, n := Begin(h, before), End(h, after), CountUntil(h, index, p);
    hide CountInFrom, FirstUpTo, BucketOf;
    if i0 < e {
      assert min <= BucketOf(h[i0]) <= max;
      NoBucketAbove(index, p, max, BucketOf(h[i0]));
      CountIs(h, index[p] + 1, i0);
    }
  }

  lemma NoBucketAbove(index: seq<nat>, p: nat, max: nat, b: nat)
    requires Descending(index) && p == FirstUpTo(index, max) && b in index && b <= max
    ensures p < |index| && b <= index[p]
  {
    var k :| 0 <= k < |index| && index[k] == b;
    assert k >= p;
  }

  lemma ScannedEnough(h: seq<nat>, index: seq<nat>, limit: nat, before: Option<nat>, after: Option<nat>,
                      p: nat, q: nat, out: seq<nat>)
    requires IsHistory(h) && Descending(index) && p <= q <= |index|
    requires Scanned(h, index, limit, before, after, p, out, 0)
    ensures Scanned(h, index, limit, before, after, q, out, 0)
  {
    CountUntilGrows(h, index, p, q);
    hide CountUntil, Begin, End;
  }

  lemma CountUntilGrows(h: seq<nat>, index: seq<nat>, p: nat, q: nat)
    requires Descending(index) && p <= q <= |index|
    ensures CountUntil(h, index, p) <= CountUntil(h, index, q)
  {
    if q < |index| {
      CountGrows(h, index[q] + 1, index[p] + 1);
    }
  }

  /** The rows of the next bucket continue what was found. */
  lemma ScanStep(h: seq<nat>, index: seq<nat>, limit: nat, min: nat, max: nat, before: Option<nat>,
                 after: Option<nat>, p: nat, out: seq<nat>, remaining: nat)
    requires IsHistory(h) && IsIndex(index, h) && InRange(h, min, max, before, after)
    requires p < |index| && min <= index[p] <= max && remaining > 0
    requires Scanned(h, index, limit, before, after, p, out, remaining)
    ensures var rows := FetchRows(h, index[p], remaining, before, after);
            && Distinct(out + rows) && |rows| <= remaining
            && Scanned(h, index, limit, before, after, p + 1, out + rows, remaining - |rows|)
  {
    hide CountInFrom, CountFrom, FetchRows, BucketOf, IsHistory, Stretch, Min, Max, Distinct, Begin, End;
    var rows := FetchRows(h, index[p], remaining, before, after);
    var i0, e := Begin(h, before), End(h, after);
    var from, to := CountUntil(h, index, p), CountUntil(h, index, p + 1);
    CountUntilNext(h, index, p);
    RowsAre(h, index[p], remaining, min, max, before, after);
    CountUntilGrows(h, index, p, p + 1);
    BeginsBeforeEnd(h, before, after);
    ScannedIs(h, index, limit, before, after, p, out, remaining);
    ScannedIs(h, index, limit, before, after, p + 1, out + rows, remaining - |rows|);
    hide CountUntil, Scanned;
    Continues(h, i0, e, from, to, limit, |out|, remaining);
    StretchDistinct(h, i0, Min(Min(e, to), i0 + limit));
  }

  lemma ScannedIs(h: seq<nat>, index: seq<nat>, limit: nat, before: Option<nat>, after: Option<nat>,
                  p: nat, out: seq<nat>, remaining: int)
    requires IsHistory(h)
    ensures remaining >= 0 && p <= |index| ==>
              (Scanned(h, index, limit, before, after, p, out, remaining) <==>
                && |out| + remaining == limit
                && out == Stretch(h, Begin(h, before), Min(Min(End(h, after), CountUntil(h, index, p)), Begin(h, before) + limit)))
  {
    hide CountUntil, Begin, End, Stretch, IsHistory;
  }

  lemma StretchDistinct(h: seq<nat>, from: nat, to: nat)
    requires IsHistory(h) && to <= |h|
    ensures Distinct(Stretch(h, from, to))
  {
  }

  lemma BeginsBeforeEnd(h: seq<nat>, before: Option<nat>, after: Option<nat>)
    requires IsHistory(h) && (before.None? || after.None?)
    ensures Begin(h, before) <= |h| && (before.Some? ==> End(h, after) == |h|) && (before.None? ==> Begin(h, before) == 0)
  {
  }

  /** Below the bucket of the id all messages are before it. */
  lemma {:induction false} FirstRow(h: seq<nat>, bucket: nat, id: nat)
    requires IsHistory(h) && bucket < BucketOf(id)
    ensures CountFrom(h, id) <= CountInFrom(h, bucket + 1)
  {
    hide BucketOf;
    if h != [] && h[0] >= id {
      BucketsInOrder(id, h[0]);
      FirstRow(h[1..], bucket, id);
    }
  }

  /** Above the bucket of the id all messages are after it. */
  lemma {:induction false} LastRow(h: seq<nat>, bucket: nat, id: nat)
    requires IsHistory(h) && BucketOf(id) < bucket
    ensures CountInFrom(h, bucket) <= CountFrom(h, id + 1)
  {
    hide BucketOf;
    if h != [] && BucketOf(h[0]) >= bucket {
      if h[0] <= id {
        BucketsInOrder(h[0], id);
      }
      LastRow(h[1..], bucket, id);
    }
  }

  /** The rows of a bucket in the range, in terms of the history. */
  lemma RowsAre(h: seq<nat>, bucket: nat, limit: nat, min: nat, max: nat, before: Option<nat>, after: Option<nat>)
    requires IsHistory(h) && InRange(h, min, max, before, after) && min <= bucket <= max
    ensures var from, to := CountInFrom(h, bucket + 1), CountInFrom(h, bucket);
            var first, last := Max(from, Begin(h, before)), Min(to, End(h, after));
            FetchRows(h, bucket, limit, before, after) == Stretch(h, first, Min(last, first + limit))
  {
    hide CountInFrom, CountFrom, IsHistory, BucketOf, Stretch;
    if before.Some? && bucket < max {
      FirstRow(h, bucket, before.value);
    }
    if after.Some? && BucketOf(after.value) < bucket {
      LastRow(h, bucket, after.value);
    }
  }

  /** Two stretches, the second from where the first ends. */
  lemma Continues(h: seq<nat>, i0: nat, e: nat, from: nat, to: nat, limit: nat, n: nat, remaining: nat)
    requires i0 <= |h| && e <= |h| && from <= to <= |h| && (i0 <= e || e == |h|)
    requires n == |Stretch(h, i0, Min(Min(e, from), i0 + limit))| && n + remaining == limit && remaining > 0
    ensures var first := Max(from, i0);
            var rows := Stretch(h, first, Min(Min(to, e), first + remaining));
            && |rows| <= remaining && Min(Min(e, to), i0 + limit) <= |h|
            && Stretch(h, i0, Min(Min(e, from), i0 + limit)) + rows == Stretch(h, i0, Min(Min(e, to), i0 + limit))
  {
    if i0 < from && from < e {
      var last := Min(Min(to, e), from + remaining);
      assert Min(Min(e, to), i0 + limit) == last && Min(Min(e, from), i0 + limit) == from;
      Glue(h, i0, from, last);
    }
  }

  /** After a page of the index the cursor is at the next one. */
  lemma NextPage(index: seq<nat>, buckets: seq<nat>, start: nat, min: nat, cursor: nat, max: nat, processed: set<nat>)
    requires IsPage(index, buckets, start, min, cursor) && buckets != [] && cursor <= max
    requires forall b :: b in processed ==> b >= buckets[|buckets| - 1]
    ensures var last := buckets[|buckets| - 1];
            && last <= cursor
            && AtCursor(index, start + |buckets|, min, max, if last >= 1 && last - 1 >= min then Some(last - 1) else None, processed)
  {
    var p, last := start + |buckets|, buckets[|buckets| - 1];
    PageAt(index, buckets, start, min, cursor, |buckets| - 1);
    assert index[p - 1] == last;
    var atP := if p < |index| then index[p] else 0;
    if last >= 1 {
      var q := FirstUpTo(index, last - 1);
      var atQ := if q < |index| then index[q] else 0;
    }
  }

  /** What is found in the end is what was asked for. */
  lemma ScanEnds(h: seq<nat>, index: seq<nat>, limit: nat, min: nat, max: nat, before: Option<nat>,
                 after: Option<nat>, p: nat, out: seq<nat>, remaining: nat, cursorMax: Option<nat>, processed: set<nat>)
    requires IsHistory(h) && IsIndex(index, h) && InRange(h, min, max, before, after)
    requires Scanned(h, index, limit, before, after, p, out, remaining)
    requires AtCursor(index, p, min, max, cursorMax, processed)
    requires remaining == 0 || cursorMax.None? || cursorMax.value < min
    ensures out == Wanted(h, limit, before, after)
  {
    assert remaining == 0 || p == |index| || index[p] < min;
    hide *;
    if remaining > 0 {
      NothingBeyond(h, index, min, max, before, after, p);
    }
    ScannedIs(h, index, limit, before, after, p, out, remaining);
    WantedIs(h, limit, before, after);
    var i0, e, n := Begin(h, before), End(h, after), CountUntil(h, index, p);
    SameStretch(h, i0, n, e, limit, |out|);
  }

  lemma WantedIs(h: seq<nat>, limit: nat, before: Option<nat>, after: Option<nat>)
    requires IsHistory(h)
    ensures Wanted(h, limit, before, after) == Stretch(h, Begin(h, before), Min(End(h, after), Begin(h, before) + limit))
  {
  }

  /** Below the range there is nothing that is asked for. */
  lemma NothingBeyond(h: seq<nat>, index: seq<nat>, min: nat, max: nat, before: Option<nat>, after: Option<nat>, p: nat)
    requires IsHistory(h) && InRange(h, min, max, before, after) && p <= |index| && (p == |index| || index[p] < min)
    ensures End(h, after) <= Begin(h, before) || End(h, after) <= CountUntil(h, index, p)
  {
    var i0, e := Begin(h, before), End(h, after);
    hide CountInFrom, Begin, End, BucketOf;
    if i0 < e && p < |index| {
      assert min <= BucketOf(h[e - 1]);
      CountIs(h, index[p] + 1, e - 1);
    }
  }

  /** What is found of a stretch is all of it if it is as long as it can be, or ends where it does. */
  lemma SameStretch(h: seq<nat>, from: nat, n: nat, e: nat, limit: nat, found: nat)
    requires e <= |h| && found == |Stretch(h, from, Min(Min(e, n), from + limit))|
    requires found == limit || e <= from || e <= n
    ensures Stretch(h, from, Min(Min(e, n), from + limit)) == Stretch(h, from, Min(e, from + limit))
  {
  }

  // ---------------------------------------------------------------- the pages

  /** `listMessages`, before an id, after one, or the latest; `created` is the first bucket of the
      channel and `now` that of the present. */
  method ListMessages(h: seq<nat>, index: seq<nat>, pageSize: nat, created: nat, now: nat, limit: nat,
                      before: Option<nat>, after: Option<nat>) returns (page: seq<nat>)
    requires IsHistory(h) && IsIndex(index, h) && pageSize >= 1
    requires (before.None? || after.None?) && forall i :: 0 <= i < |h| ==> created <= BucketOf(h[i]) <= now
    ensures before.Some? ==> page == ListBefore(h, before.value, limit)
    ensures after.Some? ==> page == ListNewest(h, after.value, limit)
    ensures before.None? && after.None? ==> page == h[..Min(limit, |h|)]
  {
    if limit <= 0 {
      WantedPages(h, limit, before, after);
      return [];
    }
    var minBucket, maxBucket := created, now;
    if before.Some? {
      maxBucket := BucketOf(before.value);
    } else if after.Some? {
      minBucket := Max(BucketOf(after.value), created);
      maxBucket := Max(now, minBucket);
    }
    RangeHolds(h, created, now, before, after);
    WantedPages(h, limit, before, after);
    hide Wanted, InRange, IsIndex, BucketOf, ListBefore, ListNewest, IsHistory;
    page := ScanBuckets(h, index, pageSize, limit, minBucket, maxBucket, before, after);
  }

  /** What is wanted is what the page functions give. */
  lemma WantedPages(h: seq<nat>, limit: nat, before: Option<nat>, after: Option<nat>)
    requires IsHistory(h) && (before.None? || after.None?)
    ensures before.Some? ==> Wanted(h, limit, before, after) == ListBefore(h, before.value, limit)
    ensures after.Some? ==> Wanted(h, limit, before, after) == ListNewest(h, after.value, limit)
    ensures before.None? && after.None? ==> Wanted(h, limit, before, after) == h[..Min(limit, |h|)]
  {
    hide CountFrom, IsHistory;
  }

  lemma RangeHolds(h: seq<nat>, created: nat, now: nat, before: Option<nat>, after: Option<nat>)
    requires IsHistory(h) && (before.None? || after.None?)
    requires forall i :: 0 <= i < |h| ==> created <= BucketOf(h[i]) <= now
    ensures before.Some? ==> InRange(h, created, BucketOf(before.value), before, after)
    ensures after.Some? ==> var min := Max(BucketOf(after.value), created); InRange(h, min, Max(now, min), before, after)
    ensures before.None? && after.None? ==> InRange(h, created, now, before, after)
  {
    hide CountFrom, BucketOf;
    if before.Some? {
      forall i | Begin(h, before) <= i < |h| ensures BucketOf(h[i]) <= BucketOf(before.value) {
        BucketsInOrder(h[i], before.value);
      }
    } else if after.Some? {
      forall i | 0 <= i < End(h, after) ensures BucketOf(h[i]) >= BucketOf(after.value) {
        BucketsInOrder(after.value, h[i]);
      }
    }
  }
}
