/** Date-bucketed accounting of the API calls the integration makes
    (`APICallTracker`). The history is a dictionary from a calendar day to
    the calls recorded on that day; Python dictionaries keep their keys in
    insertion order and every query walks them in that order, so the model
    keeps the history as an insertion-ordered sequence of day buckets with
    distinct days. Timestamps are UTC seconds; a day key is the UTC day
    number of a timestamp, which orders like the source's `YYYY-MM-DD`
    strings. */
module CallTracker {
  import opened Common

  const SecondsPerDay: int := 86400

  const CallZoneStates: int := 1
  const CallWeather: int := 2
  const CallZones: int := 3
  const CallMobileDevices: int := 4
  const CallOverlay: int := 5
  const CallPresenceLock: int := 6
  const CallHomeState: int := 7

  /** `CALL_TYPE_NAMES.get(call_type, "unknown")`. */
  function TypeName(callType: int): (name: string)
    ensures name == "unknown" <==> !(CallZoneStates <= callType <= CallHomeState)
  {
    match callType
    case 1 => "zoneStates"
    case 2 => "weather"
    case 3 => "zones"
    case 4 => "mobileDevices"
    case 5 => "overlay"
    case 6 => "presenceLock"
    case 7 => "homeState"
    case _ => "unknown"
  }

  /** The UTC calendar day of a timestamp (floor division). */
  function DayKey(timestamp: int): int { timestamp / SecondsPerDay }

  /** The day key of `now - days`, the cutoff of the queries and cleanup. */
  function CutoffDay(now: int, days: int): int { DayKey(now - days * SecondsPerDay) }

  datatype CallRecord = CallRecord(callType: int, typeName: string, status: int, timestamp: int)

  /** The record `record_call` builds for one call. */
  function NewRecord(callType: int, status: int, timestamp: int): CallRecord {
    CallRecord(callType, TypeName(callType), status, timestamp)
  }

  datatype Bucket = Bucket(day: int, calls: seq<CallRecord>)

  // ---------------------------------------------------------------------
  // The history as a dictionary

  predicate DistinctDays(h: seq<Bucket>) {
    forall i, j :: 0 <= i < j < |h| ==> h[i].day != h[j].day
  }

  /** The keys of the history dictionary, in insertion order. */
  function DayOrder(h: seq<Bucket>): seq<int> {
    seq(|h|, i requires 0 <= i < |h| => h[i].day)
  }

  /** Position of the bucket for `day`, or -1 when the day has no bucket. */
  function IndexOfDay(h: seq<Bucket>, day: int): (r: int)
    ensures -1 <= r < |h|
    ensures r >= 0 ==> h[r].day == day && forall k :: 0 <= k < r ==> h[k].day != day
    ensures r == -1 ==> forall k :: 0 <= k < |h| ==> h[k].day != day
    decreases |h|
  {
    if h == [] then -1
    else if h[0].day == day then 0
    else
      var r := IndexOfDay(h[1..], day);
      if r < 0 then -1 else r + 1
  }

  /** `history.get(day, [])`. */
  function Lookup(h: seq<Bucket>, day: int): seq<CallRecord> {
    var i := IndexOfDay(h, day);
    if i < 0 then [] else h[i].calls
  }

  /** Every call in the history, bucket after bucket. */
  function AllCalls(h: seq<Bucket>): seq<CallRecord>
    decreases |h|
  {
    if h == [] then [] else h[0].calls + AllCalls(h[1..])
  }

  /** The calls of the buckets whose day is at least `cutoff`. */
  function CallsSince(h: seq<Bucket>, cutoff: int): seq<CallRecord>
    decreases |h|
  {
    if h == [] then []
    else (if h[0].day >= cutoff then h[0].calls else []) + CallsSince(h[1..], cutoff)
  }

  /** The calls since a cutoff are drawn from the history: all of it when
      every day is at or after the cutoff, none when every day is before. */
  lemma {:induction false} CallsSinceWithin(h: seq<Bucket>, cutoff: int)
    ensures multiset(CallsSince(h, cutoff)) <= multiset(AllCalls(h))
    ensures (forall b :: b in h ==> b.day >= cutoff) ==> CallsSince(h, cutoff) == AllCalls(h)
    ensures (forall b :: b in h ==> b.day < cutoff) ==> CallsSince(h, cutoff) == []
    decreases |h|
  {
    if h != [] {
      CallsSinceWithin(h[1..], cutoff);
      assert forall b :: b in h[1..] ==> b in h;
    }
  }

  lemma AllCallsFrom(h: seq<Bucket>, i: nat)
    requires i < |h|
    ensures AllCalls(h[i..]) == h[i].calls + AllCalls(h[i + 1..])
  {
    assert h[i..][0] == h[i];
    assert h[i..][1..] == h[i + 1..];
  }

  lemma CallsSinceFrom(h: seq<Bucket>, i: nat, cutoff: int)
    requires i < |h|
    ensures CallsSince(h[i..], cutoff)
         == (if h[i].day >= cutoff then h[i].calls else []) + CallsSince(h[i + 1..], cutoff)
  {
    assert h[i..][0] == h[i];
    assert h[i..][1..] == h[i + 1..];
  }

  /** The history after `record_call` appends `rec` to the bucket of its
      day, creating that bucket at the end when it does not exist. */
  function WithCall(h: seq<Bucket>, rec: CallRecord): (r: seq<Bucket>)
    ensures |r| == |h| || |r| == |h| + 1
    ensures forall k :: 0 <= k < |h| ==> r[k].day == h[k].day
    ensures exists k :: 0 <= k < |r| && r[k].day == DayKey(rec.timestamp) && rec in r[k].calls
  {
    var day := DayKey(rec.timestamp);
    var i := IndexOfDay(h, day);
    if i < 0 then
      var r := h + [Bucket(day, [rec])];
      assert r[|h|] == Bucket(day, [rec]);
      r
    else
      var r := h[i := Bucket(day, h[i].calls + [rec])];
      assert r[i].calls == h[i].calls + [rec];
      r
  }

  /** The history after deleting every day key below `cutoff`. */
  function Retained(h: seq<Bucket>, cutoff: int): (r: seq<Bucket>)
    ensures |r| <= |h|
    ensures forall b :: b in h && b.day >= cutoff ==> b in r
    decreases |h|
  {
    if h == [] then []
    else
      var rest := Retained(h[1..], cutoff);
      assert forall b :: b in h ==> b == h[0] || b in h[1..];
      (if h[0].day >= cutoff then [h[0]] else []) + rest
  }

  lemma RetainedFrom(h: seq<Bucket>, i: nat, cutoff: int)
    requires i < |h|
    ensures Retained(h[i..], cutoff)
         == (if h[i].day >= cutoff then [h[i]] else []) + Retained(h[i + 1..], cutoff)
  {
    assert h[i..][0] == h[i];
    assert h[i..][1..] == h[i + 1..];
  }

  /** One step of the cleanup loop: the buckets kept so far, followed by
      what the rest keeps. */
  lemma RetainedStep(h: seq<Bucket>, i: nat, cutoff: int, kept: seq<Bucket>)
    requires i < |h| && Retained(h, cutoff) == kept + Retained(h[i..], cutoff)
    ensures Retained(h, cutoff)
         == (if h[i].day >= cutoff then kept + [h[i]] else kept) + Retained(h[i + 1..], cutoff)
  {
    RetainedFrom(h, i, cutoff);
    var add := if h[i].day >= cutoff then [h[i]] else [];
    assert kept + (add + Retained(h[i + 1..], cutoff)) == (kept + add) + Retained(h[i + 1..], cutoff);
  }

  /** The deletion loop of `cleanup_old_records`: every day key below
      `cutoff` goes, the other buckets stay in their order. */
  method DeleteBefore(h: seq<Bucket>, cutoff: int) returns (kept: seq<Bucket>)
    ensures kept == Retained(h, cutoff)
  {
    kept := [];
    var i := 0;
    while i < |h|
      invariant 0 <= i <= |h|
      invariant Retained(h, cutoff) == kept + Retained(h[i..], cutoff)
    {
      RetainedStep(h, i, cutoff, kept);
      if h[i].day >= cutoff {
        kept := kept + [h[i]];
      }
      i := i + 1;
    }
    assert h[i..] == [];
  }

  /** The history after `cleanup_old_records` at time `now`: retention 0
      keeps everything. */
  function CleanedUp(h: seq<Bucket>, retentionDays: int, now: int): seq<Bucket> {
    if retentionDays == 0 then h else Retained(h, CutoffDay(now, retentionDays))
  }

  /** A cleanup is due when none has run yet or the last one ran on an
      earlier day. */
  predicate CleanupDue(lastCleanupDay: Option<int>, today: int) {
    lastCleanupDay.None? || lastCleanupDay.value < today
  }

  // ---------------------------------------------------------------------
  // Properties of the dictionary operations

  /** Recording a call adds it to its own day's bucket and to no other;
      the keys keep their order and a new day is appended last. */
  lemma WithCallLookup(h: seq<Bucket>, rec: CallRecord, d: int)
    requires DistinctDays(h)
    ensures DistinctDays(WithCall(h, rec))
    ensures Lookup(WithCall(h, rec), d)
         == (if d == DayKey(rec.timestamp) then Lookup(h, d) + [rec] else Lookup(h, d))
    ensures DayOrder(WithCall(h, rec))
         == (if DayKey(rec.timestamp) in DayOrder(h) then DayOrder(h)
             else DayOrder(h) + [DayKey(rec.timestamp)])
  {
    var day := DayKey(rec.timestamp);
    var i := IndexOfDay(h, day);
    var h' := WithCall(h, rec);
    if i < 0 {
      assert day !in DayOrder(h);
      assert h' == h + [Bucket(day, [rec])];
      assert forall m :: 0 <= m < |h| ==> h'[m] == h[m];
      assert h'[|h|].day == day;
      var j := IndexOfDay(h', d);
      var k := IndexOfDay(h, d);
      if k >= 0 {
        assert h'[k] == h[k];
      } else if d == day {
        assert j == |h|;
      }
    } else {
      assert DayOrder(h)[i] == day;
      var j := IndexOfDay(h', d);
      var k := IndexOfDay(h, d);
      assert forall m :: 0 <= m < |h| ==> h'[m].day == h[m].day;
      if k >= 0 {
        assert j == k;
      }
      assert DayOrder(h') == DayOrder(h);
    }
  }

  lemma {:induction false} AllCallsAppend(a: seq<Bucket>, b: seq<Bucket>)
    ensures AllCalls(a + b) == AllCalls(a) + AllCalls(b)
    decreases |a|
  {
    if a != [] {
      assert (a + b)[0] == a[0];
      assert (a + b)[1..] == a[1..] + b;
      AllCallsAppend(a[1..], b);
    } else {
      assert a + b == b;
    }
  }

  /** Recording adds exactly one record to the history as a whole. */
  lemma WithCallAddsOne(h: seq<Bucket>, rec: CallRecord)
    ensures multiset(AllCalls(WithCall(h, rec))) == multiset(AllCalls(h)) + multiset{rec}
  {
    var day := DayKey(rec.timestamp);
    var i := IndexOfDay(h, day);
    if i < 0 {
      AllCallsAppend(h, [Bucket(day, [rec])]);
      assert AllCalls([Bucket(day, [rec])]) == [rec];
    } else {
      var b := Bucket(day, h[i].calls + [rec]);
      assert h == h[..i] + [h[i]] + h[i + 1..];
      assert h[i := b] == h[..i] + [b] + h[i + 1..];
      AllCallsAppend(h[..i] + [h[i]], h[i + 1..]);
      AllCallsAppend(h[..i], [h[i]]);
      AllCallsAppend(h[..i] + [b], h[i + 1..]);
      AllCallsAppend(h[..i], [b]);
      assert AllCalls([h[i]]) == h[i].calls;
      assert AllCalls([b]) == h[i].calls + [rec];
    }
  }

  lemma LookupCons(b: Bucket, t: seq<Bucket>, d: int)
    ensures Lookup([b] + t, d) == if b.day == d then b.calls else Lookup(t, d)
  {
    assert ([b] + t)[0] == b;
    assert ([b] + t)[1..] == t;
  }

  /** Cleanup keeps exactly the buckets of days at or after the cutoff. */
  lemma {:induction false} RetainedLookup(h: seq<Bucket>, cutoff: int, d: int)
    ensures Lookup(Retained(h, cutoff), d) == (if d >= cutoff then Lookup(h, d) else [])
    decreases |h|
  {
    if h != [] {
      RetainedLookup(h[1..], cutoff, d);
      var t := Retained(h[1..], cutoff);
      assert h == [h[0]] + h[1..];
      LookupCons(h[0], h[1..], d);
      if h[0].day >= cutoff {
        assert Retained(h, cutoff) == [h[0]] + t;
        LookupCons(h[0], t, d);
      } else {
        assert Retained(h, cutoff) == t;
      }
    }
  }

  /** Every bucket that survives a cleanup is on or after the cutoff, and
      each is one of the original buckets in its original order. */
  lemma {:induction false} RetainedShape(h: seq<Bucket>, cutoff: int)
    ensures forall k :: 0 <= k < |Retained(h, cutoff)| ==> Retained(h, cutoff)[k].day >= cutoff
    ensures DistinctDays(h) ==> DistinctDays(Retained(h, cutoff))
    ensures forall b :: b in Retained(h, cutoff) ==> b in h
    decreases |h|
  {
    if h != [] {
      RetainedShape(h[1..], cutoff);
      if DistinctDays(h) {
        assert DistinctDays(h[1..]);
        assert forall b :: b in h[1..] ==> b.day != h[0].day;
      }
    }
  }

  lemma {:induction false} RetainedIdempotent(h: seq<Bucket>, cutoff: int)
    ensures Retained(Retained(h, cutoff), cutoff) == Retained(h, cutoff)
    decreases |h|
  {
    if h != [] {
      RetainedIdempotent(h[1..], cutoff);
      var t := Retained(h[1..], cutoff);
      if h[0].day >= cutoff {
        assert Retained(h, cutoff) == [h[0]] + t;
        assert ([h[0]] + t)[0] == h[0];
        assert ([h[0]] + t)[1..] == t;
      } else {
        assert Retained(h, cutoff) == t;
      }
    }
  }

  /** Cleaning up twice at the same moment is the same as once. */
  lemma CleanupIdempotent(h: seq<Bucket>, retentionDays: int, now: int)
    ensures CleanedUp(CleanedUp(h, retentionDays, now), retentionDays, now)
         == CleanedUp(h, retentionDays, now)
  {
    if retentionDays != 0 {
      RetainedIdempotent(h, CutoffDay(now, retentionDays));
    }
  }

  // ---------------------------------------------------------------------
  // Newest-first ordering (`sort(key=timestamp, reverse=True)`)

  predicate NewestFirst(s: seq<CallRecord>) {
    forall i, j :: 0 <= i < j < |s| ==> s[i].timestamp >= s[j].timestamp
  }

  function InsertByTime(c: CallRecord, s: seq<CallRecord>): (r: seq<CallRecord>)
    requires NewestFirst(s)
    ensures NewestFirst(r)
    ensures multiset(r) == multiset(s) + multiset{c}
    ensures |r| == |s| + 1
    ensures r[0] == c || (|s| > 0 && r[0] == s[0])
    decreases |s|
  {
    if s == [] || c.timestamp >= s[0].timestamp then
      ConsNewestFirst(c, s);
      [c] + s
    else
      TailNewestFirst(s);
      var t := InsertByTime(c, s[1..]);
      InsertBehindHead(c, s, t);
      [s[0]] + t
  }

  lemma TailNewestFirst(s: seq<CallRecord>)
    requires NewestFirst(s) && |s| > 0
    ensures NewestFirst(s[1..])
  {
    forall i, j | 0 <= i < j < |s[1..]|
      ensures s[1..][i].timestamp >= s[1..][j].timestamp
    {
      assert s[1..][i] == s[i + 1] && s[1..][j] == s[j + 1];
    }
  }

  /** A call older than the head, inserted into the tail, leaves the head
      in front of a newest-first list holding every call. */
  lemma InsertBehindHead(c: CallRecord, s: seq<CallRecord>, t: seq<CallRecord>)
    requires NewestFirst(s) && |s| > 0 && c.timestamp < s[0].timestamp
    requires NewestFirst(t) && multiset(t) == multiset(s[1..]) + multiset{c}
    requires t[0] == c || (|s| > 1 && t[0] == s[1])
    ensures NewestFirst([s[0]] + t)
    ensures multiset([s[0]] + t) == multiset(s) + multiset{c}
  {
    assert s == [s[0]] + s[1..];
    assert |s| > 1 ==> s[0].timestamp >= s[1].timestamp;
    ConsNewestFirst(s[0], t);
  }

  /** Putting a call no older than the head in front keeps a list newest
      first. */
  lemma ConsNewestFirst(x: CallRecord, t: seq<CallRecord>)
    requires NewestFirst(t) && (t == [] || x.timestamp >= t[0].timestamp)
    ensures NewestFirst([x] + t)
  {
    var r := [x] + t;
    forall i, j | 0 <= i < j < |r|
      ensures r[i].timestamp >= r[j].timestamp
    {
      assert r[j] == t[j - 1];
      if i > 0 {
        assert r[i] == t[i - 1];
      } else if j > 1 {
        assert t[0].timestamp >= t[j - 1].timestamp;
      }
    }
  }

  /** A stable newest-first ordering of the calls. */
  function SortNewestFirst(s: seq<CallRecord>): (r: seq<CallRecord>)
    ensures NewestFirst(r)
    ensures multiset(r) == multiset(s)
    decreases |s|
  {
    if s == [] then []
    else
      assert s == [s[0]] + s[1..];
      InsertByTime(s[0], SortNewestFirst(s[1..]))
  }

  /** Python's `s[:limit]`: a negative limit drops that many from the end. */
  function PrefixTo<T>(s: seq<T>, limit: int): (r: seq<T>)
    ensures |r| == if limit >= 0 then (if limit < |s| then limit else |s|)
                   else (if |s| + limit > 0 then |s| + limit else 0)
    ensures r == s[..|r|]
  {
    if limit >= 0 then (if limit < |s| then s[..limit] else s)
    else if |s| + limit > 0 then s[..|s| + limit] else []
  }

  /** A prefix of a newest-first list is newest-first and drawn from it. */
  lemma PrefixKeepsOrder(s: seq<CallRecord>, n: nat)
    requires NewestFirst(s) && n <= |s|
    ensures NewestFirst(s[..n])
    ensures multiset(s[..n]) <= multiset(s)
  {
    assert s == s[..n] + s[n..];
    assert multiset(s) == multiset(s[..n]) + multiset(s[n..]);
  }

  /** In a newest-first list, no call after position `n` is newer than
      one before it. */
  lemma TailNoNewer(s: seq<CallRecord>, n: nat)
    requires NewestFirst(s) && n <= |s|
    ensures forall c, d :: c in s[n..] && d in s[..n] ==> c.timestamp <= d.timestamp
  {
    forall c, d | c in s[n..] && d in s[..n]
      ensures c.timestamp <= d.timestamp
    {
      var k :| 0 <= k < |s[n..]| && s[n..][k] == c;
      var i :| 0 <= i < n && s[..n][i] == d;
      assert s[i] == d && s[n + k] == c;
    }
  }

  /** Cutting a newest-first list leaves out no call newer than one kept. */
  lemma PrefixKeepsNewest(s: seq<CallRecord>, n: nat)
    requires NewestFirst(s) && n <= |s|
    ensures forall c, d :: c in multiset(s) - multiset(s[..n]) && d in s[..n] ==> c.timestamp <= d.timestamp
  {
    assert s == s[..n] + s[n..];
    assert multiset(s) - multiset(s[..n]) == multiset(s[n..]);
    TailNoNewer(s, n);
  }

  // ---------------------------------------------------------------------
  // Counting by type name

  datatype TypeCount = TypeCount(name: string, count: nat)

  /** Number of calls with the given type name. */
  function Occurrences(calls: seq<CallRecord>, name: string): nat
    decreases |calls|
  {
    if calls == [] then 0
    else Occurrences(calls[..|calls| - 1], name) + (if calls[|calls| - 1].typeName == name then 1 else 0)
  }

  lemma {:induction false} OccurrencesAppend(a: seq<CallRecord>, b: seq<CallRecord>, name: string)
    ensures Occurrences(a + b, name) == Occurrences(a, name) + Occurrences(b, name)
    decreases |b|
  {
    if b != [] {
      assert (a + b)[..|a + b| - 1] == a + b[..|b| - 1];
      OccurrencesAppend(a, b[..|b| - 1], name);
    } else {
      assert a + b == a;
    }
  }

  /** Taking call `k` out of `b` removes it from the multiset and its
      type from the count. */
  lemma OccurrencesRemove(b: seq<CallRecord>, k: nat, name: string)
    requires k < |b|
    ensures multiset(b[..k] + b[k + 1..]) == multiset(b) - multiset{b[k]}
    ensures Occurrences(b, name) == Occurrences(b[..k] + b[k + 1..], name) + (if b[k].typeName == name then 1 else 0)
  {
    var x := b[k];
    assert b == b[..k] + [x] + b[k + 1..];
    assert multiset(b) == multiset(b[..k]) + multiset{x} + multiset(b[k + 1..]);
    OccurrencesAppend(b[..k] + [x], b[k + 1..], name);
    OccurrencesAppend(b[..k], [x], name);
    OccurrencesAppend(b[..k], b[k + 1..], name);
    assert [x][..0] == [];
  }

  /** The count of a type name does not depend on the order of the calls. */
  lemma {:induction false} OccurrencesPermutation(a: seq<CallRecord>, b: seq<CallRecord>, name: string)
    requires multiset(a) == multiset(b)
    ensures Occurrences(a, name) == Occurrences(b, name)
    decreases |a|
  {
    if a != [] {
      var x := a[|a| - 1];
      var a' := a[..|a| - 1];
      assert a == a' + [x];
      assert multiset(a') == multiset(a) - multiset{x};
      assert x in multiset(b);
      var k :| 0 <= k < |b| && b[k] == x;
      OccurrencesRemove(b, k, name);
      OccurrencesPermutation(a', b[..k] + b[k + 1..], name);
    }
  }

  /** Position of a type name in a count table, or -1. */
  function IndexOfName(counts: seq<TypeCount>, name: string): (r: int)
    ensures -1 <= r < |counts|
    ensures r >= 0 ==> counts[r].name == name
    ensures r == -1 ==> forall k :: 0 <= k < |counts| ==> counts[k].name != name
    decreases |counts|
  {
    if counts == [] then -1
    else if counts[0].name == name then 0
    else
      var r := IndexOfName(counts[1..], name);
      if r < 0 then -1 else r + 1
  }

  /** `counts.get(name, 0)`. */
  function CountOf(counts: seq<TypeCount>, name: string): nat {
    var i := IndexOfName(counts, name);
    if i < 0 then 0 else counts[i].count
  }

  predicate DistinctNames(counts: seq<TypeCount>) {
    forall i, j :: 0 <= i < j < |counts| ==> counts[i].name != counts[j].name
  }

  /** Sum of the counts. */
  function Total(counts: seq<TypeCount>): nat
    decreases |counts|
  {
    if counts == [] then 0 else Total(counts[..|counts| - 1]) + counts[|counts| - 1].count
  }

  lemma {:induction false} TotalIncrement(counts: seq<TypeCount>, j: nat)
    requires j < |counts|
    ensures Total(counts[j := TypeCount(counts[j].name, counts[j].count + 1)]) == Total(counts) + 1
    decreases |counts|
  {
    var c' := counts[j := TypeCount(counts[j].name, counts[j].count + 1)];
    if j < |counts| - 1 {
      assert c'[..|c'| - 1] == counts[..|counts| - 1][j := TypeCount(counts[j].name, counts[j].count + 1)];
      TotalIncrement(counts[..|counts| - 1], j);
    } else {
      assert c'[..|c'| - 1] == counts[..|counts| - 1];
    }
  }

  /** After a name missing from the table is appended with count 1, every
      name keeps its position and the new one is found last. */
  lemma IndexOfAppended(before: seq<TypeCount>, name: string, n: string)
    requires IndexOfName(before, name) < 0
    ensures IndexOfName(before + [TypeCount(name, 1)], n)
              == if IndexOfName(before, n) >= 0 then IndexOfName(before, n) else if n == name then |before| else -1
    decreases |before|
  {
    if before != [] {
      assert (before + [TypeCount(name, 1)])[1..] == before[1..] + [TypeCount(name, 1)];
      IndexOfAppended(before[1..], name, n);
    }
  }

  /** Changing the count of an entry moves no name. */
  lemma IndexOfUpdated(before: seq<TypeCount>, j: nat, c: nat, n: string)
    requires j < |before|
    ensures IndexOfName(before[j := TypeCount(before[j].name, c)], n) == IndexOfName(before, n)
    decreases |before|
  {
    var after := before[j := TypeCount(before[j].name, c)];
    if j > 0 {
      assert after[1..] == before[1..][j - 1 := TypeCount(before[j].name, c)];
      IndexOfUpdated(before[1..], j - 1, c, n);
    } else {
      assert after[1..] == before[1..];
    }
  }

  /** The calls up to `i` inclusive count one more of the type of call `i`. */
  lemma OccurrencesNext(calls: seq<CallRecord>, i: nat, n: string)
    requires i < |calls|
    ensures Occurrences(calls[..i + 1], n) == Occurrences(calls[..i], n) + (if calls[i].typeName == n then 1 else 0)
  {
    assert calls[..i + 1][..i] == calls[..i];
  }

  /** `counts` tallies `calls`: one entry per type name, each with that
      name's number of calls. */
  ghost predicate Tallies(counts: seq<TypeCount>, calls: seq<CallRecord>) {
    DistinctNames(counts)
    && (forall name :: CountOf(counts, name) == Occurrences(calls, name))
    && Total(counts) == |calls|
  }

  /** A call of a type not yet in the table adds that type with count 1. */
  lemma TallyNew(counts: seq<TypeCount>, calls: seq<CallRecord>, i: nat)
    requires i < |calls| && Tallies(counts, calls[..i])
    requires IndexOfName(counts, calls[i].typeName) < 0
    ensures Tallies(counts + [TypeCount(calls[i].typeName, 1)], calls[..i + 1])
  {
    var name := calls[i].typeName;
    var after := counts + [TypeCount(name, 1)];
    assert after[..|after| - 1] == counts;
    forall n ensures CountOf(after, n) == Occurrences(calls[..i + 1], n) {
      OccurrencesNext(calls, i, n);
      IndexOfAppended(counts, name, n);
    }
  }

  /** A call of a type already in the table adds one to that type. */
  lemma TallyBump(counts: seq<TypeCount>, calls: seq<CallRecord>, i: nat, j: nat)
    requires i < |calls| && Tallies(counts, calls[..i])
    requires j < |counts| && IndexOfName(counts, calls[i].typeName) == j
    ensures Tallies(counts[j := TypeCount(calls[i].typeName, counts[j].count + 1)], calls[..i + 1])
  {
    var after := counts[j := TypeCount(calls[i].typeName, counts[j].count + 1)];
    assert forall k :: 0 <= k < |after| ==> after[k].name == counts[k].name;
    TotalIncrement(counts, j);
    forall n ensures CountOf(after, n) == Occurrences(calls[..i + 1], n) {
      OccurrencesNext(calls, i, n);
      IndexOfUpdated(counts, j, counts[j].count + 1, n);
    }
  }

  /** One pass over the calls tallying `type_name`, as `get_call_counts`
      and `get_daily_usage` do; the table lists names in order of first
      appearance. */
  method CountByType(calls: seq<CallRecord>) returns (counts: seq<TypeCount>)
    ensures DistinctNames(counts)
    ensures forall name :: CountOf(counts, name) == Occurrences(calls, name)
    ensures Total(counts) == |calls|
  {
    counts := [];
    var i := 0;
    while i < |calls|
      invariant 0 <= i <= |calls|
      invariant Tallies(counts, calls[..i])
    {
      var name := calls[i].typeName;
      var j := IndexOfName(counts, name);
      if j < 0 {
        TallyNew(counts, calls, i);
        counts := counts + [TypeCount(name, 1)];
      } else {
        TallyBump(counts, calls, i, j);
        counts := counts[j := TypeCount(name, counts[j].count + 1)];
      }
      i := i + 1;
    }
    assert calls[..i] == calls;
  }

  datatype DailyUsage = DailyUsage(day: int, totalCalls: nat, byType: seq<TypeCount>)

  // ---------------------------------------------------------------------
  // The tracker object

  class APICallTracker {
    var history: seq<Bucket>
    var retentionDays: int
    var lastCleanupDay: Option<int>
    var initialized: bool

    predicate Valid()
      reads this
    {
      DistinctDays(history)
    }

    constructor (retentionDays: int)
      ensures Valid()
      ensures history == [] && this.retentionDays == retentionDays && lastCleanupDay == None && !initialized
    {
      history := [];
      this.retentionDays := retentionDays;
      lastCleanupDay := None;
      initialized := false;
    }

    /** `record_call`: a missing timestamp means `now`. */
    method RecordCall(callType: int, status: int, timestamp: Option<int>, now: int)
      requires Valid()
      modifies this`history
      ensures Valid()
      ensures history == WithCall(old(history), NewRecord(callType, status, timestamp.GetOr(now)))
    {
      var rec := NewRecord(callType, status, timestamp.GetOr(now));
      var day := DayKey(rec.timestamp);
      var h := history;
      var i := IndexOfDay(h, day);
      if i < 0 {
        h := h + [Bucket(day, [])];
        i := |h| - 1;
      }
      h := h[i := Bucket(day, h[i].calls + [rec])];
      if IndexOfDay(history, day) < 0 {
        assert [] + [rec] == [rec];
        assert h == history + [Bucket(day, [rec])];
      }
      WithCallLookup(history, rec, day);
      history := h;
    }

    /** `cleanup_old_records` at time `now`. */
    method CleanupOldRecords(now: int)
      requires Valid()
      modifies this`history
      ensures Valid()
      ensures history == CleanedUp(old(history), retentionDays, now)
    {
      if retentionDays == 0 {
        return;
      }
      var cutoff := CutoffDay(now, retentionDays);
      var kept := DeleteBefore(history, cutoff);
      RetainedShape(history, cutoff);
      history := kept;
    }

    /** `async_init`: once only, the history read from the file (`loaded`,
        empty when it is missing or unreadable) replaces the one in memory,
        old dates are cleaned up and today counts as cleaned. */
    method AsyncInit(loaded: seq<Bucket>, now: int)
      requires Valid() && DistinctDays(loaded)
      modifies this`history, this`lastCleanupDay, this`initialized
      ensures Valid() && initialized
      ensures old(initialized) ==> history == old(history) && lastCleanupDay == old(lastCleanupDay)
      ensures !old(initialized) ==>
                history == CleanedUp(loaded, retentionDays, now) && lastCleanupDay == Some(DayKey(now))
    {
      if initialized {
        return;
      }
      history := loaded;
      initialized := true;
      CleanupOldRecords(now);
      lastCleanupDay := Some(DayKey(now));
    }

    /** `async_record_call`: initialises the tracker first if need be, then
        records the call and, at most once per day of the recorded
        timestamp, runs a cleanup. Since the initialisation marks today as
        cleaned, the first record of that day cleans up no further. */
    method AsyncRecordCall(callType: int, status: int, timestamp: Option<int>, now: int, loaded: seq<Bucket>)
      requires Valid() && DistinctDays(loaded)
      modifies this`history, this`lastCleanupDay, this`initialized
      ensures Valid() && initialized
      ensures var start := if old(initialized) then old(history) else CleanedUp(loaded, retentionDays, now);
              var lastClean := if old(initialized) then old(lastCleanupDay) else Some(DayKey(now));
              var today := DayKey(timestamp.GetOr(now));
              var recorded := WithCall(start, NewRecord(callType, status, timestamp.GetOr(now)));
              if CleanupDue(lastClean, today)
              then lastCleanupDay == Some(today) && history == CleanedUp(recorded, retentionDays, now)
              else lastCleanupDay == lastClean && history == recorded
    {
      if !initialized {
        AsyncInit(loaded, now);
      }
      var today := DayKey(timestamp.GetOr(now));
      RecordCall(callType, status, timestamp, now);
      if CleanupDue(lastCleanupDay, today) {
        lastCleanupDay := Some(today);
        CleanupOldRecords(now);
      }
    }

    /** `get_call_history(days)` at time `now`. */
    method GetCallHistory(days: int, now: int) returns (calls: seq<CallRecord>)
      ensures multiset(calls) == multiset(CallsSince(history, CutoffDay(now, days)))
      ensures NewestFirst(calls)
      ensures calls == SortNewestFirst(CallsSince(history, CutoffDay(now, days)))
    {
      var cutoff := CutoffDay(now, days);
      var h := history;
      var found: seq<CallRecord> := [];
      var i := 0;
      while i < |h|
        invariant 0 <= i <= |h|
        invariant CallsSince(h, cutoff) == found + CallsSince(h[i..], cutoff)
      {
        CallsSinceFrom(h, i, cutoff);
        var add := if h[i].day >= cutoff then h[i].calls else [];
        assert found + CallsSince(h[i..], cutoff) == (found + add) + CallsSince(h[i + 1..], cutoff);
        found := found + add;
        i := i + 1;
      }
      assert h[i..] == [];
      assert CallsSince(h[i..], cutoff) == [];
      assert found == CallsSince(h, cutoff);
      calls := SortNewestFirst(found);
    }

    /** `get_recent_calls(limit)`. */
    method GetRecentCalls(limit: int) returns (calls: seq<CallRecord>)
      ensures calls == PrefixTo(SortNewestFirst(AllCalls(history)), limit)
      ensures |calls| == if limit >= 0 then (if limit < |AllCalls(history)| then limit else |AllCalls(history)|)
                         else (if |AllCalls(history)| + limit > 0 then |AllCalls(history)| + limit else 0)
      ensures NewestFirst(calls)
      ensures multiset(calls) <= multiset(AllCalls(history))
    {
      var h := history;
      var all: seq<CallRecord> := [];
      var i := 0;
      while i < |h|
        invariant 0 <= i <= |h|
        invariant AllCalls(h) == all + AllCalls(h[i..])
      {
        AllCallsFrom(h, i);
        assert all + AllCalls(h[i..]) == (all + h[i].calls) + AllCalls(h[i + 1..]);
        all := all + h[i].calls;
        i := i + 1;
      }
      assert h[i..] == [];
      assert AllCalls(h[i..]) == [];
      assert all == AllCalls(h);
      var sorted := SortNewestFirst(all);
      assert |sorted| == |multiset(sorted)| == |multiset(all)| == |all|;
      calls := PrefixTo(sorted, limit);
      PrefixKeepsOrder(sorted, |calls|);
    }

    /** `get_call_counts(days)` at time `now`. */
    method GetCallCounts(days: int, now: int) returns (counts: seq<TypeCount>)
      ensures DistinctNames(counts)
      ensures forall name :: CountOf(counts, name) == Occurrences(CallsSince(history, CutoffDay(now, days)), name)
      ensures Total(counts) == |CallsSince(history, CutoffDay(now, days))|
    {
      var calls := GetCallHistory(days, now);
      counts := CountByType(calls);
      forall name ensures CountOf(counts, name) == Occurrences(CallsSince(history, CutoffDay(now, days)), name) {
        OccurrencesPermutation(calls, CallsSince(history, CutoffDay(now, days)), name);
      }
      assert |calls| == |multiset(calls)|;
    }

    /** `get_daily_usage(date)`. */
    method GetDailyUsage(day: int) returns (usage: DailyUsage)
      ensures usage.day == day
      ensures usage.totalCalls == |Lookup(history, day)|
      ensures Total(usage.byType) == usage.totalCalls
      ensures forall name :: CountOf(usage.byType, name) == Occurrences(Lookup(history, day), name)
    {
      var calls := Lookup(history, day);
      var byType := CountByType(calls);
      usage := DailyUsage(day, |calls|, byType);
    }
  }

  /** A first asynchronous record on the day of the initialisation is
      only added: the initialisation's cleanup stands for that day. */
  method FirstAsyncRecordSameDay(t: APICallTracker, callType: int, status: int, now: int, loaded: seq<Bucket>)
    requires t.Valid() && !t.initialized && DistinctDays(loaded)
    modifies t
    ensures t.history == WithCall(CleanedUp(loaded, t.retentionDays, now), NewRecord(callType, status, now))
    ensures t.lastCleanupDay == Some(DayKey(now))
  {
    t.AsyncRecordCall(callType, status, None, now, loaded);
  }
}
