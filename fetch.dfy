/** The paginated time-range fetch of internal/edgex/services.go, shared by
    `getReadingsInTimeRange`, `getNotifyInTimeRange` and `getLogsInTimeRange`.
    Each round asks the upstream for up to `BatchSize` items created at or
    after the cursor, moves the cursor to the last item's creation time, and
    stores every not-yet-seen id into a preallocated buffer of
    `BatchSize * MaxRequests` slots; it stops after a page that is not full or
    after `MaxRequests` rounds. The HTTP request is an oracle `Upstream` from
    cursor to page or error. */
module EdgexFetch {
  import opened Wrappers
  import Decimal
  import opened Seqs

  const BatchSize: nat := 100
  const MaxRequests: nat := 100
  /** `make([]interface{}, batchSize * maxRequests)` */
  const Capacity: nat := BatchSize * MaxRequests

  /** The fields of a reading, notification, transmission or log entry that the loops look at. */
  datatype Item = Item(id: string, created: int, device: string, name: string)

  /** Which of the three loops runs. */
  datatype Source =
    | Readings(device: string)   // getReadingsInTimeRange(name, from, to): keeps readings of that device
    | Notifications              // getNotifyInTimeRange: notifications and transmissions
    | Logs                       // getLogsInTimeRange: ids synthesised per page

  /** `GET .../<from>/<to>/<batch>`: the page for a cursor, or a transport error. */
  type Upstream = int -> Result<seq<Item>>

  /** What a fetch returns: the stored items, the transport error, or the
      panic of writing past the end of the buffer. */
  datatype Outcome = Fetched(items: seq<Item>) | Failed(error: string) | IndexOutOfRange

  // ---------------------------------------------------------------- log ids

  /** The `inc` counter of getLogsInTimeRange at position i of a page: the
      number of entries just before i, in an unbroken run, with the same
      `created`. */
  function RunIndex(page: seq<Item>, i: nat): nat
    requires i < |page|
  {
    if i == 0 || page[i].created != page[i - 1].created then 0 else RunIndex(page, i - 1) + 1
  }

  /** `strconv.FormatInt(int64(ts), 10) + "-" + strconv.Itoa(inc)` */
  function LogId(created: int, inc: nat): string {
    Decimal.IntToString(created) + "-" + Decimal.IntToString(inc)
  }

  /** Entry i of a log page with its synthesised id. */
  function Labelled(page: seq<Item>, i: nat): Item
    requires i < |page|
  {
    page[i].(id := LogId(page[i].created, RunIndex(page, i)))
  }

  /** A log page with every id replaced by its synthesised one. */
  function LabelledLogs(page: seq<Item>): (r: seq<Item>)
    ensures |r| == |page|
  {
    seq(|page|, i requires 0 <= i < |page| => Labelled(page, i))
  }

  /** `inc` counts 0, 1, 2, ... along a run of equal timestamps and restarts
      at every change of timestamp. */
  lemma {:induction false} RunIndexCountsRun(page: seq<Item>, i: nat)
    requires i < |page|
    ensures RunIndex(page, i) <= i
    ensures forall j :: i - RunIndex(page, i) <= j <= i ==> page[j].created == page[i].created
    ensures i - RunIndex(page, i) == 0 || page[i - RunIndex(page, i) - 1].created != page[i].created
  {
    if i > 0 && page[i].created == page[i - 1].created {
      RunIndexCountsRun(page, i - 1);
    }
  }

  /** A page whose first `n` entries have their synthesised ids. */
  function LabelledUpTo(page: seq<Item>, n: nat): (r: seq<Item>)
    requires n <= |page|
    ensures |r| == |page|
  {
    seq(|page|, j requires 0 <= j < |page| => if j < n then Labelled(page, j) else page[j])
  }

  lemma LabelledStep(page: seq<Item>, n: nat)
    requires n < |page|
    ensures LabelledUpTo(page, n)[n := Labelled(page, n)] == LabelledUpTo(page, n + 1)
  {
  }

  lemma LabelledEnds(page: seq<Item>)
    ensures LabelledUpTo(page, 0) == page
    ensures LabelledUpTo(page, |page|) == LabelledLogs(page)
  {
  }

  /** One pass of the id loop: entry i gets its id from the running counter,
      which restarts at 0 whenever the timestamp changes. */
  method LabelEntry(logs: array<Item>, ghost page: seq<Item>, i: nat, inc: int, last: int)
    returns (inc': int, last': int)
    requires i < logs.Length == |page| && logs[..] == LabelledUpTo(page, i)
    requires i == 0 ==> inc == 0 && last == 0
    requires i > 0 ==> last == page[i - 1].created && inc == RunIndex(page, i - 1) + 1
    modifies logs
    ensures logs[..] == LabelledUpTo(page, i + 1)
    ensures last' == page[i].created && inc' == RunIndex(page, i) + 1
  {
    var ts := logs[i].created;
    assert ts == LabelledUpTo(page, i)[i].created == page[i].created;
    inc' := inc;
    if ts != last {
      inc' := 0;
    }
    assert inc' == RunIndex(page, i);
    LabelledStep(page, i);
    logs[i] := logs[i].(id := LogId(ts, inc'));
    inc', last' := inc' + 1, ts;
  }

  /** The id loop of getLogsInTimeRange, writing each entry's id in place. */
  method LabelLogIds(logs: array<Item>)
    modifies logs
    ensures logs[..] == LabelledLogs(old(logs[..]))
  {
    ghost var page := logs[..];
    LabelledEnds(page);
    var inc := 0;
    var last := 0;
    for i := 0 to logs.Length
      invariant logs[..] == LabelledUpTo(page, i)
      invariant i == 0 ==> inc == 0 && last == 0
      invariant i > 0 ==> last == page[i - 1].created && inc == RunIndex(page, i - 1) + 1
    {
      inc, last := LabelEntry(logs, page, i, inc, last);
    }
  }

  // ---------------------------------------------------------------- de-duplication

  function Ids(s: seq<Item>): set<string> {
    set i | 0 <= i < |s| :: s[i].id
  }

  predicate Distinct(s: seq<Item>) {
    forall i, j :: 0 <= i < j < |s| ==> s[i].id != s[j].id
  }

  /** The per-item filter: readings of other devices are skipped. */
  predicate Keeps(src: Source, it: Item) {
    src.Readings? ==> it.device == src.device
  }

  /** The buffer after the items `xs` have been offered to it, in order: an
      item is stored when the filter keeps it and its id is not stored yet. */
  function Admit(src: Source, acc: seq<Item>, xs: seq<Item>): seq<Item>
    decreases |xs|
  {
    if xs == [] then acc
    else
      var a := Admit(src, acc, xs[..|xs| - 1]);
      var x := xs[|xs| - 1];
      if Keeps(src, x) && x.id !in Ids(a) then a + [x] else a
  }

  lemma IdsSnoc(s: seq<Item>, x: Item)
    ensures Ids(s + [x]) == Ids(s) + {x.id}
  {
    var t := s + [x];
    assert t[|s|] == x;
    forall id | id in Ids(s) ensures id in Ids(t) {
      var i :| 0 <= i < |s| && s[i].id == id;
      assert t[i] == s[i];
    }
  }

  /** Offering items only ever appends: what was stored stays, in place. */
  lemma {:induction false} AdmitExtends(src: Source, acc: seq<Item>, xs: seq<Item>)
    ensures |acc| <= |Admit(src, acc, xs)| <= |acc| + |xs|
    ensures Admit(src, acc, xs)[..|acc|] == acc
    decreases |xs|
  {
    if xs != [] {
      AdmitExtends(src, acc, xs[..|xs| - 1]);
    }
  }

  /** Offering `xs` then `ys` is offering `xs + ys`. */
  lemma {:induction false} AdmitCompose(src: Source, acc: seq<Item>, xs: seq<Item>, ys: seq<Item>)
    ensures Admit(src, acc, xs + ys) == Admit(src, Admit(src, acc, xs), ys)
    decreases |ys|
  {
    if ys == [] {
      assert xs + ys == xs;
    } else {
      var zs := xs + ys;
      assert zs[..|zs| - 1] == xs + ys[..|ys| - 1];
      assert zs[|zs| - 1] == ys[|ys| - 1];
      AdmitCompose(src, acc, xs, ys[..|ys| - 1]);
    }
  }

  /** Offering one more item stores it or leaves the buffer as it was. */
  lemma AdmitSnoc(src: Source, acc: seq<Item>, xs: seq<Item>, x: Item)
    ensures Admit(src, acc, xs + [x]) ==
      var a := Admit(src, acc, xs); if Keeps(src, x) && x.id !in Ids(a) then a + [x] else a
  {
    var zs := xs + [x];
    assert zs[..|zs| - 1] == xs;
  }

  /** A buffer without repeated ids keeps having none. */
  lemma {:induction false} AdmitDistinct(src: Source, acc: seq<Item>, xs: seq<Item>)
    requires Distinct(acc)
    ensures Distinct(Admit(src, acc, xs))
    decreases |xs|
  {
    if xs != [] {
      AdmitDistinct(src, acc, xs[..|xs| - 1]);
      var a := Admit(src, acc, xs[..|xs| - 1]);
      var x := xs[|xs| - 1];
      if Keeps(src, x) && x.id !in Ids(a) {
        var b := a + [x];
        forall i, j | 0 <= i < j < |b| ensures b[i].id != b[j].id {
          if j == |a| {
            assert b[i] == a[i];
          }
        }
      }
    }
  }

  /** Everything stored was stored before or is a kept item of `xs`. */
  lemma {:induction false} AdmitFrom(src: Source, acc: seq<Item>, xs: seq<Item>)
    ensures forall k :: 0 <= k < |Admit(src, acc, xs)| ==>
      Admit(src, acc, xs)[k] in acc || (Admit(src, acc, xs)[k] in xs && Keeps(src, Admit(src, acc, xs)[k]))
    decreases |xs|
  {
    if xs != [] {
      var ys := xs[..|xs| - 1];
      AdmitFrom(src, acc, ys);
      var a := Admit(src, acc, ys);
      var r := Admit(src, acc, xs);
      forall k | 0 <= k < |r| ensures r[k] in acc || (r[k] in xs && Keeps(src, r[k])) {
        if k < |a| {
          assert r[k] == a[k];
          if a[k] !in acc {
            assert a[k] in ys;
            var m :| 0 <= m < |ys| && ys[m] == a[k];
            assert xs[m] == ys[m];
          }
        }
      }
    }
  }

  /** Every kept item of `xs` has its id stored. */
  lemma {:induction false} AdmitCovers(src: Source, acc: seq<Item>, xs: seq<Item>)
    ensures Ids(acc) <= Ids(Admit(src, acc, xs))
    ensures forall j :: 0 <= j < |xs| && Keeps(src, xs[j]) ==> xs[j].id in Ids(Admit(src, acc, xs))
    decreases |xs|
  {
    if xs != [] {
      var ys := xs[..|xs| - 1];
      var x := xs[|xs| - 1];
      AdmitCovers(src, acc, ys);
      var a := Admit(src, acc, ys);
      if Keeps(src, x) && x.id !in Ids(a) {
        IdsSnoc(a, x);
      }
      forall j | 0 <= j < |xs| - 1 && Keeps(src, xs[j]) ensures xs[j].id in Ids(Admit(src, acc, xs)) {
        assert xs[j] == ys[j];
      }
    }
  }

  /** The stored ids are those stored before plus ids of kept items of `xs`. */
  lemma {:induction false} AdmitIds(src: Source, acc: seq<Item>, xs: seq<Item>)
    ensures forall id :: id in Ids(Admit(src, acc, xs)) ==>
      id in Ids(acc) || exists j :: 0 <= j < |xs| && Keeps(src, xs[j]) && xs[j].id == id
    decreases |xs|
  {
    if xs != [] {
      var ys := xs[..|xs| - 1];
      var x := xs[|xs| - 1];
      AdmitIds(src, acc, ys);
      var a := Admit(src, acc, ys);
      if Keeps(src, x) && x.id !in Ids(a) {
        IdsSnoc(a, x);
      }
      forall id | id in Ids(Admit(src, acc, xs))
        ensures id in Ids(acc) || exists j :: 0 <= j < |xs| && Keeps(src, xs[j]) && xs[j].id == id
      {
        if id in Ids(a) && id !in Ids(acc) {
          var j :| 0 <= j < |ys| && Keeps(src, ys[j]) && ys[j].id == id;
          assert xs[j] == ys[j];
        }
      }
    }
  }

  /** The item stored for an id is its first kept occurrence in `xs`. */
  lemma {:induction false} AdmitKeepsFirst(src: Source, acc: seq<Item>, xs: seq<Item>, j: nat)
    requires j < |xs| && Keeps(src, xs[j]) && xs[j].id !in Ids(acc)
    requires forall i :: 0 <= i < j && Keeps(src, xs[i]) ==> xs[i].id != xs[j].id
    ensures xs[j] in Admit(src, acc, xs)
    decreases |xs|
  {
    var ys := xs[..|xs| - 1];
    var a := Admit(src, acc, ys);
    if j < |xs| - 1 {
      assert ys[j] == xs[j];
      AdmitKeepsFirst(src, acc, ys, j);
      AdmitExtends(src, a, [xs[|xs| - 1]]);
      assert Admit(src, acc, xs) == Admit(src, a, [xs[|xs| - 1]]) by {
        AdmitSnoc(src, acc, ys, xs[|xs| - 1]);
        AdmitSnoc(src, a, [], xs[|xs| - 1]);
        assert [] + [xs[|xs| - 1]] == [xs[|xs| - 1]];
      }
      var k :| 0 <= k < |a| && a[k] == xs[j];
      assert Admit(src, acc, xs)[k] == a[k];
    } else {
      AdmitIds(src, acc, ys);
      assert forall i :: 0 <= i < |ys| ==> ys[i] == xs[i];
      assert xs[j].id !in Ids(a);
      assert Admit(src, acc, xs) == a + [xs[j]];
    }
  }

  // ---------------------------------------------------------------- the rounds, as a function

  /** The page as the loop sees it after its per-page pass. */
  function Prepare(src: Source, raw: seq<Item>): (r: seq<Item>)
    ensures |r| == |raw|
  {
    if src.Logs? then LabelledLogs(raw) else raw
  }

  /** The per-page pass changes ids only, and only on log pages: every entry
      keeps its timestamp, device and name, and a log entry's new id is its
      timestamp and its place in the run of equal timestamps. */
  lemma PrepareChangesIdsOnly(src: Source, raw: seq<Item>)
    ensures !src.Logs? ==> Prepare(src, raw) == raw
    ensures forall i :: 0 <= i < |raw| ==>
      && Prepare(src, raw)[i].created == raw[i].created
      && Prepare(src, raw)[i].device == raw[i].device
      && Prepare(src, raw)[i].name == raw[i].name
    ensures src.Logs? ==> forall i :: 0 <= i < |raw| ==>
      Prepare(src, raw)[i].id == LogId(raw[i].created, RunIndex(raw, i))
  {
  }

  /** `if count > 0 { from = page[count-1].created }` */
  function NextCursor(cursor: int, raw: seq<Item>): int {
    if |raw| > 0 then raw[|raw| - 1].created else cursor
  }

  /** A whole fetch: its outcome, the cursor of every request in order, and
      the (prepared) page each successful request returned. */
  datatype Trace = Trace(outcome: Outcome, requested: seq<int>, pages: seq<seq<Item>>)

  /** The rounds still to run from `cursor` with `limit` requests left and
      `acc` stored so far. */
  function Run(src: Source, up: Upstream, cursor: int, limit: nat, acc: seq<Item>): Trace
    requires limit >= 1
    decreases limit
  {
    match up(cursor)
    case Err(e) => Trace(Failed(e), [cursor], [])
    case Ok(raw) =>
      var items := Prepare(src, raw);
      var stored := Admit(src, acc, items);
      if |stored| > Capacity then Trace(IndexOutOfRange, [cursor], [items])
      else if |raw| == BatchSize && limit - 1 > 0 then
        var t := Run(src, up, NextCursor(cursor, raw), limit - 1, stored);
        Trace(t.outcome, [cursor] + t.requested, [items] + t.pages)
      else Trace(Fetched(stored), [cursor], [items])
  }

  /** A fetch from `from` with an empty buffer and the full request budget. */
  function Fetch(src: Source, up: Upstream, from: int): Trace {
    Run(src, up, from, MaxRequests, [])
  }

  /** One round of `Run` that got a full page with budget left: the rest of
      the fetch is `Run` from the page's last creation time. */
  lemma RunContinues(src: Source, up: Upstream, cursor: int, limit: nat, acc: seq<Item>, stored: seq<Item>)
    requires limit >= 2 && up(cursor).Ok? && |up(cursor).value| == BatchSize
    requires stored == Admit(src, acc, Prepare(src, up(cursor).value)) && |stored| <= Capacity
    ensures var t := Run(src, up, NextCursor(cursor, up(cursor).value), limit - 1, stored);
      && Run(src, up, cursor, limit, acc).outcome == t.outcome
      && Run(src, up, cursor, limit, acc).requested == [cursor] + t.requested
      && Run(src, up, cursor, limit, acc).pages == [Prepare(src, up(cursor).value)] + t.pages
  {
  }

  /** One round of `Run` that got a short page, or used the last request. */
  lemma RunReturns(src: Source, up: Upstream, cursor: int, limit: nat, acc: seq<Item>, stored: seq<Item>)
    requires limit >= 1 && up(cursor).Ok? && !(|up(cursor).value| == BatchSize && limit >= 2)
    requires stored == Admit(src, acc, Prepare(src, up(cursor).value)) && |stored| <= Capacity
    ensures Run(src, up, cursor, limit, acc).outcome == Fetched(stored)
    ensures Run(src, up, cursor, limit, acc).requested == [cursor]
    ensures Run(src, up, cursor, limit, acc).pages == [Prepare(src, up(cursor).value)]
  {
  }

  /** One round of `Run` whose request failed. */
  lemma RunErrs(src: Source, up: Upstream, cursor: int, limit: nat, acc: seq<Item>)
    requires limit >= 1 && up(cursor).Err?
    ensures Run(src, up, cursor, limit, acc).outcome == Failed(up(cursor).error)
    ensures Run(src, up, cursor, limit, acc).requested == [cursor]
    ensures Run(src, up, cursor, limit, acc).pages == []
  {
  }

  /** One round of `Run` whose page does not fit the buffer. */
  lemma RunOverflows(src: Source, up: Upstream, cursor: int, limit: nat, acc: seq<Item>)
    requires limit >= 1 && up(cursor).Ok?
    requires |Admit(src, acc, Prepare(src, up(cursor).value))| > Capacity
    ensures Run(src, up, cursor, limit, acc).outcome == IndexOutOfRange
    ensures Run(src, up, cursor, limit, acc).requested == [cursor]
    ensures Run(src, up, cursor, limit, acc).pages == [Prepare(src, up(cursor).value)]
  {
  }

  /** A request sequence that starts at `cursor`, has at most `limit`
      requests, and where every request but the last got a full page and
      moved the cursor to that page's last creation time. */
  predicate Chained(up: Upstream, cursor: int, limit: nat, reqs: seq<int>) {
    && 1 <= |reqs| <= limit
    && reqs[0] == cursor
    && (forall i :: 0 <= i < |reqs| - 1 ==>
          && up(reqs[i]).Ok?
          && |up(reqs[i]).value| == BatchSize
          && reqs[i + 1] == NextCursor(reqs[i], up(reqs[i]).value))
  }

  /** A trace whose last request decides how it ended: an error there is the
      error returned, and only a failed trace lacks the last page. */
  predicate EndsAtLast(up: Upstream, t: Trace) {
    && |t.requested| >= 1
    && var last := t.requested[|t.requested| - 1];
    && (t.outcome.Failed? <==> up(last).Err?)
    && (t.outcome.Failed? ==> up(last) == Err(t.outcome.error) && |t.pages| == |t.requested| - 1)
    && (!t.outcome.Failed? ==> |t.pages| == |t.requested|)
  }

  /** A trace that returned items ended on a page that was not full, or after
      `limit` requests. */
  predicate StopsShort(up: Upstream, limit: nat, t: Trace) {
    t.outcome.Fetched? ==>
      && |t.requested| >= 1
      && up(t.requested[|t.requested| - 1]).Ok?
      && (|up(t.requested[|t.requested| - 1]).value| != BatchSize || |t.requested| == limit)
  }

  lemma ChainedCons(up: Upstream, cursor: int, limit: nat, rest: seq<int>)
    requires limit >= 2 && up(cursor).Ok? && |up(cursor).value| == BatchSize
    requires Chained(up, NextCursor(cursor, up(cursor).value), limit - 1, rest)
    ensures Chained(up, cursor, limit, [cursor] + rest)
  {
    var all := [cursor] + rest;
    forall i | 0 <= i < |all| - 1
      ensures up(all[i]).Ok? && |up(all[i]).value| == BatchSize && all[i + 1] == NextCursor(all[i], up(all[i]).value)
    {
      if i > 0 {
        assert all[i] == rest[i - 1] && all[i + 1] == rest[i];
      }
    }
  }

  lemma EndsAtLastCons(up: Upstream, cursor: int, page: seq<Item>, t: Trace, t': Trace)
    requires up(cursor).Ok? && EndsAtLast(up, t')
    requires t.outcome == t'.outcome && t.requested == [cursor] + t'.requested && t.pages == [page] + t'.pages
    ensures EndsAtLast(up, t)
  {
    assert t.requested[|t.requested| - 1] == t'.requested[|t'.requested| - 1];
  }

  lemma StopsShortCons(up: Upstream, cursor: int, limit: nat, t: Trace, t': Trace)
    requires limit >= 1 && StopsShort(up, limit - 1, t')
    requires t.outcome == t'.outcome && t.requested == [cursor] + t'.requested
    ensures StopsShort(up, limit, t)
  {
    if t.outcome.Fetched? {
      assert t.requested[|t.requested| - 1] == t'.requested[|t'.requested| - 1];
    }
  }

  /** The request sequence of every run is chained from its first cursor
      (filtered readings included). */
  lemma {:induction false} RunRequests(src: Source, up: Upstream, cursor: int, limit: nat, acc: seq<Item>)
    requires limit >= 1
    ensures Chained(up, cursor, limit, Run(src, up, cursor, limit, acc).requested)
    decreases limit
  {
    if up(cursor).Err? {
      RunErrs(src, up, cursor, limit, acc);
    } else {
      var raw := up(cursor).value;
      var stored := Admit(src, acc, Prepare(src, raw));
      if |stored| > Capacity {
        RunOverflows(src, up, cursor, limit, acc);
      } else if |raw| == BatchSize && limit >= 2 {
        var next := NextCursor(cursor, raw);
        RunContinues(src, up, cursor, limit, acc, stored);
        RunRequests(src, up, next, limit - 1, stored);
        ChainedCons(up, cursor, limit, Run(src, up, next, limit - 1, stored).requested);
      } else {
        RunReturns(src, up, cursor, limit, acc, stored);
      }
    }
  }

  /** The pages a trace records are the upstream's answers to its requests,
      prepared: page i is what request i returned. */
  predicate PagesFromUpstream(src: Source, up: Upstream, t: Trace) {
    && |t.pages| <= |t.requested|
    && forall i :: 0 <= i < |t.pages| ==>
         up(t.requested[i]).Ok? && t.pages[i] == Prepare(src, up(t.requested[i]).value)
  }

  lemma PagesFromUpstreamCons(src: Source, up: Upstream, cursor: int, t: Trace, t': Trace)
    requires up(cursor).Ok? && PagesFromUpstream(src, up, t')
    requires t.requested == [cursor] + t'.requested
    requires t.pages == [Prepare(src, up(cursor).value)] + t'.pages
    ensures PagesFromUpstream(src, up, t)
  {
    forall i | 0 <= i < |t.pages|
      ensures up(t.requested[i]).Ok? && t.pages[i] == Prepare(src, up(t.requested[i]).value)
    {
      if i > 0 {
        assert t.pages[i] == t'.pages[i - 1] && t.requested[i] == t'.requested[i - 1];
      }
    }
  }

  /** Every page a run records is the prepared answer to the request at
      the same position. */
  lemma {:induction false} RunPages(src: Source, up: Upstream, cursor: int, limit: nat, acc: seq<Item>)
    requires limit >= 1
    ensures PagesFromUpstream(src, up, Run(src, up, cursor, limit, acc))
    decreases limit
  {
    if up(cursor).Err? {
      RunErrs(src, up, cursor, limit, acc);
    } else {
      var raw := up(cursor).value;
      var stored := Admit(src, acc, Prepare(src, raw));
      if |stored| > Capacity {
        RunOverflows(src, up, cursor, limit, acc);
      } else if |raw| == BatchSize && limit >= 2 {
        var next := NextCursor(cursor, raw);
        RunContinues(src, up, cursor, limit, acc, stored);
        RunPages(src, up, next, limit - 1, stored);
        PagesFromUpstreamCons(src, up, cursor, Run(src, up, cursor, limit, acc), Run(src, up, next, limit - 1, stored));
      } else {
        RunReturns(src, up, cursor, limit, acc, stored);
      }
    }
  }

  /** How every run ends is read off its last request. */
  lemma {:induction false} RunFails(src: Source, up: Upstream, cursor: int, limit: nat, acc: seq<Item>)
    requires limit >= 1
    ensures EndsAtLast(up, Run(src, up, cursor, limit, acc))
    decreases limit
  {
    if up(cursor).Err? {
      RunErrs(src, up, cursor, limit, acc);
    } else {
      var raw := up(cursor).value;
      var stored := Admit(src, acc, Prepare(src, raw));
      if |stored| > Capacity {
        RunOverflows(src, up, cursor, limit, acc);
      } else if |raw| == BatchSize && limit >= 2 {
        var next := NextCursor(cursor, raw);
        RunContinues(src, up, cursor, limit, acc, stored);
        RunFails(src, up, next, limit - 1, stored);
        EndsAtLastCons(up, cursor, Prepare(src, raw), Run(src, up, cursor, limit, acc), Run(src, up, next, limit - 1, stored));
      } else {
        RunReturns(src, up, cursor, limit, acc, stored);
      }
    }
  }

  /** Every run that returns items stopped on a short page or on its budget. */
  lemma {:induction false} RunStops(src: Source, up: Upstream, cursor: int, limit: nat, acc: seq<Item>)
    requires limit >= 1
    ensures StopsShort(up, limit, Run(src, up, cursor, limit, acc))
    decreases limit
  {
    if up(cursor).Err? {
      RunErrs(src, up, cursor, limit, acc);
    } else {
      var raw := up(cursor).value;
      var stored := Admit(src, acc, Prepare(src, raw));
      if |stored| > Capacity {
        RunOverflows(src, up, cursor, limit, acc);
      } else if |raw| == BatchSize && limit >= 2 {
        var next := NextCursor(cursor, raw);
        RunContinues(src, up, cursor, limit, acc, stored);
        RunStops(src, up, next, limit - 1, stored);
        StopsShortCons(up, cursor, limit, Run(src, up, cursor, limit, acc), Run(src, up, next, limit - 1, stored));
      } else {
        RunReturns(src, up, cursor, limit, acc, stored);
      }
    }
  }

  /** The items returned are exactly the buffer after offering every page,
      in request order then item order. */
  lemma {:induction false} RunStores(src: Source, up: Upstream, cursor: int, limit: nat, acc: seq<Item>)
    requires limit >= 1
    ensures var t := Run(src, up, cursor, limit, acc);
      t.outcome.Fetched? ==> t.outcome.items == Admit(src, acc, Concat(t.pages)) && |t.outcome.items| <= Capacity
    decreases limit
  {
    if up(cursor).Err? {
      RunErrs(src, up, cursor, limit, acc);
    } else {
      var raw := up(cursor).value;
      var items := Prepare(src, raw);
      var stored := Admit(src, acc, items);
      if |stored| > Capacity {
        RunOverflows(src, up, cursor, limit, acc);
      } else if |raw| == BatchSize && limit >= 2 {
        var next := NextCursor(cursor, raw);
        RunContinues(src, up, cursor, limit, acc, stored);
        RunStores(src, up, next, limit - 1, stored);
        var pages := Run(src, up, next, limit - 1, stored).pages;
        ConcatCons(items, pages);
        AdmitCompose(src, acc, items, Concat(pages));
      } else {
        RunReturns(src, up, cursor, limit, acc, stored);
        ConcatCons(items, []);
        assert [items] + [] == [items];
        assert items + [] == items;
      }
    }
  }

  /** Pages of at most `BatchSize` items never overrun the buffer. */
  lemma {:induction false} RunFits(src: Source, up: Upstream, cursor: int, limit: nat, acc: seq<Item>)
    requires limit >= 1 && limit <= MaxRequests
    requires forall c :: up(c).Ok? ==> |up(c).value| <= BatchSize
    requires |acc| <= BatchSize * (MaxRequests - limit)
    ensures !Run(src, up, cursor, limit, acc).outcome.IndexOutOfRange?
    decreases limit
  {
    if up(cursor).Err? {
      RunErrs(src, up, cursor, limit, acc);
    } else {
      var raw := up(cursor).value;
      var stored := Admit(src, acc, Prepare(src, raw));
      AdmitExtends(src, acc, Prepare(src, raw));
      assert |stored| <= BatchSize * (MaxRequests - limit) + BatchSize;
      if |raw| == BatchSize && limit >= 2 {
        RunContinues(src, up, cursor, limit, acc, stored);
        RunFits(src, up, NextCursor(cursor, raw), limit - 1, stored);
      } else {
        RunReturns(src, up, cursor, limit, acc, stored);
      }
    }
  }

  // ---------------------------------------------------------------- what the fetch promises

  /** At most `MaxRequests` requests, the first at `from`; every further
      request follows a full page and starts at its last creation time. */
  lemma FetchRequests(src: Source, up: Upstream, from: int)
    ensures var t := Fetch(src, up, from);
      && 1 <= |t.requested| <= MaxRequests
      && t.requested[0] == from
      && (forall i :: 0 <= i < |t.requested| - 1 ==>
            && up(t.requested[i]).Ok?
            && |up(t.requested[i]).value| == BatchSize
            && t.requested[i + 1] == NextCursor(t.requested[i], up(t.requested[i]).value))
  {
    RunRequests(src, up, from, MaxRequests, []);
  }

  /** A transport error on any request is the result, with no items; a
      successful fetch ended on a short page or after `MaxRequests` rounds
      (the cap is not reported). */
  lemma FetchEnds(src: Source, up: Upstream, from: int)
    ensures var t := Fetch(src, up, from);
      var last := t.requested[|t.requested| - 1];
      && |t.requested| >= 1
      && (t.outcome.Failed? <==> exists i :: 0 <= i < |t.requested| && up(t.requested[i]).Err?)
      && (t.outcome.Failed? ==> up(last) == Err(t.outcome.error))
      && (t.outcome.Fetched? ==> |up(last).value| != BatchSize || |t.requested| == MaxRequests)
  {
    RunRequests(src, up, from, MaxRequests, []);
    RunFails(src, up, from, MaxRequests, []);
    RunStops(src, up, from, MaxRequests, []);
    TraceEnds(up, from, MaxRequests, Fetch(src, up, from));
  }

  /** The ending of any trace with chained requests, read off its requests. */
  lemma TraceEnds(up: Upstream, from: int, limit: nat, t: Trace)
    requires Chained(up, from, limit, t.requested) && EndsAtLast(up, t) && StopsShort(up, limit, t)
    ensures var last := t.requested[|t.requested| - 1];
      && |t.requested| >= 1
      && (t.outcome.Failed? <==> exists i :: 0 <= i < |t.requested| && up(t.requested[i]).Err?)
      && (t.outcome.Failed? ==> up(last) == Err(t.outcome.error))
      && (t.outcome.Fetched? ==> |up(last).value| != BatchSize || |t.requested| == limit)
  {
    var n := |t.requested| - 1;
    if t.outcome.Failed? {
      assert up(t.requested[n]).Err?;
    } else {
      forall i | 0 <= i < |t.requested| ensures up(t.requested[i]).Ok? {
        if i < n {
          assert up(t.requested[i]).Ok?;
        }
      }
    }
  }

  /** With pages of at most `BatchSize` items the buffer of `Capacity` slots
      is never overrun. */
  lemma FetchFits(src: Source, up: Upstream, from: int)
    requires forall c :: up(c).Ok? ==> |up(c).value| <= BatchSize
    ensures !Fetch(src, up, from).outcome.IndexOutOfRange?
  {
    RunFits(src, up, from, MaxRequests, []);
  }

  /** The returned items, read against the pages the requests returned (page
      i is the prepared answer to request i): no id twice; each is a kept
      item of some page; every
      kept item of every page has its id returned; and the item returned for
      an id is its first kept occurrence, in page order then item order. */
  lemma FetchDeduplicates(src: Source, up: Upstream, from: int)
    ensures var t := Fetch(src, up, from);
      var stream := Concat(t.pages);
      t.outcome.Fetched? ==>
        && |t.pages| == |t.requested|
        && (forall i :: 0 <= i < |t.pages| ==>
              up(t.requested[i]).Ok? && t.pages[i] == Prepare(src, up(t.requested[i]).value))
        && |t.outcome.items| <= Capacity
        && Distinct(t.outcome.items)
        && (forall k :: 0 <= k < |t.outcome.items| ==> t.outcome.items[k] in stream && Keeps(src, t.outcome.items[k]))
        && (forall j :: 0 <= j < |stream| && Keeps(src, stream[j]) ==> stream[j].id in Ids(t.outcome.items))
        && (forall j :: 0 <= j < |stream| && Keeps(src, stream[j]) &&
              (forall i :: 0 <= i < j && Keeps(src, stream[i]) ==> stream[i].id != stream[j].id)
              ==> stream[j] in t.outcome.items)
  {
    var t := Fetch(src, up, from);
    var stream := Concat(t.pages);
    RunPages(src, up, from, MaxRequests, []);
    RunFails(src, up, from, MaxRequests, []);
    RunStores(src, up, from, MaxRequests, []);
    if t.outcome.Fetched? {
      AdmitDistinct(src, [], stream);
      AdmitFrom(src, [], stream);
      AdmitCovers(src, [], stream);
      forall j | 0 <= j < |stream| && Keeps(src, stream[j]) &&
        (forall i :: 0 <= i < j && Keeps(src, stream[i]) ==> stream[i].id != stream[j].id)
        ensures stream[j] in t.outcome.items
      {
        AdmitKeepsFirst(src, [], stream, j);
      }
    }
  }

  /** Readings of another device never appear in the result. */
  lemma ReadingsOfDeviceOnly(device: string, up: Upstream, from: int)
    ensures var t := Fetch(Readings(device), up, from);
      t.outcome.Fetched? ==> forall k :: 0 <= k < |t.outcome.items| ==> t.outcome.items[k].device == device
  {
    FetchDeduplicates(Readings(device), up, from);
  }

  // ---------------------------------------------------------------- the loop

  /** The inner `for _, reading := range readings` loop: offers the page's
      items to the buffer `result[..pos]`, whose ids are `ids`. */
  method AbsorbPage(src: Source, result: array<Item>, pos: nat, ids: set<string>, items: seq<Item>)
    returns (pos': nat, ids': set<string>, overflow: bool)
    requires pos <= result.Length && ids == Ids(result[..pos])
    modifies result
    ensures pos' <= result.Length && ids' == Ids(result[..pos'])
    ensures !overflow ==> result[..pos'] == Admit(src, old(result[..pos]), items)
    ensures overflow ==> |Admit(src, old(result[..pos]), items)| > result.Length
  {
    ghost var acc := result[..pos];
    pos', ids', overflow := pos, ids, false;
    var j := 0;
    while j < |items|
      invariant 0 <= j <= |items| && pos' <= result.Length
      invariant result[..pos'] == Admit(src, acc, items[..j])
      invariant ids' == Ids(result[..pos'])
    {
      TakeTake(items, j);
      ExtendPrefix([], items, j);
      pos', ids', overflow := AbsorbItem(src, result, pos', ids', items[j], acc, items[..j]);
      if overflow {
        assert items == items[..j + 1] + items[j + 1..];
        AdmitCompose(src, acc, items[..j + 1], items[j + 1..]);
        AdmitExtends(src, Admit(src, acc, items[..j + 1]), items[j + 1..]);
        return;
      }
      j := j + 1;
    }
    TakeAll(items);
  }

  /** One item of the inner loop: stored at `pos` when the filter keeps it
      and its id is new, or reported as not fitting when the buffer is full. */
  method AbsorbItem(src: Source, result: array<Item>, pos: nat, ids: set<string>, it: Item,
                    ghost acc: seq<Item>, ghost seen: seq<Item>)
    returns (pos': nat, ids': set<string>, overflow: bool)
    requires pos <= result.Length && result[..pos] == Admit(src, acc, seen) && ids == Ids(result[..pos])
    modifies result
    ensures pos' <= result.Length && ids' == Ids(result[..pos'])
    ensures !overflow ==> result[..pos'] == Admit(src, acc, seen + [it])
    ensures overflow ==> |Admit(src, acc, seen + [it])| > result.Length
  {
    AdmitSnoc(src, acc, seen, it);
    pos', ids', overflow := pos, ids, false;
    if Keeps(src, it) && it.id !in ids {
      if pos == result.Length {
        overflow := true;
        return;
      }
      IdsSnoc(result[..pos], it);
      Write(result, pos, it);
      ids' := ids + {it.id};
      pos' := pos + 1;
    }
  }

  /** One round's page as the loop handles it: log pages get their ids
      synthesised, the others are taken as they are. */
  method PreparePage(src: Source, raw: seq<Item>) returns (items: seq<Item>)
    ensures items == Prepare(src, raw)
  {
    items := raw;
    if src.Logs? {
      var logs := new Item[|raw|](i requires 0 <= i < |raw| => raw[i]);
      assert logs[..] == raw;
      LabelLogIds(logs);
      items := logs[..];
    }
  }

  /** One pass of the do-while body at `cursor` with `limit` requests left:
      request, prepare, absorb. `stop` is the outcome when the round ends the
      fetch with an error or an overflow; otherwise `more` says whether the
      loop goes on, and with which cursor. */
  method Round(src: Source, up: Upstream, result: array<Item>, pos: nat, ids: set<string>, cursor: int, limit: nat)
    returns (pos': nat, ids': set<string>, cursor': int, more: bool, stop: Option<Outcome>)
    requires limit >= 1 && pos <= result.Length == Capacity && ids == Ids(result[..pos])
    modifies result
    ensures pos' <= result.Length && ids' == Ids(result[..pos'])
    ensures stop.Some? ==> Run(src, up, cursor, limit, old(result[..pos])).outcome == stop.value
    ensures stop.None? && more ==> (
      && limit >= 2
      && Run(src, up, cursor, limit, old(result[..pos])).outcome == Run(src, up, cursor', limit - 1, result[..pos']).outcome
      && Run(src, up, cursor, limit, old(result[..pos])).requested == [cursor] + Run(src, up, cursor', limit - 1, result[..pos']).requested)
    ensures stop.None? && !more ==> Run(src, up, cursor, limit, old(result[..pos])).outcome == Fetched(result[..pos'])
    ensures Run(src, up, cursor, limit, old(result[..pos])).requested == [cursor] || (stop.None? && more)
  {
    ghost var acc := result[..pos];
    var resp := up(cursor);
    if resp.Err? {
      RunErrs(src, up, cursor, limit, acc);
      return pos, ids, cursor, false, Some(Failed(resp.error));
    }
    var raw := resp.value;
    var items := PreparePage(src, raw);
    PrepareChangesIdsOnly(src, raw);
    var count := |items|;
    cursor' := cursor;
    if count > 0 {
      cursor' := items[count - 1].created;
    }
    assert cursor' == NextCursor(cursor, raw);
    var overflow;
    pos', ids', overflow := AbsorbPage(src, result, pos, ids, items);
    if overflow {
      RunOverflows(src, up, cursor, limit, acc);
      return pos', ids', cursor', false, Some(IndexOutOfRange);
    }
    more, stop := count == BatchSize && limit > 1, None;
    if more {
      RunContinues(src, up, cursor, limit, acc, result[..pos']);
    } else {
      RunReturns(src, up, cursor, limit, acc, result[..pos']);
    }
  }

  /** getReadingsInTimeRange / getNotifyInTimeRange / getLogsInTimeRange: the
      do-while loop over pages. Returns what `Fetch` describes, and (as a
      ghost) the cursor of every request it made. */
  method FetchInTimeRange(src: Source, up: Upstream, from: int) returns (r: Outcome, ghost requested: seq<int>)
    ensures r == Fetch(src, up, from).outcome
    ensures requested == Fetch(src, up, from).requested
  {
    ghost var whole := Fetch(src, up, from);
    var result := new Item[Capacity];
    var ids: set<string> := {};
    var pos: nat := 0;
    var limit: nat := MaxRequests;
    var cursor := from;
    ghost var reqs: seq<int> := [];
    var ok := true;
    assert reqs + whole.requested == whole.requested;
    while ok
      invariant limit <= MaxRequests && (ok ==> limit >= 1)
      invariant pos <= result.Length && ids == Ids(result[..pos])
      invariant ok ==> whole.outcome == Run(src, up, cursor, limit, result[..pos]).outcome
      invariant ok ==> whole.requested == reqs + Run(src, up, cursor, limit, result[..pos]).requested
      invariant !ok ==> whole.outcome == Fetched(result[..pos]) && whole.requested == reqs
      decreases limit, ok
    {
      ghost var here := cursor;
      ghost var rest := Run(src, up, cursor, limit, result[..pos]);
      var stop;
      pos, ids, cursor, ok, stop := Round(src, up, result, pos, ids, cursor, limit);
      if stop.Some? {
        return stop.value, reqs + [here];
      }
      if ok {
        AppendAssoc(reqs, [here], Run(src, up, cursor, limit - 1, result[..pos]).requested);
      }
      limit := limit - 1;
      reqs := reqs + [here];
    }
    r, requested := Fetched(result[..pos]), reqs;
  }
}
