/** The pagination driver (`_pull_json_data`): it requests pages of a search
    endpoint at display-start offsets that are multiples of the page length
    and concatenates the records the pages return, in request order. */
module Pagination {
  import opened Wrappers

  /** One decoded JSON page: the total the server reports (`iTotalRecords`)
      and the records of the page (`aaData`). */
  datatype Page<T> = Page(totalRecords: int, data: seq<T>)

  /** Python's `range(start, stop, step)` for a positive step. */
  function Range(start: int, stop: int, step: int): seq<int>
    requires step > 0
    decreases stop - start
  {
    if start >= stop then [] else [start] + Range(start + step, stop, step)
  }

  /** The records of the pages at `offsets`, each page requested with display
      length `step`, concatenated in order. */
  function Gather<T>(fetch: (int, int) -> Page<T>, step: int, offsets: seq<int>): seq<T>
  {
    if offsets == [] then []
    else fetch(offsets[0], step).data + Gather(fetch, step, offsets[1..])
  }

  /** The display-start offsets `_pull_json_data` requests, in order. With a
      record limit it walks `range(0, record_limit, step)`; without one it
      first requests offset 0 and then walks `range(step, max_records, step)`,
      where `max_records` is the total reported by that first page. */
  function RequestedOffsets<T>(fetch: (int, int) -> Page<T>, step: int, recordLimit: Option<int>): seq<int>
    requires step > 0
  {
    match recordLimit
    case Some(limit) => Range(0, limit, step)
    case None => [0] + Range(step, fetch(0, step).totalRecords, step)
  }

  /** `_pull_json_data`. `fetch(i, n)` stands for reading and decoding the
      page at display start `i` with display length `n`; `requested` records
      the offsets of the requests, in the order they are made. */
  method PullJsonData<T>(fetch: (int, int) -> Page<T>, step: int, recordLimit: Option<int>)
    returns (allData: seq<T>, ghost requested: seq<int>)
    requires step > 0
    ensures requested == RequestedOffsets(fetch, step, recordLimit)
    ensures allData == Gather(fetch, step, RequestedOffsets(fetch, step, recordLimit))
  {
    allData := [];
    requested := [];
    var recordRange: seq<int>;
    if recordLimit.Some? {
      recordRange := Range(0, recordLimit.value, step);
    } else {
      var data := fetch(0, step);
      requested := requested + [0];
      var maxRecords := data.totalRecords;
      allData := allData + data.data;
      recordRange := Range(step, maxRecords, step);
    }
    ghost var first := requested;
    assert allData == Gather(fetch, step, first);
    for k := 0 to |recordRange|
      invariant requested == first + recordRange[..k]
      invariant allData == Gather(fetch, step, requested)
    {
      var i := recordRange[k];
      var data := fetch(i, step);
      GatherAppend(fetch, step, requested, i);
      requested := requested + [i];
      allData := allData + data.data;
      assert recordRange[..k + 1] == recordRange[..k] + [i];
    }
    assert recordRange[..|recordRange|] == recordRange;
  }

  lemma {:induction false} GatherAppend<T>(fetch: (int, int) -> Page<T>, step: int, offsets: seq<int>, i: int)
    ensures Gather(fetch, step, offsets + [i]) == Gather(fetch, step, offsets) + fetch(i, step).data
  {
    if offsets == [] {
      assert [] + [i] == [i];
    } else {
      assert (offsets + [i])[1..] == offsets[1..] + [i];
      GatherAppend(fetch, step, offsets[1..], i);
    }
  }

  // ---------------------------------------------------------------------
  // Which offsets are requested

  predicate StrictlyIncreasing(s: seq<int>) {
    forall i, j :: 0 <= i < j < |s| ==> s[i] < s[j]
  }

  /** `range(start, stop, step)` holds exactly the numbers `start + k * step`
      below `stop`. */
  lemma {:induction false} RangeMembers(start: int, stop: int, step: int)
    requires step > 0
    ensures forall x :: x in Range(start, stop, step) <==> start <= x < stop && (x - start) % step == 0
    decreases stop - start
  {
    if start < stop {
      var rest := Range(start + step, stop, step);
      RangeMembers(start + step, stop, step);
      assert Range(start, stop, step) == [start] + rest;
      forall x
        ensures x in [start] + rest <==> start <= x < stop && (x - start) % step == 0
      {
        RangeMemberStep(start, stop, step, x, rest);
      }
    }
  }

  lemma {:induction false} RangeMemberStep(start: int, stop: int, step: int, x: int, rest: seq<int>)
    requires step > 0 && start < stop
    requires x in rest <==> start + step <= x < stop && (x - (start + step)) % step == 0
    ensures x in [start] + rest <==> start <= x < stop && (x - start) % step == 0
  {
    ModStep(x - start, step);
    assert x in [start] + rest <==> x == start || x in rest;
  }

  /** `range(start, stop, step)` starts at `start` and increases strictly, so
      it holds each of its numbers once. */
  lemma {:induction false} RangeIncreasing(start: int, stop: int, step: int)
    requires step > 0
    ensures StrictlyIncreasing(Range(start, stop, step))
    ensures forall x :: x in Range(start, stop, step) ==> x >= start
    decreases stop - start
  {
    if start < stop {
      var rest := Range(start + step, stop, step);
      RangeIncreasing(start + step, stop, step);
      IncreasingCons(start, rest);
    }
  }

  lemma {:induction false} IncreasingCons(x: int, s: seq<int>)
    requires StrictlyIncreasing(s)
    requires forall y :: y in s ==> y > x
    ensures StrictlyIncreasing([x] + s)
  {
    forall i, j | 0 <= i < j < |s| + 1
      ensures ([x] + s)[i] < ([x] + s)[j]
    {
      assert ([x] + s)[j] == s[j - 1] && s[j - 1] in s;
      if i > 0 {
        assert ([x] + s)[i] == s[i - 1];
      }
    }
  }

  /** Euclidean division is unique: `d == step * q + r` with `0 <= r < step`
      fixes the remainder. */
  lemma {:induction false} ModUnique(d: int, step: int, q: int, r: int)
    requires step > 0 && 0 <= r < step && d == step * q + r
    ensures d % step == r
  {
    var q0, r0 := d / step, d % step;
    assert d == step * q0 + r0;
    assert step * (q - q0) == r0 - r;
    if q - q0 >= 1 {
      MulAtLeast(step, q - q0);
    } else if q - q0 <= -1 {
      MulAtLeast(step, q0 - q);
    }
  }

  lemma {:induction false} MulAtLeast(step: int, k: int)
    requires step > 0 && k >= 1
    ensures step * k >= step
  {
  }

  lemma {:induction false} ModStep(d: int, step: int)
    requires step > 0
    ensures d % step == 0 && d > 0 ==> d >= step
    ensures (d - step) % step == d % step
  {
    var q, r := d / step, d % step;
    assert d == step * q + r;
    if r == 0 && d > 0 {
      assert q >= 1;
      MulAtLeast(step, q);
    }
    assert d - step == step * (q - 1) + r;
    ModUnique(d - step, step, q - 1, r);
  }

  /** With a record limit the requested offsets are exactly the multiples of
      `step` in `[0, record_limit)`, each once and in increasing order. */
  lemma {:induction false} OffsetsWithLimit<T>(fetch: (int, int) -> Page<T>, step: int, limit: int)
    requires step > 0
    ensures var offsets := RequestedOffsets(fetch, step, Some(limit));
      && (forall x :: x in offsets <==> 0 <= x < limit && x % step == 0)
      && StrictlyIncreasing(offsets)
  {
    RangeMembers(0, limit, step);
    RangeIncreasing(0, limit, step);
  }

  /** Without a record limit the first request is at offset 0; the others are
      exactly the multiples of `step` in `[step, max_records)`, each once and in
      increasing order, `max_records` being what the first page reports. */
  lemma {:induction false} OffsetsWithoutLimit<T>(fetch: (int, int) -> Page<T>, step: int)
    requires step > 0
    ensures var offsets := RequestedOffsets(fetch, step, None);
      && offsets != [] && offsets[0] == 0
      && (forall x :: x in offsets[1..] <==> step <= x < fetch(0, step).totalRecords && x % step == 0)
      && StrictlyIncreasing(offsets)
  {
    var total := fetch(0, step).totalRecords;
    var rest := Range(step, total, step);
    RangeMembers(step, total, step);
    RangeIncreasing(step, total, step);
    forall x ensures (x - step) % step == x % step {
      ModStep(x, step);
    }
    var offsets := [0] + rest;
    assert offsets[1..] == rest;
    forall i, j | 0 <= i < j < |offsets|
      ensures offsets[i] < offsets[j]
    {
      assert offsets[j] == rest[j - 1] && rest[j - 1] in rest;
      if i > 0 {
        assert offsets[i] == rest[i - 1];
      }
    }
  }

  // ---------------------------------------------------------------------
  // Against a server that pages a fixed list of records

  /** `db[lo..hi]` with both ends clamped to `[0, |db|]`. */
  function Window<T>(db: seq<T>, lo: int, hi: int): (w: seq<T>)
    ensures |w| <= |db|
  {
    var a := if lo < 0 then 0 else if lo > |db| then |db| else lo;
    var b := if hi < a then a else if hi > |db| then |db| else hi;
    db[a..b]
  }

  /** `fetch` pages the list `db`: every page it returns for display start
      `i >= 0` and display length `step` reports `|db|` records in all and
      holds `db[i..i + step]` (cut short at the end of `db`). */
  ghost predicate Serves<T>(fetch: (int, int) -> Page<T>, db: seq<T>, step: int) {
    forall i :: 0 <= i ==> fetch(i, step) == Page(|db|, Window(db, i, i + step))
  }

  lemma {:induction false} ServedPage<T>(fetch: (int, int) -> Page<T>, db: seq<T>, step: int, i: int)
    requires Serves(fetch, db, step) && i >= 0
    ensures fetch(i, step).data == Window(db, i, i + step)
  {
  }

  /** A window that starts at the first record is a prefix of `db`, as long
      as `hi` allows. */
  lemma {:induction false} WindowFromStart<T>(db: seq<T>, hi: int)
    ensures var w := Window(db, 0, hi);
      w == db[..|w|] && |w| == (if hi < 0 then 0 else if hi < |db| then hi else |db|)
  {
  }

  lemma {:induction false} WindowSplit<T>(db: seq<T>, lo: int, mid: int, hi: int)
    requires 0 <= lo <= mid <= hi
    ensures Window(db, lo, mid) + Window(db, mid, hi) == Window(db, lo, hi)
  {
  }

  /** Walking `range(start, stop, step)` over such a server gathers the
      records of one contiguous window, starting at `start` and as long as
      the pages requested. */
  lemma {:induction false} GatherRange<T>(fetch: (int, int) -> Page<T>, db: seq<T>, step: int, start: int, stop: int, offsets: seq<int>)
    requires step > 0 && start >= 0 && Serves(fetch, db, step)
    requires offsets == Range(start, stop, step)
    ensures Gather(fetch, step, offsets) == Window(db, start, start + step * |offsets|)
    decreases stop - start
  {
    if start < stop {
      var rest := Range(start + step, stop, step);
      RangeStep(start, stop, step);
      GatherRange(fetch, db, step, start + step, stop, rest);
      GatherCons(fetch, step, offsets);
      ServedPage(fetch, db, step, start);
      WindowStep(db, start, step, |rest|, |offsets|, fetch(start, step).data, Gather(fetch, step, rest));
    }
  }

  lemma {:induction false} RangeStep(start: int, stop: int, step: int)
    requires step > 0 && start < stop
    ensures var r := Range(start, stop, step);
      r != [] && r[0] == start && r[1..] == Range(start + step, stop, step)
  {
  }

  lemma {:induction false} GatherCons<T>(fetch: (int, int) -> Page<T>, step: int, offsets: seq<int>)
    requires offsets != []
    ensures Gather(fetch, step, offsets) == fetch(offsets[0], step).data + Gather(fetch, step, offsets[1..])
  {
  }

  lemma {:induction false} WindowStep<T>(db: seq<T>, start: int, step: int, n: nat, k: nat, page: seq<T>, more: seq<T>)
    requires start >= 0 && step > 0 && k == n + 1
    requires page == Window(db, start, start + step)
    requires more == Window(db, start + step, start + step + step * n)
    ensures page + more == Window(db, start, start + step * k)
  {
    MulNonNegative(step, n);
    MulSucc(step, n);
    WindowSplit(db, start, start + step, start + step + step * n);
  }

  lemma {:induction false} MulSucc(a: int, n: int)
    ensures a * (n + 1) == a * n + a
  {
  }

  lemma {:induction false} MulNonNegative(a: int, b: int)
    requires a >= 0 && b >= 0
    ensures a * b >= 0
  {
  }

  /** `range(start, stop, step)` has `ceil((stop - start) / step)` elements:
      they cover `[start, stop)` and the last page does not start at or past
      `stop`. */
  lemma {:induction false} RangeCount(start: int, stop: int, step: int)
    requires step > 0
    ensures start + step * |Range(start, stop, step)| >= stop
    ensures start < stop ==> start + step * (|Range(start, stop, step)| - 1) < stop
    ensures start >= stop ==> |Range(start, stop, step)| == 0
    decreases stop - start
  {
    if start < stop {
      RangeCount(start + step, stop, step);
    }
  }

  /** Without a record limit, pulling from a server that pages `db` returns
      `db` itself: every record exactly once and in order, so the number of
      records pulled is the reported total. */
  lemma {:induction false} PullWithoutLimitGathersAll<T>(fetch: (int, int) -> Page<T>, db: seq<T>, step: int)
    requires step > 0 && Serves(fetch, db, step)
    ensures Gather(fetch, step, RequestedOffsets(fetch, step, None)) == db
  {
    var rest := Range(step, |db|, step);
    var offsets := RequestedOffsets(fetch, step, None);
    assert offsets == [0] + rest;
    assert offsets[1..] == rest;
    GatherRange(fetch, db, step, step, |db|, rest);
    RangeCount(step, |db|, step);
    WindowSplit(db, 0, step, step + step * |rest|);
    WindowFromStart(db, step + step * |rest|);
  }

  /** With a record limit, pulling from a server that pages `db` returns the
      first records of `db` in order: whole pages, so at least `record_limit`
      records (or all of `db`) and fewer than `record_limit + step`. */
  lemma {:induction false} PullWithLimitGathersPrefix<T>(fetch: (int, int) -> Page<T>, db: seq<T>, step: int, limit: int)
    requires step > 0 && Serves(fetch, db, step)
    ensures var pulled := Gather(fetch, step, RequestedOffsets(fetch, step, Some(limit)));
      && |pulled| <= |db| && pulled == db[..|pulled|]
      && (limit <= 0 ==> pulled == [])
      && (limit > 0 ==> |pulled| >= (if limit < |db| then limit else |db|))
      && |pulled| < (if limit > 0 then limit else 0) + step
  {
    GatherRange(fetch, db, step, 0, limit, Range(0, limit, step));
    RangeCount(0, limit, step);
    WindowFromStart(db, step * |Range(0, limit, step)|);
  }
}
