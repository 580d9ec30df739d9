/** The on-disk bar cache: one CSV file per (symbol, interval) under a fixed
    cache directory, truncated to the newest rows on save, and merged with
    newly fetched bars by datetime, the newer row winning.

    The directory is modelled as a map from cache file name to the rows the
    file holds; CSV encoding and parsing are not modelled. */
module DataCache {
  import opened Common

  /** One bar as stored in the cache; `datetime` is an ordered timestamp. */
  datatype Row = Row(datetime: int, open: real, high: real, low: real, close: real, volume: int)

  type Frame = seq<Row>

  /** Cache directory contents: file name to stored rows. */
  type Store = map<string, Frame>

  /** Default `max_rows` of `save_cache`. */
  const MaxRows: nat := 2000

  // ---------------------------------------------------------------------------
  // File naming

  /** `symbol.replace('/', '_').replace(':', '_')` */
  function SafeSymbol(symbol: string): (r: string)
    ensures |r| == |symbol|
    ensures '/' !in r && ':' !in r
    ensures forall i :: 0 <= i < |symbol| ==>
              r[i] == (if symbol[i] == '/' || symbol[i] == ':' then '_' else symbol[i])
  {
    ReplaceChar(ReplaceChar(symbol, '/', '_'), ':', '_')
  }

  /** Name of the cache file of a (symbol, interval) pair. */
  function CacheFileName(symbol: string, interval: string): (name: string)
    ensures |name| == |symbol| + |interval| + 6
    ensures name[..|symbol|] == SafeSymbol(symbol)
    ensures name[|symbol|..|symbol| + 2] == "__"
    ensures name[|symbol| + 2..|symbol| + 2 + |interval|] == interval
    ensures EndsWith(name, ".csv")
  {
    SafeSymbol(symbol) + "__" + interval + ".csv"
  }

  // ---------------------------------------------------------------------------
  // Load and save

  /** `load_cache`: the stored rows, or `None` when no file exists. */
  function LoadCache(store: Store, symbol: string, interval: string): (r: Option<Frame>)
    ensures r.Some? <==> CacheFileName(symbol, interval) in store
    ensures r.Some? ==> r.value == store[CacheFileName(symbol, interval)]
  {
    var path := CacheFileName(symbol, interval);
    if path in store then Some(store[path]) else None
  }

  /** `df.tail(max_rows)` when the frame is longer than `max_rows`. */
  function KeepLast(df: Frame, maxRows: nat): (r: Frame)
    ensures |r| == Min(|df|, maxRows)
    ensures r == df[|df| - |r|..]
    ensures |df| <= maxRows ==> r == df
  {
    if |df| > maxRows then df[|df| - maxRows..] else df
  }

  /** `save_cache`: the file of (symbol, interval) now holds the newest
      `max_rows` rows of `df` in their order; no other file changes. */
  function SaveCache(store: Store, symbol: string, interval: string, df: Frame, maxRows: nat): (s: Store)
    ensures s.Keys == store.Keys + {CacheFileName(symbol, interval)}
    ensures |s[CacheFileName(symbol, interval)]| == Min(|df|, maxRows)
    ensures s[CacheFileName(symbol, interval)] == df[|df| - Min(|df|, maxRows)..]
    ensures forall p :: p in store && p != CacheFileName(symbol, interval) ==> s[p] == store[p]
  {
    store[CacheFileName(symbol, interval) := KeepLast(df, maxRows)]
  }

  // ---------------------------------------------------------------------------
  // Datetime bookkeeping

  function Datetimes(rows: Frame): (ts: set<int>)
    ensures forall t :: t in ts <==> exists i :: 0 <= i < |rows| && rows[i].datetime == t
    ensures forall i :: 0 <= i < |rows| ==> rows[i].datetime in ts
  {
    if |rows| == 0 then {}
    else
      var rest := Datetimes(rows[1..]);
      assert forall i :: 1 <= i < |rows| ==> rows[i] == rows[1..][i - 1];
      {rows[0].datetime} + rest
  }

  predicate UniqueDatetimes(rows: Frame)
  {
    forall i, j :: 0 <= i < j < |rows| ==> rows[i].datetime != rows[j].datetime
  }

  predicate Sorted(rows: Frame)
  {
    forall i, j :: 0 <= i < j < |rows| ==> rows[i].datetime <= rows[j].datetime
  }

  predicate StrictlyAscending(rows: Frame)
  {
    forall i, j :: 0 <= i < j < |rows| ==> rows[i].datetime < rows[j].datetime
  }

  /** The last row of `rows` carrying datetime `t`, if any. */
  function LastWith(rows: Frame, t: int): (r: Option<Row>)
    ensures r.Some? <==> t in Datetimes(rows)
    ensures r.Some? ==> r.value in rows && r.value.datetime == t
  {
    if |rows| == 0 then None
    else
      var rest := LastWith(rows[1..], t);
      if rest.Some? then rest
      else if rows[0].datetime == t then Some(rows[0])
      else None
  }

  /** Rows appended later shadow earlier rows with the same datetime. */
  lemma {:induction false} LastWithAppend(a: Frame, b: Frame, t: int)
    ensures t in Datetimes(b) ==> LastWith(a + b, t) == LastWith(b, t)
    ensures t !in Datetimes(b) ==> LastWith(a + b, t) == LastWith(a, t)
    decreases |a|
  {
    if |a| == 0 {
      assert a + b == b;
    } else {
      assert (a + b)[1..] == a[1..] + b;
      LastWithAppend(a[1..], b, t);
    }
  }

  lemma {:induction false} DatetimesAppend(a: Frame, b: Frame)
    ensures Datetimes(a + b) == Datetimes(a) + Datetimes(b)
  {
    var ab := a + b;
    forall t | t in Datetimes(a) ensures t in Datetimes(ab) {
      var i :| 0 <= i < |a| && a[i].datetime == t;
      assert ab[i] == a[i];
    }
    forall t | t in Datetimes(b) ensures t in Datetimes(ab) {
      var i :| 0 <= i < |b| && b[i].datetime == t;
      assert ab[|a| + i] == b[i];
    }
    forall t | t in Datetimes(ab) ensures t in Datetimes(a) + Datetimes(b) {
      var i :| 0 <= i < |ab| && ab[i].datetime == t;
      if i < |a| {
        assert ab[i] == a[i];
      } else {
        assert ab[i] == b[i - |a|];
      }
    }
  }

  // ---------------------------------------------------------------------------
  // drop_duplicates(subset=['datetime'], keep='last')

  /** Keep a row only when no later row has the same datetime, in order. */
  function DropDuplicatesKeepLast(rows: Frame): (r: Frame)
    ensures |r| <= |rows|
    ensures Datetimes(r) == Datetimes(rows)
    ensures forall x :: x in r ==> x in rows
  {
    if |rows| == 0 then []
    else
      var rest := DropDuplicatesKeepLast(rows[1..]);
      if rows[0].datetime in Datetimes(rows[1..]) then rest
      else [rows[0]] + rest
  }

  /** After `drop_duplicates` every datetime occurs once. */
  lemma {:induction false} DropDuplicatesIsUnique(rows: Frame)
    ensures UniqueDatetimes(DropDuplicatesKeepLast(rows))
    decreases |rows|
  {
    if |rows| > 0 {
      var rest := DropDuplicatesKeepLast(rows[1..]);
      DropDuplicatesIsUnique(rows[1..]);
      if rows[0].datetime !in Datetimes(rows[1..]) {
        var r := [rows[0]] + rest;
        forall i, j | 0 <= i < j < |r| ensures r[i].datetime != r[j].datetime {
          assert r[j] == rest[j - 1];
          if i > 0 {
            assert r[i] == rest[i - 1];
          }
        }
      }
    }
  }

  /** With `keep='last'`, each kept row is the last row carrying its datetime. */
  lemma {:induction false} DropDuplicatesKeepsLast(rows: Frame)
    ensures forall x :: x in DropDuplicatesKeepLast(rows) ==> LastWith(rows, x.datetime) == Some(x)
    decreases |rows|
  {
    if |rows| > 0 {
      var rest := DropDuplicatesKeepLast(rows[1..]);
      DropDuplicatesKeepsLast(rows[1..]);
      forall x | x in DropDuplicatesKeepLast(rows) ensures LastWith(rows, x.datetime) == Some(x) {
        if x in rest {
          assert LastWith(rows[1..], x.datetime) == Some(x);
        } else {
          assert x == rows[0] && rows[0].datetime !in Datetimes(rows[1..]);
          assert LastWith(rows[1..], x.datetime).None?;
        }
      }
    }
  }

  // ---------------------------------------------------------------------------
  // sort_values('datetime')

  function Insert(x: Row, s: Frame): (r: Frame)
    ensures |r| == |s| + 1
    ensures multiset(r) == multiset(s) + multiset{x}
  {
    if |s| == 0 then [x]
    else if x.datetime <= s[0].datetime then [x] + s
    else
      assert s == [s[0]] + s[1..];
      [s[0]] + Insert(x, s[1..])
  }

  lemma DatetimesCons(a: Row, s: Frame)
    ensures Datetimes([a] + s) == {a.datetime} + Datetimes(s)
  {
    assert ([a] + s)[1..] == s;
  }

  lemma {:induction false} InsertDatetimes(x: Row, s: Frame)
    ensures Datetimes(Insert(x, s)) == Datetimes(s) + {x.datetime}
    decreases |s|
  {
    if |s| == 0 {
    } else if x.datetime <= s[0].datetime {
      DatetimesCons(x, s);
    } else {
      InsertDatetimes(x, s[1..]);
      DatetimesCons(s[0], Insert(x, s[1..]));
      DatetimesCons(s[0], s[1..]);
      assert s == [s[0]] + s[1..];
    }
  }

  /** Every datetime of `s` is at least (resp. above) `t`. */
  predicate AllAtLeast(t: int, s: Frame)
  {
    forall k :: 0 <= k < |s| ==> t <= s[k].datetime
  }

  predicate AllAbove(t: int, s: Frame)
  {
    forall k :: 0 <= k < |s| ==> t < s[k].datetime
  }

  /** Prepending a row no later than every other row keeps a frame sorted;
      strictly earlier keeps it strictly ascending. */
  lemma SortedCons(a: Row, s: Frame)
    requires Sorted(s) && AllAtLeast(a.datetime, s)
    ensures Sorted([a] + s)
  {
    var r := [a] + s;
    forall i, j | 0 <= i < j < |r| ensures r[i].datetime <= r[j].datetime {
      assert r[j] == s[j - 1];
      if i > 0 {
        assert r[i] == s[i - 1];
      }
    }
  }

  lemma StrictCons(a: Row, s: Frame)
    requires StrictlyAscending(s) && AllAbove(a.datetime, s)
    ensures StrictlyAscending([a] + s)
  {
    var r := [a] + s;
    forall i, j | 0 <= i < j < |r| ensures r[i].datetime < r[j].datetime {
      assert r[j] == s[j - 1];
      if i > 0 {
        assert r[i] == s[i - 1];
      }
    }
  }

  /** A lower bound on every datetime survives insertion of a row above it. */
  lemma {:induction false} InsertKeepsAtLeast(t: int, x: Row, s: Frame)
    requires AllAtLeast(t, s) && t <= x.datetime
    ensures AllAtLeast(t, Insert(x, s))
    decreases |s|
  {
    if |s| == 0 || x.datetime <= s[0].datetime {
    } else {
      InsertKeepsAtLeast(t, x, s[1..]);
      var tail := Insert(x, s[1..]);
      var r := [s[0]] + tail;
      forall k | 0 <= k < |r| ensures t <= r[k].datetime {
        if k > 0 {
          assert r[k] == tail[k - 1];
        }
      }
    }
  }

  lemma {:induction false} InsertKeepsAbove(t: int, x: Row, s: Frame)
    requires AllAbove(t, s) && t < x.datetime
    ensures AllAbove(t, Insert(x, s))
    decreases |s|
  {
    if |s| == 0 || x.datetime <= s[0].datetime {
    } else {
      InsertKeepsAbove(t, x, s[1..]);
      var tail := Insert(x, s[1..]);
      var r := [s[0]] + tail;
      forall k | 0 <= k < |r| ensures t < r[k].datetime {
        if k > 0 {
          assert r[k] == tail[k - 1];
        }
      }
    }
  }

  lemma {:induction false} InsertSorted(x: Row, s: Frame)
    requires Sorted(s)
    ensures Sorted(Insert(x, s))
    decreases |s|
  {
    if |s| == 0 {
    } else if x.datetime <= s[0].datetime {
      SortedCons(x, s);
    } else {
      InsertSorted(x, s[1..]);
      InsertKeepsAtLeast(s[0].datetime, x, s[1..]);
      SortedCons(s[0], Insert(x, s[1..]));
    }
  }

  lemma {:induction false} InsertStrict(x: Row, s: Frame)
    requires StrictlyAscending(s) && x.datetime !in Datetimes(s)
    ensures StrictlyAscending(Insert(x, s))
    decreases |s|
  {
    if |s| == 0 {
    } else if x.datetime <= s[0].datetime {
      assert x.datetime != s[0].datetime;
      StrictCons(x, s);
    } else {
      DatetimesCons(s[0], s[1..]);
      assert s == [s[0]] + s[1..];
      InsertStrict(x, s[1..]);
      InsertKeepsAbove(s[0].datetime, x, s[1..]);
      StrictCons(s[0], Insert(x, s[1..]));
    }
  }

  /** `sort_values('datetime')`: insertion sort by datetime. */
  function SortByDatetime(s: Frame): (r: Frame)
    ensures |r| == |s|
    ensures multiset(r) == multiset(s)
  {
    if |s| == 0 then []
    else
      assert s == [s[0]] + s[1..];
      Insert(s[0], SortByDatetime(s[1..]))
  }

  lemma UniqueTail(s: Frame)
    requires |s| > 0 && UniqueDatetimes(s)
    ensures UniqueDatetimes(s[1..]) && s[0].datetime !in Datetimes(s[1..])
  {
    var t := s[1..];
    forall i, j | 0 <= i < j < |t| ensures t[i].datetime != t[j].datetime {
      assert t[i] == s[i + 1] && t[j] == s[j + 1];
    }
  }

  /** The sort keeps the datetime set, orders the rows ascending, and
      strictly so when the datetimes are unique. */
  lemma {:induction false} SortKeepsDatetimes(s: Frame)
    ensures Datetimes(SortByDatetime(s)) == Datetimes(s)
    decreases |s|
  {
    if |s| > 0 {
      var sortedTail := SortByDatetime(s[1..]);
      SortKeepsDatetimes(s[1..]);
      InsertDatetimes(s[0], sortedTail);
      DatetimesCons(s[0], s[1..]);
      assert s == [s[0]] + s[1..];
    }
  }

  lemma {:induction false} SortIsSorted(s: Frame)
    ensures Sorted(SortByDatetime(s))
    decreases |s|
  {
    if |s| > 0 {
      SortIsSorted(s[1..]);
      InsertSorted(s[0], SortByDatetime(s[1..]));
    }
  }

  lemma {:induction false} SortIsStrict(s: Frame)
    requires UniqueDatetimes(s)
    ensures StrictlyAscending(SortByDatetime(s))
    decreases |s|
  {
    if |s| > 0 {
      UniqueTail(s);
      SortIsStrict(s[1..]);
      SortKeepsDatetimes(s[1..]);
      InsertStrict(s[0], SortByDatetime(s[1..]));
    }
  }

  // ---------------------------------------------------------------------------
  // append_to_cache and bootstrap_from_csv

  /** The new cache directory and the frame a cache operation returns. */
  datatype CacheResult = CacheResult(store: Store, frame: Frame)

  /** Concatenate, keep the last row per datetime, sort. */
  function Merge(existing: Frame, incoming: Frame): (r: Frame)
    ensures StrictlyAscending(r)
    ensures Datetimes(r) == Datetimes(existing) + Datetimes(incoming)
    ensures forall x :: x in r ==> LastWith(existing + incoming, x.datetime) == Some(x)
  {
    var deduped := DropDuplicatesKeepLast(existing + incoming);
    DropDuplicatesIsUnique(existing + incoming);
    DropDuplicatesKeepsLast(existing + incoming);
    SortKeepsDatetimes(deduped);
    SortIsStrict(deduped);
    DatetimesAppend(existing, incoming);
    var r := SortByDatetime(deduped);
    assert forall x :: x in r ==> x in multiset(deduped);
    r
  }

  /** `append_to_cache`: without a cache file the new frame is saved and
      returned as given; otherwise the merged frame is saved (truncated) and
      returned whole. */
  function AppendToCache(store: Store, symbol: string, interval: string, incoming: Frame): (res: CacheResult)
    ensures LoadCache(store, symbol, interval).None? ==> res.frame == incoming
    ensures LoadCache(store, symbol, interval).Some? ==>
              res.frame == Merge(LoadCache(store, symbol, interval).value, incoming)
    ensures LoadCache(store, symbol, interval).Some? ==>
              && StrictlyAscending(res.frame)
              && Datetimes(res.frame) == Datetimes(LoadCache(store, symbol, interval).value) + Datetimes(incoming)
    ensures res.store == SaveCache(store, symbol, interval, res.frame, MaxRows)
  {
    match LoadCache(store, symbol, interval)
    case None => CacheResult(SaveCache(store, symbol, interval, incoming, MaxRows), incoming)
    case Some(existing) =>
      var merged := Merge(existing, incoming);
      CacheResult(SaveCache(store, symbol, interval, merged, MaxRows), merged)
  }

  /** On a datetime collision the incoming row wins over the cached one; a
      datetime only the cache knows keeps its last cached row. */
  lemma {:induction false} IncomingRowsWin(existing: Frame, incoming: Frame, x: Row)
    ensures x in Merge(existing, incoming) && x.datetime in Datetimes(incoming) ==>
              LastWith(incoming, x.datetime) == Some(x)
    ensures x in Merge(existing, incoming) && x.datetime !in Datetimes(incoming) ==>
              LastWith(existing, x.datetime) == Some(x)
  {
    LastWithAppend(existing, incoming, x.datetime);
  }

  /** Every datetime of the union has exactly one row in the merged frame,
      and it is the last row with that datetime in `existing + incoming`. */
  lemma {:induction false} MergeHasOneRowPerDatetime(existing: Frame, incoming: Frame, t: int)
    requires t in Datetimes(existing) + Datetimes(incoming)
    ensures var m := Merge(existing, incoming);
            exists i :: 0 <= i < |m| && m[i].datetime == t && Some(m[i]) == LastWith(existing + incoming, t)
    ensures var m := Merge(existing, incoming);
            forall i, j :: 0 <= i < |m| && 0 <= j < |m| && m[i].datetime == t && m[j].datetime == t ==> i == j
  {
    var m := Merge(existing, incoming);
    assert t in Datetimes(m);
    var i :| 0 <= i < |m| && m[i].datetime == t;
    assert m[i] in m;
  }

  /** The persisted copy of an append is the newest 2000 rows of the frame
      the call returns. */
  lemma AppendPersistsNewestRows(store: Store, symbol: string, interval: string, incoming: Frame)
    ensures var res := AppendToCache(store, symbol, interval, incoming);
            var saved := res.store[CacheFileName(symbol, interval)];
            && |saved| == Min(|res.frame|, MaxRows)
            && saved == res.frame[|res.frame| - |saved|..]
            && (|res.frame| <= MaxRows ==> saved == res.frame)
  {
  }

  /** `bootstrap_from_csv`: the rows read from the CSV are saved (newest 2000)
      and returned untruncated. */
  function BootstrapFromCsv(store: Store, symbol: string, interval: string, csvRows: Frame): (res: CacheResult)
    ensures res.frame == csvRows
    ensures res.store.Keys == store.Keys + {CacheFileName(symbol, interval)}
    ensures res.store[CacheFileName(symbol, interval)] == csvRows[|csvRows| - Min(|csvRows|, MaxRows)..]
    ensures forall p :: p in store && p != CacheFileName(symbol, interval) ==> res.store[p] == store[p]
  {
    CacheResult(SaveCache(store, symbol, interval, csvRows, MaxRows), csvRows)
  }
}
