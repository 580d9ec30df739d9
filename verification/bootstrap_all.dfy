/** Bulk bootstrap of the bar cache from a folder of CSV exports named
    `SYMBOL__INTERVAL.csv`: the symbol/interval inference from a file name
    (the inverse of the cache's own naming) and the choice of which files
    get bootstrapped. Path handling follows POSIX (`/` separator). */
module BootstrapAll {
  import opened Common
  import opened DataCache

  /** Index of the last `c` in `s`, or -1 (`str.rfind`). */
  function RFind(s: string, c: char): (r: int)
    ensures -1 <= r < |s|
    ensures 0 <= r ==> s[r] == c
    ensures forall k :: r < k < |s| ==> s[k] != c
  {
    if |s| == 0 then -1
    else if s[|s| - 1] == c then |s| - 1
    else RFind(s[..|s| - 1], c)
  }

  /** `os.path.basename`: everything after the last `/`. */
  function Basename(path: string): (r: string)
    ensures '/' !in r
    ensures |r| <= |path| && r == path[|path| - |r|..]
    ensures '/' !in path ==> r == path
    ensures RFind(path, '/') == |path| - |r| - 1
  {
    path[RFind(path, '/') + 1..]
  }

  /** `os.path.join(folder, name)` for two components: an absolute name
      discards the folder; otherwise the folder is kept as a prefix and one
      `/` is inserted exactly when it is non-empty and lacks a trailing one. */
  function Join(folder: string, name: string): (r: string)
    ensures EndsWith(r, name)
    ensures |name| > 0 && name[0] == '/' ==> r == name
    ensures (|name| == 0 || name[0] != '/') ==>
              && |folder| <= |r| && r[..|folder|] == folder
              && (|r| == |folder| + |name| + 1 <==> |folder| > 0 && folder[|folder| - 1] != '/')
              && (|r| == |folder| + |name| + 1 || |r| == |folder| + |name|)
              && (|r| == |folder| + |name| + 1 ==> r[|folder|] == '/')
  {
    if |name| > 0 && name[0] == '/' then name
    else if |folder| == 0 || folder[|folder| - 1] == '/' then folder + name
    else folder + "/" + name
  }

  /** `os.path.splitext(p)[0]`: cut at the last dot of the final path
      component, unless that component is only dots before it. */
  function SplitExtRoot(p: string): (root: string)
    ensures var dot := RFind(p, '.');
            var sep := RFind(p, '/');
            && (dot > sep && (exists k :: sep < k < dot && p[k] != '.') ==> root == p[..dot])
            && (!(dot > sep && (exists k :: sep < k < dot && p[k] != '.')) ==> root == p)
  {
    var sep := RFind(p, '/');
    var dot := RFind(p, '.');
    if dot > sep && (exists k :: sep < k < dot && p[k] != '.') then p[..dot] else p
  }

  /** What `infer_from_filename` returns: `(symbol, interval)` or `(None, None)`. */
  datatype Inferred = Inferred(symbol: Option<string>, interval: Option<string>)

  /** `'__' in s` */
  predicate HasSeparator(s: string)
  {
    exists k :: 0 <= k < |s| && HasDoubleUnderscoreAt(s, k)
  }

  /** The first `__` of `s` starts at `k`. */
  predicate FirstSeparatorAt(s: string, k: nat)
  {
    HasDoubleUnderscoreAt(s, k) && forall j :: 0 <= j < k ==> !HasDoubleUnderscoreAt(s, j)
  }

  /** `base.split('__', 1)` at the first separator `k`, with the symbol part
      mapped by `replace('_', '/').upper()`. */
  predicate SplitAt(base: string, k: nat, symbol: string, interval: string)
  {
    && FirstSeparatorAt(base, k)
    && k + 2 <= |base|
    && symbol == Upper(ReplaceChar(base[..k], '_', '/'))
    && interval == base[k + 2..]
  }

  /** `infer_from_filename`: split the extension-less base name at its first
      `__`; the symbol gets `_` -> `/` and is upper-cased. */
  function InferFromFilename(name: string): (r: Inferred)
    ensures var base := SplitExtRoot(Basename(name));
            && (r.symbol.None? <==> !HasSeparator(base))
            && (r.symbol.None? <==> r.interval.None?)
            && (r.symbol.Some? ==> '_' !in r.symbol.value)
            && (r.symbol.Some? ==> exists k :: SplitAt(base, k, r.symbol.value, r.interval.value))
  {
    var base := SplitExtRoot(Basename(name));
    match FindDoubleUnderscore(base, 0)
    case None => Inferred(None, None)
    case Some(k) =>
      var sym := Upper(ReplaceChar(base[..k], '_', '/'));
      NoUnderscoreAfterReplace(base[..k]);
      assert SplitAt(base, k, sym, base[k + 2..]);
      Inferred(Some(sym), Some(base[k + 2..]))
  }

  /** `replace('_', '/').upper()` leaves no `_` behind. */
  lemma NoUnderscoreAfterReplace(s: string)
    ensures '_' !in Upper(ReplaceChar(s, '_', '/'))
  {
    var r := ReplaceChar(s, '_', '/');
    var u := Upper(r);
    forall i | 0 <= i < |u| ensures u[i] != '_' {
      assert r[i] != '_';
      assert u[i] == UpperChar(r[i]);
    }
  }

  /** Symbols whose cache file name `infer_from_filename` maps back to
      themselves: already upper case, no `_` or `:`, and no `/` that would
      turn into a `__` of the file name (two in a row, or a trailing one). */
  predicate InvertibleSymbol(symbol: string)
  {
    && (forall i :: 0 <= i < |symbol| ==> UpperChar(symbol[i]) == symbol[i])
    && '_' !in symbol && ':' !in symbol
    && (forall i :: 0 <= i < |symbol| - 1 ==> !(symbol[i] == '/' && symbol[i + 1] == '/'))
    && (|symbol| > 0 ==> symbol[|symbol| - 1] != '/')
  }

  lemma {:induction false} RFindAppendMissing(a: string, b: string, c: char)
    requires c !in b
    ensures RFind(a + b, c) == RFind(a, c)
    decreases |b|
  {
    if |b| == 0 {
      assert a + b == a;
    } else {
      var ab := a + b;
      assert ab[|ab| - 1] == b[|b| - 1];
      assert ab[..|ab| - 1] == a + b[..|b| - 1];
      RFindAppendMissing(a, b[..|b| - 1], c);
    }
  }

  lemma RFindLast(a: string, c: char)
    ensures RFind(a + [c], c) == |a|
  {
  }

  /** The base name of a joined path is the file name it was joined with. */
  lemma BasenameOfJoin(folder: string, name: string)
    requires '/' !in name && |name| > 0
    ensures Basename(Join(folder, name)) == name
  {
    if |folder| == 0 {
      assert Join(folder, name) == name;
    } else {
      var prefix := if folder[|folder| - 1] == '/' then folder else folder + "/";
      assert Join(folder, name) == prefix + name;
      assert prefix[|prefix| - 1] == '/';
      assert RFind(prefix, '/') == |prefix| - 1;
      RFindAppendMissing(prefix, name, '/');
      assert (prefix + name)[|prefix|..] == name;
    }
  }

  lemma CacheFileNameHasNoSlash(symbol: string, interval: string)
    requires '/' !in interval
    ensures '/' !in CacheFileName(symbol, interval)
  {
    var name := CacheFileName(symbol, interval);
    var safe := SafeSymbol(symbol);
    var n := |symbol|;
    forall i | 0 <= i < |name| ensures name[i] != '/' {
      if i < n {
        assert name[i] == safe[i];
      } else if n + 2 <= i < n + 2 + |interval| {
        assert name[i] == interval[i - n - 2];
      }
    }
  }

  /** Dropping the extension of a cache file name leaves `safe__interval`. */
  lemma {:induction false} RootOfCacheFileName(symbol: string, interval: string)
    requires '/' !in interval
    ensures SplitExtRoot(CacheFileName(symbol, interval)) == SafeSymbol(symbol) + "__" + interval
  {
    var stem := SafeSymbol(symbol) + "__" + interval;
    var name := CacheFileName(symbol, interval);
    assert name == (stem + ".") + "csv";
    RFindAppendMissing(stem + ".", "csv", '.');
    assert stem + "." == stem + ['.'];
    RFindLast(stem, '.');
    CacheFileNameHasNoSlash(symbol, interval);
    assert RFind(name, '/') == -1;
    assert name[|symbol|] == '_';
    assert name[..|stem|] == stem;
  }

  /** The first `__` of `safe__interval` is the separator the naming added. */
  lemma {:induction false} FirstSeparator(symbol: string, interval: string)
    requires InvertibleSymbol(symbol)
    ensures FindDoubleUnderscore(SafeSymbol(symbol) + "__" + interval, 0) == Some(|symbol|)
  {
    var safe := SafeSymbol(symbol);
    var stem := safe + "__" + interval;
    var n := |symbol|;
    assert HasDoubleUnderscoreAt(stem, n);
    forall k | 0 <= k < n ensures !HasDoubleUnderscoreAt(stem, k) {
      assert stem[k] == safe[k];
      if k + 1 < n {
        assert stem[k + 1] == safe[k + 1];
      }
    }
  }

  lemma SafeSymbolReverts(symbol: string)
    requires '_' !in symbol && ':' !in symbol
    ensures ReplaceChar(SafeSymbol(symbol), '_', '/') == symbol
  {
  }

  lemma UpperOfUpperCase(s: string)
    requires forall i :: 0 <= i < |s| ==> UpperChar(s[i]) == s[i]
    ensures Upper(s) == s
  {
  }

  lemma InferAtSeparator(name: string, k: nat)
    requires FindDoubleUnderscore(SplitExtRoot(Basename(name)), 0) == Some(k)
    ensures var base := SplitExtRoot(Basename(name));
            InferFromFilename(name) == Inferred(Some(Upper(ReplaceChar(base[..k], '_', '/'))), Some(base[k + 2..]))
  {
  }

  /** Inference inverts the cache's file naming. */
  lemma {:induction false} InferInvertsCacheFileName(symbol: string, interval: string)
    requires InvertibleSymbol(symbol) && '/' !in interval
    ensures InferFromFilename(CacheFileName(symbol, interval)) == Inferred(Some(symbol), Some(interval))
  {
    var name := CacheFileName(symbol, interval);
    CacheFileNameHasNoSlash(symbol, interval);
    assert Basename(name) == name;
    InferFromStem(name, symbol, interval);
  }

  /** ... wherever the file lives. */
  lemma {:induction false} InferInvertsCachePath(folder: string, symbol: string, interval: string)
    requires InvertibleSymbol(symbol) && '/' !in interval
    ensures InferFromFilename(Join(folder, CacheFileName(symbol, interval))) == Inferred(Some(symbol), Some(interval))
  {
    var name := CacheFileName(symbol, interval);
    CacheFileNameHasNoSlash(symbol, interval);
    BasenameOfJoin(folder, name);
    InferFromStem(Join(folder, name), symbol, interval);
  }

  lemma {:induction false} InferFromStem(path: string, symbol: string, interval: string)
    requires InvertibleSymbol(symbol) && '/' !in interval
    requires Basename(path) == CacheFileName(symbol, interval)
    ensures InferFromFilename(path) == Inferred(Some(symbol), Some(interval))
  {
    var stem := SafeSymbol(symbol) + "__" + interval;
    var n := |symbol|;
    RootOfCacheFileName(symbol, interval);
    FirstSeparator(symbol, interval);
    InferAtSeparator(path, n);
    assert stem[..n] == SafeSymbol(symbol);
    assert stem[n + 2..] == interval;
    SafeSymbolReverts(symbol);
    UpperOfUpperCase(symbol);
  }

  /** One `bootstrap_from_csv(sym, interval, path)` call made by `main`. */
  datatype BootstrapCall = BootstrapCall(symbol: string, interval: string, path: string)

  /** `f.lower().endswith('.csv')` */
  predicate IsCsvName(name: string)
  {
    EndsWith(Lower(name), ".csv")
  }

  /** `c` is the call `main` makes for the listed name `f`: a `.csv` name,
      joined to the folder, with the symbol and interval inferred from it. */
  predicate CallFor(folder: string, f: string, c: BootstrapCall)
  {
    IsCsvName(f) && c.path == Join(folder, f) && InferFromFilename(c.path) == Inferred(Some(c.symbol), Some(c.interval))
  }

  /** `infer_from_filename(path)` finds a symbol: the base name has a `__`. */
  predicate Inferable(folder: string, f: string)
  {
    InferFromFilename(Join(folder, f)).symbol.Some?
  }

  /** The call made for one listed name, if any. */
  function CallOf(folder: string, f: string): (c: Option<BootstrapCall>)
    ensures c.Some? <==> IsCsvName(f) && Inferable(folder, f)
    ensures c.Some? ==> CallFor(folder, f, c.value)
  {
    var path := Join(folder, f);
    var inferred := InferFromFilename(path);
    if IsCsvName(f) && inferred.symbol.Some? then
      Some(BootstrapCall(inferred.symbol.value, inferred.interval.value, path))
    else None
  }

  /** The bootstrap calls `main(folder, dry_run)` makes for a directory
      listing, in listing order: CSV names only, names that cannot be
      inferred skipped, nothing at all on a dry run. */
  function PlannedCalls(folder: string, listing: seq<string>, dryRun: bool): (calls: seq<BootstrapCall>)
    ensures dryRun ==> calls == []
    ensures |calls| <= |listing|
  {
    if dryRun || |listing| == 0 then []
    else
      var rest := PlannedCalls(folder, listing[1..], dryRun);
      match CallOf(folder, listing[0])
      case Some(c) => [c] + rest
      case None => rest
  }

  /** Every call made is for a listed CSV file whose name could be inferred,
      with the inferred symbol and interval. */
  lemma {:induction false} PlannedCallsAreInferredCsv(folder: string, listing: seq<string>, dryRun: bool)
    ensures forall c :: c in PlannedCalls(folder, listing, dryRun) ==>
              exists f :: f in listing && CallFor(folder, f, c)
    decreases |listing|
  {
    if !dryRun && |listing| > 0 {
      var calls := PlannedCalls(folder, listing, dryRun);
      var rest := PlannedCalls(folder, listing[1..], dryRun);
      PlannedCallsAreInferredCsv(folder, listing[1..], dryRun);
      forall c | c in calls ensures exists f :: f in listing && CallFor(folder, f, c) {
        if c in rest {
          var f :| f in listing[1..] && CallFor(folder, f, c);
          assert f in listing;
        } else {
          assert CallFor(folder, listing[0], c);
        }
      }
    }
  }

  /** Without `dry_run`, every listed CSV file whose name can be inferred
      gets its call. */
  lemma {:induction false} PlannedCallsCoverInferredCsv(folder: string, listing: seq<string>)
    ensures forall f :: f in listing && IsCsvName(f) && Inferable(folder, f) ==>
              exists c :: c in PlannedCalls(folder, listing, false) && CallFor(folder, f, c)
    decreases |listing|
  {
    if |listing| > 0 {
      var calls := PlannedCalls(folder, listing, false);
      var rest := PlannedCalls(folder, listing[1..], false);
      PlannedCallsCoverInferredCsv(folder, listing[1..]);
      forall f | f in listing && IsCsvName(f) && Inferable(folder, f)
        ensures exists c :: c in calls && CallFor(folder, f, c)
      {
        if f == listing[0] {
          assert CallFor(folder, f, calls[0]);
        } else {
          assert f in listing[1..];
          var c :| c in rest && CallFor(folder, f, c);
          assert c in calls;
        }
      }
    }
  }
}
