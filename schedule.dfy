/** The beat schedule: a job table with a fetch job and an alert job per
    configured symbol, and a mapping that builds it on first read and caches
    it until refreshed. */
module Schedule {
  import opened Wrappers
  import opened Text

  /** One beat entry: task name, period in seconds, positional arguments. */
  datatype Job = Job(task: string, every: int, args: seq<string>)

  type Table = map<string, Job>

  function FetchKey(sym: string): string { "fetch_" + sym }
  function ComputeKey(sym: string): string { "compute_" + sym }

  lemma KeysDistinct(a: string, b: string)
    ensures FetchKey(a) != ComputeKey(b)
    ensures FetchKey(a) == FetchKey(b) ==> a == b
    ensures ComputeKey(a) == ComputeKey(b) ==> a == b
  {
    assert FetchKey(a)[0] != ComputeKey(b)[0];
    assert FetchKey(a)[6..] == a && FetchKey(b)[6..] == b;
    assert ComputeKey(a)[8..] == a && ComputeKey(b)[8..] == b;
  }

  /** The symbols of a list, as a set (duplicates collapse). */
  function Distinct(s: seq<string>): set<string> {
    set x | x in s
  }

  /** `a.strip()` is empty: the entry yields no jobs. */
  predicate Blank(a: string) {
    Strip(a) == []
  }

  /** `a.strip().upper()`. */
  function Clean(a: string): (r: string)
    ensures !Blank(a) ==> r != [] && IsUpper(r)
  {
    UpperIsUpper(Strip(a));
    Upper(Strip(a))
  }

  /** `[a.strip().upper() for a in assets if a.strip()]`: every entry that is
      not blank, trimmed and upper-cased, in order. */
  function NormalizeSymbols(assets: seq<string>): (r: seq<string>)
    ensures |r| <= |assets|
    ensures forall i :: 0 <= i < |r| ==> r[i] != []
  {
    if assets == [] then []
    else (if Blank(assets[0]) then [] else [Clean(assets[0])]) + NormalizeSymbols(assets[1..])
  }

  /** A symbol is normalized exactly when some non-blank entry cleans to it. */
  lemma {:induction false} NormalizeSymbolsMembers(assets: seq<string>, x: string)
    ensures x in NormalizeSymbols(assets) <==> exists a :: a in assets && !Blank(a) && x == Clean(a)
  {
    if assets != [] {
      var head := assets[0];
      var tail := assets[1..];
      NormalizeSymbolsMembers(tail, x);
      assert NormalizeSymbols(assets) == (if Blank(head) then [] else [Clean(head)]) + NormalizeSymbols(tail);
      if x in NormalizeSymbols(assets) && !(x in NormalizeSymbols(tail)) {
        assert head in assets && !Blank(head) && x == Clean(head);
      }
      if exists a :: a in assets && !Blank(a) && x == Clean(a) {
        var a :| a in assets && !Blank(a) && x == Clean(a);
        if a != head {
          assert a in tail;
        }
      }
    }
  }

  /** The table holds the two jobs of symbol `s`, run every `seconds`. */
  ghost predicate HasJobs(t: Table, s: string, seconds: int) {
    && FetchKey(s) in t && t[FetchKey(s)] == Job("fetch_price", seconds, [s])
    && ComputeKey(s) in t && t[ComputeKey(s)] == Job("compute_alerts", seconds, [s])
  }

  lemma KeysOfOthers(s: string, t: string)
    requires s != t
    ensures FetchKey(s) != FetchKey(t) && FetchKey(s) != ComputeKey(t)
    ensures ComputeKey(s) != FetchKey(t) && ComputeKey(s) != ComputeKey(t)
  {
    KeysDistinct(s, t);
    KeysDistinct(t, s);
  }

  /** The table after inserting the jobs of `syms` in order, each insertion
      overwriting the entry a repeated symbol already has. */
  function BeatTable(syms: seq<string>, seconds: int): Table {
    if syms == [] then map[]
    else
      var sym := syms[|syms| - 1];
      BeatTable(syms[..|syms| - 1], seconds)
        [FetchKey(sym) := Job("fetch_price", seconds, [sym])]
        [ComputeKey(sym) := Job("compute_alerts", seconds, [sym])]
  }

  /** Every symbol gets its fetch job and its alert job on the same period. */
  lemma {:induction false} BeatTableJobs(syms: seq<string>, seconds: int, s: string)
    requires s in syms
    ensures HasJobs(BeatTable(syms, seconds), s, seconds)
  {
    var last := syms[|syms| - 1];
    var init := syms[..|syms| - 1];
    assert syms == init + [last];
    KeysDistinct(last, last);
    if s != last {
      BeatTableJobs(init, seconds, s);
      KeysOfOthers(s, last);
    }
  }

  /** Nothing but the two job names of the given symbols is in the table. */
  lemma {:induction false} BeatTableKeys(syms: seq<string>, seconds: int, k: string)
    requires k in BeatTable(syms, seconds)
    ensures exists s :: s in syms && (k == FetchKey(s) || k == ComputeKey(s))
  {
    var last := syms[|syms| - 1];
    var init := syms[..|syms| - 1];
    assert syms == init + [last];
    if k != FetchKey(last) && k != ComputeKey(last) {
      BeatTableKeys(init, seconds, k);
      var s :| s in init && (k == FetchKey(s) || k == ComputeKey(s));
      assert s in syms;
    }
  }

  /** Two fresh keys grow a map by two. */
  lemma PutTwoFresh(m: Table, k1: string, v1: Job, k2: string, v2: Job)
    requires k1 !in m && k2 !in m && k1 != k2
    ensures |m[k1 := v1][k2 := v2]| == |m| + 2
  {
    var mid := m[k1 := v1];
    assert |mid| == |m| + 1;
    assert k2 !in mid;
  }

  /** Two keys already holding the given values leave a map as it is. */
  lemma PutTwoPresent(m: Table, k1: string, v1: Job, k2: string, v2: Job)
    requires k1 in m && m[k1] == v1 && k2 in m && m[k2] == v2
    ensures m[k1 := v1][k2 := v2] == m
  {
  }

  /** A symbol not yet inserted has neither of its keys in the table. */
  lemma BeatTableFresh(init: seq<string>, seconds: int, last: string)
    requires last !in init
    ensures FetchKey(last) !in BeatTable(init, seconds) && ComputeKey(last) !in BeatTable(init, seconds)
  {
    var prev := BeatTable(init, seconds);
    if FetchKey(last) in prev {
      BeatTableKeys(init, seconds, FetchKey(last));
      var s :| s in init && (FetchKey(last) == FetchKey(s) || FetchKey(last) == ComputeKey(s));
      KeysOfOthers(s, last);
    }
    if ComputeKey(last) in prev {
      BeatTableKeys(init, seconds, ComputeKey(last));
      var s :| s in init && (ComputeKey(last) == FetchKey(s) || ComputeKey(last) == ComputeKey(s));
      KeysOfOthers(s, last);
    }
  }

  /** Two entries per distinct symbol: repeats collapse onto the same keys. */
  lemma {:induction false} BeatTableSize(syms: seq<string>, seconds: int)
    ensures |BeatTable(syms, seconds)| == 2 * |Distinct(syms)|
  {
    if syms != [] {
      var last := syms[|syms| - 1];
      var init := syms[..|syms| - 1];
      assert syms == init + [last];
      BeatTableSize(init, seconds);
      var prev := BeatTable(init, seconds);
      assert Distinct(syms) == Distinct(init) + {last};
      KeysDistinct(last, last);
      if last in init {
        BeatTableJobs(init, seconds, last);
        assert Distinct(syms) == Distinct(init);
        PutTwoPresent(prev, FetchKey(last), Job("fetch_price", seconds, [last]),
          ComputeKey(last), Job("compute_alerts", seconds, [last]));
      } else {
        BeatTableFresh(init, seconds, last);
        assert last !in Distinct(init);
        PutTwoFresh(prev, FetchKey(last), Job("fetch_price", seconds, [last]),
          ComputeKey(last), Job("compute_alerts", seconds, [last]));
      }
    }
  }

  /** Inserting one more symbol adds (or overwrites) its two jobs. */
  lemma BeatTableSnoc(syms: seq<string>, sym: string, seconds: int)
    ensures BeatTable(syms + [sym], seconds) == BeatTable(syms, seconds)
      [FetchKey(sym) := Job("fetch_price", seconds, [sym])]
      [ComputeKey(sym) := Job("compute_alerts", seconds, [sym])]
  {
    assert (syms + [sym])[..|syms|] == syms;
  }

  /** `build_beat_schedule`: the normalized symbols' jobs inserted in order,
      every `max(1, every_seconds)` seconds (so a zero or negative interval
      becomes one second). */
  method BuildBeatSchedule(assets: seq<string>, everySeconds: int) returns (schedule: Table)
    ensures schedule == BeatTable(NormalizeSymbols(assets), if everySeconds > 1 then everySeconds else 1)
  {
    var seconds := if everySeconds > 1 then everySeconds else 1;
    var normalized := NormalizeSymbols(assets);
    schedule := map[];
    for i := 0 to |normalized|
      invariant schedule == BeatTable(normalized[..i], seconds)
    {
      var sym := normalized[i];
      schedule := schedule[FetchKey(sym) := Job("fetch_price", seconds, [sym])];
      schedule := schedule[ComputeKey(sym) := Job("compute_alerts", seconds, [sym])];
      assert schedule == BeatTable(normalized[..i + 1], seconds) by {
        assert normalized[..i + 1] == normalized[..i] + [sym];
        BeatTableSnoc(normalized[..i], sym, seconds);
      }
    }
    assert normalized[..|normalized|] == normalized;
  }

  /** `LazyBeatSchedule`: a read-only mapping over a table that `factory`
      builds from the environment at the time of the first read. */
  class LazyBeatSchedule<E> {
    const factory: E -> Table
    var cache: Option<Table>
    /** How many times the factory has run (observable only by its effects). */
    ghost var factoryCalls: nat

    /** The table a read at environment `env` answers from. */
    function Current(env: E): Table
      reads this
    {
      if cache.Some? then cache.value else factory(env)
    }

    constructor (factory: E -> Table)
      ensures this.factory == factory && cache == None && factoryCalls == 0
    {
      this.factory := factory;
      cache := None;
      factoryCalls := 0;
    }

    /** `_ensure`: run the factory only if nothing is cached. */
    method Ensure(env: E)
      modifies this
      ensures cache == Some(old(Current(env)))
      ensures factoryCalls == old(factoryCalls) + if old(cache).None? then 1 else 0
    {
      if cache.None? {
        cache := Some(factory(env));
        factoryCalls := factoryCalls + 1;
      }
    }

    /** `refresh`: forget the cached table. */
    method Refresh()
      modifies this
      ensures cache == None && factoryCalls == old(factoryCalls)
    {
      cache := None;
    }

    /** `__getitem__`; `None` where the source raises `KeyError`. */
    method GetItem(key: string, env: E) returns (r: Option<Job>)
      modifies this
      ensures cache == Some(old(Current(env)))
      ensures factoryCalls == old(factoryCalls) + if old(cache).None? then 1 else 0
      ensures r == if key in cache.value then Some(cache.value[key]) else None
    {
      Ensure(env);
      r := if key in cache.value then Some(cache.value[key]) else None;
    }

    /** `__contains__`. */
    method Contains(key: string, env: E) returns (b: bool)
      modifies this
      ensures cache == Some(old(Current(env)))
      ensures factoryCalls == old(factoryCalls) + if old(cache).None? then 1 else 0
      ensures b == (key in cache.value)
    {
      Ensure(env);
      b := key in cache.value;
    }

    /** `__len__`. */
    method Len(env: E) returns (n: nat)
      modifies this
      ensures cache == Some(old(Current(env)))
      ensures factoryCalls == old(factoryCalls) + if old(cache).None? then 1 else 0
      ensures n == |cache.value|
    {
      Ensure(env);
      n := |cache.value|;
    }

    /** `__iter__`: every key of the cached table, once each. */
    method Iter(env: E) returns (keys: seq<string>)
      modifies this
      ensures cache == Some(old(Current(env)))
      ensures factoryCalls == old(factoryCalls) + if old(cache).None? then 1 else 0
      ensures forall k :: k in keys <==> k in cache.value
      ensures forall i, j :: 0 <= i < j < |keys| ==> keys[i] != keys[j]
      ensures |keys| == |cache.value|
    {
      Ensure(env);
      var table := cache.value;
      var rest := table.Keys;
      keys := [];
      while rest != {}
        invariant rest <= table.Keys
        invariant forall k :: k in keys <==> k in table && k !in rest
        invariant forall i, j :: 0 <= i < j < |keys| ==> keys[i] != keys[j]
        invariant |keys| + |rest| == |table.Keys|
        decreases |rest|
      {
        var k :| k in rest;
        keys := keys + [k];
        rest := rest - {k};
      }
      assert |table.Keys| == |table|;
    }
  }

  /** A new lazy table does not run its factory; the first read does, once,
      and answers from the table built for the environment of that moment;
      a later read answers from the same table even though the environment
      has changed since; after `Refresh` the next read sees the factory's
      result for the new environment. */
  method LazyReadsScenario<E>(factory: E -> Table, before: E, after: E)
    returns (first: Table, second: Table, third: Table)
    ensures first == factory(before)
    ensures second == factory(before)
    ensures third == factory(after)
  {
    var lazy := new LazyBeatSchedule(factory);
    var n := lazy.Len(before);
    first := lazy.cache.value;
    n := lazy.Len(after);
    second := lazy.cache.value;
    lazy.Refresh();
    n := lazy.Len(after);
    third := lazy.cache.value;
  }

  /** All reads of one lazy table agree: `len` is the number of iterated
      keys, and `key in m` holds exactly when `m[key]` succeeds. */
  method LazyReadsAgree<E>(factory: E -> Table, env: E, key: string)
    returns (n: nat, keys: seq<string>, found: Option<Job>, present: bool)
    ensures n == |keys| == |factory(env)|
    ensures forall k :: k in keys <==> k in factory(env)
    ensures present <==> found.Some?
    ensures found.Some? ==> key in factory(env) && found.value == factory(env)[key]
  {
    var lazy := new LazyBeatSchedule(factory);
    keys := lazy.Iter(env);
    n := lazy.Len(env);
    found := lazy.GetItem(key, env);
    present := lazy.Contains(key, env);
  }

  /** A word with no white space at either end is kept by `strip`, so it
      cleans to the word upper-cased. */
  lemma CleanBareWord(w: string)
    requires w != [] && !IsSpace(w[0]) && !IsSpace(w[|w| - 1])
    ensures !Blank(w) && Clean(w) == Upper(w)
  {
    assert Lead(w) == 0 && End(w) == |w|;
    assert w[0..|w|] == w;
  }

  /** One space on each side of a word is stripped away. */
  lemma StripPadded(w: string)
    requires w != [] && !IsSpace(w[0]) && !IsSpace(w[|w| - 1])
    ensures Strip([' '] + w + [' ']) == w
  {
    var s := [' '] + w + [' '];
    assert s[1..][0] == w[0];
    assert Lead(s) == 1;
    assert s[..|s| - 1] == [' '] + w;
    assert End(s) == |w| + 1;
    assert s[1..|w| + 1] == w;
  }

  /** A word padded with one space on each side cleans to the word
      upper-cased. */
  lemma CleanPaddedWord(w: string)
    requires w != [] && !IsSpace(w[0]) && !IsSpace(w[|w| - 1])
    ensures !Blank([' '] + w + [' ']) && Clean([' '] + w + [' ']) == Upper(w)
  {
    StripPadded(w);
  }

  lemma {:induction false} NormalizeCons(x: string, xs: seq<string>)
    ensures NormalizeSymbols([x] + xs) == (if Blank(x) then [] else [Clean(x)]) + NormalizeSymbols(xs)
  {
    assert ([x] + xs)[1..] == xs;
  }

  lemma {:induction false} NormalizeDrop(c: string)
    requires Blank(c)
    ensures NormalizeSymbols([c]) == []
  {
    assert [c] == [c] + [];
    NormalizeCons(c, []);
  }

  lemma {:induction false} NormalizeKeepDrop(b: string, c: string)
    requires !Blank(b) && Blank(c)
    ensures NormalizeSymbols([b, c]) == [Clean(b)]
  {
    NormalizeDrop(c);
    assert [b, c] == [b] + [c];
    NormalizeCons(b, [c]);
  }

  lemma {:induction false} NormalizeKeepsKeepsDrops(a: string, b: string, c: string)
    requires !Blank(a) && !Blank(b) && Blank(c)
    ensures NormalizeSymbols([a, b, c]) == [Clean(a), Clean(b)]
  {
    NormalizeKeepDrop(b, c);
    assert [a, b, c] == [a] + [b, c];
    NormalizeCons(a, [b, c]);
  }

  /** The entries of ASSETS="BTC, eth ,  " normalize to exactly BTC and ETH. */
  lemma NormalizeExample()
    ensures NormalizeSymbols(["BTC", " eth ", "  "]) == ["BTC", "ETH"]
  {
    CleanBareWord("BTC");
    assert Upper("BTC") == "BTC";
    assert " eth " == [' '] + "eth" + [' '];
    CleanPaddedWord("eth");
    assert Upper("eth") == "ETH";
    assert IsSpace(' ');
    NormalizeKeepsKeepsDrops("BTC", " eth ", "  ");
  }

  lemma BeatTableTwo(a: string, b: string, seconds: int)
    ensures BeatTable([a, b], seconds) == map[][
      FetchKey(a) := Job("fetch_price", seconds, [a])][
      ComputeKey(a) := Job("compute_alerts", seconds, [a])][
      FetchKey(b) := Job("fetch_price", seconds, [b])][
      ComputeKey(b) := Job("compute_alerts", seconds, [b])]
  {
    assert [a, b][..1] == [a] && [a][..0] == [];
    assert BeatTable([a], seconds) == map[][
      FetchKey(a) := Job("fetch_price", seconds, [a])][
      ComputeKey(a) := Job("compute_alerts", seconds, [a])];
  }

  /** ASSETS="BTC, eth ,  " with a 120-second interval gives exactly the jobs
      fetch_BTC, compute_BTC, fetch_ETH and compute_ETH. */
  method EnvScheduleScenario() returns (schedule: Table)
    ensures schedule == map[
      "fetch_BTC" := Job("fetch_price", 120, ["BTC"]),
      "compute_BTC" := Job("compute_alerts", 120, ["BTC"]),
      "fetch_ETH" := Job("fetch_price", 120, ["ETH"]),
      "compute_ETH" := Job("compute_alerts", 120, ["ETH"])]
  {
    NormalizeExample();
    schedule := BuildBeatSchedule(["BTC", " eth ", "  "], 120);
    BeatTableTwo("BTC", "ETH", 120);
    ExampleKeys();
  }

  lemma ExampleKeys()
    ensures FetchKey("BTC") == "fetch_BTC" && ComputeKey("BTC") == "compute_BTC"
    ensures FetchKey("ETH") == "fetch_ETH" && ComputeKey("ETH") == "compute_ETH"
  {
  }
}
