/**
 Model discovery (admin-api/src/services/discovery.ts): a one-hour cache of the upstream
 list that is filtered on every read, and the rankings drawn from it.
 */
module Discovery {
  import opened Wrappers
  import opened Sorting

  // ── Provider prefixes, in the order the combined table is searched ──

  const CHINESE_PREFIXES: seq<(string, string)> := [
    ("deepseek/", "deepseek"), ("qwen/", "alibaba"), ("glm-", "zhipu"), ("zhipu/", "zhipu"),
    ("moonshot/", "moonshot"), ("moonshotai/", "moonshot"), ("minimax/", "minimax"), ("ernie/", "baidu"),
    ("baidu/", "baidu"), ("doubao/", "bytedance"), ("bytedance/", "bytedance"), ("bytedance-seed/", "bytedance"),
    ("spark/", "xunfei"), ("yi-", "lingyi"), ("01-ai/", "lingyi"), ("baichuan/", "baichuan"),
    ("hunyuan/", "tencent"), ("tencent/", "tencent"), ("step-", "stepfun")]

  const INTERNATIONAL_PREFIXES: seq<(string, string)> := [
    ("openai/", "openai"), ("anthropic/", "anthropic"), ("google/", "google"), ("meta-llama/", "meta"),
    ("mistral/", "mistral"), ("mistralai/", "mistral"), ("cohere/", "cohere"), ("amazon/", "amazon"),
    ("nvidia/", "nvidia"), ("x-ai/", "xai"), ("perplexity/", "perplexity"), ("together/", "together"),
    ("together-ai/", "together"), ("groq/", "groq"), ("replicate/", "replicate"), ("ai21/", "ai21"),
    ("inflection/", "inflection"), ("phind/", "phind"), ("recursal/", "recursal"), ("liquid/", "liquid"),
    ("sao10k/", "sao10k"), ("nousresearch/", "nous"), ("gryphe/", "gryphe"), ("teuken/", "teuken"),
    ("mancer/", "mancer"), ("cognitive/", "cognitive"), ("neversleep/", "neversleep"), ("elyza/", "elyza"),
    ("thedrummer/", "thedrummer"), ("undi95/", "undi95"), ("featherless/", "featherless"),
    ("infermatic/", "infermatic")]

  /** The slugs whose display entry is in region 'cn'; every other slug counts as international. */
  const CHINESE_SLUGS: set<string> := {
    "deepseek", "alibaba", "zhipu", "moonshot", "minimax", "baidu", "bytedance", "xunfei", "lingyi", "baichuan",
    "tencent", "stepfun"}

  function SlugIn(table: seq<(string, string)>, id: string): Option<string> {
    if table == [] then None
    else if table[0].0 <= id then Some(table[0].1)
    else SlugIn(table[1..], id)
  }

  function SlugOf(id: string): Option<string> {
    SlugIn(CHINESE_PREFIXES + INTERNATIONAL_PREFIXES, id)
  }

  predicate FinalSlash(p: string) {
    p != "" && p[|p| - 1] == '/' && forall k | 0 <= k < |p| - 1 :: p[k] != '/'
  }

  predicate Dashed(p: string) {
    p == "glm-" || p == "yi-" || p == "step-"
  }

  /** Does not begin with one of the dashed prefixes. */
  predicate Undashed(p: string) {
    !(|p| > 3 && p[0] == 'g' && p[3] == '-') && !(|p| > 2 && p[0] == 'y' && p[2] == '-')
    && !(|p| > 4 && p[0] == 's' && p[4] == '-')
  }

  /** A prefix ends at its only slash, or is one of three that end in a dash. */
  predicate Shaped(p: string) {
    Dashed(p) || (FinalSlash(p) && Undashed(p))
  }

  lemma ChineseShaped(i: nat)
    requires i < |CHINESE_PREFIXES|
    ensures Shaped(CHINESE_PREFIXES[i].0)
  {
    if i < 5 {} else if i < 10 {} else if i < 15 {} else {}
  }

  lemma FirstInternationalShaped(i: nat)
    requires i < 16
    ensures Shaped(INTERNATIONAL_PREFIXES[i].0)
  {
    if i < 4 {} else if i < 8 {} else if i < 12 {} else {}
  }

  lemma LastInternationalShaped(i: nat)
    requires 16 <= i < |INTERNATIONAL_PREFIXES|
    ensures Shaped(INTERNATIONAL_PREFIXES[i].0)
  {
    if i < 20 {} else if i < 24 {} else if i < 28 {} else {}
  }

  lemma TableShaped(i: nat)
    requires i < |CHINESE_PREFIXES + INTERNATIONAL_PREFIXES|
    ensures Shaped((CHINESE_PREFIXES + INTERNATIONAL_PREFIXES)[i].0)
  {
    var n := |CHINESE_PREFIXES|;
    if i < n { ChineseShaped(i); }
    else if i - n < 16 { FirstInternationalShaped(i - n); }
    else { LastInternationalShaped(i - n); }
  }

  lemma ShapedApart(p: string, q: string, id: string)
    requires Shaped(p) && Shaped(q) && p <= id && q <= id && |p| <= |q|
    ensures p == q
  {
    assert forall k | 0 <= k < |p| :: p[k] == q[k];
    assert p[|p| - 1] == q[|p| - 1] && p[0] == q[0];
  }

  /** The table is prefix-free: no two of its prefixes match one id, so the search order is immaterial. */
  lemma AtMostOnePrefix(id: string, i: nat, j: nat)
    requires var table := CHINESE_PREFIXES + INTERNATIONAL_PREFIXES;
             i < |table| && j < |table| && table[i].0 <= id && table[j].0 <= id
    ensures var table := CHINESE_PREFIXES + INTERNATIONAL_PREFIXES;
            table[i].0 == table[j].0
  {
    var table := CHINESE_PREFIXES + INTERNATIONAL_PREFIXES;
    TableShaped(i);
    TableShaped(j);
    if |table[i].0| <= |table[j].0| {
      ShapedApart(table[i].0, table[j].0, id);
    } else {
      ShapedApart(table[j].0, table[i].0, id);
    }
  }

  // ── Models ──

  /** An entry of the upstream list, absent numbers and texts already at their fallback. */
  datatype Upstream = Upstream(
    id: Option<string>, name: string, contextLength: int, maxOutput: int,
    promptPrice: real, completionPrice: real, modality: string, capabilities: set<string>, created: int)

  datatype Model = Model(
    id: string, name: string, slug: string, contextLength: int, maxOutput: int,
    promptPrice: real, completionPrice: real, modality: string, capabilities: set<string>, created: int)

  function Recognise(u: Upstream): Option<Model> {
    if u.id.None? || SlugOf(u.id.value).None? then None
    else Some(Model(u.id.value, if u.name == "" then u.id.value else u.name, SlugOf(u.id.value).value, u.contextLength,
                    u.maxOutput, u.promptPrice, u.completionPrice, u.modality, u.capabilities, u.created))
  }

  function RecogniseAll(list: seq<Upstream>): seq<Model> {
    if list == [] then []
    else
      var n := |list| - 1;
      var m := Recognise(list[n]);
      RecogniseAll(list[..n]) + if m.Some? then [m.value] else []
  }

  function Newness(m: Model): real {
    -(m.created as real)
  }

  /** The dataset a successful fetch leaves in the cache: recognised models, newest first. */
  function Dataset(list: seq<Upstream>): seq<Model> {
    Sort(RecogniseAll(list), Newness)
  }

  // ── Filters ──

  datatype Test =
    | Anything
    | Since(cutoff: int)
    | FromProvider(slug: string)
    | OneOf(slugs: set<string>)
    | Capable(capability: string)
    | Both(first: Test, second: Test)

  predicate Holds(t: Test, m: Model) {
    match t
    case Anything => true
    case Since(cutoff) => m.created >= cutoff
    case FromProvider(slug) => m.slug == slug
    case OneOf(slugs) => m.slug in slugs
    case Capable(c) => c in m.capabilities
    case Both(p, q) => Holds(p, m) && Holds(q, m)
  }

  function Filter(s: seq<Model>, t: Test): seq<Model> {
    if s == [] then []
    else
      var n := |s| - 1;
      Filter(s[..n], t) + if Holds(t, s[n]) then [s[n]] else []
  }

  lemma {:induction false} FilterMember(s: seq<Model>, t: Test, m: Model)
    ensures m in Filter(s, t) <==> m in s && Holds(t, m)
  {
    if s != [] {
      FilterMember(s[..|s| - 1], t, m);
      assert s == s[..|s| - 1] + [s[|s| - 1]];
    }
  }

  lemma FilterAppend(s: seq<Model>, m: Model, t: Test)
    ensures Holds(t, m) ==> Filter(s + [m], t) == Filter(s, t) + [m]
    ensures !Holds(t, m) ==> Filter(s + [m], t) == Filter(s, t)
  {
    assert (s + [m])[..|s|] == s;
  }

  lemma {:induction false} FilterBoth(s: seq<Model>, p: Test, q: Test)
    ensures Filter(Filter(s, p), q) == Filter(s, Both(p, q))
  {
    if s != [] {
      var n := |s| - 1;
      FilterBoth(s[..n], p, q);
      FilterAppend(Filter(s[..n], p), s[n], q);
      assert Filter(s[..n], p) + [] == Filter(s[..n], p);
      assert Holds(Both(p, q), s[n]) == (Holds(p, s[n]) && Holds(q, s[n]));
    }
  }

  lemma {:induction false} FilterAnything(s: seq<Model>)
    ensures Filter(s, Anything) == s
  {
    if s != [] { FilterAnything(s[..|s| - 1]); }
  }

  datatype Options = Options(days: int, provider: string, chineseOnly: bool, onlyNew: bool)

  function TestOf(o: Options, nowMs: nat): Test {
    Both(Both(if o.onlyNew then Since(nowMs / 1000 - o.days * 86400) else Anything,
              if o.provider != "" then FromProvider(o.provider) else Anything),
         if o.chineseOnly then OneOf(CHINESE_SLUGS) else Anything)
  }

  method ApplyIf(condition: bool, models: seq<Model>, t: Test) returns (filtered: seq<Model>)
    ensures filtered == Filter(models, if condition then t else Anything)
  {
    FilterAnything(models);
    filtered := if condition then Filter(models, t) else models;
  }

  /** `filterModels`: up to three filters in turn. */
  method FilterModels(models: seq<Model>, o: Options, nowMs: nat) returns (filtered: seq<Model>)
    ensures filtered == Filter(models, TestOf(o, nowMs))
  {
    var t := TestOf(o, nowMs);
    filtered := ApplyIf(o.onlyNew, models, Since(nowMs / 1000 - o.days * 86400));
    filtered := ApplyIf(o.provider != "", filtered, FromProvider(o.provider));
    FilterBoth(models, t.first.first, t.first.second);
    assert filtered == Filter(models, t.first);
    filtered := ApplyIf(o.chineseOnly, filtered, OneOf(CHINESE_SLUGS));
    FilterBoth(models, t.first, t.second);
  }

  // ── The cache ──

  const CACHE_TTL: nat := 3600000

  datatype Cache = Cache(data: seq<Model>, ts: nat)
  datatype Fetch = Unreachable | NotOk | Body(list: seq<Upstream>)

  /** One call: when it looks at the clock, what a fetch would bring, when that is stored, when it filters. */
  datatype Call = Call(askedAt: nat, fetch: Fetch, storedAt: nat, readAt: nat, options: Options)

  predicate Stale(cache: Option<Cache>, askedAt: nat) {
    cache.None? || askedAt - cache.value.ts >= CACHE_TTL
  }

  /** What a successful fetch leaves in the cache. */
  function Stored(call: Call): Cache
    requires call.fetch.Body?
  {
    Cache(Dataset(call.fetch.list), call.storedAt)
  }

  function After(cache: Option<Cache>, call: Call): Option<Cache> {
    if Stale(cache, call.askedAt) && call.fetch.Body? then Some(Stored(call)) else cache
  }

  function Answer(cache: Option<Cache>, call: Call): seq<Model> {
    var c := After(cache, call);
    if c.None? then [] else Filter(c.value.data, TestOf(call.options, call.readAt))
  }

  class Catalogue {
    var cache: Option<Cache>

    constructor ()
      ensures cache == None
    {
      cache := None;
    }

    method DiscoverModels(call: Call) returns (answer: seq<Model>)
      modifies this
      ensures cache == After(old(cache), call) && answer == Answer(old(cache), call)
    {
      if cache.None? || call.askedAt - cache.value.ts >= CACHE_TTL {
        match call.fetch
        case Body(list) =>
          var discovered: seq<Model> := [];
          for i := 0 to |list|
            invariant discovered == RecogniseAll(list[..i])
          {
            assert list[..i + 1][..i] == list[..i];
            var m := Recognise(list[i]);
            if m.Some? { discovered := discovered + [m.value]; }
          }
          assert list[..|list|] == list;
          discovered := Sort(discovered, Newness);
          cache := Some(Cache(discovered, call.storedAt));
        case _ =>
          if cache.None? { return []; }
      }
      answer := FilterModels(cache.value.data, call.options, call.readAt);
    }
  }

  /** The cache before call n of a run. */
  function Before(calls: seq<Call>, n: nat): Option<Cache>
    requires n <= |calls|
  {
    if n == 0 then None else After(Before(calls, n - 1), calls[n - 1])
  }

  /** Call k fetched, and the fetch succeeded. */
  predicate Refreshes(calls: seq<Call>, k: nat)
    requires k < |calls|
  {
    Stale(Before(calls, k), calls[k].askedAt) && calls[k].fetch.Body?
  }

  ghost predicate LastRefresh(calls: seq<Call>, n: nat, k: nat)
    requires n <= |calls|
  {
    k < n && Refreshes(calls, k) && forall i | k < i < n :: !Refreshes(calls, i)
  }

  /** The last successful fetch among the first n calls. */
  function LastFetch(calls: seq<Call>, n: nat): Option<nat>
    requires n <= |calls|
  {
    if n == 0 then None else if Refreshes(calls, n - 1) then Some(n - 1) else LastFetch(calls, n - 1)
  }

  lemma {:induction false} LastFetchIs(calls: seq<Call>, n: nat, k: nat)
    requires n <= |calls|
    ensures LastFetch(calls, n) == Some(k) <==> LastRefresh(calls, n, k)
    ensures LastFetch(calls, n).None? ==> forall j | 0 <= j < n :: !Refreshes(calls, j)
  {
    if n > 0 {
      LastFetchIs(calls, n - 1, k);
      if Refreshes(calls, n - 1) {
        assert LastRefresh(calls, n, k) <==> k == n - 1;
      } else {
        assert LastRefresh(calls, n, k) <==> LastRefresh(calls, n - 1, k);
      }
    }
  }

  /** The cache holds what the last successful fetch stored. */
  lemma {:induction false} CacheIsLastRefresh(calls: seq<Call>, n: nat)
    requires n <= |calls|
    ensures var last := LastFetch(calls, n);
            if last.None? then Before(calls, n) == None
            else last.value < n && calls[last.value].fetch.Body? && Before(calls, n) == Some(Stored(calls[last.value]))
  {
    if n > 0 { CacheIsLastRefresh(calls, n - 1); }
  }

  /**
   Every answer is the filtered dataset of the last successful fetch, this call's included,
   and that fetch is under an hour old unless this call tried to refetch and failed.
   */
  lemma AnswersFollowTheLastFetch(calls: seq<Call>, i: nat, k: nat)
    requires i < |calls| && LastRefresh(calls, i + 1, k)
    ensures Answer(Before(calls, i), calls[i])
         == Filter(Dataset(calls[k].fetch.list), TestOf(calls[i].options, calls[i].readAt))
    ensures k == i || calls[i].askedAt - calls[k].storedAt < CACHE_TTL
            || (Stale(Before(calls, i), calls[i].askedAt) && !calls[i].fetch.Body?)
  {
    LastFetchIs(calls, i + 1, k);
    CacheIsLastRefresh(calls, i + 1);
    if k != i { CacheIsLastRefresh(calls, i); }
  }

  /** With no successful fetch so far the answer is empty; otherwise there is a last one. */
  lemma NoFetchNoAnswer(calls: seq<Call>, i: nat)
    requires i < |calls|
    ensures if forall k | 0 <= k <= i :: !Refreshes(calls, k) then Answer(Before(calls, i), calls[i]) == []
            else exists k {:trigger LastRefresh(calls, i + 1, k)} :: LastRefresh(calls, i + 1, k)
  {
    CacheIsLastRefresh(calls, i + 1);
    var last := LastFetch(calls, i + 1);
    LastFetchIs(calls, i + 1, if last.Some? then last.value else 0);
  }

  /** What an answer contains: the models of the dataset that pass every requested test. */
  lemma AnswerMeans(s: seq<Model>, o: Options, nowMs: nat, m: Model)
    ensures m in Filter(s, TestOf(o, nowMs)) <==>
            m in s && (o.onlyNew ==> m.created >= nowMs / 1000 - o.days * 86400)
            && (o.provider != "" ==> m.slug == o.provider) && (o.chineseOnly ==> m.slug in CHINESE_SLUGS)
  {
    var t := TestOf(o, nowMs);
    FilterMember(s, t, m);
    assert Holds(t, m) == (Holds(t.first, m) && Holds(t.second, m));
    assert Holds(t.first, m) == (Holds(t.first.first, m) && Holds(t.first.second, m));
  }

  /** Every cached dataset is newest first. */
  lemma DatasetIsNewestFirst(list: seq<Upstream>)
    ensures SortedBy(Dataset(list), Newness) && multiset(Dataset(list)) == multiset(RecogniseAll(list))
  {
    SortIsStable(RecogniseAll(list), Newness);
  }

  // ── Rankings ──

  datatype Dimension = Context | PriceLow | OutputTokens | Newest

  function Rank(d: Dimension): Model -> real {
    match d
    case Context => (m: Model) => -(m.contextLength as real)
    case PriceLow => (m: Model) => m.promptPrice + m.completionPrice
    case OutputTokens => (m: Model) => -(m.maxOutput as real)
    case Newest => Newness
  }

  /** First occurrence of each id. */
  function Dedupe(s: seq<Model>): seq<Model> {
    if s == [] then []
    else
      var n := |s| - 1;
      Dedupe(s[..n]) + if HasId(s[..n], s[n].id) then [] else [s[n]]
  }

  predicate HasId(s: seq<Model>, id: string) {
    exists m | m in s :: m.id == id
  }

  function Candidates(all: seq<Model>, provider: string, capability: string): seq<Model> {
    Filter(Filter(Dedupe(all), if provider != "" then FromProvider(provider) else Anything),
           if capability != "" then Capable(capability) else Anything)
  }

  datatype Entry = Entry(
    rank: nat, modelId: string, name: string, slug: string, contextLength: int, maxOutput: int,
    inputPrice: real, outputPrice: real, modality: string, capabilities: set<string>)

  function EntryOf(m: Model, rank: nat): Entry {
    Entry(rank, m.id, m.name, m.slug, m.contextLength, m.maxOutput,
          m.promptPrice * 1000000.0, m.completionPrice * 1000000.0, m.modality, m.capabilities)
  }

  /** How many elements `slice(0, limit)` keeps of n: a negative limit counts from the end. */
  function SliceLength(n: nat, limit: int): (k: nat)
    ensures k <= n
  {
    if limit >= 0 then (if limit < n then limit else n) else if n + limit > 0 then n + limit else 0
  }

  /** The `seen` loop of `getRankings`. */
  method Deduplicate(all: seq<Model>) returns (unique: seq<Model>)
    ensures unique == Dedupe(all)
  {
    var seen: set<string> := {};
    unique := [];
    for i := 0 to |all|
      invariant unique == Dedupe(all[..i])
      invariant forall id :: id in seen <==> HasId(all[..i], id)
    {
      var m := all[i];
      assert all[..i + 1] == all[..i] + [m];
      HasIdAppend(all[..i], m);
      DedupeAppend(all[..i], m);
      if m.id !in seen {
        seen := seen + {m.id};
        unique := unique + [m];
      }
    }
    assert all[..|all|] == all;
  }

  lemma HasIdAppend(s: seq<Model>, m: Model)
    ensures forall id :: HasId(s + [m], id) <==> HasId(s, id) || m.id == id
  {
    assert m in s + [m];
  }

  method GetRankings(all: seq<Model>, d: Dimension, limit: int, provider: string, capability: string)
    returns (out: seq<Entry>)
    ensures out == Rankings(Sort(Candidates(all, provider, capability), Rank(d)), limit)
  {
    var unique := Deduplicate(all);
    unique := ApplyIf(provider != "", unique, FromProvider(provider));
    unique := ApplyIf(capability != "", unique, Capable(capability));
    unique := Sort(unique, Rank(d));
    out := Rankings(unique, limit);
  }

  /** `slice(0, limit).map(...)`. */
  function Rankings(ranked: seq<Model>, limit: int): (out: seq<Entry>)
    ensures |out| == SliceLength(|ranked|, limit)
  {
    seq(SliceLength(|ranked|, limit), i requires 0 <= i < SliceLength(|ranked|, limit) => EntryOf(ranked[i], i + 1))
  }

  ghost predicate DistinctIds(s: seq<Model>) {
    forall i, j | 0 <= i < j < |s| :: s[i].id != s[j].id
  }

  lemma {:induction false} DedupeFacts(s: seq<Model>)
    ensures DistinctIds(Dedupe(s))
    ensures forall m | m in Dedupe(s) :: m in s
    ensures forall id :: HasId(Dedupe(s), id) <==> HasId(s, id)
  {
    if s != [] {
      var n := |s| - 1;
      DedupeFacts(s[..n]);
      assert s == s[..n] + [s[n]];
      HasIdAppend(s[..n], s[n]);
      if !HasId(s[..n], s[n].id) {
        var d := Dedupe(s[..n]);
        HasIdAppend(d, s[n]);
        forall i | 0 <= i < |d| ensures d[i].id != s[n].id { assert d[i] in d; }
      }
    }
  }

  lemma {:induction false} FilterDistinct(s: seq<Model>, t: Test)
    requires DistinctIds(s)
    ensures DistinctIds(Filter(s, t))
  {
    if s != [] {
      var n := |s| - 1;
      FilterDistinct(s[..n], t);
      var f := Filter(s[..n], t);
      forall i | 0 <= i < |f| ensures f[i].id != s[n].id {
        FilterMember(s[..n], t, f[i]);
        var k :| 0 <= k < n && s[..n][k] == f[i];
        assert s[k] == f[i];
      }
    }
  }

  lemma {:induction false} FilterSorted(s: seq<Model>, t: Test, rank: Model -> real)
    requires SortedBy(s, rank)
    ensures SortedBy(Filter(s, t), rank)
  {
    if s != [] {
      var n := |s| - 1;
      FilterSorted(s[..n], t, rank);
      var f := Filter(s[..n], t);
      forall i | 0 <= i < |f| ensures rank(f[i]) <= rank(s[n]) {
        FilterMember(s[..n], t, f[i]);
        var k :| 0 <= k < n && s[..n][k] == f[i];
        assert s[k] == f[i];
      }
    }
  }

  lemma CacheIsNewestFirst(calls: seq<Call>, n: nat)
    requires n <= |calls|
    ensures Before(calls, n).Some? ==> SortedBy(Before(calls, n).value.data, Newness)
  {
    CacheIsLastRefresh(calls, n);
    var last := LastFetch(calls, n);
    if last.Some? { DatasetIsNewestFirst(calls[last.value].fetch.list); }
  }

  /** What `getRankings` starts from: every answer of every run is newest first. */
  lemma AnswersAreNewestFirst(calls: seq<Call>, i: nat)
    requires i < |calls|
    ensures SortedBy(Answer(Before(calls, i), calls[i]), Newness)
  {
    CacheIsNewestFirst(calls, i + 1);
    var c := Before(calls, i + 1);
    if c.Some? { FilterSorted(c.value.data, TestOf(calls[i].options, calls[i].readAt), Newness); }
  }

  lemma {:induction false} DedupeSorted(s: seq<Model>, rank: Model -> real)
    requires SortedBy(s, rank)
    ensures SortedBy(Dedupe(s), rank)
  {
    if s != [] {
      var n := |s| - 1;
      DedupeSorted(s[..n], rank);
      DedupeFacts(s[..n]);
      var d := Dedupe(s[..n]);
      forall i | 0 <= i < |d| ensures rank(d[i]) <= rank(s[n]) {
        assert d[i] in d;
        var k :| 0 <= k < n && s[..n][k] == d[i];
        assert s[k] == d[i];
      }
    }
  }

  /** The ranked candidates: distinct, in order of the dimension, ties newest first. */
  lemma RankedFacts(all: seq<Model>, d: Dimension, provider: string, capability: string)
    requires SortedBy(all, Newness)
    ensures var c := Candidates(all, provider, capability);
            var ranked := Sort(c, Rank(d));
            && multiset(ranked) == multiset(c) && DistinctIds(c) && SortedBy(c, Newness)
            && SortedBy(ranked, Rank(d))
            && (forall i, j | 0 <= i < j < |ranked| ::
                  Rank(d)(ranked[i]) == Rank(d)(ranked[j]) ==> ranked[i].created >= ranked[j].created)
  {
    var c := Candidates(all, provider, capability);
    DedupeFacts(all);
    DedupeSorted(all, Newness);
    var t := if provider != "" then FromProvider(provider) else Anything;
    var u := if capability != "" then Capable(capability) else Anything;
    FilterDistinct(Dedupe(all), t);
    FilterSorted(Dedupe(all), t, Newness);
    FilterDistinct(Filter(Dedupe(all), t), u);
    FilterSorted(Filter(Dedupe(all), t), u, Newness);
    SortIsStable(c, Rank(d));
    SortKeepsTieOrder(c, Rank(d), Newness);
    forall i, j | 0 <= i < j < |Sort(c, Rank(d))| && Rank(d)(Sort(c, Rank(d))[i]) == Rank(d)(Sort(c, Rank(d))[j])
      ensures Sort(c, Rank(d))[i].created >= Sort(c, Rank(d))[j].created
    {
      assert Newness(Sort(c, Rank(d))[i]) <= Newness(Sort(c, Rank(d))[j]);
    }
  }

  lemma {:induction false} AtMostOnce(c: seq<Model>, m: Model)
    requires DistinctIds(c)
    ensures multiset(c)[m] <= 1
  {
    if c != [] {
      assert c == [c[0]] + c[1..];
      AtMostOnce(c[1..], m);
      if c[0] == m { assert m !in c[1..]; }
    }
  }

  lemma TwoCopies(s: seq<Model>, i: nat, j: nat)
    requires i < j < |s| && s[i] == s[j]
    ensures multiset(s)[s[i]] >= 2
  {
    assert s == s[..j] + s[j..] && s[i] in s[..j] && s[i] in s[j..];
  }

  lemma PermutationKeepsIds(c: seq<Model>, ranked: seq<Model>)
    requires multiset(ranked) == multiset(c) && DistinctIds(c)
    ensures DistinctIds(ranked)
  {
    forall i, j | 0 <= i < j < |ranked| ensures ranked[i].id != ranked[j].id {
      var m := ranked[i];
      assert m in multiset(c) && ranked[j] in multiset(c);
      var k :| 0 <= k < |c| && c[k] == m;
      var l :| 0 <= l < |c| && c[l] == ranked[j];
      if m == ranked[j] {
        TwoCopies(ranked, i, j);
        AtMostOnce(c, m);
      }
    }
  }

  lemma SameMembers(c: seq<Model>, ranked: seq<Model>)
    requires multiset(ranked) == multiset(c)
    ensures |ranked| == |c| && forall m :: m in ranked <==> m in c
  {
    assert |multiset(ranked)| == |multiset(c)|;
    forall m ensures m in ranked <==> m in c { assert m in multiset(ranked) <==> m in multiset(c); }
  }

  /** Before in the chosen dimension, or level with it and no older. */
  predicate Outranks(d: Dimension, a: Model, b: Model) {
    Rank(d)(a) < Rank(d)(b) || (Rank(d)(a) == Rank(d)(b) && a.created >= b.created)
  }

  lemma LeftOutIsOutranked(ranked: seq<Model>, d: Dimension, limit: int, m: Model, i: nat)
    requires (forall j, k | 0 <= j < k < |ranked| :: Outranks(d, ranked[j], ranked[k]))
    requires m in ranked && i < |Rankings(ranked, limit)|
    ensures HasEntry(Rankings(ranked, limit), m.id) || Outranks(d, ranked[i], m)
  {
    var k :| 0 <= k < |ranked| && ranked[k] == m;
    if k < |Rankings(ranked, limit)| { assert Rankings(ranked, limit)[k].modelId == m.id; }
  }

  lemma SliceIsTopK(c: seq<Model>, ranked: seq<Model>, d: Dimension, limit: int)
    requires multiset(ranked) == multiset(c) && DistinctIds(c)
    requires forall j, k | 0 <= j < k < |ranked| :: Outranks(d, ranked[j], ranked[k])
    ensures var out := Rankings(ranked, limit);
            && |out| == SliceLength(|c|, limit)
            && (forall i | 0 <= i < |out| ::
                  out[i].rank == i + 1 && out[i].modelId == ranked[i].id && ranked[i] in c)
            && (forall i, j | 0 <= i < j < |out| :: out[i].modelId != out[j].modelId)
            && (forall m, i | m in c && 0 <= i < |out| :: HasEntry(out, m.id) || Outranks(d, ranked[i], m))
  {
    var out := Rankings(ranked, limit);
    PermutationKeepsIds(c, ranked);
    SameMembers(c, ranked);
    forall m, i | m in c && 0 <= i < |out| ensures HasEntry(out, m.id) || Outranks(d, ranked[i], m) {
      LeftOutIsOutranked(ranked, d, limit, m, i);
    }
  }

  /**
   The rankings: distinct ids ranked 1..n, as many as the limit allows, in order of the
   chosen dimension with ties newest first, and every candidate left out is outranked by all
   of them: later in the dimension, or level and no newer.
   */
  lemma RankingsAreTopK(all: seq<Model>, d: Dimension, limit: int, provider: string, capability: string)
    requires SortedBy(all, Newness)
    ensures var c := Candidates(all, provider, capability);
            var ranked := Sort(c, Rank(d));
            var out := Rankings(ranked, limit);
            && |out| == SliceLength(|c|, limit)
            && (forall i | 0 <= i < |out| ::
                  out[i].rank == i + 1 && out[i].modelId == ranked[i].id && ranked[i] in c)
            && (forall i, j | 0 <= i < j < |out| ::
                  out[i].modelId != out[j].modelId && Outranks(d, ranked[i], ranked[j]))
            && (forall m, i | m in c && 0 <= i < |out| :: HasEntry(out, m.id) || Outranks(d, ranked[i], m))
  {
    RankedFacts(all, d, provider, capability);
    var c := Candidates(all, provider, capability);
    SliceIsTopK(c, Sort(c, Rank(d)), d, limit);
  }

  predicate HasEntry(out: seq<Entry>, id: string) {
    exists i | 0 <= i < |out| :: out[i].modelId == id
  }

  /** Sorting by newness changes nothing: the dataset already is. */
  lemma NewestChangesNothing(all: seq<Model>, provider: string, capability: string)
    requires SortedBy(all, Newness)
    ensures Sort(Candidates(all, provider, capability), Rank(Newest)) == Candidates(all, provider, capability)
  {
    RankedFacts(all, Newest, provider, capability);
    SortOfSorted(Candidates(all, provider, capability), Newness);
  }

  // ── Filters and duplicates ──

  lemma DedupeAppend(s: seq<Model>, m: Model)
    ensures HasId(s, m.id) ==> Dedupe(s + [m]) == Dedupe(s)
    ensures !HasId(s, m.id) ==> Dedupe(s + [m]) == Dedupe(s) + [m]
  {
    assert (s + [m])[..|s|] == s;
  }

  /** Whenever a model passes, so does the first model of its id, the one that removing duplicates keeps. */
  ghost predicate FirstPasses(s: seq<Model>, t: Test) {
    forall m | m in s && Holds(t, m) :: Represented(Dedupe(s), t, m.id)
  }

  predicate Represented(unique: seq<Model>, t: Test, id: string) {
    exists d | d in unique :: d.id == id && Holds(t, d)
  }

  lemma FilterHasId(s: seq<Model>, t: Test, id: string)
    ensures HasId(Filter(s, t), id) <==> Represented(s, t, id)
  {
    forall m ensures m in Filter(s, t) <==> m in s && Holds(t, m) { FilterMember(s, t, m); }
  }

  lemma CommuteStep(p: seq<Model>, m: Model, t: Test)
    requires Dedupe(Filter(p, t)) == Filter(Dedupe(p), t)
    requires Holds(t, m) && HasId(p, m.id) ==> Represented(p, t, m.id)
    ensures Dedupe(Filter(p + [m], t)) == Filter(Dedupe(p + [m]), t)
  {
    FilterAppend(p, m, t);
    DedupeAppend(p, m);
    FilterHasId(p, t, m.id);
    if !HasId(p, m.id) { FilterAppend(Dedupe(p), m, t); }
    if Holds(t, m) { DedupeAppend(Filter(p, t), m); }
  }

  /** The condition carries over to a shorter list: a later duplicate represents nobody. */
  lemma FirstPassesBefore(p: seq<Model>, m: Model, t: Test)
    requires FirstPasses(p + [m], t)
    ensures FirstPasses(p, t) && (Holds(t, m) && HasId(p, m.id) ==> Represented(p, t, m.id))
  {
    DedupeAppend(p, m);
    DedupeFacts(p);
    forall o | o in p + [m] && Holds(t, o) && HasId(p, o.id) ensures Represented(Dedupe(p), t, o.id) {
      var d :| d in Dedupe(p + [m]) && d.id == o.id && Holds(t, d);
      assert d in Dedupe(p);
    }
    assert m in p + [m];
    forall o | o in p && Holds(t, o) ensures Represented(Dedupe(p), t, o.id) { assert o in p + [m]; }
    if Holds(t, m) && HasId(p, m.id) {
      var d :| d in Dedupe(p) && d.id == m.id && Holds(t, d);
      assert d in p;
    }
  }

  lemma {:induction false} FirstPassesCommutes(s: seq<Model>, t: Test)
    requires FirstPasses(s, t)
    ensures Dedupe(Filter(s, t)) == Filter(Dedupe(s), t)
  {
    if s != [] {
      var n := |s| - 1;
      assert s == s[..n] + [s[n]];
      FirstPassesBefore(s[..n], s[n], t);
      FirstPassesCommutes(s[..n], t);
      CommuteStep(s[..n], s[n], t);
    }
  }

  /**
   Filtering before or after removing duplicates gives the same models if and only if the
   first model of every id passes whenever any model of that id does.
   */
  lemma FilterCommutesIff(s: seq<Model>, t: Test)
    ensures Dedupe(Filter(s, t)) == Filter(Dedupe(s), t) <==> FirstPasses(s, t)
  {
    if FirstPasses(s, t) {
      FirstPassesCommutes(s, t);
    } else {
      var m :| m in s && Holds(t, m) && !Represented(Dedupe(s), t, m.id);
      FilterMember(s, t, m);
      DedupeFacts(Filter(s, t));
      FilterHasId(Dedupe(s), t, m.id);
      assert HasId(Filter(s, t), m.id);
    }
  }

  lemma {:induction false} RecognisedSlugs(list: seq<Upstream>)
    ensures forall m | m in RecogniseAll(list) :: SlugOf(m.id) == Some(m.slug)
  {
    if list != [] { RecognisedSlugs(list[..|list| - 1]); }
  }

  /**
   The id alone decides the provider, so in every dataset filtering by provider before or
   after removing duplicates gives the same models.
   */
  lemma ProviderFilterCommutes(list: seq<Upstream>, slug: string)
    ensures var all := Dataset(list);
            Dedupe(Filter(all, FromProvider(slug))) == Filter(Dedupe(all), FromProvider(slug))
  {
    var all := Dataset(list);
    RecognisedSlugs(list);
    DatasetIsNewestFirst(list);
    forall m | m in all ensures SlugOf(m.id) == Some(m.slug) {
      assert m in multiset(all);
      assert m in RecogniseAll(list);
    }
    DedupeFacts(all);
    forall m | m in all && Holds(FromProvider(slug), m) ensures Represented(Dedupe(all), FromProvider(slug), m.id) {
      assert HasId(all, m.id);
      var d :| d in Dedupe(all) && d.id == m.id;
      assert d in all;
    }
    FilterCommutesIff(all, FromProvider(slug));
  }

  /** Two upstream entries of one id; only the second, the older, has the capability. */
  function Duplicates(id: string, capability: string, created: int): seq<Upstream> {
    var newer := Upstream(Some(id), "", 0, 0, 0.0, 0.0, "", {}, created);
    [newer, newer.(capabilities := {capability}, created := created - 1)]
  }

  lemma DuplicatesDataset(id: string, capability: string, created: int)
    requires SlugOf(id).Some?
    ensures var list := Duplicates(id, capability, created);
            Dataset(list) == [Recognise(list[0]).value, Recognise(list[1]).value]
  {
    var list := Duplicates(id, capability, created);
    var newer, older := Recognise(list[0]).value, Recognise(list[1]).value;
    assert list[..1] == [list[0]] && list[..1][..0] == [] && list[..2] == list;
    assert RecogniseAll(list[..1]) == RecogniseAll([]) + [newer];
    assert RecogniseAll(list) == RecogniseAll(list[..1]) + [older];
    SortOfSorted([newer, older], Newness);
  }

  /**
   Capabilities are not fixed by the id: in the dataset of any recognised id whose older
   duplicate alone has one, filtering first keeps that model and removing duplicates first loses it.
   */
  lemma CapabilityFilterDoesNotCommute(id: string, capability: string, created: int)
    requires SlugOf(id).Some?
    ensures var all := Dataset(Duplicates(id, capability, created));
            Dedupe(Filter(all, Capable(capability))) != Filter(Dedupe(all), Capable(capability))
  {
    var list, t := Duplicates(id, capability, created), Capable(capability);
    var all := Dataset(list);
    DuplicatesDataset(id, capability, created);
    var newer, older := all[0], all[1];
    DedupeAppend([], newer);
    DedupeAppend([newer], older);
    assert [] + [newer] == [newer] && [newer] + [older] == all && newer in [newer];
    assert Dedupe(all) == [newer] && !Represented([newer], t, id);
    assert older in all && Holds(t, older);
    FilterCommutesIff(all, t);
  }
}
