/**
 Discovery and rankings spelled out (admin-api/src/services/discovery.ts): which upstream entries become
 which models, when a call fetches, and what a ranking lists in which order.
 */
module DiscoveryAnswers {
  import opened Wrappers
  import opened Sorting
  import opened Discovery

  // ── From the upstream list to the dataset ──

  lemma {:induction false} SlugInMeans(table: seq<(string, string)>, id: string)
    ensures SlugIn(table, id).Some? ==>
              exists i | 0 <= i < |table| :: table[i].0 <= id && table[i].1 == SlugIn(table, id).value
                                             && forall j | 0 <= j < i :: !(table[j].0 <= id)
    ensures SlugIn(table, id).None? ==> forall i | 0 <= i < |table| :: !(table[i].0 <= id)
  {
    if table != [] {
      SlugInMeans(table[1..], id);
      assert forall i | 0 <= i < |table| - 1 :: table[1..][i] == table[i + 1];
      if !(table[0].0 <= id) && SlugIn(table, id).Some? {
        var i :| 0 <= i < |table[1..]| && table[1..][i].0 <= id && table[1..][i].1 == SlugIn(table[1..], id).value
                 && forall j | 0 <= j < i :: !(table[1..][j].0 <= id);
        assert forall j | 0 < j < i + 1 :: table[j] == table[1..][j - 1];
        assert table[i + 1].0 <= id && table[i + 1].1 == SlugIn(table, id).value;
      }
    }
  }

  /** The model an upstream entry becomes: its own fields, the id for a missing name, the provider of its prefix. */
  predicate Becomes(u: Upstream, m: Model) {
    && u.id == Some(m.id) && SlugIn(CHINESE_PREFIXES + INTERNATIONAL_PREFIXES, m.id) == Some(m.slug)
    && m.name == (if u.name == "" then m.id else u.name)
    && m.contextLength == u.contextLength && m.maxOutput == u.maxOutput
    && m.promptPrice == u.promptPrice && m.completionPrice == u.completionPrice
    && m.modality == u.modality && m.capabilities == u.capabilities && m.created == u.created
  }

  lemma {:induction false} RecognisedAre(list: seq<Upstream>, m: Model)
    ensures m in RecogniseAll(list) <==> exists u | u in list :: Becomes(u, m)
  {
    if list != [] {
      var n := |list| - 1;
      RecognisedAre(list[..n], m);
      assert list == list[..n] + [list[n]];
      assert Recognise(list[n]) == Some(m) <==> Becomes(list[n], m);
      if u :| u in list && Becomes(u, m) { assert u in list[..n] || u == list[n]; }
    }
  }

  /** A dataset holds exactly the models its upstream list becomes. */
  lemma DatasetIs(list: seq<Upstream>, m: Model)
    ensures m in Dataset(list) <==> exists u | u in list :: Becomes(u, m)
  {
    DatasetIsNewestFirst(list);
    RecognisedAre(list, m);
    assert m in Dataset(list) <==> m in multiset(Dataset(list));
    assert m in RecogniseAll(list) <==> m in multiset(RecogniseAll(list));
  }

  // ── When a call fetches ──

  /** Less than an hour old, the cache is used as it is; otherwise a successful fetch replaces it, and only that. */
  lemma CallOutcome(cache: Option<Cache>, call: Call)
    ensures var after := After(cache, call);
            var current := cache.Some? && call.askedAt - cache.value.ts < 3600000;
            && (current || !call.fetch.Body? ==> after == cache)
            && (!current && call.fetch.Body? ==>
                  after.Some? && after.value.ts == call.storedAt
                  && forall m :: m in after.value.data <==> exists u | u in call.fetch.list :: Becomes(u, m))
            && (after.None? ==> Answer(cache, call) == [])
  {
    if call.fetch.Body? {
      forall m ensures m in Dataset(call.fetch.list) <==> exists u | u in call.fetch.list :: Becomes(u, m) {
        DatasetIs(call.fetch.list, m);
      }
    }
  }

  // ── Rankings ──

  /** The first model of its id, of the wanted provider and capability. */
  ghost predicate IsCandidate(all: seq<Model>, m: Model, provider: string, capability: string) {
    && (provider == "" || m.slug == provider) && (capability == "" || capability in m.capabilities)
    && exists i | 0 <= i < |all| :: all[i] == m && forall j | 0 <= j < i :: all[j].id != m.id
  }

  ghost predicate FirstOfId(all: seq<Model>, m: Model) {
    exists i | 0 <= i < |all| :: all[i] == m && forall j | 0 <= j < i :: all[j].id != m.id
  }

  lemma FirstOfIdAppend(p: seq<Model>, last: Model, m: Model)
    ensures FirstOfId(p + [last], m) <==> FirstOfId(p, m) || (last == m && !HasId(p, m.id))
  {
    var all := p + [last];
    if FirstOfId(p, m) {
      var i :| 0 <= i < |p| && p[i] == m && forall j | 0 <= j < i :: p[j].id != m.id;
      assert all[i] == m && forall j | 0 <= j < i :: all[j] == p[j];
    }
    if last == m && !HasId(p, m.id) {
      assert all[|p|] == m;
      forall j | 0 <= j < |p| ensures all[j].id != m.id { assert p[j] in p; }
    }
    if FirstOfId(all, m) {
      var i :| 0 <= i < |all| && all[i] == m && forall j | 0 <= j < i :: all[j].id != m.id;
      if i < |p| {
        assert p[i] == m && forall j | 0 <= j < i :: p[j] == all[j];
      } else {
        forall o | o in p ensures o.id != m.id {
          var j :| 0 <= j < |p| && p[j] == o;
          assert all[j] == o;
        }
      }
    }
  }

  lemma {:induction false} DedupeAre(all: seq<Model>, m: Model)
    ensures m in Dedupe(all) <==> FirstOfId(all, m)
  {
    if all != [] {
      var n := |all| - 1;
      assert all == all[..n] + [all[n]];
      DedupeAre(all[..n], m);
      DedupeAppend(all[..n], all[n]);
      FirstOfIdAppend(all[..n], all[n], m);
    }
  }

  lemma CandidatesAre(all: seq<Model>, m: Model, provider: string, capability: string)
    ensures m in Candidates(all, provider, capability) <==> IsCandidate(all, m, provider, capability)
  {
    var t := if provider != "" then FromProvider(provider) else Anything;
    var u := if capability != "" then Capable(capability) else Anything;
    DedupeAre(all, m);
    FilterMember(Dedupe(all), t, m);
    FilterMember(Filter(Dedupe(all), t), u, m);
  }

  /** Larger windows and outputs first, lower prices first, newer models first. */
  predicate NoLater(d: Dimension, a: Model, b: Model) {
    match d
    case Context => a.contextLength > b.contextLength || (a.contextLength == b.contextLength && a.created >= b.created)
    case OutputTokens => a.maxOutput > b.maxOutput || (a.maxOutput == b.maxOutput && a.created >= b.created)
    case PriceLow =>
      a.promptPrice + a.completionPrice < b.promptPrice + b.completionPrice
      || (a.promptPrice + a.completionPrice == b.promptPrice + b.completionPrice && a.created >= b.created)
    case Newest => a.created >= b.created
  }

  /** An entry shows its own model. */
  predicate Shows(e: Entry, m: Model) {
    && e.modelId == m.id && e.name == m.name && e.slug == m.slug
    && e.contextLength == m.contextLength && e.maxOutput == m.maxOutput
    && e.inputPrice == m.promptPrice * 1000000.0 && e.outputPrice == m.completionPrice * 1000000.0
    && e.modality == m.modality && e.capabilities == m.capabilities
  }

  lemma OutranksIs(d: Dimension, a: Model, b: Model)
    ensures Outranks(d, a, b) <==> NoLater(d, a, b)
  {
  }

  /** How many of n a `slice(0, limit)` keeps. */
  predicate Keeps(n: nat, limit: int, kept: nat) {
    if limit >= 0 then kept == (if n < limit then n else limit)
    else kept == (if n < -limit then 0 else n + limit)
  }

  lemma {:induction false} SizeOfDistinct(c: seq<Model>)
    requires DistinctIds(c)
    ensures |set m | m in c| == |c|
  {
    if c != [] {
      var n := |c| - 1;
      var rest := c[..n];
      SizeOfDistinct(rest);
      assert c == rest + [c[n]];
      assert (set m | m in c) == (set m | m in rest) + {c[n]};
    }
  }

  /** What a ranking lists: the first candidates of the order, each shown as it is. */
  ghost predicate Lists(out: seq<Entry>, shown: seq<Model>, d: Dimension, all: seq<Model>, provider: string,
                        capability: string)
  {
    && |out| == |shown|
    && (forall i | 0 <= i < |out| ::
          out[i].rank == i + 1 && Shows(out[i], shown[i]) && IsCandidate(all, shown[i], provider, capability))
    && (forall i, j | 0 <= i < j < |shown| :: NoLater(d, shown[i], shown[j]) && shown[i].id != shown[j].id)
    && (forall m, i | IsCandidate(all, m, provider, capability) && m !in shown && 0 <= i < |shown| ::
          NoLater(d, shown[i], m))
  }

  lemma SliceLists(
    c: seq<Model>, ranked: seq<Model>, d: Dimension, limit: int, all: seq<Model>, provider: string, capability: string)
    requires multiset(ranked) == multiset(c) && DistinctIds(c)
    requires forall j, k | 0 <= j < k < |ranked| :: Outranks(d, ranked[j], ranked[k])
    requires forall m :: m in c <==> IsCandidate(all, m, provider, capability)
    ensures var out := Rankings(ranked, limit);
            |out| <= |ranked| && Lists(out, ranked[..|out|], d, all, provider, capability)
  {
    var out := Rankings(ranked, limit);
    var shown := ranked[..|out|];
    PermutationKeepsIds(c, ranked);
    SameMembers(c, ranked);
    forall m, i | IsCandidate(all, m, provider, capability) && m !in shown && 0 <= i < |shown|
      ensures NoLater(d, shown[i], m)
    {
      LeftOutComesLater(ranked, d, limit, m, i);
    }
    forall i, j | 0 <= i < j < |shown| ensures NoLater(d, shown[i], shown[j]) { OutranksIs(d, ranked[i], ranked[j]); }
  }

  /**
   The rankings of a dataset, newest first, spelled out: as many candidates as the limit keeps, in order;
   each candidate is shown or comes no earlier than any that is.
   */
  lemma RankingsSpelledOut(all: seq<Model>, d: Dimension, limit: int, provider: string, capability: string)
    returns (shown: seq<Model>)
    requires SortedBy(all, Newness)
    ensures var out := Rankings(Sort(Candidates(all, provider, capability), Rank(d)), limit);
            && Lists(out, shown, d, all, provider, capability)
            && Keeps(|set m | m in all && IsCandidate(all, m, provider, capability)|, limit, |out|)
  {
    var c := Candidates(all, provider, capability);
    var ranked := Sort(c, Rank(d));
    RankedFacts(all, d, provider, capability);
    forall m ensures m in c <==> IsCandidate(all, m, provider, capability) {
      CandidatesAre(all, m, provider, capability);
    }
    CandidateCount(all, c, provider, capability);
    SameMembers(c, ranked);
    SliceLists(c, ranked, d, limit, all, provider, capability);
    shown := ranked[..|Rankings(ranked, limit)|];
  }

  lemma CandidateCount(all: seq<Model>, c: seq<Model>, provider: string, capability: string)
    requires DistinctIds(c) && forall m :: m in c <==> IsCandidate(all, m, provider, capability)
    ensures |set m | m in all && IsCandidate(all, m, provider, capability)| == |c|
  {
    SizeOfDistinct(c);
    assert (set m | m in all && IsCandidate(all, m, provider, capability)) == set m | m in c;
  }

  lemma LeftOutComesLater(ranked: seq<Model>, d: Dimension, limit: int, m: Model, i: nat)
    requires forall j, k | 0 <= j < k < |ranked| :: Outranks(d, ranked[j], ranked[k])
    requires m in ranked && i < |Rankings(ranked, limit)| && m !in ranked[..|Rankings(ranked, limit)|]
    ensures NoLater(d, ranked[i], m)
  {
    var k :| 0 <= k < |ranked| && ranked[k] == m;
    assert k >= |Rankings(ranked, limit)|;
    OutranksIs(d, ranked[i], m);
  }

  /** The order on the entries themselves. */
  lemma EntriesAreInOrder(all: seq<Model>, d: Dimension, limit: int, provider: string, capability: string)
    requires SortedBy(all, Newness)
    ensures var out := Rankings(Sort(Candidates(all, provider, capability), Rank(d)), limit);
            forall i, j | 0 <= i < j < |out| ::
              && (d == Context ==> out[i].contextLength >= out[j].contextLength)
              && (d == OutputTokens ==> out[i].maxOutput >= out[j].maxOutput)
              && (d == PriceLow ==> out[i].inputPrice + out[i].outputPrice <= out[j].inputPrice + out[j].outputPrice)
  {
    var shown := RankingsSpelledOut(all, d, limit, provider, capability);
  }
}
