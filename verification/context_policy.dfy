/**
 Victim selection of the context policy: among the least recently used segments without resident descendants,
 enough to cover a block budget, the one that ends closest to its root.
 */
module ContextPolicy {
  import opened Prelude
  import opened Forest
  import opened MemoryIndex
  import opened MemoryVictim
  import opened MemoryPolicy
  import opened SubtreeCounts

  /** Distance from the root, then size, then recency. */
  datatype Score = Score(depth: nat, blocks: nat, key: Key)

  predicate ScoreAtMost(a: Score, b: Score) {
    || a.depth < b.depth
    || (a.depth == b.depth && (a.blocks < b.blocks || (a.blocks == b.blocks && KeyAtMost(a.key, b.key))))
  }

  function BlocksOf(x: Index, k: Key): nat {
    if k.node in x.endpoints && x.endpoints[k.node] in x.segments then |x.segments[x.endpoints[k.node]].members| else 0
  }

  ghost function ScoreOf(t: Tree, x: Index, k: Key): Score
    requires Grown(t) && k.node in t.parent
  {
    Score(|Path(t, k.node)|, BlocksOf(x, k), k)
  }

  function Covered(x: Index, keys: seq<Key>): nat {
    if keys == [] then 0 else Covered(x, keys[..|keys| - 1]) + BlocksOf(x, keys[|keys| - 1])
  }

  ghost predicate OpenIn(t: Tree, x: Index, k: Key)
    requires Grown(t)
  {
    |x.groups| > 0 && k in x.groups[0] && k.node in t.parent && Open(t, x, k)
  }

  /** The open keys in order of recency, as far as they have been considered. */
  ghost predicate Listed(t: Tree, x: Index, keys: seq<Key>)
    requires Grown(t)
  {
    && (forall i | 0 <= i < |keys| :: OpenIn(t, x, keys[i]))
    && (forall i, j | 0 <= i < j < |keys| :: keys[i] != keys[j] && KeyAtMost(keys[i], keys[j]))
    && (forall k | OpenIn(t, x, k) && k !in keys :: keys == [] || KeyAtMost(keys[|keys| - 1], k))
  }

  /** The considered candidates: the shortest list of least recently used open segments that covers the budget,
      or all of them. */
  ghost predicate Considered(t: Tree, x: Index, keys: seq<Key>, budget: real)
    requires Grown(t)
  {
    && Listed(t, x, keys) && keys != []
    && (|keys| > 1 ==> Covered(x, keys[..|keys| - 1]) as real < budget)
    && (Covered(x, keys) as real >= budget || forall k :: OpenIn(t, x, k) ==> k in keys)
  }

  /** The best of the considered candidates. */
  ghost predicate BestOf(t: Tree, x: Index, keys: seq<Key>, best: Key)
    requires Grown(t) && forall k <- keys :: k.node in t.parent
  {
    best in keys && forall k <- keys :: ScoreAtMost(ScoreOf(t, x, best), ScoreOf(t, x, k))
  }

  ghost predicate Chosen(t: Tree, x: Index, budget: real, keys: seq<Key>, best: Key)
    requires Grown(t)
  {
    Considered(t, x, keys, budget) && (forall k <- keys :: k.node in t.parent) && BestOf(t, x, keys, best)
  }

  /** What the context policy evicts: the best of the considered candidates. */
  ghost predicate ContextVictim(t: Tree, x: Index, budget: real, victim: Id)
    requires Grown(t)
  {
    exists keys: seq<Key>, best: Key :: Chosen(t, x, budget, keys, best) && best.node == victim
  }

  method DepthOf(t: Tree, n: Id) returns (depth: nat)
    requires Grown(t) && n in t.parent
    ensures depth == |Path(t, n)|
  {
    depth := 0;
    var node := Some(n);
    while node.Some?
      invariant node.Some? ==> node.value in t.parent && depth + |Path(t, node.value)| == |Path(t, n)|
      invariant node.None? ==> depth == |Path(t, n)|
      decreases if node.Some? then Rank(t, node.value) + 1 else 0
    {
      assert NodeOk(t, node.value);
      var parent := t.parent[node.value];
      if parent.Some? { NotAbove(t, node.value); }
      depth := depth + 1;
      node := parent;
    }
  }

  lemma NotAbove(t: Tree, n: Id)
    requires Grown(t) && n in t.parent && t.parent[n].Some?
    ensures t.parent[n].value in t.parent && n !in Path(t, t.parent[n].value)
  {
    assert NodeOk(t, n);
    if n in Path(t, t.parent[n].value) { PathRank(t, n, t.parent[n].value); }
  }

  lemma SomeOpen(t: Tree, x: Index)
    requires Indexes(t, x) && |x.groups| == 1 && x.residents != map[]
    ensures exists k :: OpenIn(t, x, k)
  {
    if forall k :: !OpenIn(t, x, k) {
      forall k | k in x.groups[0] ensures !Open(t, x, k) {
        PublishedIsNewest(t, x, 0, k);
        assert !OpenIn(t, x, k);
      }
      assert LeastOpen(t, x, {0}, None);
      LeastIsVictim(t, x, {0}, None);
    }
  }

  lemma BlocksPositive(t: Tree, x: Index, k: Key)
    requires Indexes(t, x) && OpenIn(t, x, k)
    ensures BlocksOf(x, k) >= 1
  {
    assert PublishedOk(x, {}, 0, k);
    assert HandleOk(x, x.endpoints[k.node]) && NonEmpty(x, {}, x.endpoints[k.node]);
  }

  lemma OneCovers(t: Tree, x: Index, keys: seq<Key>, budget: real)
    requires Indexes(t, x) && budget <= 1.0 && Considered(t, x, keys, budget)
    ensures |keys| == 1
  {
    BlocksPositive(t, x, keys[if |keys| > 1 then |keys| - 2 else 0]);
  }

  lemma FirstIsVictim(t: Tree, x: Index, best: Key)
    requires Indexes(t, x) && |x.groups| == 1 && Listed(t, x, [best])
    ensures LruVictim(t, Recencies(x), best.node)
  {
    assert OpenIn(t, x, [best][0]);
    forall k | k in x.groups[0] && Open(t, x, k) ensures KeyAtMost(best, k) {
      PublishedIsNewest(t, x, 0, k);
      assert OpenIn(t, x, k);
    }
    assert LeastOpen(t, x, {0}, Some(best));
    LeastIsVictim(t, x, {0}, Some(best));
  }

  lemma SmallChoice(t: Tree, x: Index, budget: real, keys: seq<Key>, best: Key)
    requires Indexes(t, x) && |x.groups| == 1 && budget <= 1.0 && Chosen(t, x, budget, keys, best)
    ensures LruVictim(t, Recencies(x), best.node)
  {
    OneCovers(t, x, keys, budget);
    assert keys == [best];
    FirstIsVictim(t, x, best);
  }

  /** With a budget that one block covers the choice is the least recently used victim. */
  lemma SmallBudget(t: Tree, x: Index, budget: real, victim: Id)
    requires Indexes(t, x) && |x.groups| == 1 && budget <= 1.0 && ContextVictim(t, x, budget, victim)
    ensures LruVictim(t, Recencies(x), victim)
  {
    var keys: seq<Key>, best: Key :| Chosen(t, x, budget, keys, best) && best.node == victim;
    SmallChoice(t, x, budget, keys, best);
  }

  // ---- The scan ----

  /** `keys` are the open keys met so far, `rest` the keys still to come. */
  ghost predicate Scanning(t: Tree, x: Index, rest: set<Key>, keys: seq<Key>)
    requires Grown(t)
  {
    && |x.groups| > 0 && rest <= x.groups[0] && Listed(t, x, keys)
    && (forall k | OpenIn(t, x, k) :: k in keys || k in rest)
    && (forall j, k | j in keys && k in rest :: KeyAtMost(j, k) && j != k)
  }

  ghost predicate First(rest: set<Key>, k: Key) { k in rest && forall j <- rest :: KeyAtMost(k, j) }

  lemma ScanSkip(t: Tree, x: Index, rest: set<Key>, keys: seq<Key>, k: Key)
    requires Grown(t) && Scanning(t, x, rest, keys) && First(rest, k) && !Open(t, x, k)
    ensures Scanning(t, x, rest - {k}, keys)
  {}

  lemma ScanTake(t: Tree, x: Index, rest: set<Key>, keys: seq<Key>, k: Key)
    requires Grown(t) && Scanning(t, x, rest, keys) && First(rest, k) && Open(t, x, k) && k.node in t.parent
    ensures Scanning(t, x, rest - {k}, keys + [k]) && Covered(x, keys + [k]) == Covered(x, keys) + BlocksOf(x, k)
  {
    assert OpenIn(t, x, k);
    assert (keys + [k])[..|keys|] == keys;
  }

  /** The best candidate so far. */
  ghost predicate Champion(t: Tree, x: Index, keys: seq<Key>, champion: Option<Score>)
    requires Grown(t)
  {
    && (forall k <- keys :: k.node in t.parent) && (champion.None? <==> keys == [])
    && (champion.Some? ==> champion.value.key in keys && champion.value == ScoreOf(t, x, champion.value.key)
                           && BestOf(t, x, keys, champion.value.key))
  }

  lemma ChampionNext(t: Tree, x: Index, keys: seq<Key>, champion: Option<Score>, k: Key)
    requires Grown(t) && Champion(t, x, keys, champion) && k.node in t.parent
    ensures var score := ScoreOf(t, x, k);
      Champion(t, x, keys + [k], if champion.None? || ScoreAtMost(score, champion.value) then Some(score) else champion)
  {
    forall j | j in keys + [k] ensures j == k || j in keys {}
  }

  /** The scan with what it has gathered; the budget is not yet covered, or has just been. */
  ghost predicate Selecting(t: Tree, x: Index, rest: set<Key>, keys: seq<Key>, champion: Option<Score>, covered: nat, budget: real) {
    && Grown(t) && Scanning(t, x, rest, keys) && Champion(t, x, keys, champion) && covered == Covered(x, keys)
    && (|keys| > 1 ==> Covered(x, keys[..|keys| - 1]) as real < budget)
  }

  lemma SelectSkip(t: Tree, x: Index, rest: set<Key>, keys: seq<Key>, champion: Option<Score>, covered: nat, budget: real, k: Key)
    requires Selecting(t, x, rest, keys, champion, covered, budget) && First(rest, k) && !Open(t, x, k)
    ensures Selecting(t, x, rest - {k}, keys, champion, covered, budget) == true
  {
    ScanSkip(t, x, rest, keys, k);
  }

  lemma SelectTake(t: Tree, x: Index, rest: set<Key>, keys: seq<Key>, champion: Option<Score>, covered: nat, budget: real,
                   k: Key, score: Score)
    requires Selecting(t, x, rest, keys, champion, covered, budget) && (keys == [] || covered as real < budget)
    requires First(rest, k) && k.node in t.parent && Open(t, x, k) && score == ScoreOf(t, x, k)
    ensures Selecting(t, x, rest - {k}, keys + [k],
                      if champion.None? || ScoreAtMost(score, champion.value) then Some(score) else champion,
                      covered + score.blocks, budget) == true
  {
    ScanTake(t, x, rest, keys, k);
    ChampionNext(t, x, keys, champion, k);
    assert (keys + [k])[..|keys|] == keys;
  }

  lemma SelectDone(t: Tree, x: Index, rest: set<Key>, keys: seq<Key>, champion: Option<Score>, covered: nat, budget: real)
    requires Indexes(t, x) && |x.groups| == 1 && x.residents != map[]
    requires Selecting(t, x, rest, keys, champion, covered, budget) && (rest == {} || (keys != [] && covered as real >= budget))
    ensures champion.Some? && ContextVictim(t, x, budget, champion.value.key.node)
  {
    if keys == [] { SomeOpen(t, x); }
    var best := champion.value.key;
    assert Chosen(t, x, budget, keys, best);
  }

  /** The victim is the best of the considered candidates. */
  method SelectVictim(p: Indexed, t: Tree, budget: real) returns (victim: Id)
    requires Indexes(t, p.View()) && |p.groups| == 1 && p.residents != map[]
    ensures ContextVictim(t, p.View(), budget, victim)
  {
    ghost var x := p.View();
    var rest := p.groups[0];
    var champion: Option<Score> := None;
    var covered: nat := 0;
    ghost var keys: seq<Key> := [];
    while rest != {} && (champion.None? || covered as real < budget)
      invariant Selecting(t, x, rest, keys, champion, covered, budget)
      decreases rest
    {
      LeastKeyExists(rest);
      var k :| k in rest && forall j <- rest :: KeyAtMost(k, j);
      var score := Inspect(p, t, k);
      if score.None? {
        SelectSkip(t, x, rest, keys, champion, covered, budget, k);
      } else {
        SelectTake(t, x, rest, keys, champion, covered, budget, k, score.value);
        if champion.None? || ScoreAtMost(score.value, champion.value) { champion := score; }
        keys := keys + [k];
        covered := covered + score.value.blocks;
      }
      rest := rest - {k};
    }
    SelectDone(t, x, rest, keys, champion, covered, budget);
    victim := champion.value.key.node;
  }

  /** The score of a published key, if no resident lies below its endpoint. */
  method Inspect(p: Indexed, t: Tree, k: Key) returns (score: Option<Score>)
    requires Indexes(t, p.View()) && |p.groups| == 1 && k in p.groups[0]
    ensures k.node in t.parent && (score.Some? <==> Open(t, p.View(), k))
    ensures score.Some? ==> score.value == ScoreOf(t, p.View(), k)
  {
    PublishedIsNewest(t, p.View(), 0, k);
    assert PublishedOk(p.View(), {}, 0, k);
    CountDecidesBare(t, p.residents.Keys, p.subtree, k.node);
    if Count(p.subtree, k.node) != (if k.node in p.residents then 1 else 0) { return None; }
    var depth := DepthOf(t, k.node);
    score := Some(Score(depth, |p.segments[p.endpoints[k.node]].members|, k));
  }
}
