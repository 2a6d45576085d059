/**
  `rankMemories` of packages/memory/src/index.ts. The lexical, phrase, confidence and freshness terms are
  summed into one number per record, `base`; numbers are exact. Everything after that sum is modelled: the
  first order, the selection for diversity, the episode context, the speaker boost and the final cut.
 */
module Ranking {
  import opened Wrappers
  import opened Text

  datatype Place = Place(episode: Text, sequence: int)

  /** A stored memory as one query sees it: `matches` and `speaks` are what the query finds in it. */
  datatype Record = Record(
    id: Text,
    updatedAt: int,
    tokens: set<Text>,
    base: real,
    matches: bool,
    place: Option<Place>,
    speaks: bool)

  datatype Ranked = Ranked(record: Record, score: real, context: real, penalty: real)

  const DIVERSITY_DEPTH: nat := 20
  const CONTEXT_ANCHORS: nat := 20
  const CONTEXT_DEPTH: int := 2
  const CONTEXT_DECAY: real := 0.9
  const SPEAKER_BOOST: real := 0.1

  function Max(a: real, b: real): real
  {
    if a >= b then a else b
  }

  function Least(a: nat, b: nat): nat
  {
    if a <= b then a else b
  }

  function Records(ranked: seq<Ranked>): (records: seq<Record>)
    ensures |records| == |ranked| && forall i :: 0 <= i < |ranked| ==> records[i] == ranked[i].record
  {
    seq(|ranked|, i requires 0 <= i < |ranked| => ranked[i].record)
  }

  function Ids(ranked: seq<Ranked>): (ids: seq<Text>)
    ensures |ids| == |ranked| && forall i :: 0 <= i < |ranked| ==> ids[i] == ranked[i].record.id
  {
    seq(|ranked|, i requires 0 <= i < |ranked| => ranked[i].record.id)
  }

  // ----- the sort: by score, newest first among equals, stable

  predicate Ahead(a: Ranked, b: Ranked)
  {
    a.score > b.score || (a.score == b.score && a.record.updatedAt >= b.record.updatedAt)
  }

  ghost predicate InOrder(s: seq<Ranked>)
  {
    forall i, j :: 0 <= i < j < |s| ==> Ahead(s[i], s[j])
  }

  function Insert(x: Ranked, s: seq<Ranked>): seq<Ranked>
  {
    if s == [] || Ahead(x, s[0]) then [x] + s else [s[0]] + Insert(x, s[1..])
  }

  function Sort(s: seq<Ranked>): seq<Ranked>
  {
    if s == [] then [] else Insert(s[0], Sort(s[1..]))
  }

  lemma {:induction false} InsertOrders(x: Ranked, s: seq<Ranked>)
    requires InOrder(s)
    ensures InOrder(Insert(x, s)) && multiset(Insert(x, s)) == multiset{x} + multiset(s)
  {
    if s != [] && !Ahead(x, s[0]) {
      InsertOrders(x, s[1..]);
      var rest := Insert(x, s[1..]);
      assert s == [s[0]] + s[1..];
      forall j | 0 <= j < |rest| ensures Ahead(s[0], rest[j]) {
        assert rest[j] in multiset(rest);
        assert rest[j] == x || rest[j] in s[1..];
      }
    } else if s != [] {
      assert forall j :: 0 <= j < |s| ==> Ahead(x, s[j]);
    }
  }

  /** Sorting puts the ranked records in order and neither loses nor repeats one. */
  lemma {:induction false} SortOrders(s: seq<Ranked>)
    ensures InOrder(Sort(s)) && multiset(Sort(s)) == multiset(s)
  {
    if s != [] {
      SortOrders(s[1..]);
      InsertOrders(s[0], Sort(s[1..]));
      assert s == [s[0]] + s[1..];
    }
  }

  /** The ranked records that tie with a given score and time, in their order. */
  function Tied(s: seq<Ranked>, score: real, at: int): seq<Ranked>
  {
    if s == [] then []
    else
      var rest := Tied(s[1..], score, at);
      if s[0].score == score && s[0].record.updatedAt == at then [s[0]] + rest else rest
  }

  lemma {:induction false} InsertIsStable(x: Ranked, s: seq<Ranked>, score: real, at: int)
    requires InOrder(s)
    ensures Tied(Insert(x, s), score, at) == Tied([x] + s, score, at)
  {
    assert ([x] + s)[1..] == s;
    if s != [] && !Ahead(x, s[0]) {
      InsertIsStable(x, s[1..], score, at);
      var rest := Insert(x, s[1..]);
      assert ([s[0]] + rest)[1..] == rest && ([x] + s[1..])[1..] == s[1..];
    }
  }

  /** Equals keep the order they came in. */
  lemma {:induction false} SortIsStable(s: seq<Ranked>, score: real, at: int)
    ensures Tied(Sort(s), score, at) == Tied(s, score, at)
  {
    if s != [] {
      SortOrders(s[1..]);
      SortIsStable(s[1..], score, at);
      InsertIsStable(s[0], Sort(s[1..]), score, at);
      assert ([s[0]] + Sort(s[1..]))[1..] == Sort(s[1..]);
    }
  }

  // ----- similarity

  function Jaccard(left: set<Text>, right: set<Text>): real
  {
    if left == {} && right == {} then 1.0
    else
      assert left + right != {};
      |left * right| as real / |left + right| as real
  }

  /** The source counts the union as the two sizes less the intersection. */
  lemma UnionBySizes(left: set<Text>, right: set<Text>)
    ensures |left + right| == |left| + |right| - |left * right|
  {
  }

  lemma JaccardBounds(left: set<Text>, right: set<Text>)
    ensures 0.0 <= Jaccard(left, right) <= 1.0
    ensures Jaccard(left, right) == Jaccard(right, left)
    ensures Jaccard(left, right) == 1.0 <==> left == right
  {
    assert left * right == right * left && left + right == right + left;
    var both, either := left * right, left + right;
    if either != {} {
      assert both <= either;
      Subset(both, either);
      var b, e := |both| as real, |either| as real;
      assert e > 0.0 && b <= e;
      Quotient(b, e);
      if both == either {
        assert forall x :: x in left <==> x in right;
      }
    }
  }

  /** The similarity is the share of the common tokens in all of them. */
  lemma JaccardIsTheShare(left: set<Text>, right: set<Text>)
    requires left != {} || right != {}
    ensures Jaccard(left, right) * (|left| + |right| - |left * right|) as real == |left * right| as real
  {
    UnionBySizes(left, right);
    assert left + right != {};
    Share(|left * right| as real, |left + right| as real);
  }

  lemma Share(b: real, e: real)
    requires e > 0.0
    ensures b / e * e == b
  {
  }

  lemma {:induction false} Subset(a: set<Text>, b: set<Text>)
    requires a <= b
    ensures |a| <= |b| && (|a| == |b| ==> a == b)
  {
    assert b == a + (b - a);
    assert |b| == |a| + |b - a|;
  }

  lemma Quotient(b: real, e: real)
    requires 0.0 <= b <= e && e > 0.0
    ensures 0.0 <= b / e <= 1.0 && (b / e == 1.0 <==> b == e)
  {
  }

  /** The largest similarity to anything chosen so far, computed from scratch. */
  function MaxSimilarity(record: Record, chosen: seq<Record>): real
  {
    if chosen == [] then 0.0
    else
      Max(MaxSimilarity(record, chosen[..|chosen| - 1]), Jaccard(record.tokens, chosen[|chosen| - 1].tokens))
  }

  ghost predicate Attained(record: Record, chosen: seq<Record>, similarity: real)
  {
    exists c :: c in chosen && Jaccard(record.tokens, c.tokens) == similarity
  }

  lemma {:induction false} MaxSimilarityIsLargest(record: Record, chosen: seq<Record>)
    ensures forall c :: c in chosen ==> Jaccard(record.tokens, c.tokens) <= MaxSimilarity(record, chosen)
    ensures chosen != [] ==> Attained(record, chosen, MaxSimilarity(record, chosen))
  {
    if chosen != [] {
      var init, last := chosen[..|chosen| - 1], chosen[|chosen| - 1];
      MaxSimilarityIsLargest(record, init);
      JaccardBounds(record.tokens, last.tokens);
      assert chosen == init + [last];
      if init != [] && MaxSimilarity(record, init) >= Jaccard(record.tokens, last.tokens) {
        var c :| c in init && Jaccard(record.tokens, c.tokens) == MaxSimilarity(record, init);
        assert c in chosen;
      } else {
        assert last in chosen;
      }
    }
  }

  // ----- naive greedy selection, which recomputes every similarity at every pick

  function Adjusted(record: Record, penalty: real): real
  {
    record.base * 0.88 - penalty * 0.12
  }

  function NaiveAdjusted(record: Record, chosen: seq<Record>): real
  {
    Adjusted(record, MaxSimilarity(record, chosen))
  }

  predicate Better(a: Record, b: Record, chosen: seq<Record>)
  {
    NaiveAdjusted(a, chosen) > NaiveAdjusted(b, chosen)
    || (NaiveAdjusted(a, chosen) == NaiveAdjusted(b, chosen) && a.updatedAt > b.updatedAt)
  }

  /** What a pick weighs: three parts of likeness to what is chosen against twenty-two of relevance, then age. */
  lemma PicksTradeOff(a: Record, b: Record, chosen: seq<Record>)
    ensures 25.0 * NaiveAdjusted(a, chosen) == 22.0 * a.base - 3.0 * MaxSimilarity(a, chosen)
    ensures var (gain, likeness) := (a.base - b.base, MaxSimilarity(a, chosen) - MaxSimilarity(b, chosen));
      Better(a, b, chosen) <==> 22.0 * gain > 3.0 * likeness || (22.0 * gain == 3.0 * likeness && a.updatedAt > b.updatedAt)
    ensures a.base == b.base && MaxSimilarity(a, chosen) < MaxSimilarity(b, chosen) ==> Better(a, b, chosen)
  {
  }

  /** The best of all that remain, newest among equals, first among equals of the same age. */
  ghost predicate IsPick(remaining: seq<Record>, chosen: seq<Record>, i: nat)
  {
    i < |remaining| && forall j :: 0 <= j < |remaining| ==>
        !Better(remaining[j], remaining[i], chosen) && (j < i ==> Better(remaining[i], remaining[j], chosen))
  }

  function ScanTo(remaining: seq<Record>, chosen: seq<Record>, n: nat): (best: nat)
    requires 0 < n <= |remaining|
    ensures best < n
  {
    if n == 1 then 0
    else
      var best := ScanTo(remaining, chosen, n - 1);
      if Better(remaining[n - 1], remaining[best], chosen) then n - 1 else best
  }

  function NaivePick(remaining: seq<Record>, chosen: seq<Record>): (i: nat)
    requires remaining != []
    ensures i < |remaining|
  {
    ScanTo(remaining, chosen, |remaining|)
  }

  lemma {:induction false} ScanFindsBest(remaining: seq<Record>, chosen: seq<Record>, n: nat)
    requires 0 < n <= |remaining|
    ensures IsPick(remaining[..n], chosen, ScanTo(remaining, chosen, n))
  {
    if n > 1 {
      ScanFindsBest(remaining, chosen, n - 1);
      var before := remaining[..n - 1];
      assert forall j :: 0 <= j < n - 1 ==> remaining[..n][j] == before[j];
    }
  }

  lemma PickIsBest(remaining: seq<Record>, chosen: seq<Record>, i: nat)
    requires remaining != []
    ensures IsPick(remaining, chosen, i) <==> i == NaivePick(remaining, chosen)
  {
    ScanFindsBest(remaining, chosen, |remaining|);
    assert remaining[..|remaining|] == remaining;
  }

  function Without<T>(s: seq<T>, i: nat): seq<T>
    requires i < |s|
  {
    s[..i] + s[i + 1..]
  }

  /** `n` picks in a row: what was chosen, and what is left. */
  function NaiveGreedy(remaining: seq<Record>, chosen: seq<Record>, n: nat): (seq<Record>, seq<Record>)
    decreases n
  {
    if n == 0 || remaining == [] then (chosen, remaining)
    else
      var i := NaivePick(remaining, chosen);
      NaiveGreedy(Without(remaining, i), chosen + [remaining[i]], n - 1)
  }

  // ----- the selection loop of the source

  datatype Entry = Entry(record: Record, maxSimilarity: real)

  function Entered(remaining: seq<Entry>): (records: seq<Record>)
    ensures |records| == |remaining| && forall i :: 0 <= i < |remaining| ==> records[i] == remaining[i].record
  {
    seq(|remaining|, i requires 0 <= i < |remaining| => remaining[i].record)
  }

  /** What each entry carries is what would be computed from scratch. */
  ghost predicate UpToDate(remaining: seq<Entry>, chosen: seq<Record>)
  {
    forall i :: 0 <= i < |remaining| ==> remaining[i].maxSimilarity == MaxSimilarity(remaining[i].record, chosen)
  }

  /** The score and penalty of the k-th pick are those of its moment. */
  ghost predicate ScoredInTurn(selected: seq<Ranked>)
  {
    forall k :: 0 <= k < |selected| ==> ScoredAt(selected[k], Records(selected)[..k])
  }

  predicate ScoredAt(r: Ranked, before: seq<Record>)
  {
    r.penalty == MaxSimilarity(r.record, before) && r.score == Adjusted(r.record, r.penalty) && r.context == 0.0
  }

  /** One pass over the remaining entries, using the similarities they carry. */
  method FindBest(remaining: seq<Entry>, ghost chosen: seq<Record>) returns (bestIndex: nat, bestAdjusted: real)
    requires remaining != [] && UpToDate(remaining, chosen)
    ensures bestIndex == NaivePick(Entered(remaining), chosen)
    ensures bestIndex < |remaining| && bestAdjusted == NaiveAdjusted(remaining[bestIndex].record, chosen)
  {
    bestIndex := 0;
    bestAdjusted := Adjusted(remaining[0].record, remaining[0].maxSimilarity);
    for index := 1 to |remaining|
      invariant bestIndex < index && bestIndex == ScanTo(Entered(remaining), chosen, index)
      invariant bestAdjusted == NaiveAdjusted(remaining[bestIndex].record, chosen)
    {
      var entry := remaining[index];
      var adjusted := Adjusted(entry.record, entry.maxSimilarity);
      if adjusted > bestAdjusted
        || (adjusted == bestAdjusted && entry.record.updatedAt > remaining[bestIndex].record.updatedAt) {
        bestIndex, bestAdjusted := index, adjusted;
      }
    }
  }

  /** The new pick can only raise a similarity, so one comparison per entry keeps it up to date. */
  method Update(remaining: seq<Entry>, pick: Record, ghost chosen: seq<Record>) returns (updated: seq<Entry>)
    requires UpToDate(remaining, chosen)
    ensures Entered(updated) == Entered(remaining) && UpToDate(updated, chosen + [pick])
  {
    updated := [];
    for i := 0 to |remaining|
      invariant |updated| == i
      invariant forall j :: 0 <= j < i ==> updated[j].record == remaining[j].record
      invariant UpToDate(updated, chosen + [pick])
    {
      var entry := remaining[i];
      assert (chosen + [pick])[..|chosen|] == chosen;
      updated := updated + [entry.(maxSimilarity :=
        Max(entry.maxSimilarity, Jaccard(entry.record.tokens, pick.tokens)))];
    }
    assert Entered(updated) == Entered(remaining);
  }

  ghost predicate Picked(remaining: seq<Record>, chosen: seq<Record>, rest: seq<Record>, more: seq<Record>)
    requires remaining != []
  {
    var i := NaivePick(remaining, chosen);
    rest == Without(remaining, i) && more == chosen + [remaining[i]]
  }

  lemma NextPick(remaining: seq<Record>, chosen: seq<Record>, rest: seq<Record>, more: seq<Record>, n: nat)
    requires remaining != [] && n > 0 && Picked(remaining, chosen, rest, more)
    ensures NaiveGreedy(remaining, chosen, n) == NaiveGreedy(rest, more, n - 1)
  {
  }

  lemma AppendScored(selected: seq<Ranked>, r: Ranked)
    requires ScoredInTurn(selected) && ScoredAt(r, Records(selected))
    ensures ScoredInTurn(selected + [r]) && Records(selected + [r]) == Records(selected) + [r.record]
  {
    var more := selected + [r];
    assert Records(more) == Records(selected) + [r.record];
    forall k | 0 <= k < |more| ensures ScoredAt(more[k], Records(more)[..k]) {
      assert Records(more)[..k] == Records(selected)[..k];
      assert Records(selected)[..|selected|] == Records(selected);
    }
  }

  /** One turn of the selection loop. */
  method PickNext(remaining: seq<Entry>, selected: seq<Ranked>) returns (rest: seq<Entry>, more: seq<Ranked>)
    requires remaining != [] && ScoredInTurn(selected) && UpToDate(remaining, Records(selected))
    ensures ScoredInTurn(more) && UpToDate(rest, Records(more)) && |more| == |selected| + 1
    ensures Picked(Entered(remaining), Records(selected), Entered(rest), Records(more))
  {
    ghost var chosen := Records(selected);
    var bestIndex, bestAdjusted := FindBest(remaining, chosen);
    var entry := remaining[bestIndex];
    var others := Without(remaining, bestIndex);
    assert Entered(others) == Without(Entered(remaining), bestIndex);
    assert UpToDate(others, chosen);
    var ranked := Ranked(entry.record, bestAdjusted, 0.0, entry.maxSimilarity);
    AppendScored(selected, ranked);
    more := selected + [ranked];
    rest := Update(others, entry.record, chosen);
  }

  /** No similarity to anything yet. */
  function Entries(scored: seq<Record>): (entries: seq<Entry>)
    ensures Entered(entries) == scored && UpToDate(entries, [])
  {
    seq(|scored|, i requires 0 <= i < |scored| => Entry(scored[i], 0.0))
  }

  /** Where the loop stands: `n` more naive picks from here lead to the goal. */
  ghost predicate OnCourse(remaining: seq<Entry>, selected: seq<Ranked>, n: nat, goal: (seq<Record>, seq<Record>))
  {
    ScoredInTurn(selected) && UpToDate(remaining, Records(selected))
    && NaiveGreedy(Entered(remaining), Records(selected), n) == goal
  }

  lemma Arrived(remaining: seq<Entry>, selected: seq<Ranked>, n: nat, goal: (seq<Record>, seq<Record>))
    requires OnCourse(remaining, selected, n, goal) && (n == 0 || remaining == [])
    ensures (Records(selected), Entered(remaining)) == goal
  {
  }

  method StayOnCourse(remaining: seq<Entry>, selected: seq<Ranked>, ghost n: nat, ghost goal: (seq<Record>, seq<Record>))
    returns (rest: seq<Entry>, more: seq<Ranked>)
    requires remaining != [] && n > 0 && OnCourse(remaining, selected, n, goal)
    ensures OnCourse(rest, more, n - 1, goal) && |more| == |selected| + 1
  {
    rest, more := PickNext(remaining, selected);
    NextPick(Entered(remaining), Records(selected), Entered(rest), Records(more), n);
  }

  /** The loop with carried similarities picks exactly what naive greedy selection picks, in the same order. */
  method Diversify(scored: seq<Record>, depth: nat) returns (selected: seq<Ranked>, left: seq<Record>)
    ensures (Records(selected), left) == NaiveGreedy(scored, [], depth)
    ensures ScoredInTurn(selected) && |selected| <= depth
  {
    selected := [];
    var remaining := Entries(scored);
    assert Records(selected) == [];
    ghost var goal := NaiveGreedy(scored, [], depth);
    ghost var n: nat := depth;
    while remaining != [] && |selected| < depth
      invariant |selected| + n == depth
      invariant OnCourse(remaining, selected, n, goal)
      decreases n
    {
      remaining, selected := StayOnCourse(remaining, selected, n, goal);
      n := n - 1;
    }
    Arrived(remaining, selected, n, goal);
    left := Entered(remaining);
  }

  /** A pick moves one record from what remains to what is chosen. */
  lemma PickMovesOne(remaining: seq<Record>, chosen: seq<Record>, i: nat)
    requires i < |remaining|
    ensures multiset(chosen + [remaining[i]]) + multiset(Without(remaining, i)) == multiset(chosen) + multiset(remaining)
  {
    assert remaining == remaining[..i] + [remaining[i]] + remaining[i + 1..];
  }

  lemma {:induction false} GreedyConserves(remaining: seq<Record>, chosen: seq<Record>, n: nat)
    ensures multiset(NaiveGreedy(remaining, chosen, n).0) + multiset(NaiveGreedy(remaining, chosen, n).1)
      == multiset(chosen) + multiset(remaining)
    decreases n
  {
    if n > 0 && remaining != [] {
      var i := NaivePick(remaining, chosen);
      PickMovesOne(remaining, chosen, i);
      GreedyConserves(Without(remaining, i), chosen + [remaining[i]], n - 1);
    }
  }

  // ----- context: the neighbours of the best records in their episodes

  function At(records: seq<Record>, place: Place): (there: seq<Record>)
    ensures forall r :: r in there <==> r in records && r.place == Some(place)
  {
    if records == [] then []
    else
      var before := At(records[..|records| - 1], place);
      var last := records[|records| - 1];
      assert forall r :: r in records <==> r in records[..|records| - 1] || r == last;
      if last.place == Some(place) then before + [last] else before
  }

  /** `episodeSequence`: the records of every place, in the order they came. */
  method IndexEpisodes(records: seq<Record>) returns (index: map<Place, seq<Record>>)
    ensures Indexes(index, records)
  {
    index := map[];
    for i := 0 to |records|
      invariant forall place :: place in index ==> index[place] == At(records[..i], place)
      invariant forall place :: place !in index ==> At(records[..i], place) == []
    {
      var record := records[i];
      assert records[..i + 1][..i] == records[..i];
      if record.place.Some? {
        var place := record.place.value;
        var entries := if place in index then index[place] else [];
        index := index[place := entries + [record]];
      }
    }
    assert records[..|records|] == records;
  }

  function Find(ranked: seq<Ranked>, id: Text): (i: Option<nat>)
    ensures i.Some? ==> i.value < |ranked| && ranked[i.value].record.id == id
    ensures i.None? ==> id !in Ids(ranked)
  {
    if ranked == [] then None
    else if ranked[|ranked| - 1].record.id == id then Some(|ranked| - 1)
    else
      assert forall j :: 0 <= j < |ranked| - 1 ==> Ids(ranked)[j] == Ids(ranked[..|ranked| - 1])[j];
      Find(ranked[..|ranked| - 1], id)
  }

  /** What an anchor does to one neighbour: a new entry, or a higher context for the old one. */
  function Touch(ranked: seq<Ranked>, neighbor: Record, context: real): seq<Ranked>
  {
    match Find(ranked, neighbor.id)
    case None => ranked + [Ranked(neighbor, context, context, 0.0)]
    case Some(i) =>
      if context > ranked[i].context
      then ranked[i := ranked[i].(score := Max(ranked[i].score, context), context := context)]
      else ranked
  }

  ghost predicate DistinctIds(records: seq<Record>)
  {
    forall i, j :: 0 <= i < j < |records| ==> records[i].id != records[j].id
  }

  /** Same episode, one or two places apart. */
  predicate Near(a: Record, b: Record)
  {
    a.place.Some? && b.place.Some? && a.place.value.episode == b.place.value.episode
    && a.place.value.sequence != b.place.value.sequence
    && -CONTEXT_DEPTH <= a.place.value.sequence - b.place.value.sequence <= CONTEXT_DEPTH
  }

  ghost predicate Justified(record: Record, records: seq<Record>)
  {
    record in records && (record.matches || exists a :: a in records && a.matches && Near(a, record))
  }

  /** Distinct, drawn from the input, and each either matches or stands next to a match. */
  ghost predicate Drawn(ranked: seq<Ranked>, records: seq<Record>)
  {
    DistinctIds(Records(ranked)) && forall i :: 0 <= i < |ranked| ==> Justified(ranked[i].record, records)
  }

  /** No entry is lost or falls. */
  ghost predicate Risen(before: seq<Ranked>, after: seq<Ranked>)
  {
    |before| <= |after|
    && forall i :: 0 <= i < |before| ==> after[i].record == before[i].record && after[i].score >= before[i].score
  }

  lemma TouchKeeps(ranked: seq<Ranked>, records: seq<Record>, neighbor: Record, context: real)
    requires Drawn(ranked, records) && Justified(neighbor, records)
    ensures Drawn(Touch(ranked, neighbor, context), records) && Risen(ranked, Touch(ranked, neighbor, context))
  {
    var after := Touch(ranked, neighbor, context);
    if Find(ranked, neighbor.id).None? {
      assert Records(after) == Records(ranked) + [neighbor];
      assert forall i :: 0 <= i < |ranked| ==> Ids(ranked)[i] != neighbor.id;
    } else {
      assert Records(after) == Records(ranked);
    }
  }

  /** An anchor reaching for one neighbour: the neighbour's context is the anchor's score by then, times the factor. */
  datatype Pull = Pull(anchor: nat, factor: real, neighbor: Record)

  ghost predicate Within(pulls: seq<Pull>, n: nat)
  {
    forall p :: p in pulls ==> p.anchor < n
  }

  lemma WithinParts(a: seq<Pull>, b: seq<Pull>, n: nat)
    ensures Within(a + b, n) <==> Within(a, n) && Within(b, n)
  {
    assert forall p :: p in a || p in b <==> p in a + b;
  }

  /** The pulls one after the other; the anchor is read again each time, as its score may have risen. */
  function Pulled(ranked: seq<Ranked>, pulls: seq<Pull>): (after: seq<Ranked>)
    requires Within(pulls, |ranked|)
    ensures |after| >= |ranked|
  {
    if pulls == [] then ranked
    else
      var last := pulls[|pulls| - 1];
      assert last in pulls && Within(pulls[..|pulls| - 1], |ranked|);
      Reach(Pulled(ranked, pulls[..|pulls| - 1]), last)
  }

  function Reach(ranked: seq<Ranked>, pull: Pull): (after: seq<Ranked>)
    requires pull.anchor < |ranked|
    ensures |after| >= |ranked|
  {
    Touch(ranked, pull.neighbor, Context(ranked, pull))
  }

  function Context(ranked: seq<Ranked>, pull: Pull): real
    requires pull.anchor < |ranked|
  {
    ranked[pull.anchor].score * pull.factor
  }

  lemma PulledOneMore(ranked: seq<Ranked>, pulls: seq<Pull>, more: seq<Pull>, p: Pull)
    requires Within(pulls, |ranked|) && p.anchor < |ranked| && more == pulls + [p]
    ensures Within(more, |ranked|) && Pulled(ranked, more) == Reach(Pulled(ranked, pulls), p)
  {
    assert more[..|more| - 1] == pulls;
  }

  lemma {:induction false} PulledInParts(ranked: seq<Ranked>, a: seq<Pull>, b: seq<Pull>)
    requires Within(a, |ranked|) && Within(b, |ranked|)
    ensures Within(a + b, |ranked|) && Pulled(ranked, a + b) == Pulled(Pulled(ranked, a), b)
  {
    WithinParts(a, b, |ranked|);
    if b == [] {
      assert a + b == a;
    } else {
      var init, last := b[..|b| - 1], b[|b| - 1];
      assert last in b && b == init + [last];
      PulledInParts(ranked, a, init);
      assert a + b == a + init + [last];
      PulledOneMore(ranked, a + init, a + b, last);
      PulledOneMore(Pulled(ranked, a), init, b, last);
    }
  }

  function Beside(place: Place, offset: int): Place
  {
    Place(place.episode, place.sequence + offset)
  }

  /** `CONTEXT_DECAY ** distance`, for the two distances there are. */
  function Decay(offset: int): real
  {
    if offset == 1 || offset == -1 then CONTEXT_DECAY else CONTEXT_DECAY * CONTEXT_DECAY
  }

  function Toward(k: nat, factor: real, there: seq<Record>): (pulls: seq<Pull>)
    ensures |pulls| == |there| && forall i :: 0 <= i < |there| ==> pulls[i] == Pull(k, factor, there[i])
  {
    seq(|there|, i requires 0 <= i < |there| => Pull(k, factor, there[i]))
  }

  function OffsetPulls(k: nat, anchor: Record, records: seq<Record>, offset: int): (pulls: seq<Pull>)
    ensures Within(pulls, k + 1)
  {
    if anchor.place.None? then [] else Toward(k, Decay(offset), At(records, Beside(anchor.place.value, offset)))
  }

  function DistancePulls(k: nat, anchor: Record, records: seq<Record>, distance: int): (pulls: seq<Pull>)
    ensures Within(pulls, k + 1)
  {
    OffsetPulls(k, anchor, records, -distance) + OffsetPulls(k, anchor, records, distance)
  }

  /** One place back and forth, then two. */
  function AnchorPulls(k: nat, anchor: Record, records: seq<Record>): (pulls: seq<Pull>)
    ensures Within(pulls, k + 1)
  {
    DistancePulls(k, anchor, records, 1) + DistancePulls(k, anchor, records, 2)
  }

  function Anchors(selected: seq<Ranked>): nat
  {
    Least(|selected|, CONTEXT_ANCHORS)
  }

  ghost predicate PartsWithin(parts: seq<seq<Pull>>, n: nat)
  {
    forall k :: 0 <= k < |parts| ==> Within(parts[k], n)
  }

  lemma WithinMore(pulls: seq<Pull>, n: nat, m: nat)
    requires Within(pulls, n) && n <= m
    ensures Within(pulls, m)
  {
  }

  /** The pulls of one anchor after the other. */
  function AllPulled(selected: seq<Ranked>, parts: seq<seq<Pull>>): (after: seq<Ranked>)
    requires PartsWithin(parts, |selected|)
    ensures |after| >= |selected|
  {
    if parts == [] then selected
    else
      var before := AllPulled(selected, parts[..|parts| - 1]);
      WithinMore(parts[|parts| - 1], |selected|, |before|);
      Pulled(before, parts[|parts| - 1])
  }

  /** The pulls of the first `n` anchors. */
  function Parts(selected: seq<Ranked>, records: seq<Record>, n: nat): (parts: seq<seq<Pull>>)
    requires n <= |selected|
    ensures |parts| == n && forall k :: 0 <= k < n ==> parts[k] == AnchorPulls(k, selected[k].record, records)
  {
    seq(n, k requires 0 <= k < n => AnchorPulls(k, selected[k].record, records))
  }

  lemma PartsAreWithin(selected: seq<Ranked>, records: seq<Record>, n: nat)
    requires n <= |selected|
    ensures PartsWithin(Parts(selected, records, n), |selected|)
  {
    var parts := Parts(selected, records, n);
    forall k | 0 <= k < n ensures Within(parts[k], |selected|) {
      WithinMore(AnchorPulls(k, selected[k].record, records), k + 1, |selected|);
    }
  }

  /** The ranking after the context pass. */
  function SpreadOver(selected: seq<Ranked>, records: seq<Record>): seq<Ranked>
  {
    PartsAreWithin(selected, records, Anchors(selected));
    AllPulled(selected, Parts(selected, records, Anchors(selected)))
  }

  method TouchAll(ranked: seq<Ranked>, k: nat, factor: real, there: seq<Record>) returns (after: seq<Ranked>)
    requires k < |ranked|
    ensures after == Pulled(ranked, Toward(k, factor, there))
  {
    var pulls := Toward(k, factor, there);
    after := ranked;
    for i := 0 to |there|
      invariant Within(pulls[..i], |ranked|) && after == Pulled(ranked, pulls[..i])
    {
      assert pulls[..i + 1] == pulls[..i] + [pulls[i]];
      PulledOneMore(ranked, pulls[..i], pulls[..i + 1], pulls[i]);
      after := Reach(after, Pull(k, factor, there[i]));
    }
    assert pulls[..|there|] == pulls;
  }

  /** One neighbouring place of anchor `k`, found through the index. */
  method TouchPlace(ranked: seq<Ranked>, k: nat, offset: int, index: map<Place, seq<Record>>, records: seq<Record>)
    returns (after: seq<Ranked>)
    requires k < |ranked| && Indexes(index, records)
    ensures after == Pulled(ranked, OffsetPulls(k, ranked[k].record, records, offset))
  {
    var anchor := ranked[k].record;
    if anchor.place.None? {
      return ranked;
    }
    var place := Beside(anchor.place.value, offset);
    after := TouchAll(ranked, k, Decay(offset), if place in index then index[place] else []);
  }

  ghost predicate Indexes(index: map<Place, seq<Record>>, records: seq<Record>)
  {
    (forall place :: place in index ==> index[place] == At(records, place))
    && forall place :: place !in index ==> At(records, place) == []
  }

  /** No entry is lost or moved. */
  lemma {:induction false} PulledKeepsRecords(ranked: seq<Ranked>, pulls: seq<Pull>)
    requires Within(pulls, |ranked|)
    ensures forall i :: 0 <= i < |ranked| ==> Pulled(ranked, pulls)[i].record == ranked[i].record
  {
    if pulls != [] { PulledKeepsRecords(ranked, pulls[..|pulls| - 1]); }
  }

  lemma TwoPlaces(ranked: seq<Ranked>, k: nat, back: seq<Pull>, forth: seq<Pull>, mid: seq<Ranked>)
    requires k < |ranked| && Within(back, |ranked|) && Within(forth, |ranked|) && mid == Pulled(ranked, back)
    ensures mid[k].record == ranked[k].record
    ensures Within(back + forth, |ranked|) && Pulled(ranked, back + forth) == Pulled(mid, forth)
    ensures Pulled(mid, forth)[k].record == ranked[k].record
  {
    PulledKeepsRecords(ranked, back);
    PulledKeepsRecords(mid, forth);
    PulledInParts(ranked, back, forth);
  }

  /** Both neighbouring places at one distance. */
  method TouchDistance(ranked: seq<Ranked>, k: nat, distance: int, index: map<Place, seq<Record>>, records: seq<Record>)
    returns (after: seq<Ranked>)
    requires k < |ranked| && Indexes(index, records)
    ensures after == Pulled(ranked, DistancePulls(k, ranked[k].record, records, distance))
    ensures after[k].record == ranked[k].record
  {
    ghost var anchor := ranked[k].record;
    var mid := TouchPlace(ranked, k, -distance, index, records);
    TwoPlaces(ranked, k, OffsetPulls(k, anchor, records, -distance), OffsetPulls(k, anchor, records, distance), mid);
    after := TouchPlace(mid, k, distance, index, records);
  }

  method SpreadFrom(ranked: seq<Ranked>, k: nat, index: map<Place, seq<Record>>, records: seq<Record>)
    returns (after: seq<Ranked>)
    requires k < |ranked| && Indexes(index, records)
    ensures after == Pulled(ranked, AnchorPulls(k, ranked[k].record, records))
  {
    after := ranked;
    ghost var near := DistancePulls(k, ranked[k].record, records, 1);
    ghost var far := DistancePulls(k, ranked[k].record, records, 2);
    for distance := 1 to CONTEXT_DEPTH + 1
      invariant k < |after| && after[k].record == ranked[k].record
      invariant distance == 1 ==> after == ranked
      invariant distance == 2 ==> after == Pulled(ranked, near)
      invariant distance == 3 ==> after == Pulled(Pulled(ranked, near), far)
    {
      after := TouchDistance(after, k, distance, index, records);
    }
    PulledInParts(ranked, near, far);
  }

  lemma AllPulledOneMore(selected: seq<Ranked>, parts: seq<seq<Pull>>, more: seq<seq<Pull>>, pulls: seq<Pull>)
    requires PartsWithin(parts, |selected|) && Within(pulls, |selected|) && more == parts + [pulls]
    ensures PartsWithin(more, |selected|) && Within(pulls, |AllPulled(selected, parts)|)
    ensures AllPulled(selected, more) == Pulled(AllPulled(selected, parts), pulls)
  {
    assert more[..|more| - 1] == parts;
    WithinMore(pulls, |selected|, |AllPulled(selected, parts)|);
  }

  lemma {:induction false} AllPulledKeepsRecords(selected: seq<Ranked>, parts: seq<seq<Pull>>)
    requires PartsWithin(parts, |selected|)
    ensures forall i :: 0 <= i < |selected| ==> AllPulled(selected, parts)[i].record == selected[i].record
  {
    if parts != [] {
      var init, last := parts[..|parts| - 1], parts[|parts| - 1];
      AllPulledKeepsRecords(selected, init);
      AllPulledOneMore(selected, init, parts, last);
      PulledKeepsRecords(AllPulled(selected, init), last);
    }
  }

  ghost predicate IsPart(selected: seq<Ranked>, records: seq<Record>, k: nat, pulls: seq<Pull>)
    requires k < |selected|
  {
    pulls == AnchorPulls(k, selected[k].record, records)
  }

  ghost predicate AreParts(selected: seq<Ranked>, records: seq<Record>, parts: seq<seq<Pull>>)
    requires |parts| <= |selected|
  {
    forall k: nat {:trigger IsPart(selected, records, k, parts[k])} :: k < |parts| ==> IsPart(selected, records, k, parts[k])
  }

  /** The turn of anchor `k`. */
  method SpreadNext(ranked: seq<Ranked>, k: nat, index: map<Place, seq<Record>>, records: seq<Record>,
                    ghost selected: seq<Ranked>, ghost parts: seq<seq<Pull>>, ghost pulls: seq<Pull>)
    returns (after: seq<Ranked>)
    requires Indexes(index, records) && k < |selected| && PartsWithin(parts, |selected|) && Within(pulls, |selected|)
    requires ranked == AllPulled(selected, parts) && IsPart(selected, records, k, pulls)
    ensures PartsWithin(parts + [pulls], |selected|) && after == AllPulled(selected, parts + [pulls])
  {
    AllPulledKeepsRecords(selected, parts);
    after := SpreadFrom(ranked, k, index, records);
    AllPulledOneMore(selected, parts, parts + [pulls], pulls);
  }

  /** The turns of the first `anchors` anchors. */
  method SpreadAnchors(selected: seq<Ranked>, anchors: nat, index: map<Place, seq<Record>>, records: seq<Record>,
                       ghost parts: seq<seq<Pull>>)
    returns (ranked: seq<Ranked>)
    requires Indexes(index, records) && anchors == |parts| <= |selected| && PartsWithin(parts, |selected|)
    requires AreParts(selected, records, parts)
    ensures ranked == AllPulled(selected, parts)
  {
    ranked := selected;
    for k := 0 to anchors
      invariant PartsWithin(parts[..k], |selected|) && ranked == AllPulled(selected, parts[..k])
    {
      assert parts[..k + 1] == parts[..k] + [parts[k]];
      assert IsPart(selected, records, k, parts[k]);
      ranked := SpreadNext(ranked, k, index, records, selected, parts[..k], parts[k]);
    }
    assert parts[..anchors] == parts;
  }

  /** The context pass of the source, with the index of episodes. */
  method Spread(selected: seq<Ranked>, records: seq<Record>) returns (ranked: seq<Ranked>)
    ensures ranked == SpreadOver(selected, records)
  {
    var index := IndexEpisodes(records);
    ghost var parts := Parts(selected, records, Anchors(selected));
    PartsAreWithin(selected, records, Anchors(selected));
    ranked := SpreadAnchors(selected, Anchors(selected), index, records, parts);
  }

  // ----- what the context pass keeps and what it gives

  ghost predicate PullsOk(ranked: seq<Ranked>, records: seq<Record>, pulls: seq<Pull>)
  {
    Within(pulls, |ranked|) && forall p :: p in pulls ==> PullOk(records, p)
  }

  /** The pass loses no entry, lowers no score and draws only what is justified. */
  lemma {:induction false} PulledKeeps(ranked: seq<Ranked>, records: seq<Record>, pulls: seq<Pull>)
    requires Drawn(ranked, records) && PullsOk(ranked, records, pulls)
    ensures Drawn(Pulled(ranked, pulls), records) && Risen(ranked, Pulled(ranked, pulls))
  {
    if pulls != [] {
      var init, last := pulls[..|pulls| - 1], pulls[|pulls| - 1];
      PulledKeeps(ranked, records, init);
      assert last in pulls;
      ReachKeeps(Pulled(ranked, init), records, last);
      RisenTwice(ranked, Pulled(ranked, init), Pulled(ranked, pulls));
    }
  }

  lemma ReachKeeps(ranked: seq<Ranked>, records: seq<Record>, p: Pull)
    requires Drawn(ranked, records) && p.anchor < |ranked| && Justified(p.neighbor, records)
    ensures Drawn(Reach(ranked, p), records) && Risen(ranked, Reach(ranked, p))
  {
    TouchKeeps(ranked, records, p.neighbor, Context(ranked, p));
  }

  lemma RisenTwice(a: seq<Ranked>, b: seq<Ranked>, c: seq<Ranked>)
    requires Risen(a, b) && Risen(b, c)
    ensures Risen(a, c)
  {
  }

  ghost predicate Lifted(ranked: seq<Ranked>, id: Text, bound: real)
  {
    exists i :: 0 <= i < |ranked| && ranked[i].record.id == id && (bound > 0.0 ==> ranked[i].score >= bound)
  }

  /** A positive context never exceeds the score it was folded into. */
  ghost predicate Covered(ranked: seq<Ranked>)
  {
    forall i :: 0 <= i < |ranked| ==> ranked[i].context <= 0.0 || ranked[i].context <= ranked[i].score
  }

  lemma RisenStaysLifted(ranked: seq<Ranked>, after: seq<Ranked>, id: Text, bound: real)
    requires Risen(ranked, after) && Lifted(ranked, id, bound)
    ensures Lifted(after, id, bound)
  {
    var i :| 0 <= i < |ranked| && ranked[i].record.id == id && (bound > 0.0 ==> ranked[i].score >= bound);
    assert after[i].record.id == id;
  }

  lemma TouchLifts(ranked: seq<Ranked>, neighbor: Record, context: real, bound: real)
    requires Covered(ranked) && context >= bound
    ensures Covered(Touch(ranked, neighbor, context)) && Lifted(Touch(ranked, neighbor, context), neighbor.id, bound)
  {
    var after := Touch(ranked, neighbor, context);
    var i := match Find(ranked, neighbor.id) case Some(i) => i case None => |ranked|;
    assert after[i].record.id == neighbor.id;
  }

  lemma ScaledStays(a: real, b: real, factor: real)
    requires a >= b && factor >= 0.0
    ensures a * factor >= b * factor
  {
    assert (a - b) * factor >= 0.0;
  }

  lemma {:induction false} PulledCovers(ranked: seq<Ranked>, pulls: seq<Pull>)
    requires Covered(ranked) && Within(pulls, |ranked|)
    ensures Covered(Pulled(ranked, pulls))
  {
    if pulls != [] {
      var init, last := pulls[..|pulls| - 1], pulls[|pulls| - 1];
      PulledCovers(ranked, init);
      var context := Context(Pulled(ranked, init), last);
      TouchLifts(Pulled(ranked, init), last.neighbor, context, context);
    }
  }

  /** The last pull lifts its neighbour above what its anchor had at the start. */
  lemma LastPullLifts(ranked: seq<Ranked>, before: seq<Ranked>, p: Pull, bound: real)
    requires p.anchor < |ranked| && Risen(ranked, before) && Covered(before) && p.factor >= 0.0
    requires bound == Context(ranked, p)
    ensures Lifted(Reach(before, p), p.neighbor.id, bound)
  {
    ScaledStays(before[p.anchor].score, ranked[p.anchor].score, p.factor);
    TouchLifts(before, p.neighbor, Context(before, p), bound);
  }

  lemma {:induction false} PulledLifts(ranked: seq<Ranked>, records: seq<Record>, pulls: seq<Pull>, p: Pull, bound: real)
    requires Drawn(ranked, records) && Covered(ranked) && PullsOk(ranked, records, pulls) && p in pulls
    requires bound == Context(ranked, p)
    ensures Lifted(Pulled(ranked, pulls), p.neighbor.id, bound)
  {
    var init, last := pulls[..|pulls| - 1], pulls[|pulls| - 1];
    var before := Pulled(ranked, init);
    PulledKeeps(ranked, records, init);
    PulledCovers(ranked, init);
    if p == last {
      LastPullLifts(ranked, before, p, bound);
    } else {
      PulledLifts(ranked, records, init, p, bound);
      assert last in pulls;
      ReachKeeps(before, records, last);
      RisenStaysLifted(before, Pulled(ranked, pulls), p.neighbor.id, bound);
    }
  }

  /** `r` stands `offset` places after `anchor` in the same episode. */
  predicate Stands(anchor: Record, r: Record, offset: int)
  {
    anchor.place.Some? && r.place == Some(Beside(anchor.place.value, offset))
  }

  ghost predicate AllMatch(selected: seq<Ranked>, records: seq<Record>)
  {
    forall i :: 0 <= i < |selected| ==> selected[i].record in records && selected[i].record.matches
  }

  lemma OffsetIsOk(k: nat, anchor: Record, records: seq<Record>, offset: int, p: Pull)
    requires anchor in records && anchor.matches && offset in {-2, -1, 1, 2} && p in OffsetPulls(k, anchor, records, offset)
    ensures PullOk(records, p)
  {
    assert p.neighbor in At(records, Beside(anchor.place.value, offset));
    assert Near(anchor, p.neighbor);
  }

  ghost predicate PullOk(records: seq<Record>, p: Pull)
  {
    p.factor >= 0.0 && Justified(p.neighbor, records)
  }

  lemma DistancePullsOk(k: nat, anchor: Record, records: seq<Record>, distance: int)
    requires anchor in records && anchor.matches && 1 <= distance <= 2
    ensures forall p :: p in DistancePulls(k, anchor, records, distance) ==> PullOk(records, p)
  {
    forall p | p in DistancePulls(k, anchor, records, distance) ensures PullOk(records, p) {
      if p in OffsetPulls(k, anchor, records, -distance) {
        OffsetIsOk(k, anchor, records, -distance, p);
      } else {
        OffsetIsOk(k, anchor, records, distance, p);
      }
    }
  }

  lemma AnchorPullsOk(ranked: seq<Ranked>, k: nat, anchor: Record, records: seq<Record>)
    requires k < |ranked| && anchor in records && anchor.matches
    ensures PullsOk(ranked, records, AnchorPulls(k, anchor, records))
  {
    DistancePullsOk(k, anchor, records, 1);
    DistancePullsOk(k, anchor, records, 2);
  }

  lemma PlaceIsComplete(k: nat, anchor: Record, records: seq<Record>, r: Record, offset: int)
    requires r in records && Stands(anchor, r, offset)
    ensures Pull(k, Decay(offset), r) in OffsetPulls(k, anchor, records, offset)
  {
    var there := At(records, Beside(anchor.place.value, offset));
    assert r in there;
    var i :| 0 <= i < |there| && there[i] == r;
    assert Toward(k, Decay(offset), there)[i] == Pull(k, Decay(offset), r);
  }

  lemma AnchorIsComplete(k: nat, anchor: Record, records: seq<Record>, p: Pull, offset: int)
    requires offset in {-2, -1, 1, 2} && p in OffsetPulls(k, anchor, records, offset)
    ensures p in AnchorPulls(k, anchor, records)
  {
    var distance := if offset < 0 then -offset else offset;
    assert p in DistancePulls(k, anchor, records, distance);
  }

  ghost predicate PartsOk(selected: seq<Ranked>, records: seq<Record>, parts: seq<seq<Pull>>)
  {
    forall k :: 0 <= k < |parts| ==> PullsOk(selected, records, parts[k])
  }

  lemma {:induction false} AllPulledKeeps(selected: seq<Ranked>, records: seq<Record>, parts: seq<seq<Pull>>)
    requires Drawn(selected, records) && PartsOk(selected, records, parts) && PartsWithin(parts, |selected|)
    ensures Drawn(AllPulled(selected, parts), records) && Risen(selected, AllPulled(selected, parts))
  {
    if parts != [] {
      var init, last := parts[..|parts| - 1], parts[|parts| - 1];
      AllPulledKeeps(selected, records, init);
      AllPulledOneMore(selected, init, parts, last);
      PulledKeeps(AllPulled(selected, init), records, last);
      RisenTwice(selected, AllPulled(selected, init), AllPulled(selected, parts));
    }
  }

  lemma {:induction false} AllPulledCovers(selected: seq<Ranked>, parts: seq<seq<Pull>>)
    requires Covered(selected) && PartsWithin(parts, |selected|)
    ensures Covered(AllPulled(selected, parts))
  {
    if parts != [] {
      var init, last := parts[..|parts| - 1], parts[|parts| - 1];
      AllPulledCovers(selected, init);
      AllPulledOneMore(selected, init, parts, last);
      PulledCovers(AllPulled(selected, init), last);
    }
  }

  lemma {:induction false} AllPulledLifts(selected: seq<Ranked>, records: seq<Record>, parts: seq<seq<Pull>>, k: nat, p: Pull)
    requires Drawn(selected, records) && Covered(selected) && PartsOk(selected, records, parts)
    requires PartsWithin(parts, |selected|) && k < |parts| && p in parts[k]
    ensures Lifted(AllPulled(selected, parts), p.neighbor.id, Context(selected, p))
  {
    var init, last := parts[..|parts| - 1], parts[|parts| - 1];
    var before := AllPulled(selected, init);
    AllPulledOneMore(selected, init, parts, last);
    AllPulledKeeps(selected, records, init);
    AllPulledCovers(selected, init);
    if k == |parts| - 1 {
      TurnLifts(selected, before, records, last, p);
    } else {
      AllPulledLifts(selected, records, init, k, p);
      PulledKeeps(before, records, last);
      RisenStaysLifted(before, AllPulled(selected, parts), p.neighbor.id, Context(selected, p));
    }
  }

  lemma LowerBound(ranked: seq<Ranked>, id: Text, higher: real, bound: real)
    requires Lifted(ranked, id, higher) && higher >= bound
    ensures Lifted(ranked, id, bound)
  {
    var i :| 0 <= i < |ranked| && ranked[i].record.id == id && (higher > 0.0 ==> ranked[i].score >= higher);
    assert bound > 0.0 ==> ranked[i].score >= bound;
  }

  /** The turn of one anchor, whose score may have risen since the selection. */
  lemma TurnLifts(selected: seq<Ranked>, before: seq<Ranked>, records: seq<Record>, pulls: seq<Pull>, p: Pull)
    requires Drawn(before, records) && Covered(before) && Risen(selected, before)
    requires PullsOk(before, records, pulls) && p in pulls && p.anchor < |selected|
    ensures Lifted(Pulled(before, pulls), p.neighbor.id, Context(selected, p))
  {
    PulledLifts(before, records, pulls, p, Context(before, p));
    ScaledStays(before[p.anchor].score, selected[p.anchor].score, p.factor);
    LowerBound(Pulled(before, pulls), p.neighbor.id, Context(before, p), Context(selected, p));
  }

  lemma PartsAreOk(selected: seq<Ranked>, records: seq<Record>, n: nat)
    requires n <= |selected| && AllMatch(selected, records)
    ensures PartsOk(selected, records, Parts(selected, records, n))
  {
    var parts := Parts(selected, records, n);
    forall k | 0 <= k < n ensures PullsOk(selected, records, parts[k]) {
      AnchorPullsOk(selected, k, selected[k].record, records);
    }
  }

  /** The context pass keeps what was selected, and whatever it adds stands within two places of a match. */
  lemma SpreadKeeps(selected: seq<Ranked>, records: seq<Record>)
    requires Drawn(selected, records) && AllMatch(selected, records)
    ensures Drawn(SpreadOver(selected, records), records) && Risen(selected, SpreadOver(selected, records))
  {
    var parts := Parts(selected, records, Anchors(selected));
    PartsAreOk(selected, records, Anchors(selected));
    PartsAreWithin(selected, records, Anchors(selected));
    AllPulledKeeps(selected, records, parts);
  }

  /**
    Every record one or two places beside an anchor is in the ranking, and unless the anchor scored nothing,
    with at least the anchor's score decayed once or twice.
   */
  lemma NeighboursAreLifted(selected: seq<Ranked>, records: seq<Record>, k: nat, r: Record, offset: int)
    requires Drawn(selected, records) && Covered(selected) && AllMatch(selected, records) && k < Anchors(selected)
    requires r in records && offset in {-2, -1, 1, 2} && Stands(selected[k].record, r, offset)
    ensures Lifted(SpreadOver(selected, records), r.id, Context(selected, Pull(k, Decay(offset), r)))
  {
    var parts := Parts(selected, records, Anchors(selected));
    PartsAreOk(selected, records, Anchors(selected));
    PartsAreWithin(selected, records, Anchors(selected));
    var pull := Pull(k, Decay(offset), r);
    PlaceIsComplete(k, selected[k].record, records, r, offset);
    AnchorIsComplete(k, selected[k].record, records, pull, offset);
    AllPulledLifts(selected, records, parts, k, pull);
  }

  /** The ranking with every record of a speaker the query names raised. */
  function Boosted(ranked: seq<Ranked>): (after: seq<Ranked>)
    ensures |after| == |ranked| && Records(after) == Records(ranked)
  {
    seq(|ranked|, i requires 0 <= i < |ranked| => Boost(ranked[i]))
  }

  function Boost(r: Ranked): Ranked
  {
    if r.record.speaks then r.(score := r.score + SPEAKER_BOOST) else r
  }

  method BoostSpeakers(ranked: seq<Ranked>) returns (after: seq<Ranked>)
    ensures after == Boosted(ranked)
  {
    after := [];
    for i := 0 to |ranked|
      invariant |after| == i && forall j :: 0 <= j < i ==> after[j] == Boost(ranked[j])
    {
      after := after + [Boost(ranked[i])];
    }
  }

  // ----- the whole ranking

  function Matching(records: seq<Record>): (matching: seq<Ranked>)
    ensures forall m :: m in matching <==> m.record in records && m.record.matches && m == Base(m.record)
  {
    if records == [] then []
    else
      assert records == records[..|records| - 1] + [records[|records| - 1]];
      var before := Matching(records[..|records| - 1]);
      var last := records[|records| - 1];
      if last.matches then before + [Base(last)] else before
  }

  function Base(record: Record): Ranked
  {
    Ranked(record, record.base, 0.0, 0.0)
  }

  lemma {:induction false} MatchingIsDistinct(records: seq<Record>)
    requires DistinctIds(records)
    ensures DistinctIds(Records(Matching(records)))
  {
    if records != [] {
      var init, last := records[..|records| - 1], records[|records| - 1];
      MatchingIsDistinct(init);
      var before := Matching(init);
      forall i | 0 <= i < |before| ensures before[i].record.id != last.id {
        assert before[i] in before;
        assert before[i].record in init;
      }
      if last.matches { assert Records(Matching(records)) == Records(before) + [last]; }
    }
  }

  lemma OccursOnce(a: seq<Record>, x: nat)
    requires DistinctIds(a) && x < |a|
    ensures multiset(a)[a[x]] == 1
  {
    assert a == a[..x] + [a[x]] + a[x + 1..];
    assert a[x] !in a[..x] && a[x] !in a[x + 1..];
  }

  lemma OccursTwice(b: seq<Record>, i: nat, j: nat)
    requires i < j < |b| && b[i] == b[j]
    ensures multiset(b)[b[i]] >= 2
  {
    assert b == b[..j] + [b[j]] + b[j + 1..];
    assert b[i] in b[..j];
  }

  /** Distinctness is a matter of how often an id occurs, so a permutation keeps it. */
  lemma PermutationKeepsIds(a: seq<Record>, b: seq<Record>)
    requires DistinctIds(a) && multiset(a) == multiset(b)
    ensures DistinctIds(b)
  {
    forall i, j | 0 <= i < j < |b| ensures b[i].id != b[j].id {
      assert b[i] in multiset(a) && b[j] in multiset(a);
      var x :| 0 <= x < |a| && a[x] == b[i];
      var y :| 0 <= y < |a| && a[y] == b[j];
      OccursOnce(a, x);
      if b[i] == b[j] { OccursTwice(b, i, j); }
    }
  }

  lemma {:induction false} RecordsOfInsert(x: Ranked, s: seq<Ranked>)
    ensures multiset(Records(Insert(x, s))) == multiset{x.record} + multiset(Records(s))
  {
    if s == [] || Ahead(x, s[0]) {
      assert Records([x] + s) == [x.record] + Records(s);
    } else {
      RecordsOfInsert(x, s[1..]);
      assert Records(s) == [s[0].record] + Records(s[1..]);
      assert Records(Insert(x, s)) == [s[0].record] + Records(Insert(x, s[1..]));
    }
  }

  lemma {:induction false} RecordsOfSort(s: seq<Ranked>)
    ensures multiset(Records(Sort(s))) == multiset(Records(s))
  {
    if s != [] {
      RecordsOfSort(s[1..]);
      RecordsOfInsert(s[0], Sort(s[1..]));
      assert Records(s) == [s[0].record] + Records(s[1..]);
    }
  }

  /** The first order of the candidates: by base, newest first among equals. */
  function Candidates(records: seq<Record>): seq<Record>
  {
    Records(Sort(Matching(records)))
  }

  lemma CandidatesAreTheMatches(records: seq<Record>)
    requires DistinctIds(records)
    ensures DistinctIds(Candidates(records)) && multiset(Candidates(records)) == multiset(Records(Matching(records)))
    ensures forall c :: c in Candidates(records) ==> c in records && c.matches
  {
    SortOrders(Matching(records));
    RecordsOfSort(Matching(records));
    MatchingIsDistinct(records);
    PermutationKeepsIds(Records(Matching(records)), Candidates(records));
    forall c | c in Candidates(records) ensures c in records && c.matches {
      assert c in multiset(Records(Matching(records)));
    }
  }

  /** Picks and then a prefix of what is left: a part of the input without repetition. */
  lemma PicksThenRest(scored: seq<Record>, picks: seq<Record>, left: seq<Record>, n: nat)
    requires DistinctIds(scored) && multiset(picks) + multiset(left) == multiset(scored) && n <= |left|
    ensures DistinctIds(picks + left[..n]) && forall r :: r in picks + left[..n] ==> r in scored
    ensures |picks| + |left| == |scored|
  {
    var all := picks + left;
    assert |multiset(all)| == |multiset(scored)|;
    PermutationKeepsIds(scored, all);
    var some := picks + left[..n];
    assert some == all[..|picks| + n];
    forall r | r in some ensures r in scored {
      assert r in all;
      assert r in multiset(scored);
    }
  }

  /** What is selected, scores included: the picks, then what is left in order and without a penalty. */
  ghost predicate IsSelection(selected: seq<Ranked>, greedy: (seq<Record>, seq<Record>), limit: nat)
  {
    |greedy.0| <= |selected| == Least(|greedy.0| + |greedy.1|, limit)
    && Records(selected) <= greedy.0 + greedy.1
    && ScoredInTurn(selected[..|greedy.0|])
    && forall k :: |greedy.0| <= k < |selected| ==>
         selected[k] == Ranked(selected[k].record, Adjusted(selected[k].record, 0.0), 0.0, 0.0)
  }

  /** The picked entries and the rest put behind them are a selection. */
  lemma SelectionIsMade(scored: seq<Record>, picked: seq<Ranked>, left: seq<Record>, selected: seq<Ranked>, rest: nat, limit: nat)
    requires DistinctIds(scored) && multiset(Records(picked)) + multiset(left) == multiset(scored)
    requires ScoredInTurn(picked) && rest <= |left| && |picked| <= limit && rest == Least(|left|, limit - |picked|)
    requires Appended(picked, left, rest, selected)
    ensures DistinctIds(Records(selected)) && forall r :: r in Records(selected) ==> r in scored
    ensures |selected| == Least(|scored|, limit) && IsSelection(selected, (Records(picked), left), limit)
  {
    PicksThenRest(scored, Records(picked), left, rest);
    assert Records(selected) == (Records(picked) + left)[..|selected|];
    assert selected[..|picked|] == picked;
  }

  ghost predicate Appended(picked: seq<Ranked>, left: seq<Record>, rest: nat, selected: seq<Ranked>)
    requires rest <= |left|
  {
    Records(selected) == Records(picked) + left[..rest] && picked <= selected
    && forall k :: |picked| <= k < |selected| ==>
         selected[k] == Ranked(selected[k].record, Adjusted(selected[k].record, 0.0), 0.0, 0.0)
  }

  /** Up to twenty picks for diversity, then the rest in their first order, without a penalty, up to the limit. */
  method Select(scored: seq<Record>, limit: nat) returns (selected: seq<Ranked>)
    requires DistinctIds(scored)
    ensures DistinctIds(Records(selected)) && forall r :: r in Records(selected) ==> r in scored
    ensures |selected| == Least(|scored|, limit)
    ensures IsSelection(selected, NaiveGreedy(scored, [], Least(limit, 20)), limit)
  {
    var picked, left := Diversify(scored, Least(limit, DIVERSITY_DEPTH));
    GreedyConserves(scored, [], Least(limit, DIVERSITY_DEPTH));
    var rest := Least(|left|, limit - |picked|);
    selected := AppendRest(picked, left, rest);
    SelectionIsMade(scored, picked, left, selected, rest, limit);
  }

  method AppendRest(picked: seq<Ranked>, left: seq<Record>, rest: nat) returns (selected: seq<Ranked>)
    requires rest <= |left|
    ensures Appended(picked, left, rest, selected)
  {
    selected := picked;
    for index := 0 to rest
      invariant Appended(picked, left, index, selected)
    {
      selected := selected + [Ranked(left[index], left[index].base * 0.88, 0.0, 0.0)];
      assert Records(selected) == Records(picked) + left[..index + 1];
    }
  }

  /** A selection enters the context pass without any context. */
  lemma SelectionIsCovered(selected: seq<Ranked>, greedy: (seq<Record>, seq<Record>), limit: nat)
    requires IsSelection(selected, greedy, limit)
    ensures Covered(selected)
  {
    var picks := selected[..|greedy.0|];
    forall i | 0 <= i < |selected| ensures selected[i].context == 0.0 {
      if i < |picks| { assert ScoredAt(picks[i], Records(picks)[..i]); }
    }
  }

  lemma DrawnFromMatches(selected: seq<Ranked>, records: seq<Record>)
    requires DistinctIds(Records(selected)) && forall r :: r in Records(selected) ==> r in Candidates(records)
    requires DistinctIds(records)
    ensures Drawn(selected, records) && AllMatch(selected, records)
  {
    CandidatesAreTheMatches(records);
    assert forall i :: 0 <= i < |selected| ==> Records(selected)[i] in Records(selected);
  }

  lemma SortKeepsDrawn(ranked: seq<Ranked>, records: seq<Record>)
    requires Drawn(ranked, records)
    ensures Drawn(Sort(ranked), records) && |Sort(ranked)| == |ranked|
  {
    SortOrders(ranked);
    RecordsOfSort(ranked);
    PermutationKeepsIds(Records(ranked), Records(Sort(ranked)));
    assert |multiset(ranked)| == |multiset(Sort(ranked))|;
    forall i | 0 <= i < |ranked| ensures Justified(Sort(ranked)[i].record, records) {
      assert Sort(ranked)[i] in multiset(ranked);
    }
  }

  /** The last step: boost, sort, cut. */
  method Finish(ranked: seq<Ranked>, limit: nat, ghost records: seq<Record>) returns (result: seq<Ranked>)
    requires Drawn(ranked, records)
    ensures result == Cut(Sort(Boosted(ranked)), limit)
    ensures InOrder(result) && Drawn(result, records) && |result| == Least(|ranked|, limit)
  {
    var boosted := BoostSpeakers(ranked);
    SortKeepsDrawn(boosted, records);
    SortOrders(boosted);
    var sorted := Sort(boosted);
    result := Cut(sorted, limit);
    assert Records(result) == Records(sorted)[..|result|];
  }

  /** `.slice(0, limit)` */
  function Cut(ranked: seq<Ranked>, limit: nat): seq<Ranked>
  {
    ranked[..Least(|ranked|, limit)]
  }

  /**
    `rankMemories`: in order, within the limit, without repetition, drawn from the input, each a match or a
    neighbour of one, and never fewer than the limit while that many match. `selected` is what was chosen
    before the context pass.
   */
  method RankMemories(records: seq<Record>, anyTokens: bool, limit: nat)
    returns (result: seq<Ranked>, ghost selected: seq<Ranked>)
    requires DistinctIds(records)
    ensures InOrder(result) && |result| <= limit && Drawn(result, records)
    ensures !anyTokens ==> result == []
    ensures anyTokens ==> |result| >= Least(|Matching(records)|, limit)
    ensures anyTokens ==>
      IsSelection(selected, NaiveGreedy(Candidates(records), [], Least(limit, 20)), limit)
    ensures anyTokens ==> result == Cut(Sort(Boosted(SpreadOver(selected, records))), limit)
  {
    if !anyTokens {
      return [], [];
    }
    CandidatesAreTheMatches(records);
    var scored := Candidates(records);
    assert |scored| == |Matching(records)| by {
      assert |multiset(scored)| == |multiset(Records(Matching(records)))|;
    }
    var chosen := Select(scored, limit);
    DrawnFromMatches(chosen, records);
    SpreadKeeps(chosen, records);
    var ranked := Spread(chosen, records);
    result := Finish(ranked, limit, records);
    selected := chosen;
  }
}
