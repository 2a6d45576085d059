/**
  What the numbers of the ranking come to: who stands before whom, how far a neighbour is lifted, how little
  the context pass can give, and what it is worth to be the speaker a query names.
 */
module RankingTheorems {
  import opened Ranking

  /** After the sort the better scored comes first, and of two with one score the newer. */
  lemma BestComesFirst(ranked: seq<Ranked>, i: nat, j: nat)
    requires i < j < |Sort(ranked)|
    ensures Sort(ranked)[i].score >= Sort(ranked)[j].score
    ensures Sort(ranked)[i].score == Sort(ranked)[j].score ==> Sort(ranked)[i].record.updatedAt >= Sort(ranked)[j].record.updatedAt
  {
    SortOrders(ranked);
    assert Ahead(Sort(ranked)[i], Sort(ranked)[j]);
  }

  /** The candidates of the selection are the matching records, each once, none left out. */
  lemma CandidatesAreAllTheMatches(records: seq<Record>, r: Record)
    requires DistinctIds(records)
    ensures r in Candidates(records) <==> r in records && r.matches
  {
    CandidatesAreTheMatches(records);
    if r in records && r.matches {
      assert Base(r) in Matching(records);
      var i :| 0 <= i < |Matching(records)| && Matching(records)[i] == Base(r);
      assert Records(Matching(records))[i] == r;
      assert r in multiset(Records(Matching(records)));
      assert r in multiset(Candidates(records));
    }
  }

  /** The first order of the candidates: the more relevant first, and of two equally relevant the newer. */
  lemma CandidatesComeInOrder(records: seq<Record>, i: nat, j: nat)
    requires i < j < |Candidates(records)|
    ensures Candidates(records)[i].base >= Candidates(records)[j].base
    ensures Candidates(records)[i].base == Candidates(records)[j].base
      ==> Candidates(records)[i].updatedAt >= Candidates(records)[j].updatedAt
  {
    var sorted := Sort(Matching(records));
    BestComesFirst(Matching(records), i, j);
    SortOrders(Matching(records));
    assert sorted[i] in multiset(sorted) && sorted[j] in multiset(sorted);
    assert sorted[i] in Matching(records) && sorted[j] in Matching(records);
  }

  lemma Shares(offset: int)
    ensures offset == 1 || offset == -1 ==> Decay(offset) == 0.9
    ensures offset == 2 || offset == -2 ==> Decay(offset) == 0.81
  {
  }

  /** A record next to an anchor is in the ranking with nine tenths of its score, one two away with eighty-one hundredths. */
  lemma NeighboursAreNear(selected: seq<Ranked>, records: seq<Record>, k: nat, r: Record, offset: int, bound: real)
    requires Drawn(selected, records) && Covered(selected) && AllMatch(selected, records) && k < |selected| && k < 20
    requires r in records && offset in {-2, -1, 1, 2} && Stands(selected[k].record, r, offset)
    requires bound == selected[k].score * (if offset == 1 || offset == -1 then 0.9 else 0.81)
    ensures Lifted(SpreadOver(selected, records), r.id, bound)
  {
    Shares(offset);
    assert bound == Context(selected, Pull(k, Decay(offset), r));
    NeighboursAreLifted(selected, records, k, r, offset);
  }

  /** The pass gives nothing above a bound that was not there: no score of the ranking exceeds it. */
  ghost predicate Below(ranked: seq<Ranked>, bound: real)
  {
    forall i :: 0 <= i < |ranked| ==> ranked[i].score <= bound
  }

  predicate Small(p: Pull)
  {
    0.0 <= p.factor <= 1.0
  }

  ghost predicate AllSmall(pulls: seq<Pull>)
  {
    forall p :: p in pulls ==> Small(p)
  }

  lemma ShareIsBelow(score: real, factor: real, bound: real)
    requires score <= bound && 0.0 <= factor <= 1.0 && bound >= 0.0
    ensures score * factor <= bound
  {
    if score > 0.0 {
      assert score * factor <= score * 1.0;
    } else {
      assert score * factor <= 0.0;
    }
  }

  lemma ReachStaysBelow(ranked: seq<Ranked>, p: Pull, bound: real)
    requires Below(ranked, bound) && bound >= 0.0 && p.anchor < |ranked| && Small(p)
    ensures Below(Reach(ranked, p), bound)
  {
    ShareIsBelow(ranked[p.anchor].score, p.factor, bound);
  }

  lemma {:induction false} PulledStaysBelow(ranked: seq<Ranked>, pulls: seq<Pull>, bound: real)
    requires Below(ranked, bound) && bound >= 0.0 && Within(pulls, |ranked|) && AllSmall(pulls)
    ensures Below(Pulled(ranked, pulls), bound)
  {
    if pulls != [] {
      var init, last := pulls[..|pulls| - 1], pulls[|pulls| - 1];
      assert last in pulls && AllSmall(init);
      PulledStaysBelow(ranked, init, bound);
      ReachStaysBelow(Pulled(ranked, init), last, bound);
    }
  }

  lemma OffsetIsSmall(k: nat, anchor: Record, records: seq<Record>, offset: int)
    ensures AllSmall(OffsetPulls(k, anchor, records, offset))
  {
  }

  lemma AnchorIsSmall(k: nat, anchor: Record, records: seq<Record>)
    ensures AllSmall(AnchorPulls(k, anchor, records))
  {
    OffsetIsSmall(k, anchor, records, -1);
    OffsetIsSmall(k, anchor, records, 1);
    OffsetIsSmall(k, anchor, records, -2);
    OffsetIsSmall(k, anchor, records, 2);
  }

  lemma {:induction false} AllPulledStaysBelow(selected: seq<Ranked>, parts: seq<seq<Pull>>, bound: real)
    requires Below(selected, bound) && bound >= 0.0 && PartsWithin(parts, |selected|)
    requires forall k :: 0 <= k < |parts| ==> AllSmall(parts[k])
    ensures Below(AllPulled(selected, parts), bound)
  {
    if parts != [] {
      var init, last := parts[..|parts| - 1], parts[|parts| - 1];
      AllPulledStaysBelow(selected, init, bound);
      AllPulledOneMore(selected, init, parts, last);
      PulledStaysBelow(AllPulled(selected, init), last, bound);
    }
  }

  /** The best score stays the best: no neighbour is lifted above all that was selected. */
  lemma ContextNeverTops(selected: seq<Ranked>, records: seq<Record>, bound: real)
    requires Below(selected, bound) && bound >= 0.0
    ensures Below(SpreadOver(selected, records), bound)
  {
    var parts := Parts(selected, records, Anchors(selected));
    PartsAreWithin(selected, records, Anchors(selected));
    forall k | 0 <= k < |parts| ensures AllSmall(parts[k]) {
      AnchorIsSmall(k, selected[k].record, records);
    }
    AllPulledStaysBelow(selected, parts, bound);
  }

  /** The records of the speaker a query names gain one tenth; the others keep what they have. */
  lemma SpeakersGainATenth(ranked: seq<Ranked>, i: nat)
    requires i < |ranked|
    ensures Boosted(ranked)[i].score == ranked[i].score + (if ranked[i].record.speaks then 0.1 else 0.0)
    ensures Boosted(ranked)[i] == ranked[i].(score := Boosted(ranked)[i].score)
  {
  }
}
