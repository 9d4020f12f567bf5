/**
 * Scatter and gather: executing a query on each shard, merging the partial results, and the proofs
 * that the merged answer is the one a single machine holding all records would give.
 */
module DistQuery {
  import opened TopK

  datatype Option<+T> = None | Some(value: T)

  datatype Record = Record(id: nat, confidence: real, score: real, payload: seq<nat>)

  type Records = seq<Record>

  datatype AggOp = CountOp | SumOp | AvgOp | MinOp | MaxOp

  /** What a shard reports for an aggregate. */
  datatype Partial = Partial(count: Option<nat>, sum: Option<real>)

  datatype Merged = Merged(totalCount: Option<nat>, aggregate: Option<real>)

  // ---- Ranking ---------------------------------------------------------------

  function Scores(rs: Records): seq<real> {
    if rs == [] then [] else [rs[0].score] + Scores(rs[1..])
  }

  /** Stable placement: before the first record that scores no more. */
  function Place(x: Record, rs: Records): Records {
    if rs == [] || x.score >= rs[0].score then [x] + rs else [rs[0]] + Place(x, rs[1..])
  }

  /** Stable sort by descending score. */
  function Ranked(rs: Records): Records {
    if rs == [] then [] else Place(rs[0], Ranked(rs[1..]))
  }

  /** The records with the given score, in order. */
  function OfScore(rs: Records, score: real): Records {
    if rs == [] then [] else (if rs[0].score == score then [rs[0]] else []) + OfScore(rs[1..], score)
  }

  lemma OfScoreFirst(x: Record, rest: Records, score: real)
    ensures OfScore([x] + rest, score) == (if x.score == score then [x] else []) + OfScore(rest, score)
  {
    assert ([x] + rest)[1..] == rest;
  }

  lemma Swap(a: Records, b: Records, c: Records)
    requires a == [] || b == []
    ensures a + (b + c) == b + (a + c)
  {
    assert a == [] ==> a + (b + c) == b + c && a + c == c;
    assert b == [] ==> b + c == c && b + (a + c) == a + c;
  }

  lemma {:induction false} PlaceStable(x: Record, rs: Records, score: real)
    ensures OfScore(Place(x, rs), score) == (if x.score == score then [x] else []) + OfScore(rs, score)
  {
    if rs == [] || x.score >= rs[0].score {
      OfScoreFirst(x, rs, score);
    } else {
      PlaceStable(x, rs[1..], score);
      OfScoreFirst(rs[0], Place(x, rs[1..]), score);
      Swap(if rs[0].score == score then [rs[0]] else [], if x.score == score then [x] else [], OfScore(rs[1..], score));
    }
  }

  /** Ranking keeps every record and, among equal scores, their order. */
  lemma {:induction false} RankedStable(rs: Records, score: real)
    ensures Descending(Scores(Ranked(rs))) && OfScore(Ranked(rs), score) == OfScore(rs, score)
  {
    RankedScores(rs);
    if rs != [] {
      RankedStable(rs[1..], score);
      PlaceStable(rs[0], Ranked(rs[1..]), score);
    }
  }

  lemma {:induction false} PlaceScores(x: Record, rs: Records)
    requires Descending(Scores(rs))
    ensures Scores(Place(x, rs)) == TopK.Insert(x.score, Scores(rs))
    ensures Descending(Scores(Place(x, rs)))
  {
    InsertOk(x.score, Scores(rs), 0.0);
    if rs == [] {
      assert [x][1..] == [];
    } else if x.score >= rs[0].score {
      assert ([x] + rs)[1..] == rs;
      InsertEqual(x.score, Scores(rs));
    } else {
      assert Scores(rs)[1..] == Scores(rs[1..]);
      PlaceScores(x, rs[1..]);
      assert ([rs[0]] + Place(x, rs[1..]))[1..] == Place(x, rs[1..]);
    }
  }

  /** Among equal numbers the place does not matter. */
  lemma {:induction false} InsertEqual(x: real, s: seq<real>)
    requires Descending(s) && s != [] && x >= s[0]
    ensures TopK.Insert(x, s) == [x] + s
  {
    if x == s[0] && |s| > 1 {
      InsertEqual(x, s[1..]);
    }
  }

  lemma {:induction false} RankedScores(rs: Records)
    ensures Scores(Ranked(rs)) == Sort(Scores(rs)) && Descending(Scores(Ranked(rs)))
  {
    if rs != [] {
      RankedScores(rs[1..]);
      PlaceScores(rs[0], Ranked(rs[1..]));
    }
  }

  lemma {:induction false} ScoresTake(k: nat, rs: Records)
    ensures |Scores(rs)| == |rs| && Scores(Take(k, rs)) == Take(k, Scores(rs))
  {
    if rs != [] {
      ScoresTake(if k == 0 then 0 else k - 1, rs[1..]);
      if 0 < k <= |rs| {
        assert rs[..k][1..] == rs[1..][..k - 1];
      }
    }
  }

  lemma {:induction false} ScoresJoin(a: Records, b: Records)
    ensures Scores(a + b) == Scores(a) + Scores(b)
  {
    if a == [] {
      assert a + b == b;
    } else {
      assert (a + b)[1..] == a[1..] + b;
      ScoresJoin(a[1..], b);
    }
  }

  // ---- One shard -------------------------------------------------------------

  /** The records with the similarity the query gives them. */
  function Scored(rs: Records, similarity: Record -> real): Records {
    if rs == [] then [] else [rs[0].(score := similarity(rs[0]))] + Scored(rs[1..], similarity)
  }

  /** A shard's answer to a vector scan. */
  function ShardTop(rs: Records, similarity: Record -> real, k: nat): Records {
    Take(k, Ranked(Scored(rs, similarity)))
  }

  function SumOf(rs: Records): real { if rs == [] then 0.0 else rs[0].confidence + SumOf(rs[1..]) }

  function Least(a: real, b: real): real { if a <= b then a else b }

  /** Least confidence, of at least one record. */
  function MinOf(rs: Records): real
    requires rs != []
  {
    if |rs| == 1 then rs[0].confidence else Least(rs[0].confidence, MinOf(rs[1..]))
  }

  function MaxOf(rs: Records): real
    requires rs != []
  {
    if |rs| == 1 then rs[0].confidence else -Least(-rs[0].confidence, -MaxOf(rs[1..]))
  }

  /** A shard's answer to an aggregate; an empty shard reports 0 for the extremes. */
  function ShardPartial(rs: Records, op: AggOp): Partial {
    match op
    case CountOp => Partial(Some(|rs|), None)
    case SumOp => Partial(None, Some(SumOf(rs)))
    case AvgOp => Partial(Some(|rs|), Some(SumOf(rs)))
    case MinOp => Partial(None, Some(if rs == [] then 0.0 else MinOf(rs)))
    case MaxOp => Partial(None, Some(if rs == [] then 0.0 else MaxOf(rs)))
  }

  // ---- Vector scans ----------------------------------------------------------

  const CONFIDENCE_FLOOR: real := 1.0

  /** Records with their confidence capped by the floor of their shard. */
  function Floored(rs: Records): Records {
    if rs == [] then [] else [rs[0].(confidence := Least(rs[0].confidence, CONFIDENCE_FLOOR))] + Floored(rs[1..])
  }

  function FlooredAll(results: seq<Records>): seq<Records> {
    if results == [] then [] else [Floored(results[0])] + FlooredAll(results[1..])
  }

  function TopsOf(shards: seq<Records>, similarity: Record -> real, k: nat): seq<Records> {
    if shards == [] then [] else [ShardTop(shards[0], similarity, k)] + TopsOf(shards[1..], similarity, k)
  }

  /** Gather, cap, rank and cut. */
  method MergeVectorScan(results: seq<Records>, topK: nat) returns (records: Records)
    ensures records == Take(topK, Ranked(Concat(FlooredAll(results))))
  {
    var all: Records := [];
    for i := 0 to |results|
      invariant all + Concat(FlooredAll(results[i..])) == Concat(FlooredAll(results))
    {
      all := CapInto(all, results[i]);
      FlooredFrom(results, i);
    }
    assert FlooredAll(results[|results|..]) == [] && all + [] == all;
    return Take(topK, Ranked(all));
  }

  lemma FlooredFrom(results: seq<Records>, i: nat)
    requires i < |results|
    ensures Concat(FlooredAll(results[i..])) == Floored(results[i]) + Concat(FlooredAll(results[i + 1..]))
  {
    assert results[i..][1..] == results[i + 1..];
    assert FlooredAll(results[i..])[1..] == FlooredAll(results[i + 1..]);
  }

  method CapInto(all0: Records, rs: Records) returns (all: Records)
    ensures all == all0 + Floored(rs)
  {
    all := all0;
    for i := 0 to |rs|
      invariant all + Floored(rs[i..]) == all0 + Floored(rs)
    {
      assert rs[i..][1..] == rs[i + 1..];
      all := all + [rs[i].(confidence := Least(rs[i].confidence, CONFIDENCE_FLOOR))];
    }
  }

  lemma {:induction false} FlooredScores(rs: Records)
    ensures Scores(Floored(rs)) == Scores(rs)
  {
    if rs != [] {
      FlooredScores(rs[1..]);
    }
  }

  function AllScores(shards: seq<Records>, similarity: Record -> real): seq<seq<real>> {
    if shards == [] then [] else [Scores(Scored(shards[0], similarity))] + AllScores(shards[1..], similarity)
  }

  /** The gathered scores are the best of each shard. */
  lemma {:induction false} GatheredScores(shards: seq<Records>, similarity: Record -> real, m: nat)
    ensures Scores(Concat(FlooredAll(TopsOf(shards, similarity, m)))) == Concat(Tops(AllScores(shards, similarity), m))
  {
    if shards != [] {
      var top, rest := ShardTop(shards[0], similarity, m), TopsOf(shards[1..], similarity, m);
      GatheredScores(shards[1..], similarity, m);
      assert TopsOf(shards, similarity, m)[1..] == rest;
      ScoresJoin(Floored(top), Concat(FlooredAll(rest)));
      FlooredScores(top);
      RankedScores(Scored(shards[0], similarity));
      ScoresTake(m, Ranked(Scored(shards[0], similarity)));
      assert AllScores(shards, similarity)[1..] == AllScores(shards[1..], similarity);
      assert FlooredAll(TopsOf(shards, similarity, m))[1..] == FlooredAll(rest);
      GatherFirst(top, rest, AllScores(shards, similarity), m);
    }
  }

  lemma GatherFirst(top: Records, rest: seq<Records>, scores: seq<seq<real>>, m: nat)
    requires scores != [] && Scores(top) == Take(m, Sort(scores[0]))
    requires Scores(Concat(FlooredAll(rest))) == Concat(Tops(scores[1..], m))
    ensures Scores(Floored(top) + Concat(FlooredAll(rest))) == Concat(Tops(scores, m))
  {
    ScoresJoin(Floored(top), Concat(FlooredAll(rest)));
    FlooredScores(top);
    assert Tops(scores, m)[1..] == Tops(scores[1..], m);
  }

  lemma {:induction false} UnionScores(shards: seq<Records>, similarity: Record -> real)
    ensures Scores(Scored(Concat(shards), similarity)) == Concat(AllScores(shards, similarity))
  {
    if shards != [] {
      UnionScores(shards[1..], similarity);
      ScoredJoin(shards[0], Concat(shards[1..]), similarity);
      ScoresJoin(Scored(shards[0], similarity), Scored(Concat(shards[1..]), similarity));
      assert AllScores(shards, similarity)[1..] == AllScores(shards[1..], similarity);
    }
  }

  lemma {:induction false} ScoredJoin(a: Records, b: Records, similarity: Record -> real)
    ensures Scored(a + b, similarity) == Scored(a, similarity) + Scored(b, similarity)
  {
    if a == [] {
      assert a + b == b;
    } else {
      assert (a + b)[1..] == a[1..] + b;
      ScoredJoin(a[1..], b, similarity);
    }
  }

  /** What the coordinator returns for a vector scan over the shards. */
  function Scattered(shards: seq<Records>, similarity: Record -> real, topK: nat, oversample: nat): Records {
    Take(topK, Ranked(Concat(FlooredAll(TopsOf(shards, similarity, topK * oversample)))))
  }

  /** What one machine holding all records returns. */
  function Single(shards: seq<Records>, similarity: Record -> real, topK: nat): Records {
    ShardTop(Concat(shards), similarity, topK)
  }

  lemma SingleScores(shards: seq<Records>, similarity: Record -> real, topK: nat)
    ensures Scores(Single(shards, similarity, topK)) == Take(topK, Sort(Concat(AllScores(shards, similarity))))
  {
    UnionScores(shards, similarity);
    RankedScores(Scored(Concat(shards), similarity));
    ScoresTake(topK, Ranked(Scored(Concat(shards), similarity)));
  }

  lemma ScatteredScores(shards: seq<Records>, similarity: Record -> real, topK: nat, oversample: nat)
    ensures Scores(Scattered(shards, similarity, topK, oversample))
         == Take(topK, Sort(Concat(Tops(AllScores(shards, similarity), topK * oversample))))
  {
    var gathered := Concat(FlooredAll(TopsOf(shards, similarity, topK * oversample)));
    GatheredScores(shards, similarity, topK * oversample);
    RankedScores(gathered);
    ScoresTake(topK, Ranked(gathered));
  }

  lemma {:induction false} NothingTaken(parts: seq<seq<real>>)
    ensures Concat(Tops(parts, 0)) == []
  {
    if parts != [] {
      NothingTaken(parts[1..]);
      assert Tops(parts, 0)[1..] == Tops(parts[1..], 0);
    }
  }

  /**
   * For every partition of the records, the merged scan has the scores of the best `topK` of the union,
   * in order, exactly when each shard is asked for at least as many (or nothing is asked or stored).
   */
  lemma VectorScanExact(shards: seq<Records>, similarity: Record -> real, topK: nat, oversample: nat)
    ensures Scores(Scattered(shards, similarity, topK, oversample)) == Scores(Single(shards, similarity, topK))
       <==> oversample >= 1 || topK == 0 || Concat(shards) == []
  {
    SingleScores(shards, similarity, topK);
    ScatteredScores(shards, similarity, topK, oversample);
    var parts := AllScores(shards, similarity);
    if oversample >= 1 {
      Oversampled(topK, oversample);
      BestOfBest(parts, topK * oversample, topK);
    } else {
      NothingTaken(parts);
      UnionScores(shards, similarity);
      SortOk(Concat(parts), 0.0);
      ScoredSize(Concat(shards), similarity);
      ScoresTake(0, Scored(Concat(shards), similarity));
    }
  }

  lemma Oversampled(k: nat, f: nat)
    requires f >= 1
    ensures k * f >= k
  {
  }

  lemma {:induction false} ScoredSize(rs: Records, similarity: Record -> real)
    ensures |Scored(rs, similarity)| == |rs|
  {
    if rs != [] {
      ScoredSize(rs[1..], similarity);
    }
  }

  // ---- The records themselves ------------------------------------------------

  /** A record as the coordinator returns it: scored, its confidence capped. */
  function Returned(r: Record, similarity: Record -> real): Record {
    r.(score := similarity(r), confidence := Least(r.confidence, CONFIDENCE_FLOOR))
  }

  ghost predicate Answers(z: Record, stored: Records, similarity: Record -> real) {
    exists r :: r in stored && z == Returned(r, similarity)
  }

  /** Every record listed is one of the stored ones as the coordinator returns it. */
  ghost predicate ReturnedFrom(rs: Records, stored: Records, similarity: Record -> real) {
    forall i {:trigger rs[i]} :: 0 <= i < |rs| ==> Answers(rs[i], stored, similarity)
  }

  lemma {:induction false} PlaceMembers(x: Record, rs: Records)
    ensures forall z :: z in Place(x, rs) ==> z == x || z in rs
  {
    if !(rs == [] || x.score >= rs[0].score) {
      PlaceMembers(x, rs[1..]);
    }
  }

  lemma {:induction false} RankedMembers(rs: Records)
    ensures forall z :: z in Ranked(rs) ==> z in rs
  {
    if rs != [] {
      RankedMembers(rs[1..]);
      PlaceMembers(rs[0], Ranked(rs[1..]));
    }
  }

  /** Capping what was scored returns it. */
  lemma {:induction false} FlooredMembers(rs: Records, z: Record) returns (r: Record)
    requires z in Floored(rs)
    ensures r in rs && z == r.(confidence := Least(r.confidence, CONFIDENCE_FLOOR))
  {
    if z == rs[0].(confidence := Least(rs[0].confidence, CONFIDENCE_FLOOR)) {
      r := rs[0];
    } else {
      r := FlooredMembers(rs[1..], z);
    }
  }

  lemma {:induction false} ScoredMembers(rs: Records, similarity: Record -> real, z: Record) returns (r: Record)
    requires z in Scored(rs, similarity)
    ensures r in rs && z == r.(score := similarity(r))
  {
    if z == rs[0].(score := similarity(rs[0])) {
      r := rs[0];
    } else {
      r := ScoredMembers(rs[1..], similarity, z);
    }
  }

  /** What a shard answers, once capped. */
  lemma ShardReturns(rs: Records, similarity: Record -> real, k: nat, z: Record) returns (r: Record)
    requires z in Floored(ShardTop(rs, similarity, k))
    ensures r in rs && z == Returned(r, similarity)
  {
    var scored := FlooredMembers(ShardTop(rs, similarity, k), z);
    RankedMembers(Scored(rs, similarity));
    r := ScoredMembers(rs, similarity, scored);
  }

  lemma {:induction false} GatheredReturns(shards: seq<Records>, similarity: Record -> real, m: nat, z: Record) returns (r: Record)
    requires z in Concat(FlooredAll(TopsOf(shards, similarity, m)))
    ensures r in Concat(shards) && z == Returned(r, similarity)
  {
    var tops := TopsOf(shards, similarity, m);
    assert tops[1..] == TopsOf(shards[1..], similarity, m);
    assert FlooredAll(tops)[1..] == FlooredAll(tops[1..]);
    if z in Floored(tops[0]) {
      r := ShardReturns(shards[0], similarity, m, z);
    } else {
      r := GatheredReturns(shards[1..], similarity, m, z);
    }
  }

  lemma ScatteredReturns(shards: seq<Records>, similarity: Record -> real, topK: nat, oversample: nat)
    ensures ReturnedFrom(Scattered(shards, similarity, topK, oversample), Concat(shards), similarity)
  {
    var gathered := Concat(FlooredAll(TopsOf(shards, similarity, topK * oversample)));
    var rs := Scattered(shards, similarity, topK, oversample);
    RankedMembers(gathered);
    forall i | 0 <= i < |rs| ensures Answers(rs[i], Concat(shards), similarity) {
      assert rs[i] == Ranked(gathered)[i];
      var r := GatheredReturns(shards, similarity, topK * oversample, rs[i]);
    }
  }

  lemma SingleReturns(shards: seq<Records>, similarity: Record -> real, topK: nat)
    ensures ReturnedFrom(Floored(Single(shards, similarity, topK)), Concat(shards), similarity)
  {
    var rs := Floored(Single(shards, similarity, topK));
    forall i | 0 <= i < |rs| ensures Answers(rs[i], Concat(shards), similarity) {
      var r := ShardReturns(Concat(shards), similarity, topK, rs[i]);
    }
  }

  lemma {:induction false} ScoreAt(rs: Records, i: nat)
    requires i < |rs|
    ensures |Scores(rs)| == |rs| && Scores(rs)[i] == rs[i].score
  {
    if i > 0 {
      ScoreAt(rs[1..], i - 1);
    } else if |rs| > 1 {
      ScoreAt(rs[1..], 0);
    }
  }

  /** No two different records are equally similar to the query. */
  ghost predicate Untied(stored: Records, similarity: Record -> real) {
    forall r, s :: r in stored && s in stored && similarity(r) == similarity(s) ==> r == s
  }

  lemma ScoreDecides(x: Records, y: Records, stored: Records, similarity: Record -> real)
    requires ReturnedFrom(x, stored, similarity) && ReturnedFrom(y, stored, similarity) && Untied(stored, similarity)
    requires Scores(x) == Scores(y)
    ensures x == y
  {
    ScoresTake(0, x);
    ScoresTake(0, y);
    forall i | 0 <= i < |x| ensures x[i] == y[i] {
      ScoreAt(x, i);
      ScoreAt(y, i);
      assert Answers(x[i], stored, similarity) && Answers(y[i], stored, similarity);
    }
  }

  /**
   * Without ties the merged scan returns the very records, in the very order, that one machine holding
   * all of them returns, their confidences capped.
   */
  lemma VectorScanRecords(shards: seq<Records>, similarity: Record -> real, topK: nat, oversample: nat)
    requires oversample >= 1 && Untied(Concat(shards), similarity)
    ensures Scattered(shards, similarity, topK, oversample) == Floored(Single(shards, similarity, topK))
  {
    VectorScanExact(shards, similarity, topK, oversample);
    FlooredScores(Single(shards, similarity, topK));
    ScatteredReturns(shards, similarity, topK, oversample);
    SingleReturns(shards, similarity, topK);
    ScoreDecides(Scattered(shards, similarity, topK, oversample), Floored(Single(shards, similarity, topK)),
                 Concat(shards), similarity);
  }

  // ---- Aggregates ------------------------------------------------------------

  function CountsOf(ps: seq<Partial>): nat {
    if ps == [] then 0 else (if ps[0].count.Some? then ps[0].count.value else 0) + CountsOf(ps[1..])
  }

  function SumsOf(ps: seq<Partial>): real {
    if ps == [] then 0.0 else (if ps[0].sum.Some? then ps[0].sum.value else 0.0) + SumsOf(ps[1..])
  }

  /** Least of the reported values, if any. */
  function LeastOf(ps: seq<Partial>): Option<real> {
    if ps == [] then None
    else
      var rest := LeastOf(ps[1..]);
      if ps[0].sum.None? then rest
      else if rest.None? then ps[0].sum else Some(Least(ps[0].sum.value, rest.value))
  }

  function GreatestOf(ps: seq<Partial>): Option<real> {
    if ps == [] then None
    else
      var rest := GreatestOf(ps[1..]);
      if ps[0].sum.None? then rest
      else if rest.None? then ps[0].sum else Some(-Least(-ps[0].sum.value, -rest.value))
  }

  function OrZero(x: Option<real>): real { if x.Some? then x.value else 0.0 }

  function MergeAggregate(ps: seq<Partial>, op: AggOp): Merged {
    match op
    case CountOp => Merged(Some(CountsOf(ps)), None)
    case SumOp => Merged(None, Some(SumsOf(ps)))
    case AvgOp => Merged(None, Some(if CountsOf(ps) == 0 then 0.0 else SumsOf(ps) / CountsOf(ps) as real))
    case MinOp => Merged(None, Some(OrZero(LeastOf(ps))))
    case MaxOp => Merged(None, Some(OrZero(GreatestOf(ps))))
  }

  function Partials(shards: seq<Records>, op: AggOp): seq<Partial> {
    if shards == [] then [] else [ShardPartial(shards[0], op)] + Partials(shards[1..], op)
  }

  lemma {:induction false} SumJoin(a: Records, b: Records)
    ensures SumOf(a + b) == SumOf(a) + SumOf(b)
  {
    if a == [] {
      assert a + b == b;
    } else {
      assert (a + b)[1..] == a[1..] + b;
      SumJoin(a[1..], b);
    }
  }

  lemma {:induction false} PartialSums(shards: seq<Records>, op: AggOp)
    requires op.CountOp? || op.SumOp? || op.AvgOp?
    ensures op.CountOp? || op.AvgOp? ==> CountsOf(Partials(shards, op)) == |Concat(shards)|
    ensures op.SumOp? || op.AvgOp? ==> SumsOf(Partials(shards, op)) == SumOf(Concat(shards))
  {
    if shards != [] {
      PartialSums(shards[1..], op);
      assert Partials(shards, op)[1..] == Partials(shards[1..], op);
      SumJoin(shards[0], Concat(shards[1..]));
    }
  }

  /** What a sum is: nothing adds 0, a record its confidence, and two lists add up. */
  lemma SumLaws(r: Record, a: Records, b: Records)
    ensures SumOf([]) == 0.0 && SumOf([r]) == r.confidence && SumOf(a + b) == SumOf(a) + SumOf(b)
  {
    assert [r][1..] == [];
    SumJoin(a, b);
  }

  ghost predicate Bounds(rs: Records, lo: real, hi: real) { forall r :: r in rs ==> lo <= r.confidence <= hi }

  function Repeated(x: real, n: nat): real { if n == 0 then 0.0 else x + Repeated(x, n - 1) }

  lemma Distributes(x: real, m: real, n: real)
    requires n == m + 1.0
    ensures x + x * m == x * n
  {
  }

  lemma {:induction false} RepeatedIs(x: real, n: nat)
    ensures Repeated(x, n) == x * n as real
  {
    if n > 0 {
      RepeatedIs(x, n - 1);
      Distributes(x, (n - 1) as real, n as real);
    }
  }

  lemma {:induction false} SumBounds(rs: Records, lo: real, hi: real)
    requires Bounds(rs, lo, hi)
    ensures Repeated(lo, |rs|) <= SumOf(rs) <= Repeated(hi, |rs|)
  {
    if rs != [] {
      assert rs[0] in rs && forall r :: r in rs[1..] ==> r in rs;
      SumBounds(rs[1..], lo, hi);
    }
  }

  lemma Scales(a: real, b: real, n: real)
    requires a < b && n > 0.0
    ensures a * n < b * n
  {
  }

  lemma NotBelow(a: real, b: real, n: real)
    requires n > 0.0 && a * n <= b * n
    ensures a <= b
  {
    if b < a {
      Scales(b, a, n);
    }
  }

  lemma LowerQuotient(x: real, sum: real, n: nat)
    requires n > 0 && Repeated(x, n) <= sum
    ensures x <= sum / n as real
  {
    RepeatedIs(x, n);
    QuotientTimes(sum, n as real);
    NotBelow(x, sum / n as real, n as real);
  }

  lemma UpperQuotient(x: real, sum: real, n: nat)
    requires n > 0 && sum <= Repeated(x, n)
    ensures sum / n as real <= x
  {
    RepeatedIs(x, n);
    QuotientTimes(sum, n as real);
    NotBelow(sum / n as real, x, n as real);
  }

  /** `avg` is the mean confidence: it times the number of records is their sum, and it lies within their bounds. */
  ghost predicate IsAverage(rs: Records, avg: real) {
    && (rs == [] ==> avg == 0.0)
    && avg * |rs| as real == SumOf(rs)
    && forall lo, hi {:trigger Bounds(rs, lo, hi)} :: rs != [] && Bounds(rs, lo, hi) ==> lo <= avg <= hi
  }

  lemma AverageIs(rs: Records)
    ensures IsAverage(rs, if |rs| == 0 then 0.0 else SumOf(rs) / |rs| as real)
  {
    if rs != [] {
      QuotientTimes(SumOf(rs), |rs| as real);
      forall lo, hi | Bounds(rs, lo, hi) ensures lo <= SumOf(rs) / |rs| as real <= hi {
        AverageBounds(rs, lo, hi);
      }
    }
  }

  lemma QuotientTimes(a: real, b: real)
    requires b != 0.0
    ensures a / b * b == a
  {
  }

  lemma AverageBounds(rs: Records, lo: real, hi: real)
    requires rs != [] && Bounds(rs, lo, hi)
    ensures lo <= SumOf(rs) / |rs| as real <= hi
  {
    SumBounds(rs, lo, hi);
    LowerQuotient(lo, SumOf(rs), |rs|);
    UpperQuotient(hi, SumOf(rs), |rs|);
  }

  /** For any partition Count is the number of records, Sum the sum and Avg the mean of their confidences. */
  lemma AggregateAnswers(shards: seq<Records>)
    ensures MergeAggregate(Partials(shards, CountOp), CountOp) == Merged(Some(|Concat(shards)|), None)
    ensures MergeAggregate(Partials(shards, SumOp), SumOp) == Merged(None, Some(SumOf(Concat(shards))))
    ensures var m := MergeAggregate(Partials(shards, AvgOp), AvgOp);
            m.totalCount == None && m.aggregate.Some? && IsAverage(Concat(shards), m.aggregate.value)
  {
    PartialSums(shards, CountOp);
    PartialSums(shards, SumOp);
    PartialSums(shards, AvgOp);
    AverageIs(Concat(shards));
  }

  /** Count, Sum and Avg of any partition are those of the union on one machine. */
  lemma AggregateAgrees(shards: seq<Records>, op: AggOp)
    requires op.CountOp? || op.SumOp? || op.AvgOp?
    ensures MergeAggregate(Partials(shards, op), op) == MergeAggregate([ShardPartial(Concat(shards), op)], op)
  {
    PartialSums(shards, op);
    PartialSums([Concat(shards)], op);
    assert [Concat(shards)][1..] == [];
    assert Concat([Concat(shards)]) == Concat(shards);
    assert Partials([Concat(shards)], op) == [ShardPartial(Concat(shards), op)];
  }

  predicate NoneEmpty(shards: seq<Records>) { forall i :: 0 <= i < |shards| ==> shards[i] != [] }

  lemma {:induction false} MinJoin(a: Records, b: Records)
    requires a != [] && b != []
    ensures MinOf(a + b) == Least(MinOf(a), MinOf(b))
  {
    assert (a + b)[1..] == a[1..] + b;
    if |a| > 1 {
      MinJoin(a[1..], b);
    } else {
      assert a[1..] + b == b;
    }
  }

  /** The merged minimum: the union's, lowered to 0 by any empty shard. */
  lemma {:induction false} LeastReported(shards: seq<Records>)
    requires shards != []
    ensures LeastOf(Partials(shards, MinOp)).Some?
    ensures var all, least := Concat(shards), LeastOf(Partials(shards, MinOp)).value;
            least == if all == [] then 0.0 else if NoneEmpty(shards) then MinOf(all) else Least(MinOf(all), 0.0)
  {
    var rest := shards[1..];
    assert Partials(shards, MinOp)[1..] == Partials(rest, MinOp);
    assert NoneEmpty(shards) <==> shards[0] != [] && NoneEmpty(rest) by {
      assert forall i :: 0 <= i < |rest| ==> rest[i] == shards[i + 1];
      assert NoneEmpty(rest) && shards[0] != [] ==> forall i :: 0 < i < |shards| ==> shards[i] == rest[i - 1];
    }
    if rest != [] {
      LeastReported(rest);
      if shards[0] != [] && Concat(rest) != [] {
        MinJoin(shards[0], Concat(rest));
      }
      if Concat(rest) == [] {
        EmptyParts(rest);
      }
    } else {
      assert Partials(rest, MinOp) == [] && Concat(rest) == [];
    }
    assert Concat(rest) == [] ==> shards[0] + Concat(rest) == shards[0];
    assert shards[0] == [] ==> shards[0] + Concat(rest) == Concat(rest);
  }

  lemma {:induction false} EmptyParts(shards: seq<Records>)
    requires shards != [] && Concat(shards) == []
    ensures !NoneEmpty(shards)
  {
    assert shards[0] == [];
  }

  lemma {:induction false} MinIsLeast(rs: Records)
    requires rs != []
    ensures (exists r :: r in rs && r.confidence == MinOf(rs)) && forall r :: r in rs ==> MinOf(rs) <= r.confidence
  {
    if |rs| == 1 {
      assert rs[0] in rs;
    } else {
      MinIsLeast(rs[1..]);
      var least :| least in rs[1..] && least.confidence == MinOf(rs[1..]);
      assert rs[0] in rs && least in rs;
      assert forall r :: r in rs <==> r == rs[0] || r in rs[1..];
    }
  }

  lemma {:induction false} MaxIsGreatest(rs: Records)
    requires rs != []
    ensures (exists r :: r in rs && r.confidence == MaxOf(rs)) && forall r :: r in rs ==> r.confidence <= MaxOf(rs)
  {
    if |rs| == 1 {
      assert rs[0] in rs;
    } else {
      MaxIsGreatest(rs[1..]);
      var greatest :| greatest in rs[1..] && greatest.confidence == MaxOf(rs[1..]);
      assert rs[0] in rs && greatest in rs;
      assert forall r :: r in rs <==> r == rs[0] || r in rs[1..];
    }
  }

  /**
   * Exactly when the merged minimum is the least confidence of the union (0 for no record): no queried
   * shard is empty, or all are, or that least confidence is not above 0.
   */
  lemma MinExact(shards: seq<Records>)
    requires shards != []
    ensures MergeAggregate(Partials(shards, MinOp), MinOp)
         == Merged(None, Some(if Concat(shards) == [] then 0.0 else MinOf(Concat(shards))))
       <==> NoneEmpty(shards) || Concat(shards) == [] || MinOf(Concat(shards)) <= 0.0
    ensures MergeAggregate([ShardPartial(Concat(shards), MinOp)], MinOp)
         == Merged(None, Some(if Concat(shards) == [] then 0.0 else MinOf(Concat(shards))))
  {
    LeastReported(shards);
    var single := ShardPartial(Concat(shards), MinOp);
    assert [single][1..] == [];
    assert LeastOf([single]) == single.sum;
  }

  lemma {:induction false} MaxJoin(a: Records, b: Records)
    requires a != [] && b != []
    ensures MaxOf(a + b) == if MaxOf(a) >= MaxOf(b) then MaxOf(a) else MaxOf(b)
  {
    assert (a + b)[1..] == a[1..] + b;
    if |a| > 1 {
      MaxJoin(a[1..], b);
    } else {
      assert a[1..] + b == b;
    }
  }

  lemma FirstAndRest(shards: seq<Records>)
    requires shards != []
    ensures NoneEmpty(shards) <==> shards[0] != [] && NoneEmpty(shards[1..])
    ensures Concat(shards) == shards[0] + Concat(shards[1..])
  {
    var rest := shards[1..];
    assert forall i :: 0 <= i < |rest| ==> rest[i] == shards[i + 1];
    assert NoneEmpty(rest) && shards[0] != [] ==> forall i :: 0 < i < |shards| ==> shards[i] == rest[i - 1];
  }

  /** The merged maximum: the union's, raised to 0 by any empty shard. */
  lemma {:induction false} GreatestReported(shards: seq<Records>)
    requires shards != []
    ensures GreatestOf(Partials(shards, MaxOp)).Some?
    ensures var all, greatest := Concat(shards), GreatestOf(Partials(shards, MaxOp)).value;
            greatest == if all == [] then 0.0 else if NoneEmpty(shards) || MaxOf(all) >= 0.0 then MaxOf(all) else 0.0
  {
    var rest := shards[1..];
    assert Partials(shards, MaxOp)[1..] == Partials(rest, MaxOp);
    FirstAndRest(shards);
    if rest != [] {
      GreatestReported(rest);
      if shards[0] != [] && Concat(rest) != [] {
        MaxJoin(shards[0], Concat(rest));
      }
      if Concat(rest) == [] {
        EmptyParts(rest);
      }
    } else {
      assert Partials(rest, MaxOp) == [] && Concat(rest) == [];
    }
    assert Concat(rest) == [] ==> shards[0] + Concat(rest) == shards[0];
    assert shards[0] == [] ==> shards[0] + Concat(rest) == Concat(rest);
  }

  /**
   * Exactly when the merged maximum is the greatest confidence of the union (0 for no record): no
   * queried shard is empty, or all are, or that greatest confidence is not below 0.
   */
  lemma MaxExact(shards: seq<Records>)
    requires shards != []
    ensures MergeAggregate(Partials(shards, MaxOp), MaxOp)
         == Merged(None, Some(if Concat(shards) == [] then 0.0 else MaxOf(Concat(shards))))
       <==> NoneEmpty(shards) || Concat(shards) == [] || MaxOf(Concat(shards)) >= 0.0
  {
    GreatestReported(shards);
  }
}
