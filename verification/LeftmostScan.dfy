/** Taking matches from left to right: what is found, given how long a match each place begins. */
module LeftmostScan {
  datatype Span = Span(start: nat, length: nat) {
    predicate Holds(p: int) {
      start <= p < start + length
    }
  }

  // How long the match at each place is; zero where none begins.
  type Hits = seq<nat>

  predicate Fitting(hits: Hits) {
    forall k :: 0 <= k < |hits| ==> k + hits[k] <= |hits|
  }

  function Scan(hits: Hits, at: nat): seq<Span>
    requires Fitting(hits) && at <= |hits|
    decreases |hits| - at
  {
    if at == |hits| then []
    else if hits[at] > 0 then [Span(at, hits[at])] + Scan(hits, at + hits[at])
    else Scan(hits, at + 1)
  }

  ghost predicate Covered(spans: seq<Span>, p: int) {
    exists k :: 0 <= k < |spans| && spans[k].Holds(p)
  }

  ghost predicate Apart(spans: seq<Span>, from: nat) {
    && (forall k :: 0 <= k < |spans| ==> from <= spans[k].start)
    && (forall k, m :: 0 <= k < m < |spans| ==> spans[k].start + spans[k].length <= spans[m].start)
  }

  predicate IsHit(hits: Hits, span: Span) {
    span.start < |hits| && span.length == hits[span.start] > 0
  }

  ghost predicate AllHits(hits: Hits, spans: seq<Span>) {
    forall k :: 0 <= k < |spans| ==> IsHit(hits, spans[k])
  }

  ghost predicate AllCovered(hits: Hits, from: nat, spans: seq<Span>) {
    forall p: nat {:trigger Covered(spans, p)} :: from <= p < |hits| && hits[p] > 0 ==> Covered(spans, p)
  }

  /**
  Matches in order, none overlapping, such that every match that begins anywhere begins
  inside one of them.
  */
  ghost predicate AreLeftmost(hits: Hits, from: nat, spans: seq<Span>) {
    Apart(spans, from) && AllHits(hits, spans) && AllCovered(hits, from, spans)
  }

  lemma CoveredByMore(first: Span, rest: seq<Span>, p: int)
    ensures Covered([first] + rest, p) <==> first.Holds(p) || Covered(rest, p)
  {
    var spans := [first] + rest;
    assert spans[0] == first;
    if Covered(rest, p) {
      var k :| 0 <= k < |rest| && rest[k].Holds(p);
      assert spans[k + 1].Holds(p);
    }
    if Covered(spans, p) {
      var k :| 0 <= k < |spans| && spans[k].Holds(p);
      if k > 0 { assert rest[k - 1] == spans[k]; }
    }
  }

  lemma ApartWithFirst(first: Span, rest: seq<Span>)
    ensures Apart([first] + rest, first.start) <==> Apart(rest, first.start + first.length)
  {
    var spans := [first] + rest;
    assert spans[0] == first;
    if Apart(spans, first.start) {
      forall k | 0 <= k < |rest|
        ensures first.start + first.length <= rest[k].start
      {
        assert rest[k] == spans[k + 1] && spans[0].start + spans[0].length <= spans[k + 1].start;
      }
      forall k, m | 0 <= k < m < |rest|
        ensures rest[k].start + rest[k].length <= rest[m].start
      {
        assert rest[k] == spans[k + 1] && rest[m] == spans[m + 1];
      }
    }
  }

  lemma AllHitsWithFirst(hits: Hits, first: Span, rest: seq<Span>)
    requires IsHit(hits, first)
    ensures AllHits(hits, [first] + rest) <==> AllHits(hits, rest)
  {
    var spans := [first] + rest;
    if AllHits(hits, spans) {
      forall k | 0 <= k < |rest|
        ensures IsHit(hits, rest[k])
      {
        assert rest[k] == spans[k + 1];
      }
    }
  }

  lemma AllCoveredWithFirst(hits: Hits, first: Span, rest: seq<Span>)
    ensures AllCovered(hits, first.start, [first] + rest) <== AllCovered(hits, first.start + first.length, rest)
    ensures AllCovered(hits, first.start, [first] + rest) ==> AllCovered(hits, first.start + first.length, rest)
  {
    forall p
      ensures Covered([first] + rest, p) <==> first.Holds(p) || Covered(rest, p)
    {
      CoveredByMore(first, rest, p);
    }
  }

  lemma LeftmostWithFirst(hits: Hits, first: Span, rest: seq<Span>)
    requires IsHit(hits, first)
    ensures AreLeftmost(hits, first.start, [first] + rest) <==> AreLeftmost(hits, first.start + first.length, rest)
  {
    ApartWithFirst(first, rest);
    AllHitsWithFirst(hits, first, rest);
    AllCoveredWithFirst(hits, first, rest);
  }

  lemma LeftmostOneOn(hits: Hits, from: nat, spans: seq<Span>)
    requires from < |hits| && hits[from] == 0
    ensures AreLeftmost(hits, from, spans) <==> AreLeftmost(hits, from + 1, spans)
  {
  }

  /** The scan finds such a list. */
  lemma {:induction false} ScanIsLeftmost(hits: Hits, from: nat)
    requires Fitting(hits) && from <= |hits|
    ensures AreLeftmost(hits, from, Scan(hits, from))
    decreases |hits| - from
  {
    if from == |hits| {
    } else if hits[from] > 0 {
      var next := from + hits[from];
      ScanIsLeftmost(hits, next);
      LeftmostWithFirst(hits, Span(from, hits[from]), Scan(hits, next));
    } else {
      ScanIsLeftmost(hits, from + 1);
      LeftmostOneOn(hits, from, Scan(hits, from + 1));
    }
  }

  /** There is no other. */
  lemma {:induction false} LeftmostIsScan(hits: Hits, from: nat, spans: seq<Span>)
    requires Fitting(hits) && from <= |hits| && AreLeftmost(hits, from, spans)
    ensures spans == Scan(hits, from)
    decreases |hits| - from
  {
    if from == |hits| {
      NoneAtTheEnd(hits, spans);
    } else if hits[from] > 0 {
      var rest := FirstIsHere(hits, from, spans);
      LeftmostIsScan(hits, from + hits[from], rest);
    } else {
      LeftmostOneOn(hits, from, spans);
      LeftmostIsScan(hits, from + 1, spans);
    }
  }

  lemma NoneAtTheEnd(hits: Hits, spans: seq<Span>)
    requires AreLeftmost(hits, |hits|, spans)
    ensures spans == []
  {
    if spans != [] { FirstIsAHit(hits, spans); }
  }

  lemma FirstIsAHit(hits: Hits, spans: seq<Span>)
    requires spans != [] && AllHits(hits, spans)
    ensures IsHit(hits, spans[0])
  {
  }

  lemma FirstIsHere(hits: Hits, from: nat, spans: seq<Span>) returns (rest: seq<Span>)
    requires from < |hits| && hits[from] > 0 && AreLeftmost(hits, from, spans)
    ensures spans == [Span(from, hits[from])] + rest && AreLeftmost(hits, from + hits[from], rest)
  {
    assert Covered(spans, from);
    CoveringStart(spans, from);
    FirstIsAHit(hits, spans);
    rest := spans[1..];
    assert spans == [Span(from, hits[from])] + rest;
    LeftmostWithFirst(hits, Span(from, hits[from]), rest);
  }

  lemma CoveringStart(spans: seq<Span>, from: nat)
    requires Apart(spans, from) && Covered(spans, from)
    ensures spans != [] && spans[0].start == from
  {
    var k :| 0 <= k < |spans| && spans[k].Holds(from);
    assert 0 <= k < |spans| && from <= spans[0].start;
  }
}
