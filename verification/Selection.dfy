/** Shortlisting catalog items for a query and keeping the confident ones (`decision/select.py`). */
module Selection {
  import opened Sorting
  import opened Strings

  /** How many of n items a slice `[:limit]` takes; a negative limit counts from the end. */
  function Taken(n: nat, limit: int): (k: nat)
    ensures k <= n && (limit >= 0 ==> k <= limit) && (limit >= n ==> k == n)
  {
    if limit >= n then n else if limit >= 0 then limit else if n + limit > 0 then n + limit else 0
  }

  function Take<T>(items: seq<T>, limit: int): seq<T> {
    items[..Taken(|items|, limit)]
  }

  // ---------------------------------------------------------------- keep_confident

  datatype Ranked = Ranked(probability: real, id: string)

  /** The order of `sorted(..., reverse=True)` on pairs: higher probability first, then greater id. */
  predicate Above(a: Ranked, b: Ranked) {
    a.probability > b.probability || (a.probability == b.probability && Less(b.id, a.id))
  }

  function Scored(probabilities: map<string, real>, ids: seq<string>): seq<Ranked> {
    seq(|ids|, i requires 0 <= i < |ids| =>
      Ranked(if ids[i] in probabilities then probabilities[ids[i]] else 0.0, ids[i]))
  }

  function Ranking(probabilities: map<string, real>, ids: seq<string>): seq<Ranked> {
    Sort(Above, Scored(probabilities, ids))
  }

  function Ids(ranked: seq<Ranked>): seq<string> {
    seq(|ranked|, i requires 0 <= i < |ranked| => ranked[i].id)
  }

  predicate Descending(ranked: seq<Ranked>) {
    forall i, j :: 0 <= i < j < |ranked| ==> ranked[i].probability >= ranked[j].probability
  }

  /** How many of a ranking reach a bound. */
  function Reaching(ranked: seq<Ranked>, bound: real): nat {
    if ranked == [] then 0 else (if ranked[0].probability >= bound then 1 else 0) + Reaching(ranked[1..], bound)
  }

  /** How many of a ranking are kept, when `confident` reach the threshold and `near` the floor below it. */
  function Kept(confident: nat, near: nat, limit: int, slack: real): nat {
    if slack > 0.0 && confident < limit then (if near < limit then near else limit)
    else Taken(confident, limit)
  }

  /** What is kept: so many of the highest, or None when nothing clears the floor in use. */
  function Selected(ranked: seq<Ranked>, threshold: real, limit: int, slack: real): Option<seq<string>>
    requires Descending(ranked)
  {
    ReachingIsPrefix(ranked, threshold);
    ReachingIsPrefix(ranked, threshold - slack);
    Pick(Ids(ranked), Reaching(ranked, threshold), Reaching(ranked, threshold - slack), limit, slack)
  }

  function Pick(ids: seq<string>, confident: nat, near: nat, limit: int, slack: real): Option<seq<string>>
    requires confident <= |ids| && near <= |ids|
  {
    if confident == 0 && (slack <= 0.0 || limit <= 0 || near == 0) then None
    else Some(ids[..Kept(confident, near, limit, slack)])
  }

  lemma PickFromChosen(ids: seq<string>, confident: nat, near: nat, limit: int, slack: real, chosen: seq<string>)
    requires confident <= |ids| && near <= |ids| && (slack > 0.0 ==> confident <= near)
    requires chosen ==
             ids[..if slack > 0.0 && confident < limit then if near < limit then near else limit else confident]
    ensures Pick(ids, confident, near, limit, slack) == if chosen == [] then None else Some(Take(chosen, limit))
  {
    assert Take(chosen, limit) == ids[..Taken(|chosen|, limit)];
  }

  method KeepConfident(probabilities: map<string, real>, ids: seq<string>, threshold: real, limit: int, slack: real)
    returns (kept: Option<seq<string>>)
    ensures Descending(Ranking(probabilities, ids))
    ensures kept == Selected(Ranking(probabilities, ids), threshold, limit, slack)
  {
    var ranked := Ranking(probabilities, ids);
    RankingDescends(probabilities, ids);
    ConfidentIsPrefix(ranked, threshold);
    var chosen := Confident(ranked, threshold);
    if slack > 0.0 {
      ReachingMore(ranked, threshold, threshold - slack);
    }
    if slack > 0.0 && |chosen| < limit {
      chosen := AddNearMisses(ranked, chosen, threshold, threshold - slack, limit);
    }
    ReachingIsPrefix(ranked, threshold - slack);
    PickFromChosen(Ids(ranked), Reaching(ranked, threshold), Reaching(ranked, threshold - slack), limit, slack, chosen);
    if chosen == [] {
      return None;
    }
    return Some(Take(chosen, limit));
  }

  /** The slack loop: the next scores down to the floor, while the list is short. */
  method AddNearMisses(ranked: seq<Ranked>, confident: seq<string>, threshold: real, floor: real, limit: int)
    returns (chosen: seq<string>)
    requires Descending(ranked) && floor < threshold
    requires Reaching(ranked, threshold) <= Reaching(ranked, floor) <= |ranked|
    requires confident == Ids(ranked)[..Reaching(ranked, threshold)] && |confident| < limit
    ensures chosen == Ids(ranked)[..if Reaching(ranked, floor) < limit then Reaching(ranked, floor) else limit]
  {
    ghost var sure, near := Reaching(ranked, threshold), Reaching(ranked, floor);
    ReachingIsPrefix(ranked, threshold);
    ReachingIsPrefix(ranked, floor);
    chosen := confident;
    for i := 0 to |ranked|
      invariant chosen == Ids(ranked)[..if i <= sure then sure else if i <= near then i else near]
      invariant |chosen| < limit
    {
      if ranked[i].probability >= threshold || ranked[i].probability < floor {
        continue;
      }
      chosen := chosen + [ranked[i].id];
      assert chosen == Ids(ranked)[..i + 1] && i + 1 <= near;
      if |chosen| >= limit {
        return;
      }
    }
  }

  /** The ids of a ranking that reach the threshold, in its order. */
  function Confident(ranked: seq<Ranked>, threshold: real): seq<string> {
    if ranked == [] then []
    else (if ranked[0].probability >= threshold then [ranked[0].id] else []) + Confident(ranked[1..], threshold)
  }

  lemma AboveIsStrict()
    ensures StrictOrder(Above)
  {
    forall a: Ranked, b: Ranked, c: Ranked
      ensures Above(a, b) ==> !Above(b, a)
      ensures Above(a, c) ==> Above(a, b) || Above(b, c)
    {
      LessIrreflexive(a.id);
      LessTotal(b.id, a.id);
      LessTotal(c.id, b.id);
      if Less(a.id, b.id) && Less(b.id, a.id) {
        LessTransitive(a.id, b.id, a.id);
      }
      if Less(c.id, a.id) && Less(a.id, b.id) {
        LessTransitive(c.id, a.id, b.id);
      }
    }
  }

  lemma RankingDescends(probabilities: map<string, real>, ids: seq<string>)
    ensures Descending(Ranking(probabilities, ids))
    ensures multiset(Ranking(probabilities, ids)) == multiset(Scored(probabilities, ids))
  {
    AboveIsStrict();
    SortOrders(Above, Scored(probabilities, ids));
    SortKeepsItems(Above, Scored(probabilities, ids));
  }

  /** In a descending ranking, those that reach a bound are its first ones. */
  lemma {:induction false} ReachingIsPrefix(ranked: seq<Ranked>, bound: real)
    requires Descending(ranked)
    ensures Reaching(ranked, bound) <= |ranked|
    ensures forall i :: 0 <= i < |ranked| ==> (ranked[i].probability >= bound <==> i < Reaching(ranked, bound))
  {
    if ranked == [] {
    } else {
      var rest := ranked[1..];
      RestDescends(ranked);
      ReachingIsPrefix(rest, bound);
      assert Reaching(rest, bound) > 0 ==> rest[0].probability >= bound;
      forall i | 0 <= i < |ranked|
        ensures ranked[i].probability >= bound <==> i < Reaching(ranked, bound)
      {
        assert i > 0 ==> ranked[i] == rest[i - 1];
      }
    }
  }

  lemma RestDescends(ranked: seq<Ranked>)
    requires Descending(ranked) && ranked != []
    ensures Descending(ranked[1..])
    ensures |ranked| > 1 ==> ranked[0].probability >= ranked[1].probability
  {
    var rest := ranked[1..];
    forall i, j | 0 <= i < j < |rest|
      ensures rest[i].probability >= rest[j].probability
    {
      assert ranked[i + 1].probability >= ranked[j + 1].probability;
    }
  }

  lemma {:induction false} ConfidentIsPrefix(ranked: seq<Ranked>, threshold: real)
    requires Descending(ranked)
    ensures Reaching(ranked, threshold) <= |ranked|
    ensures Confident(ranked, threshold) == Ids(ranked)[..Reaching(ranked, threshold)]
  {
    if ranked == [] {
    } else {
      RestDescends(ranked);
      ConfidentIsPrefix(ranked[1..], threshold);
      ReachingIsPrefix(ranked, threshold);
      assert Ids(ranked) == [ranked[0].id] + Ids(ranked[1..]);
    }
  }

  lemma ReachingMore(ranked: seq<Ranked>, bound: real, lower: real)
    requires Descending(ranked) && lower <= bound
    ensures Reaching(ranked, bound) <= Reaching(ranked, lower) <= |ranked|
  {
    ReachingIsPrefix(ranked, bound);
    ReachingIsPrefix(ranked, lower);
    assert Reaching(ranked, bound) > 0 ==> ranked[Reaching(ranked, bound) - 1].probability >= lower;
  }

  /** None exactly when no score clears the floor that is in use. */
  lemma NoneWhenNothingClears(ranked: seq<Ranked>, threshold: real, limit: int, slack: real)
    requires Descending(ranked)
    ensures Selected(ranked, threshold, limit, slack) == None <==>
            forall r :: r in ranked ==>
              r.probability < threshold && (slack <= 0.0 || limit <= 0 || r.probability < threshold - slack)
  {
    ReachingIsPrefix(ranked, threshold);
    ReachingIsPrefix(ranked, threshold - slack);
    if ranked != [] {
      assert ranked[0] in ranked;
      assert forall r :: r in ranked ==> r.probability <= ranked[0].probability;
    }
  }

  function KeptIds(kept: Option<seq<string>>): seq<string> {
    if kept.Some? then kept.value else []
  }

  /** Slack only ever adds behind what is kept without it, and never past the limit. */
  lemma SlackOnlyAdds(ranked: seq<Ranked>, threshold: real, limit: nat, slack: real)
    requires Descending(ranked) && slack >= 0.0
    ensures KeptIds(Selected(ranked, threshold, limit, 0.0)) <= KeptIds(Selected(ranked, threshold, limit, slack))
    ensures |KeptIds(Selected(ranked, threshold, limit, slack))| <= limit
  {
    ReachingMore(ranked, threshold, threshold - slack);
  }

  /**
   * What is kept are the highest of the ranking: every id that reaches the
   * threshold, as far as the limit goes; with slack the list stops short of
   * the limit only when no further id clears the floor.
   */
  lemma KeepsTheHighest(ranked: seq<Ranked>, threshold: real, limit: nat, slack: real, i: nat)
    requires Descending(ranked) && i < |ranked| && slack >= 0.0
    ensures var kept := KeptIds(Selected(ranked, threshold, limit, slack));
            && kept <= Ids(ranked)
            && (i < |kept| <==> i < limit && ranked[i].probability >= threshold - slack)
  {
    ReachingMore(ranked, threshold, threshold - slack);
    ReachingIsPrefix(ranked, threshold);
    ReachingIsPrefix(ranked, threshold - slack);
  }

  // ---------------------------------------------------------------- lexical_shortlist

  /** `haystack` is the lower-cased label and description. */
  datatype Candidate = Candidate(id: string, haystack: string)

  predicate Contains(haystack: string, token: string) {
    exists i :: 0 <= i <= |haystack| - |token| && StartsAt(haystack, token, i)
  }

  predicate StartsAt(haystack: string, token: string, i: nat)
    requires i + |token| <= |haystack|
  {
    haystack[i..i + |token|] == token
  }

  /** How many tokens of the query occur in the candidate. */
  function Score(tokens: set<string>, item: Candidate): nat {
    |set t | t in tokens && Contains(item.haystack, t)|
  }

  /** The order of the sort by score alone, highest first. */
  predicate Higher(a: (nat, Candidate), b: (nat, Candidate)) {
    a.0 > b.0
  }

  /** The candidates that share a token with the query, with their scores. */
  function Overlapping(tokens: set<string>, items: seq<Candidate>): seq<(nat, Candidate)> {
    if items == [] then []
    else
      var rest := Overlapping(tokens, items[1..]);
      if Score(tokens, items[0]) > 0 then [(Score(tokens, items[0]), items[0])] + rest else rest
  }

  function Candidates(scored: seq<(nat, Candidate)>): seq<Candidate> {
    seq(|scored|, i requires 0 <= i < |scored| => scored[i].1)
  }

  function Shortlist(items: seq<Candidate>, tokens: set<string>, limit: int): Option<seq<Candidate>> {
    if |items| <= limit then Some(items)
    else if Overlapping(tokens, items) == [] then None
    else Some(Take(Candidates(Sort(Higher, Overlapping(tokens, items))), limit))
  }

  method LexicalShortlist(items: seq<Candidate>, tokens: set<string>, limit: int)
    returns (shortlist: Option<seq<Candidate>>)
    ensures shortlist == Shortlist(items, tokens, limit)
  {
    if |items| <= limit {
      return Some(items);
    }
    if tokens == {} {
      NoTokens(items, tokens);
      return None;
    }
    var scored := [];
    for i := 0 to |items|
      invariant scored + Overlapping(tokens, items[i..]) == Overlapping(tokens, items)
    {
      assert items[i..][0] == items[i] && items[i..][1..] == items[i + 1..];
      var score := Score(tokens, items[i]);
      if score != 0 {
        scored := scored + [(score, items[i])];
      }
    }
    assert scored == Overlapping(tokens, items);
    if scored == [] {
      return None;
    }
    return Some(Take(Candidates(Sort(Higher, scored)), limit));
  }

  lemma ScoreAtMostTokens(tokens: set<string>, item: Candidate)
    ensures Score(tokens, item) <= |tokens|
  {
    var found := set t | t in tokens && Contains(item.haystack, t);
    SubsetSize(found, tokens);
  }

  lemma {:induction false} SubsetSize(a: set<string>, b: set<string>)
    requires a <= b
    ensures |a| <= |b|
  {
    if a == {} {
    } else {
      var x :| x in a;
      SubsetSize(a - {x}, b - {x});
    }
  }

  lemma {:induction false} NoTokens(items: seq<Candidate>, tokens: set<string>)
    requires tokens == {}
    ensures Overlapping(tokens, items) == []
  {
    if items == [] {
    } else {
      NoTokens(items[1..], tokens);
      ScoreAtMostTokens(tokens, items[0]);
    }
  }

  lemma {:induction false} OverlappingSpec(tokens: set<string>, items: seq<Candidate>)
    ensures forall s :: s in Overlapping(tokens, items) <==> s.1 in items && s.0 == Score(tokens, s.1) > 0
    ensures Overlapping(tokens, items) == [] <==> forall c :: c in items ==> Score(tokens, c) == 0
  {
    if items == [] {
    } else {
      OverlappingSpec(tokens, items[1..]);
      assert forall c :: c in items <==> c == items[0] || c in items[1..];
    }
  }

  /** None exactly when the catalog is too long and nothing in it shares a token with the query. */
  lemma NoShortlist(items: seq<Candidate>, tokens: set<string>, limit: int)
    ensures Shortlist(items, tokens, limit) == None <==>
            |items| > limit && forall c :: c in items ==> Score(tokens, c) == 0
  {
    OverlappingSpec(tokens, items);
  }

  /** Cutting scored candidates off drops none above one that is kept, and cuts no more than it must. */
  lemma CutKeepsTheHighest(scored: seq<(nat, Candidate)>, limit: nat, kept: Candidate, dropped: (nat, Candidate))
    requires kept in Take(Candidates(Sort(Higher, scored)), limit)
    requires dropped in scored && dropped.1 !in Take(Candidates(Sort(Higher, scored)), limit)
    ensures exists x :: x in scored && x.1 == kept && dropped.0 <= x.0
    ensures |Take(Candidates(Sort(Higher, scored)), limit)| == limit
  {
    var sorted := Sort(Higher, scored);
    var cut := Take(Candidates(sorted), limit);
    var i :| 0 <= i < |cut| && cut[i] == kept;
    assert forall j :: 0 <= j < |cut| ==> cut[j] == sorted[j].1;
    SortKeepsItems(Higher, scored);
    HigherIsStrict();
    SortedPrefix(Higher, scored, |cut|, i, dropped);
    assert sorted[i] in scored;
    assert sorted[..|sorted|] == sorted;
  }

  /** A catalog that is cut keeps overlapping items only, and drops none that scores higher than one it keeps. */
  lemma ShortlistKeepsTheHighest(items: seq<Candidate>, tokens: set<string>, limit: nat, kept: Candidate,
                                 dropped: Candidate)
    requires |items| > limit && Shortlist(items, tokens, limit).Some?
    requires kept in Shortlist(items, tokens, limit).value
    requires dropped in items && dropped !in Shortlist(items, tokens, limit).value
    ensures kept in items && Score(tokens, kept) > 0
    ensures Score(tokens, dropped) <= Score(tokens, kept)
    ensures Score(tokens, dropped) > 0 ==> |Shortlist(items, tokens, limit).value| == limit
  {
    var scored := Overlapping(tokens, items);
    OverlappingSpec(tokens, items);
    KeptIsScored(scored, limit, kept);
    if Score(tokens, dropped) > 0 {
      CutKeepsTheHighest(scored, limit, kept, (Score(tokens, dropped), dropped));
    }
  }

  lemma KeptIsScored(scored: seq<(nat, Candidate)>, limit: nat, kept: Candidate)
    requires kept in Take(Candidates(Sort(Higher, scored)), limit)
    ensures exists x :: x in scored && x.1 == kept
  {
    var sorted := Sort(Higher, scored);
    var i :| 0 <= i < |sorted| && Candidates(sorted)[i] == kept;
    SortKeepsItems(Higher, scored);
    assert sorted[i] in scored;
  }

  lemma HigherIsStrict()
    ensures StrictOrder(Higher)
  {
  }

  /** Candidates of equal score stay in catalog order. */
  lemma ShortlistIsStable(items: seq<Candidate>, tokens: set<string>, a: (nat, Candidate))
    ensures Ties(Higher, a, Sort(Higher, Overlapping(tokens, items))) == Ties(Higher, a, Overlapping(tokens, items))
  {
    SortIsStable(Higher, Overlapping(tokens, items), a);
  }

  /** A token occurs in a text exactly if the text is something, the token, and something more. */
  lemma OccursSomewhere(haystack: string, token: string)
    ensures Contains(haystack, token) <==> exists a, b :: haystack == a + token + b
  {
    if Contains(haystack, token) {
      var i :| 0 <= i <= |haystack| - |token| && StartsAt(haystack, token, i);
      assert haystack == haystack[..i] + token + haystack[i + |token|..];
    }
    if a, b: string :| haystack == a + token + b {
      assert haystack[|a|..|a| + |token|] == token;
      assert StartsAt(haystack, token, |a|);
    }
  }

  /** The score is counted up: each further token of the query adds one exactly if it occurs. */
  lemma ScoreCounts(tokens: set<string>, t: string, item: Candidate)
    requires t !in tokens
    ensures Score({}, item) == 0
    ensures Score(tokens + {t}, item) == Score(tokens, item) + if Contains(item.haystack, t) then 1 else 0
  {
    var before := set x | x in tokens && Contains(item.haystack, x);
    var after := set x | x in tokens + {t} && Contains(item.haystack, x);
    assert after == if Contains(item.haystack, t) then before + {t} else before;
    assert (set x | x in {} && Contains(item.haystack, x)) == {};
  }

  /** A catalog that fits is kept whole; of a longer one the candidates come in the order of their scores. */
  lemma ShortlistOrder(items: seq<Candidate>, tokens: set<string>, limit: nat, i: nat, j: nat)
    ensures |items| <= limit ==> Shortlist(items, tokens, limit) == Some(items)
    ensures |items| > limit && Shortlist(items, tokens, limit).Some? &&
            i < j < |Shortlist(items, tokens, limit).value| ==>
              Score(tokens, Shortlist(items, tokens, limit).value[i]) >=
              Score(tokens, Shortlist(items, tokens, limit).value[j])
  {
    if |items| > limit && Shortlist(items, tokens, limit).Some? && i < j < |Shortlist(items, tokens, limit).value| {
      var scored := Overlapping(tokens, items);
      var sorted := Sort(Higher, scored);
      HigherIsStrict();
      SortOrders(Higher, scored);
      SortKeepsItems(Higher, scored);
      OverlappingSpec(tokens, items);
      assert sorted[i] in multiset(sorted) && sorted[j] in multiset(sorted);
      assert sorted[i] in scored && sorted[j] in scored;
    }
  }

  /** A negative limit keeps those that reach the threshold, but for so many of the last. */
  lemma NegativeLimit(ranked: seq<Ranked>, threshold: real, limit: int, slack: real, i: nat)
    requires Descending(ranked) && limit < 0
    ensures var kept := KeptIds(Selected(ranked, threshold, limit, slack));
            && kept <= Ids(ranked)
            && (i < |kept| <==> i - limit < |ranked| && ranked[i - limit].probability >= threshold)
  {
    ReachingIsPrefix(ranked, threshold);
    ReachingIsPrefix(ranked, threshold - slack);
  }

  /** The ranking holds the ids with their own scores; an id without one counts as 0. */
  lemma ScoresAreGiven(probabilities: map<string, real>, ids: seq<string>, id: string, probability: real)
    ensures Ranked(probability, id) in Ranking(probabilities, ids) <==>
            id in ids && (id in probabilities ==> probability == probabilities[id]) &&
            (id !in probabilities ==> probability == 0.0)
    ensures |Ranking(probabilities, ids)| == |ids|
  {
    var scored, ranking, r := Scored(probabilities, ids), Ranking(probabilities, ids), Ranked(probability, id);
    RankingDescends(probabilities, ids);
    assert r in ranking <==> r in multiset(ranking);
    assert r in scored <==> r in multiset(scored);
    assert |multiset(ranking)| == |ranking| && |multiset(scored)| == |scored|;
    if id in ids {
      var i :| 0 <= i < |ids| && ids[i] == id;
      assert scored[i].id == id;
    }
  }
}
