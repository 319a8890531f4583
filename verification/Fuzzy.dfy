/** Greedy fuzzy matching: which texts match a query, how they score, and how a list is filtered and sorted. */
module Fuzzy {
  import opened Ansi
  import opened Text

  // ----- embeddings -----

  /** The characters of q, in order, at the positions `pos` of t. */
  predicate Embeds(q: string, t: string, pos: seq<nat>) {
    && |pos| == |q|
    && (forall j :: 0 <= j < |q| ==> pos[j] < |t| && t[pos[j]] == q[j])
    && (forall j :: 0 < j < |q| ==> pos[j - 1] < pos[j])
  }

  /** q is a subsequence of t. */
  ghost predicate IsSubsequence(q: string, t: string) {
    exists pos :: Embeds(q, t, pos)
  }

  /** The leftmost positions for the characters of q from the k-th on, looking from i on. */
  function Greedy(q: string, t: string, k: nat, i: nat): (r: Option<seq<nat>>)
    requires k <= |q|
    ensures r.Some? ==> |r.value| == |q| - k
    decreases |t| - i
  {
    if k == |q| then Some([])
    else if i >= |t| then None
    else if t[i] == q[k] then
      var rest := Greedy(q, t, k + 1, i + 1);
      if rest.None? then None else Some([i] + rest.value)
    else Greedy(q, t, k, i + 1)
  }

  lemma {:induction false} GreedyEmbeds(q: string, t: string, k: nat, i: nat)
    requires k <= |q| && Greedy(q, t, k, i).Some?
    ensures Embeds(q[k..], t, Greedy(q, t, k, i).value)
    ensures k < |q| ==> i <= Greedy(q, t, k, i).value[0]
    decreases |t| - i
  {
    if k < |q| {
      if t[i] == q[k] {
        GreedyEmbeds(q, t, k + 1, i + 1);
        assert q[k..][1..] == q[k + 1..];
        var rest := Greedy(q, t, k + 1, i + 1).value;
        var pos := [i] + rest;
        forall j | 0 <= j < |pos|
          ensures pos[j] < |t| && t[pos[j]] == q[k..][j] && (j > 0 ==> pos[j - 1] < pos[j])
        {
          if j > 0 {
            assert pos[j] == rest[j - 1] && q[k..][j] == q[k + 1..][j - 1];
          }
        }
      } else {
        GreedyEmbeds(q, t, k, i + 1);
      }
    }
  }

  /** Greedy stays ahead of every embedding that starts no earlier than i. */
  lemma {:induction false} GreedyStaysAhead(q: string, t: string, k: nat, i: nat, pos: seq<nat>)
    requires k <= |q| && Embeds(q[k..], t, pos) && (k < |q| ==> i <= pos[0])
    ensures Greedy(q, t, k, i).Some?
    ensures forall j :: 0 <= j < |q| - k ==> Greedy(q, t, k, i).value[j] <= pos[j]
    decreases |t| - i
  {
    if k < |q| {
      assert q[k..][0] == q[k];
      if t[i] == q[k] {
        var rest := pos[1..];
        assert q[k + 1..] == q[k..][1..];
        assert Embeds(q[k + 1..], t, rest) by {
          forall j | 0 <= j < |rest|
            ensures rest[j] < |t| && t[rest[j]] == q[k + 1..][j] && (j > 0 ==> rest[j - 1] < rest[j])
          {
            assert rest[j] == pos[j + 1] && q[k + 1..][j] == q[k..][j + 1];
          }
        }
        if k + 1 < |q| {
          assert rest[0] == pos[1];
        }
        GreedyStaysAhead(q, t, k + 1, i + 1, rest);
        forall j | 0 <= j < |q| - k
          ensures Greedy(q, t, k, i).value[j] <= pos[j]
        {
          if j > 0 {
            assert pos[j] == rest[j - 1];
          }
        }
      } else {
        GreedyStaysAhead(q, t, k, i + 1, pos);
      }
    }
  }

  /** The single left-to-right scan finds an embedding exactly when there is one, and finds the leftmost. */
  lemma GreedyIsComplete(q: string, t: string)
    ensures Greedy(q, t, 0, 0).Some? <==> IsSubsequence(q, t)
    ensures Greedy(q, t, 0, 0).Some? ==> Embeds(q, t, Greedy(q, t, 0, 0).value)
    ensures forall pos :: Embeds(q, t, pos) ==>
              forall j :: 0 <= j < |q| ==> Greedy(q, t, 0, 0).value[j] <= pos[j]
  {
    assert q[0..] == q;
    if Greedy(q, t, 0, 0).Some? {
      GreedyEmbeds(q, t, 0, 0);
    }
    forall pos | Embeds(q, t, pos)
      ensures Greedy(q, t, 0, 0).Some?
      ensures forall j :: 0 <= j < |q| ==> Greedy(q, t, 0, 0).value[j] <= pos[j]
    {
      GreedyStaysAhead(q, t, 0, 0, pos);
    }
  }

  lemma {:induction false} EmbeddingFits(q: string, t: string, pos: seq<nat>, j: nat)
    requires Embeds(q, t, pos) && j < |q|
    ensures j <= pos[j] && |q| <= |t|
    decreases j
  {
    if j > 0 {
      EmbeddingFits(q, t, pos, j - 1);
    }
    if j < |q| - 1 {
      LaterFits(q, t, pos, j);
    }
  }

  lemma {:induction false} LaterFits(q: string, t: string, pos: seq<nat>, j: nat)
    requires Embeds(q, t, pos) && j < |q| && j <= pos[j]
    ensures |q| <= |t|
    decreases |q| - j
  {
    if j < |q| - 1 {
      LaterFits(q, t, pos, j + 1);
    }
  }

  // ----- scores -----

  /** A match at the start of a word. */
  predicate AtBoundary(t: string, i: nat)
    requires i < |t|
  {
    i == 0 || IsSpace(t[i - 1]) || t[i - 1] in "-_./:"
  }

  /** How many matches in a row, the j-th included, continue the one before; the first counts when it is at 0. */
  function RunLength(pos: seq<nat>, j: nat): nat
    requires j < |pos|
  {
    if j == 0 then (if pos[0] == 0 then 1 else 0)
    else if pos[j] == pos[j - 1] + 1 then RunLength(pos, j - 1) + 1
    else 0
  }

  /** What the j-th match adds: a reward for a run or a penalty for a gap, a reward for a word start, and a
      slight penalty for coming late. */
  function MatchTerm(t: string, pos: seq<nat>, j: nat): real
    requires j < |pos| && pos[j] < |t| && (j > 0 ==> pos[j - 1] < pos[j])
  {
    (if RunLength(pos, j) > 0 then -5.0 * RunLength(pos, j) as real
     else if j > 0 then 2.0 * (pos[j] - pos[j - 1] - 1) as real
     else 0.0)
    + (if AtBoundary(t, pos[j]) then -10.0 else 0.0)
    + pos[j] as real * 0.1
  }

  predicate Positions(t: string, pos: seq<nat>) {
    && (forall j :: 0 <= j < |pos| ==> pos[j] < |t|)
    && (forall j :: 0 < j < |pos| ==> pos[j - 1] < pos[j])
  }

  function SumTo(t: string, pos: seq<nat>, n: nat): real
    requires Positions(t, pos) && n <= |pos|
  {
    if n == 0 then 0.0 else SumTo(t, pos, n - 1) + MatchTerm(t, pos, n - 1)
  }

  lemma {:induction false} SumPrefix(t: string, pos: seq<nat>, longer: seq<nat>, n: nat)
    requires Positions(t, pos) && Positions(t, longer) && pos <= longer && n <= |pos|
    ensures SumTo(t, pos, n) == SumTo(t, longer, n)
    ensures forall j: nat :: j < n ==> RunLength(pos, j) == RunLength(longer, j)
  {
    if n > 0 {
      SumPrefix(t, pos, longer, n - 1);
    }
  }

  /** The run that ends in the j-th match started at the from-th. */
  predicate RunFrom(pos: seq<nat>, from: nat, j: nat)
    requires j < |pos|
  {
    && from <= j && (from == 0 || pos[from] != pos[from - 1] + 1)
    && forall k :: from < k <= j ==> pos[k] == pos[k - 1] + 1
  }

  /** A run counts its matches but the first; that one counts too at the start of the text. */
  lemma {:induction false} RunIsCounted(pos: seq<nat>, j: nat) returns (from: nat)
    requires j < |pos|
    ensures RunFrom(pos, from, j)
    ensures RunLength(pos, j) == j - from + (if from == 0 && pos[0] == 0 then 1 else 0)
    decreases j
  {
    if j == 0 {
      from := 0;
    } else if pos[j] == pos[j - 1] + 1 {
      from := RunIsCounted(pos, j - 1);
    } else {
      from := j;
    }
  }

  datatype Match = Match(matches: bool, score: real)

  /** The score of the leftmost embedding, and a bonus for the whole text. */
  function ScanResult(q: string, t: string): Match {
    var pos := Greedy(q, t, 0, 0);
    if q == "" then Match(true, 0.0)
    else if pos.None? then Match(false, 0.0)
    else
      GreedyEmbeds(q, t, 0, 0);
      assert q[0..] == q;
      Match(true, SumTo(t, pos.value, |q|) - (if q == t then 100.0 else 0.0))
  }

  /** Scanning forward from i, with `found` the positions so far. */
  ghost predicate Scanning(q: string, t: string, k: nat, i: nat, found: seq<nat>, score: real, last: int, run: nat) {
    && k == |found| <= |q| && i <= |t|
    && Positions(t, found) && (k > 0 ==> found[k - 1] < i)
    && last == (if k == 0 then -1 else found[k - 1])
    && run == (if k == 0 then 0 else RunLength(found, k - 1))
    && score == SumTo(t, found, k)
    && Greedy(q, t, 0, 0) ==
       (if Greedy(q, t, k, i).None? then None else Some(found + Greedy(q, t, k, i).value))
  }

  lemma ScanMatch(q: string, t: string, k: nat, i: nat, found: seq<nat>, score: real, last: int, run: nat)
    requires Scanning(q, t, k, i, found, score, last, run) && k < |q| && i < |t| && t[i] == q[k]
    ensures Positions(t, found + [i])
    ensures RunLength(found + [i], k) == if last == i - 1 then run + 1 else 0
    ensures Scanning(q, t, k + 1, i + 1, found + [i], score + MatchTerm(t, found + [i], k), i,
                     RunLength(found + [i], k))
  {
    var longer := found + [i];
    assert Positions(t, longer);
    SumPrefix(t, found, longer, k);
    if Greedy(q, t, k + 1, i + 1).Some? {
      assert found + ([i] + Greedy(q, t, k + 1, i + 1).value) == longer + Greedy(q, t, k + 1, i + 1).value;
    }
  }

  lemma ScanBegins(q: string, t: string)
    ensures Scanning(q, t, 0, 0, [], 0.0, -1, 0)
  {
    if Greedy(q, t, 0, 0).Some? {
      assert [] + Greedy(q, t, 0, 0).value == Greedy(q, t, 0, 0).value;
    }
  }

  lemma ScanSkip(q: string, t: string, k: nat, i: nat, found: seq<nat>, score: real, last: int, run: nat)
    requires Scanning(q, t, k, i, found, score, last, run) && k < |q| && i < |t| && t[i] != q[k]
    ensures Scanning(q, t, k, i + 1, found, score, last, run)
  {
  }

  lemma ScanEnds(q: string, t: string, k: nat, i: nat, found: seq<nat>, score: real, last: int, run: nat)
    requires Scanning(q, t, k, i, found, score, last, run) && (k == |q| || i == |t|) && q != ""
    ensures ScanResult(q, t) ==
            if k < |q| then Match(false, 0.0) else Match(true, score - (if q == t then 100.0 else 0.0))
  {
    if k == |q| {
      assert found + [] == found;
    }
  }

  /** The score after a match at i, the latest before it having been at `last`. */
  method Reward(t: string, i: nat, last: int, run0: nat, score0: real) returns (score: real, run: nat)
    requires i < |t| && -1 <= last < i
    ensures run == if last == i - 1 then run0 + 1 else 0
    ensures score == score0 + ((if run > 0 then -5.0 * run as real
                                else if last >= 0 then 2.0 * (i - last - 1) as real
                                else 0.0)
                               + (if AtBoundary(t, i) then -10.0 else 0.0) + i as real * 0.1)
  {
    score := score0;
    if last == i - 1 {
      run := run0 + 1;
      score := score - run as real * 5.0;
    } else {
      run := 0;
      if last >= 0 {
        score := score + (i - last - 1) as real * 2.0;
      }
    }
    if AtBoundary(t, i) {
      score := score - 10.0;
    }
    score := score + i as real * 0.1;
  }

  /** The scan of `fuzzyMatch` for one form of the query. */
  method MatchQuery(q: string, t: string) returns (m: Match)
    ensures m == ScanResult(q, t)
  {
    if |q| == 0 {
      return Match(true, 0.0);
    }
    if |q| > |t| {
      TooLong(q, t);
      return Match(false, 0.0);
    }
    var queryIndex, score, lastMatchIndex, consecutiveMatches: nat := 0, 0.0, -1, 0;
    ghost var found: seq<nat> := [];
    var i := 0;
    ScanBegins(q, t);
    while i < |t| && queryIndex < |q|
      invariant queryIndex <= |q| && i <= |t|
      invariant Scanning(q, t, queryIndex, i, found, score, lastMatchIndex, consecutiveMatches)
    {
      if t[i] == q[queryIndex] {
        ScanMatch(q, t, queryIndex, i, found, score, lastMatchIndex, consecutiveMatches);
        score, consecutiveMatches := Reward(t, i, lastMatchIndex, consecutiveMatches, score);
        found := found + [i];
        lastMatchIndex := i;
        queryIndex := queryIndex + 1;
      } else {
        ScanSkip(q, t, queryIndex, i, found, score, lastMatchIndex, consecutiveMatches);
      }
      i := i + 1;
    }
    ScanEnds(q, t, queryIndex, i, found, score, lastMatchIndex, consecutiveMatches);
    if queryIndex < |q| {
      return Match(false, 0.0);
    }
    return Match(true, if q == t then score - 100.0 else score);
  }

  lemma TooLong(q: string, t: string)
    requires |q| > |t|
    ensures ScanResult(q, t) == Match(false, 0.0)
  {
    GreedyIsComplete(q, t);
    if Greedy(q, t, 0, 0).Some? {
      EmbeddingFits(q, t, Greedy(q, t, 0, 0).value, 0);
      assert false;
    }
  }

  // ----- what scores come to -----

  /** How many of the first n characters start a word. */
  function WordStarts(t: string, n: nat): nat
    requires n <= |t|
  {
    if n == 0 then 0 else WordStarts(t, n - 1) + (if AtBoundary(t, n - 1) then 1 else 0)
  }

  function UpTo(n: nat): seq<nat> {
    seq(n, i => i)
  }

  lemma {:induction false} PrefixGreedy(q: string, t: string, k: nat)
    requires q <= t && k <= |q|
    ensures Greedy(q, t, k, k) == Some(UpTo(|q|)[k..])
    decreases |q| - k
  {
    if k < |q| {
      PrefixGreedy(q, t, k + 1);
      assert UpTo(|q|)[k..] == [k] + UpTo(|q|)[k + 1..];
    } else {
      assert UpTo(|q|)[k..] == [];
    }
  }

  lemma {:induction false} PrefixSum(t: string, m: nat, n: nat)
    requires n <= m <= |t|
    ensures Positions(t, UpTo(m))
    ensures n > 0 ==> RunLength(UpTo(m), n - 1) == n
    ensures SumTo(t, UpTo(m), n)
              == -2.5 * (n * (n + 1)) as real + 0.05 * (n * (n - 1)) as real - 10.0 * WordStarts(t, n) as real
  {
    if n > 0 {
      PrefixSum(t, m, n - 1);
      Series(n);
    }
  }

  lemma Series(n: nat)
    requires n > 0
    ensures -2.5 * (n * (n + 1)) as real == -2.5 * ((n - 1) * n) as real - 5.0 * n as real
    ensures 0.05 * (n * (n - 1)) as real == 0.05 * ((n - 1) * (n - 2)) as real + (n - 1) as real * 0.1
  {
    assert n * (n + 1) == (n - 1) * n + 2 * n;
    assert n * (n - 1) == (n - 1) * (n - 2) + 2 * (n - 1);
  }

  /** A query that starts the text, of n characters: the rewards of one run from 0, ten for every word it starts,
      and a hundred if it is all of the text. */
  lemma PrefixScore(q: string, t: string)
    requires q != "" && q <= t
    ensures var n := |q|;
      ScanResult(q, t) == Match(true, -2.5 * (n * (n + 1)) as real + 0.05 * (n * (n - 1)) as real
                                      - 10.0 * WordStarts(t, n) as real - (if q == t then 100.0 else 0.0))
  {
    PrefixGreedy(q, t, 0);
    PrefixSum(t, |q|, |q|);
    assert UpTo(|q|)[0..] == UpTo(|q|);
  }

  lemma {:induction false} NothingBefore(q: string, t: string, k: nat, i: nat, at: nat)
    requires k < |q| && i <= at < |t| && t[at] == q[k] && q[k] !in t[i..at]
    ensures Greedy(q, t, k, i) == (if Greedy(q, t, k + 1, at + 1).None? then None
                                   else Some([at] + Greedy(q, t, k + 1, at + 1).value))
    decreases at - i
  {
    if i < at {
      assert t[i] in t[i..at] && forall c <- t[i + 1..at] :: c in t[i..at];
      NothingBefore(q, t, k, i + 1, at);
    }
  }

  /** A query of two characters that stand apart: the gap between them costs twice its width. */
  lemma GapScore(q: string, t: string, i: nat, j: nat)
    requires |q| == 2 && i < j < |t| && t[i] == q[0] && t[j] == q[1]
    requires q[0] !in t[..i] && q[1] !in t[i + 1..j]
    ensures ScanResult(q, t) == Match(true,
      0.1 * i as real - (if i == 0 then 5.0 else 0.0) - (if AtBoundary(t, i) then 10.0 else 0.0)
      + 0.1 * j as real - (if AtBoundary(t, j) then 10.0 else 0.0)
      + (if j > i + 1 then 2.0 * (j - i - 1) as real else if i == 0 then -10.0 else -5.0)
      - (if q == t then 100.0 else 0.0))
  {
    assert t[0..i] == t[..i];
    NothingBefore(q, t, 0, 0, i);
    NothingBefore(q, t, 1, i + 1, j);
    var pos: seq<nat> := [i, j];
    assert [i] + ([j] + []) == pos;
    assert Greedy(q, t, 0, 0) == Some(pos) && Positions(t, pos);
    assert RunLength(pos, 0) == (if i == 0 then 1 else 0);
    assert SumTo(t, pos, 2) == MatchTerm(t, pos, 0) + MatchTerm(t, pos, 1) by {
      assert SumTo(t, pos, 1) == SumTo(t, pos, 0) + MatchTerm(t, pos, 0);
    }
  }

  // ----- swapped queries -----

  predicate IsLetter(c: char) { 'a' <= c <= 'z' }

  predicate AllLetters(s: string) { forall i :: 0 <= i < |s| ==> IsLetter(s[i]) }

  /** How many letters, or digits, a string starts with. */
  function Lead(s: string, letters: bool): (n: nat)
    ensures n <= |s|
    ensures if letters then AllLetters(s[..n]) else AllDigits(s[..n])
    ensures n < |s| ==> !(if letters then IsLetter(s[n]) else IsDigit(s[n]))
  {
    if s == "" || !(if letters then IsLetter(s[0]) else IsDigit(s[0])) then 0
    else
      var n := Lead(s[1..], letters);
      assert s[..n + 1] == [s[0]] + s[1..][..n];
      n + 1
  }

  /** Letters then digits become digits then letters, and the other way round. */
  function Swapped(q: string): Option<string> {
    var k, d := Lead(q, true), Lead(q, false);
    if 0 < k < |q| && AllDigits(q[k..]) then Some(q[k..] + q[..k])
    else if 0 < d < |q| && AllLetters(q[d..]) then Some(q[d..] + q[..d])
    else None
  }

  lemma {:induction false} LeadIs(a: string, b: string, letters: bool)
    requires b != ""
    requires if letters then AllLetters(a) && AllDigits(b) else AllDigits(a) && AllLetters(b)
    ensures Lead(a + b, letters) == |a|
  {
    if a == "" {
      assert a + b == b;
    } else {
      assert (a + b)[1..] == a[1..] + b;
      LeadIs(a[1..], b, letters);
    }
  }

  /** Swapping is its own inverse. */
  lemma SwappedTwice(q: string)
    requires Swapped(q).Some?
    ensures Swapped(Swapped(q).value) == Some(q)
  {
    var k, d := Lead(q, true), Lead(q, false);
    if 0 < k < |q| && AllDigits(q[k..]) {
      Inverse(q[..k], q[k..], true);
      assert q == q[..k] + q[k..];
    } else {
      Inverse(q[..d], q[d..], false);
      assert q == q[..d] + q[d..];
    }
  }

  lemma Inverse(a: string, b: string, letters: bool)
    requires a != "" && b != ""
    requires if letters then AllLetters(a) && AllDigits(b) else AllDigits(a) && AllLetters(b)
    ensures Swapped(b + a) == Some(a + b)
  {
    LeadIs(b, a, !letters);
    assert (b + a)[..|b|] == b && (b + a)[|b|..] == a;
    assert Lead(b + a, letters) == 0 by {
      assert (b + a)[0] == b[0];
    }
  }

  /** Letters up to k and digits from there on, or the other way round. */
  predicate TwoKinds(q: string, k: int) {
    && 0 < k < |q|
    && ((AllLetters(q[..k]) && AllDigits(q[k..])) || (AllDigits(q[..k]) && AllLetters(q[k..])))
  }

  /** Letters and digits change places, and nothing else does. */
  lemma SwappedMeans(q: string, r: string)
    ensures Swapped(q) == Some(r) <==> exists k :: TwoKinds(q, k) && r == q[k..] + q[..k]
  {
    forall k | TwoKinds(q, k) && r == q[k..] + q[..k]
      ensures Swapped(q) == Some(r)
    {
      Inverse(q[k..], q[..k], AllDigits(q[..k]));
      assert q[..k] + q[k..] == q;
    }
  }

  /** The query as it is, or else with letters and digits swapped, at a small penalty. */
  function MatchResult(query: string, text: string): Match {
    var q, t := Lower(query), Lower(text);
    var primary := ScanResult(q, t);
    var swapped := Swapped(q);
    if primary.matches || swapped.None? then primary
    else
      var other := ScanResult(swapped.value, t);
      if other.matches then Match(true, other.score + 5.0) else primary
  }

  /** `fuzzyMatch` */
  method FuzzyMatch(query: string, text: string) returns (m: Match)
    ensures m == MatchResult(query, text)
  {
    var queryLower, textLower := Lower(query), Lower(text);
    var primary := MatchQuery(queryLower, textLower);
    if primary.matches {
      return primary;
    }
    var swapped := Swapped(queryLower);
    if swapped.None? {
      return primary;
    }
    var other := MatchQuery(swapped.value, textLower);
    if !other.matches {
      return primary;
    }
    return Match(true, other.score + 5.0);
  }

  /** A query matches exactly the texts it is a subsequence of, ignoring case, as it is or swapped. */
  lemma MatchMeansSubsequence(query: string, text: string)
    ensures MatchResult(query, text).matches <==>
              || IsSubsequence(Lower(query), Lower(text))
              || (Swapped(Lower(query)).Some? && IsSubsequence(Swapped(Lower(query)).value, Lower(text)))
  {
    hide Lower, Swapped, IsSubsequence;
    var q, t := Lower(query), Lower(text);
    ScanMeansSubsequence(q, t);
    if Swapped(q).Some? {
      ScanMeansSubsequence(Swapped(q).value, t);
    }
  }

  lemma ScanMeansSubsequence(q: string, t: string)
    ensures ScanResult(q, t).matches <==> IsSubsequence(q, t)
  {
    GreedyIsComplete(q, t);
    if q == "" {
      assert Embeds(q, t, []);
    }
  }

  /** The swapped form is only tried when the query itself does not match, and costs five. */
  lemma SwappedCosts(query: string, text: string)
    ensures var q, t := Lower(query), Lower(text);
      MatchResult(query, text) ==
        if IsSubsequence(q, t) then ScanResult(q, t)
        else if Swapped(q).Some? && IsSubsequence(Swapped(q).value, t)
        then Match(true, ScanResult(Swapped(q).value, t).score + 5.0)
        else Match(false, 0.0)
  {
    hide Lower, Swapped, IsSubsequence;
    var q, t := Lower(query), Lower(text);
    ScanMeansSubsequence(q, t);
    if Swapped(q).Some? {
      ScanMeansSubsequence(Swapped(q).value, t);
    }
  }

  // ----- filtering -----

  predicate IsSeparator(c: char) { IsSpace(c) || c == '/' }

  /** The non-empty pieces between separators; none exactly when trimming leaves nothing but slashes. */
  function Tokens(s: string): seq<string> {
    var n := TokenEnd(s, 0);
    if n == |s| then (if n == 0 then [] else [s])
    else (if n == 0 then [] else [s[..n]]) + Tokens(s[n + 1..])
  }

  function TokenEnd(s: string, i: nat): (n: nat)
    requires i <= |s|
    ensures i <= n <= |s| && (n < |s| ==> IsSeparator(s[n])) && forall k :: i <= k < n ==> !IsSeparator(s[k])
    decreases |s| - i
  {
    if i == |s| || IsSeparator(s[i]) then i else TokenEnd(s, i + 1)
  }

  lemma FirstToken(s: string)
    ensures var n := TokenEnd(s, 0);
      Tokens(s) == (if n == 0 then [] else [s[..n]]) + (if n < |s| then Tokens(s[n + 1..]) else [])
  {
    assert s[..|s|] == s;
  }

  /** A word is its own token, and a separator divides. */
  lemma TokensDivide(a: string, c: char, b: string)
    requires IsSeparator(c)
    ensures Tokens(a + [c] + b) == Tokens(a) + Tokens(b)
    decreases |a|
  {
    hide IsSeparator, Tokens, TokenEnd;
    var s := a + [c] + b;
    var n := TokenEnd(a, 0);
    SameEnd(a, c, b, 0);
    FirstToken(a);
    FirstToken(s);
    if n == |a| {
      assert s[..n] == a == a[..n] && s[n + 1..] == b;
    } else {
      assert s[..n] == a[..n] && s[n + 1..] == a[n + 1..] + [c] + b;
      TokensDivide(a[n + 1..], c, b);
    }
  }

  lemma {:induction false} SameEnd(a: string, c: char, b: string, i: nat)
    requires IsSeparator(c) && i <= |a|
    ensures TokenEnd(a + [c] + b, i) == TokenEnd(a, i)
    decreases |a| - i
  {
    if i < |a| && !IsSeparator(a[i]) {
      SameEnd(a, c, b, i + 1);
    }
  }

  lemma WordIsToken(w: string)
    requires forall c <- w :: !IsSeparator(c)
    ensures Tokens(w) == if w == "" then [] else [w]
  {
    var n := TokenEnd(w, 0);
    if n < |w| {
      assert false;
    }
  }

  predicate AllMatch(tokens: seq<string>, text: string) {
    forall i :: 0 <= i < |tokens| ==> MatchResult(tokens[i], text).matches
  }

  function TotalScore(tokens: seq<string>, text: string): real {
    if tokens == [] then 0.0
    else TotalScore(tokens[..|tokens| - 1], text) + MatchResult(tokens[|tokens| - 1], text).score
  }

  /** Scores of tokens add up. */
  lemma {:induction false} TotalAdds(a: seq<string>, b: seq<string>, text: string)
    ensures TotalScore(a + b, text) == TotalScore(a, text) + TotalScore(b, text)
    ensures TotalScore([], text) == 0.0
    ensures |b| == 1 ==> TotalScore(b, text) == MatchResult(b[0], text).score
    decreases |b|
  {
    hide MatchResult;
    if b == [] {
      assert a + b == a;
    } else {
      assert (a + b)[..|a + b| - 1] == a + b[..|b| - 1];
      TotalAdds(a, b[..|b| - 1], text);
    }
  }

  method MatchTokens(tokens: seq<string>, text: string) returns (allMatch: bool, totalScore: real)
    ensures allMatch == AllMatch(tokens, text)
    ensures allMatch ==> totalScore == TotalScore(tokens, text)
  {
    hide MatchResult;
    allMatch, totalScore := true, 0.0;
    for k := 0 to |tokens|
      invariant AllMatch(tokens[..k], text) && totalScore == TotalScore(tokens[..k], text)
    {
      var m := FuzzyMatch(tokens[k], text);
      assert tokens[..k + 1][..k] == tokens[..k];
      if m.matches {
        totalScore := totalScore + m.score;
      } else {
        return false, totalScore;
      }
    }
    assert tokens[..|tokens|] == tokens;
  }

  /** An accepted item, with its place in the input. */
  datatype Scored<T> = Scored(item: T, totalScore: real, index: nat)

  predicate Before<T>(a: Scored<T>, b: Scored<T>) {
    a.totalScore < b.totalScore || (a.totalScore == b.totalScore && a.index < b.index)
  }

  /** Ordered by score, ties in input order. */
  predicate Ordered<T>(s: seq<Scored<T>>) {
    forall i, j :: 0 <= i < j < |s| ==> Before(s[i], s[j])
  }

  /** Places one more item behind all that score no higher. */
  method InsertByScore<T>(sorted: seq<Scored<T>>, r: Scored<T>) returns (longer: seq<Scored<T>>)
    requires Ordered(sorted) && forall s <- sorted :: s.index < r.index
    ensures Ordered(longer) && multiset(longer) == multiset(sorted) + multiset{r}
  {
    var i: nat := |sorted|;
    while i > 0 && sorted[i - 1].totalScore > r.totalScore
      invariant i <= |sorted| && forall j :: i <= j < |sorted| ==> sorted[j].totalScore > r.totalScore
    {
      i := i - 1;
    }
    longer := sorted[..i] + [r] + sorted[i..];
    InsertedInOrder(sorted, r, i, longer);
    InsertedOnce(sorted, r, i, longer);
  }

  lemma InsertedInOrder<T>(sorted: seq<Scored<T>>, r: Scored<T>, i: nat, longer: seq<Scored<T>>)
    requires Ordered(sorted) && (forall s <- sorted :: s.index < r.index) && i <= |sorted|
    requires i > 0 ==> sorted[i - 1].totalScore <= r.totalScore
    requires forall j :: i <= j < |sorted| ==> sorted[j].totalScore > r.totalScore
    requires longer == sorted[..i] + [r] + sorted[i..]
    ensures Ordered(longer)
  {
    forall j | 0 <= j < i
      ensures Before(sorted[j], r)
    {
      assert sorted[j] in sorted;
      assert j == i - 1 || Before(sorted[j], sorted[i - 1]);
    }
    forall a, b | 0 <= a < b < |longer|
      ensures Before(longer[a], longer[b])
    {
      assert longer[a] == if a < i then sorted[a] else if a == i then r else sorted[a - 1];
      assert longer[b] == if b < i then sorted[b] else if b == i then r else sorted[b - 1];
    }
  }

  lemma InsertedOnce<T>(sorted: seq<Scored<T>>, r: Scored<T>, i: nat, longer: seq<Scored<T>>)
    requires i <= |sorted| && longer == sorted[..i] + [r] + sorted[i..]
    ensures multiset(longer) == multiset(sorted) + multiset{r}
  {
    assert sorted == sorted[..i] + sorted[i..];
  }

  method SortByScore<T>(results: seq<Scored<T>>) returns (sorted: seq<Scored<T>>)
    requires forall i, j :: 0 <= i < j < |results| ==> results[i].index < results[j].index
    ensures Ordered(sorted) && multiset(sorted) == multiset(results)
  {
    sorted := [];
    for k := 0 to |results|
      invariant Ordered(sorted) && multiset(sorted) == multiset(results[..k])
    {
      forall s | s in sorted
        ensures s.index < results[k].index
      {
        assert s in multiset(sorted);
      }
      assert results[..k + 1] == results[..k] + [results[k]];
      sorted := InsertByScore(sorted, results[k]);
    }
    assert results[..|results|] == results;
  }

  /** The accepted items of `items[..k]`, in input order. */
  ghost predicate Accepted<T>(results: seq<Scored<T>>, items: seq<T>, k: nat, tokens: seq<string>, getText: T -> string)
    requires k <= |items|
  {
    && (forall i, j :: 0 <= i < j < |results| ==> results[i].index < results[j].index)
    && (forall r <- results ::
          r.index < k && r.item == items[r.index] && AllMatch(tokens, getText(r.item))
          && r.totalScore == TotalScore(tokens, getText(r.item)))
    && (forall i :: 0 <= i < k && AllMatch(tokens, getText(items[i])) ==> exists r <- results :: r.index == i)
  }

  /** The loop of `fuzzyFilter` over the items. */
  method CollectMatches<T>(items: seq<T>, tokens: seq<string>, getText: T -> string) returns (results: seq<Scored<T>>)
    ensures Accepted(results, items, |items|, tokens, getText)
  {
    hide AllMatch, TotalScore;
    results := [];
    for k := 0 to |items|
      invariant Accepted(results, items, k, tokens, getText)
    {
      var allMatch, totalScore := MatchTokens(tokens, getText(items[k]));
      ghost var before := results;
      if allMatch {
        results := results + [Scored(items[k], totalScore, k)];
        assert results[|before|].index == k;
        assert forall r <- before :: r in results;
      }
    }
  }

  /** The result lists the items at the places `order`: each matching item once, sorted by total score, and
      items of equal score in input order. */
  ghost predicate Filtered<T>(result: seq<T>, order: seq<nat>, items: seq<T>, tokens: seq<string>,
                              getText: T -> string) {
    && |result| == |order|
    && (forall j :: 0 <= j < |order| ==> order[j] < |items| && result[j] == items[order[j]])
    && (forall k :: 0 <= k < |items| ==> (k in order <==> AllMatch(tokens, getText(items[k]))))
    && (forall i, j :: 0 <= i < j < |order| ==>
          var a, b := TotalScore(tokens, getText(result[i])), TotalScore(tokens, getText(result[j]));
          a < b || (a == b && order[i] < order[j]))
  }

  /** `fuzzyFilter` */
  method FuzzyFilter<T>(items: seq<T>, query: string, getText: T -> string)
    returns (result: seq<T>, ghost order: seq<nat>)
    ensures Tokens(query) == [] ==> result == items
    ensures Tokens(query) != [] ==> Filtered(result, order, items, Tokens(query), getText)
  {
    hide AllMatch, TotalScore;
    order := [];
    var tokens := Tokens(query);
    if |tokens| == 0 {
      return items, order;
    }
    var results := CollectMatches(items, tokens, getText);
    var sorted := SortByScore(results);
    result := seq(|sorted|, j requires 0 <= j < |sorted| => sorted[j].item);
    order := seq(|sorted|, j requires 0 <= j < |sorted| => sorted[j].index);
    Collected(sorted, results, result, order, items, tokens, getText);
  }

  lemma Collected<T>(sorted: seq<Scored<T>>, results: seq<Scored<T>>, result: seq<T>, order: seq<nat>, items: seq<T>,
                     tokens: seq<string>, getText: T -> string)
    requires Accepted(results, items, |items|, tokens, getText)
    requires Ordered(sorted) && multiset(sorted) == multiset(results)
    requires |result| == |order| == |sorted|
    requires forall j :: 0 <= j < |sorted| ==> result[j] == sorted[j].item && order[j] == sorted[j].index
    ensures Filtered(result, order, items, tokens, getText)
  {
    hide AllMatch, TotalScore;
    forall j | 0 <= j < |sorted|
      ensures order[j] < |items| && result[j] == items[order[j]]
      ensures AllMatch(tokens, getText(result[j])) && sorted[j].totalScore == TotalScore(tokens, getText(result[j]))
    {
      assert sorted[j] in multiset(sorted);
    }
    forall k | 0 <= k < |items| && AllMatch(tokens, getText(items[k]))
      ensures k in order
    {
      var r :| r in results && r.index == k;
      assert r in multiset(results);
      var j :| 0 <= j < |sorted| && sorted[j] == r;
      assert order[j] == k;
    }
  }
}
