/** The k-order character model of pa5/Markov.py. A model keeps its order
    `k`, its training text `s`, the number `n` of distinct characters of `s`
    and one count table shared by the k-grams and the (k+1)-grams. Every
    call of `log_probability` first counts the training text again, into the
    same table, and then scores the query with the ratios
    (count(k+1-gram) + 1) / (count(k-gram) + n). The count table is the
    keyed string-to-int map with default that `Hash_Table`'s docstrings
    describe; `math.log` is a parameter `ln` and the ratios are exact reals. */
module Markov {
  import opened Python

  /** `HASH_CELLS`: the cell count every model's table is created with. */
  const HashCells: int := 57

  /** `table.lookup(key)` on a keyed table: the count, or the default. */
  function Get(m: map<string, int>, d: int, key: string): int
  {
    if key in m then m[key] else d
  }

  /** The count table a model owns: a string-keyed map with a default. */
  class CountTable {
    const cells: int
    const defval: int
    var counts: map<string, int>

    constructor(cells: int, defval: int)
      ensures this.cells == cells && this.defval == defval && counts == map[]
    {
      this.cells := cells;
      this.defval := defval;
      counts := map[];
    }

    function Lookup(key: string): int
      reads this
    {
      Get(counts, defval, key)
    }

    /** `update(key, val)`: the key now maps to `val`. */
    method Update(key: string, val: int)
      modifies this
      ensures counts == old(counts)[key := val]
    {
      counts := counts[key := val];
    }
  }

  /** `s[-k:] + s`: the text with its own last k characters in front
      (for k = 0, `s[-0:]` is all of `s`). */
  function Wrapped(s: string, k: int): string
  {
    Slice(s, -k, |s|) + s
  }

  /** `[c[i:i + k] for i in range(len(c) - k)]`. */
  function Windows(c: string, k: int): seq<string>
  {
    seq(if |c| > k then |c| - k else 0, i => Slice(c, i, i + k))
  }

  /** The k-grams `update_hash(k, s, h)` counts, in order. */
  function Grams(s: string, k: int): seq<string>
  {
    Windows(Wrapped(s, k), k)
  }

  /** The counts after incrementing each gram in turn. */
  function Tally(m: map<string, int>, d: int, grams: seq<string>): map<string, int>
  {
    if grams == [] then m
    else
      var m' := Tally(m, d, grams[..|grams| - 1]);
      var g := grams[|grams| - 1];
      m'[g := Get(m', d, g) + 1]
  }

  /** Counting adds to every key the number of its occurrences. */
  lemma {:induction false} TallyCounts(m: map<string, int>, d: int, grams: seq<string>, key: string)
    ensures Get(Tally(m, d, grams), d, key) == Get(m, d, key) + multiset(grams)[key]
  {
    if grams != [] {
      var init := grams[..|grams| - 1];
      assert grams == init + [grams[|grams| - 1]];
      TallyCounts(m, d, init, key);
    }
  }

  /** For 1 <= k <= |s| there are exactly |s| grams, the i-th being the
      window at i of `s[-k:] + s`. */
  lemma GramsInRange(s: string, k: int)
    requires 1 <= k <= |s|
    ensures Wrapped(s, k) == s[|s| - k..] + s
    ensures |Grams(s, k)| == |s|
    ensures forall i :: 0 <= i < |s| ==> Grams(s, k)[i] == (s[|s| - k..] + s)[i..i + k]
  {
    SliceTail(s, k);
    var w := s[|s| - k..] + s;
    forall i | 0 <= i < |s|
      ensures Grams(s, k)[i] == w[i..i + k]
    {
      assert Grams(s, k)[i] == Slice(w, i, i + k);
    }
  }

  /** For k = 0 the loop runs 2 |s| times, always on the empty string. */
  lemma GramsZero(s: string)
    ensures Wrapped(s, 0) == s + s
    ensures Grams(s, 0) == seq(2 * |s|, _ => "")
  {
    SliceTailWhole(s, 0);
    var g := Grams(s, 0);
    assert |g| == 2 * |s|;
    forall i | 0 <= i < |g|
      ensures g[i] == ""
    {
      assert g[i] == Slice(s + s, i, i);
    }
  }

  /** For k > |s| the prefix is the whole text and the loop runs
      max(0, 2 |s| - k) times over windows of s + s. */
  lemma GramsLong(s: string, k: int)
    requires k > |s|
    ensures Wrapped(s, k) == s + s
    ensures |Grams(s, k)| == if 2 * |s| > k then 2 * |s| - k else 0
    ensures forall i :: 0 <= i < |Grams(s, k)| ==> Grams(s, k)[i] == (s + s)[i..i + k]
  {
    SliceTailWhole(s, k);
    var g := Grams(s, k);
    forall i | 0 <= i < |g|
      ensures g[i] == (s + s)[i..i + k]
    {
      assert g[i] == Slice(s + s, i, i + k);
    }
  }

  /** A sequence holding one value only. */
  lemma {:induction false} ConstMultiset(q: seq<string>, x: string, y: string)
    requires forall i :: 0 <= i < |q| ==> q[i] == x
    ensures multiset(q)[y] == if y == x then |q| else 0
  {
    if q != [] {
      var init := q[..|q| - 1];
      assert q == init + [q[|q| - 1]];
      ConstMultiset(init, x, y);
    }
  }

  /** With k = 0, `update_hash` only ever increments the empty string. */
  lemma TallyZero(m: map<string, int>, d: int, s: string, key: string)
    ensures Get(Tally(m, d, Grams(s, 0)), d, key) == Get(m, d, key) + (if key == "" then 2 * |s| else 0)
  {
    GramsZero(s);
    TallyCounts(m, d, Grams(s, 0), key);
    ConstMultiset(Grams(s, 0), "", key);
  }

  /** `set(s)` */
  function Alphabet(s: string): (a: set<char>)
    ensures forall c :: c in a <==> c in s
  {
    set c | c in s
  }

  /** A non-empty text has at least one and at most |s| distinct characters. */
  lemma {:induction false} AlphabetSize(s: string)
    ensures |Alphabet(s)| <= |s|
    ensures s != [] ==> |Alphabet(s)| >= 1
  {
    if s != [] {
      AlphabetSize(s[1..]);
      assert Alphabet(s) == {s[0]} + Alphabet(s[1..]);
      assert s[0] in Alphabet(s);
    } else {
      assert Alphabet(s) == {};
    }
  }

  /** How much one round of counting adds to `key` in the shared table:
      its occurrences among the k-grams and among the (k+1)-grams. */
  function Occurrences(s: string, k: int, key: string): nat
  {
    multiset(Grams(s, k))[key] + multiset(Grams(s, k + 1))[key]
  }

  /** One more round of counting raises every count from c times its
      occurrences to c + 1 times. */
  lemma RoundAdds(before: map<string, int>, s: string, k: int, c: nat)
    requires forall key :: Get(before, 0, key) == c * Occurrences(s, k, key)
    ensures forall key :: Get(Tally(Tally(before, 0, Grams(s, k)), 0, Grams(s, k + 1)), 0, key)
                          == (c + 1) * Occurrences(s, k, key)
  {
    forall key
      ensures Get(Tally(Tally(before, 0, Grams(s, k)), 0, Grams(s, k + 1)), 0, key)
              == (c + 1) * Occurrences(s, k, key)
    {
      TallyCounts(before, 0, Grams(s, k), key);
      TallyCounts(Tally(before, 0, Grams(s, k)), 0, Grams(s, k + 1), key);
      var o := Occurrences(s, k, key);
      assert c * o + o == (c + 1) * o;
    }
  }

  /** `complete_s[i:i + k]` in `log_probability`, where w is `complete_s`. */
  function ContextGram(w: string, k: int, i: int): string
  {
    Slice(w, i, i + k)
  }

  /** `complete_s[i:i + k + 1]` in `log_probability`. */
  function ExtendedGram(w: string, k: int, i: int): string
  {
    Slice(w, i, i + k + 1)
  }

  /** The ratio (new_count + 1) / (context_count + n), kept exact. */
  datatype Ratio = Ratio(num: int, den: int)

  /** `(new_count + 1) / (context_count + n)` as a real number. */
  function Value(t: Ratio): real
    requires t.den != 0
  {
    t.num as real / t.den as real
  }

  /** The ratio at position i of the wrapped query w, read off the counts c. */
  function TermOf(c: map<string, int>, n: int, w: string, k: int, i: int): Ratio
  {
    Ratio(Get(c, 0, ExtendedGram(w, k, i)) + 1, Get(c, 0, ContextGram(w, k, i)) + n)
  }

  /** `len(complete_s) - k`, or 0 when that is negative: the number of ratios. */
  function TermCount(w: string, k: int): nat
  {
    if |w| > k then |w| - k else 0
  }

  /** The first m ratios of the wrapped query w. */
  function TermsUpTo(c: map<string, int>, n: int, w: string, k: int, m: nat): (ts: seq<Ratio>)
    ensures |ts| == m
  {
    if m == 0 then [] else TermsUpTo(c, n, w, k, m - 1) + [TermOf(c, n, w, k, m - 1)]
  }

  /** All the ratios `log_probability(q)` computes from the counts c, for
      w = `q[-k:] + q`. */
  function Terms(c: map<string, int>, n: int, w: string, k: int): seq<Ratio>
  {
    TermsUpTo(c, n, w, k, TermCount(w, k))
  }

  lemma {:induction false} TermsUpToIndex(c: map<string, int>, n: int, w: string, k: int, m: nat, i: int)
    requires 0 <= i < m
    ensures TermsUpTo(c, n, w, k, m)[i] == TermOf(c, n, w, k, i)
  {
    if i < m - 1 {
      TermsUpToIndex(c, n, w, k, m - 1, i);
    }
  }

  /** The running sum of `math.log` of each ratio, left to right; a zero
      denominator raises ZeroDivisionError. */
  function Score(ts: seq<Ratio>, ln: real -> real): (r: Outcome<real>)
    ensures r.Raised? ==> r.error == ZeroDivisionError
  {
    if ts == [] then Ok(0.0)
    else
      var p := Score(ts[..|ts| - 1], ln);
      var t := ts[|ts| - 1];
      if p.Raised? then p
      else if t.den == 0 then Raised(ZeroDivisionError)
      else Ok(p.value + ln(Value(t)))
  }

  /** The sum raises exactly when some denominator is zero. */
  lemma {:induction false} ScoreRaises(ts: seq<Ratio>, ln: real -> real)
    ensures Score(ts, ln).Raised? <==> exists i :: 0 <= i < |ts| && ts[i].den == 0
  {
    if ts != [] {
      var init := ts[..|ts| - 1];
      ScoreRaises(init, ln);
      if Score(ts, ln).Raised? && ts[|ts| - 1].den != 0 {
        var i :| 0 <= i < |init| && init[i].den == 0;
        assert ts[i] == init[i];
      }
      if exists i :: 0 <= i < |ts| && ts[i].den == 0 {
        var i :| 0 <= i < |ts| && ts[i].den == 0;
        if i < |init| {
          assert init[i] == ts[i];
        }
      }
    }
  }

  /** A zero denominator anywhere makes the whole sum raise. */
  lemma ScoreRaisesAt(c: map<string, int>, n: int, w: string, k: int, i: int, ln: real -> real)
    requires 0 <= i < TermCount(w, k) && TermOf(c, n, w, k, i).den == 0
    ensures Score(Terms(c, n, w, k), ln) == Raised(ZeroDivisionError)
  {
    TermsUpToIndex(c, n, w, k, TermCount(w, k), i);
    ScoreRaises(Terms(c, n, w, k), ln);
  }

  /** Before the scoring loop: no ratios, sum 0. */
  lemma ScoreStart(c: map<string, int>, n: int, w: string, k: int, ln: real -> real)
    ensures Score(TermsUpTo(c, n, w, k, 0), ln) == Ok(0.0)
  {
  }

  /** One iteration of the scoring loop: the running sum over i + 1 ratios. */
  lemma ScoreExtend(c: map<string, int>, n: int, w: string, k: int, i: nat,
                    ln: real -> real, sum: real)
    requires Score(TermsUpTo(c, n, w, k, i), ln) == Ok(sum)
    requires TermOf(c, n, w, k, i).den != 0
    ensures Score(TermsUpTo(c, n, w, k, i + 1), ln) == Ok(sum + ln(Value(TermOf(c, n, w, k, i))))
  {
    var ts := TermsUpTo(c, n, w, k, i + 1);
    assert ts[..|ts| - 1] == TermsUpTo(c, n, w, k, i);
  }

  /** After c rounds of counting s, the ratio at position i compares
      c times the occurrences of the (k+1)-gram and of the k-gram. */
  lemma TermAfterRounds(m: map<string, int>, s: string, k: int, c: nat, n: int, w: string, i: int)
    requires forall key :: Get(m, 0, key) == c * Occurrences(s, k, key)
    ensures TermOf(m, n, w, k, i)
            == Ratio(c * Occurrences(s, k, ExtendedGram(w, k, i)) + 1,
                     c * Occurrences(s, k, ContextGram(w, k, i)) + n)
  {
  }

  /** For 1 <= k <= |q| there is one ratio per query character, and at each
      position the k-gram is the first k characters of the (k+1)-gram. */
  lemma TermsInRange(c: map<string, int>, n: int, q: string, k: int)
    requires 1 <= k <= |q|
    ensures Wrapped(q, k) == q[|q| - k..] + q
    ensures |Terms(c, n, Wrapped(q, k), k)| == |q|
    ensures forall i :: 0 <= i < |q| ==>
              var w := Wrapped(q, k);
              |ExtendedGram(w, k, i)| == k + 1 && ContextGram(w, k, i) == ExtendedGram(w, k, i)[..k]
  {
    SliceTail(q, k);
    var w := Wrapped(q, k);
    assert |w| == |q| + k;
    forall i | 0 <= i < |q|
      ensures |ExtendedGram(w, k, i)| == k + 1 && ContextGram(w, k, i) == ExtendedGram(w, k, i)[..k]
    {
      assert ExtendedGram(w, k, i) == w[i..i + k + 1];
      assert ContextGram(w, k, i) == w[i..i + k];
    }
  }

  /** For k = 0 every context is the empty string and there are 2 |q| ratios,
      scored on single characters against n. */
  lemma TermsZero(c: map<string, int>, n: int, q: string)
    ensures Wrapped(q, 0) == q + q
    ensures |Terms(c, n, q + q, 0)| == 2 * |q|
    ensures forall i :: 0 <= i < 2 * |q| ==>
              ContextGram(q + q, 0, i) == "" && |ExtendedGram(q + q, 0, i)| == 1
  {
    SliceTailWhole(q, 0);
  }

  /** Counts that never went below zero and a non-empty training text
      leave every denominator at least 1, so scoring never divides by zero. */
  lemma ScoreDefined(c: map<string, int>, s: string, w: string, k: int, ln: real -> real)
    requires s != [] && forall key :: Get(c, 0, key) >= 0
    ensures forall i :: 0 <= i < |Terms(c, |Alphabet(s)|, w, k)| ==>
              Terms(c, |Alphabet(s)|, w, k)[i].den >= 1
    ensures Score(Terms(c, |Alphabet(s)|, w, k), ln).Ok?
  {
    AlphabetSize(s);
    var ts := Terms(c, |Alphabet(s)|, w, k);
    forall i | 0 <= i < |ts|
      ensures ts[i].den >= 1
    {
      TermsUpToIndex(c, |Alphabet(s)|, w, k, TermCount(w, k), i);
    }
    ScoreRaises(ts, ln);
  }

  /** The counts of a fresh model after its first `log_probability` call. */
  function FirstCounts(s: string, k: int): map<string, int>
  {
    Tally(Tally(map[], 0, Grams(s, k)), 0, Grams(s, k + 1))
  }

  /** A model of `Markov(k, s)`. `calls` counts the `log_probability` calls
      so far; each of them added one round of counting to the table. */
  class MarkovModel {
    const k: int
    const s: string
    const n: int
    const ht: CountTable
    ghost var calls: nat

    ghost predicate Valid()
      reads this, ht
    {
      ht.defval == 0 && forall key :: Get(ht.counts, 0, key) == calls * Occurrences(s, k, key)
    }

    /** `Markov(k, s)`: n distinct characters and an empty table of
        `HASH_CELLS` cells with default 0. */
    constructor(k: int, s: string)
      ensures Valid() && calls == 0 && fresh(ht)
      ensures this.k == k && this.s == s && n == |Alphabet(s)|
      ensures ht.cells == HashCells && ht.defval == 0 && ht.counts == map[]
    {
      this.n := |Alphabet(s)|;
      this.k := k;
      this.s := s;
      this.ht := new CountTable(HashCells, 0);
      calls := 0;
    }

    /** `update_hash(k, s, h)`: increment the count of every k-gram of s. */
    method UpdateHash(k: int, s: string, h: CountTable)
      modifies h
      ensures h.counts == Tally(old(h.counts), h.defval, Grams(s, k))
    {
      var complete := Wrapped(s, k);
      ghost var grams := Grams(s, k);
      assert |grams| == if |complete| > k then |complete| - k else 0;
      var i := 0;
      while i < |complete| - k
        invariant 0 <= i <= |grams|
        invariant h.counts == Tally(old(h.counts), h.defval, grams[..i])
      {
        var gram := Slice(complete, i, i + k);
        assert gram == grams[i];
        var count := h.Lookup(gram);
        assert grams[..i + 1][..i] == grams[..i];
        h.Update(gram, count + 1);
        i := i + 1;
      }
      assert grams[..i] == grams;
    }

    /** The scoring loop of `log_probability`: sum `ln` of the smoothed
        ratios over the wrapped query, reading the table only. */
    method ScoreQuery(q: string, ln: real -> real) returns (r: Outcome<real>)
      requires ht.defval == 0
      ensures r == Score(Terms(ht.counts, n, Wrapped(q, k), k), ln)
    {
      hide Score, TermsUpTo;
      var complete := Wrapped(q, k);
      var sum := 0.0;
      var i := 0;
      ScoreStart(ht.counts, n, complete, k, ln);
      while i < |complete| - k
        invariant 0 <= i <= TermCount(complete, k)
        invariant Score(TermsUpTo(ht.counts, n, complete, k, i), ln) == Ok(sum)
      {
        var kGram := Slice(complete, i, i + k);
        var k1Gram := Slice(complete, i, i + k + 1);
        var contextCount := ht.Lookup(kGram);
        var newCount := ht.Lookup(k1Gram);
        var ratio := Ratio(newCount + 1, contextCount + n);
        assert ratio == TermOf(ht.counts, n, complete, k, i);
        if ratio.den == 0 {
          ScoreRaisesAt(ht.counts, n, complete, k, i, ln);
          return Raised(ZeroDivisionError);
        }
        ScoreExtend(ht.counts, n, complete, k, i, ln, sum);
        sum := sum + ln(Value(ratio));
        i := i + 1;
      }
      assert i == TermCount(complete, k);
      r := Ok(sum);
    }

    /** The first two lines of `log_probability`: one more round of
        counting the k-grams and the (k+1)-grams of the training text. */
    method Recount()
      requires Valid()
      modifies this, ht
      ensures Valid() && calls == old(calls) + 1
      ensures ht.counts == Tally(Tally(old(ht.counts), 0, Grams(s, k)), 0, Grams(s, k + 1))
    {
      hide Tally, Grams, Occurrences, Wrapped;
      ghost var before := ht.counts;
      UpdateHash(k, s, ht);
      UpdateHash(k + 1, s, ht);
      RoundAdds(before, s, k, calls);
      calls := calls + 1;
    }

    /** `log_probability(q)`: count the training text once more, into the
        same table, then sum `ln` of the smoothed ratios over the query. */
    method LogProbability(q: string, ln: real -> real) returns (r: Outcome<real>)
      requires Valid()
      modifies this, ht
      ensures Valid() && calls == old(calls) + 1
      ensures ht.counts == Tally(Tally(old(ht.counts), 0, Grams(s, k)), 0, Grams(s, k + 1))
      ensures r == Score(Terms(ht.counts, n, Wrapped(q, k), k), ln)
    {
      Recount();
      r := ScoreQuery(q, ln);
    }
  }

  /** What `identify_speaker` returns: both normalised scores and the verdict. */
  datatype Verdict = Verdict(prob1: real, prob2: real, conclusion: string)

  /** The score a fresh model of order k trained on s gives the query q. */
  function FirstScore(s: string, k: int, q: string, ln: real -> real): Outcome<real>
  {
    Score(Terms(FirstCounts(s, k), |Alphabet(s)|, Wrapped(q, k), k), ln)
  }

  /** Normalising both scores by the query length and comparing strictly:
      Python evaluates the first score, divides it, then the second. */
  function Decide(score1: Outcome<real>, score2: Outcome<real>, len: nat): (r: Outcome<Verdict>)
    ensures r.Raised? <==> score1.Raised? || len == 0 || score2.Raised?
    ensures r.Ok? ==> (r.value.prob1 == score1.value / len as real
                       && r.value.prob2 == score2.value / len as real)
    ensures r.Ok? ==> (r.value.conclusion == "A" <==> r.value.prob1 > r.value.prob2)
    ensures r.Ok? ==> (r.value.conclusion == "B" <==> r.value.prob1 <= r.value.prob2)
  {
    if score1.Raised? then Raised(score1.error)
    else if len == 0 then Raised(ZeroDivisionError)
    else if score2.Raised? then Raised(score2.error)
    else
      var p1, p2 := score1.value / len as real, score2.value / len as real;
      Ok(Verdict(p1, p2, if p1 > p2 then "A" else "B"))
  }

  /** The first call on a fresh model of s scores with the counts of one round. */
  lemma FreshScore(s: string, k: int, q: string, ln: real -> real, counts: map<string, int>)
    requires counts == Tally(Tally(map[], 0, Grams(s, k)), 0, Grams(s, k + 1))
    ensures Score(Terms(counts, |Alphabet(s)|, Wrapped(q, k), k), ln) == FirstScore(s, k, q, ln)
  {
  }

  /** `identify_speaker(speech1, speech2, speech3, order)`. */
  method IdentifySpeaker(speech1: string, speech2: string, speech3: string, order: int,
                         ln: real -> real) returns (r: Outcome<Verdict>)
    ensures r == Decide(FirstScore(speech1, order, speech3, ln),
                        FirstScore(speech2, order, speech3, ln), |speech3|)
  {
    hide FirstScore, Score, Terms, Tally, Grams, Alphabet, Wrapped;
    var len := |speech3|;
    var speaker1 := new MarkovModel(order, speech1);
    var speaker2 := new MarkovModel(order, speech2);
    var score1 := speaker1.LogProbability(speech3, ln);
    FreshScore(speech1, order, speech3, ln, speaker1.ht.counts);
    if score1.Raised? {
      return Raised(score1.error);
    }
    if len == 0 {
      return Raised(ZeroDivisionError);
    }
    var prob1 := score1.value / len as real;
    var score2 := speaker2.LogProbability(speech3, ln);
    FreshScore(speech2, order, speech3, ln, speaker2.ht.counts);
    if score2.Raised? {
      return Raised(score2.error);
    }
    var prob2 := score2.value / len as real;
    var conclusion := if prob1 > prob2 then "A" else "B";
    r := Ok(Verdict(prob1, prob2, conclusion));
  }

  /** Every count of a fresh model after its first call is one round's worth. */
  lemma FirstRound(s: string, k: int)
    ensures forall key :: Get(FirstCounts(s, k), 0, key) == Occurrences(s, k, key)
  {
    RoundAdds(map[], s, k, 0);
  }

  /** A text of m copies of one character. */
  function Run(c: char, m: nat): (r: string)
    ensures |r| == m && forall i :: 0 <= i < m ==> r[i] == c
  {
    seq(m, _ => c)
  }

  lemma RunAlphabet(c: char, m: nat)
    requires m >= 1
    ensures Alphabet(Run(c, m)) == {c}
  {
    assert Run(c, m)[0] == c;
  }

  /** Every k-gram of a run is the run of length k. */
  lemma RunGrams(c: char, m: nat, k: int)
    requires 1 <= k <= m
    ensures |Grams(Run(c, m), k)| == m
    ensures forall i :: 0 <= i < m ==> Grams(Run(c, m), k)[i] == Run(c, k)
  {
    var s := Run(c, m);
    GramsInRange(s, k);
    forall i | 0 <= i < m
      ensures Grams(s, k)[i] == Run(c, k)
    {
      assert (s[m - k..] + s)[i..i + k] == Run(c, k);
    }
  }

  /** One round of counting a run of m characters adds m to the k-run and
      to the (k+1)-run, and nothing to any other key. */
  lemma RunOccurrences(c: char, m: nat, k: int, key: string)
    requires 1 <= k < m
    ensures Occurrences(Run(c, m), k, key) == if key == Run(c, k) || key == Run(c, k + 1) then m else 0
  {
    RunGrams(c, m, k);
    RunGrams(c, m, k + 1);
    ConstMultiset(Grams(Run(c, m), k), Run(c, k), key);
    ConstMultiset(Grams(Run(c, m), k + 1), Run(c, k + 1), key);
  }

  /** The wrapped query of a run is a longer run, and its grams are runs. */
  lemma RunWindows(d: char, mq: nat, k: int, i: int)
    requires 1 <= k <= mq && 0 <= i < mq
    ensures Wrapped(Run(d, mq), k) == Run(d, mq + k)
    ensures ContextGram(Run(d, mq + k), k, i) == Run(d, k)
    ensures ExtendedGram(Run(d, mq + k), k, i) == Run(d, k + 1)
  {
    SliceTail(Run(d, mq), k);
    assert Run(d, mq)[mq - k..] + Run(d, mq) == Run(d, mq + k);
    SliceInRange(Run(d, mq + k), i, i + k);
    SliceInRange(Run(d, mq + k), i, i + k + 1);
    assert Run(d, mq + k)[i..i + k] == Run(d, k);
    assert Run(d, mq + k)[i..i + k + 1] == Run(d, k + 1);
  }

  /** A model trained on a run of c, after any number of rounds, gives
      the ratio at position i of a query that is a run of d the value 1:
      x/x with x = rounds * m + 1 when d is c, and 1/1 otherwise. */
  lemma RunTermAt(c: char, m: nat, d: char, mq: nat, k: int, cnt: map<string, int>, calls: nat, i: int)
    requires 1 <= k < m && k <= mq && 0 <= i < mq
    requires forall key :: Get(cnt, 0, key) == calls * Occurrences(Run(c, m), k, key)
    ensures TermOf(cnt, 1, Run(d, mq + k), k, i)
            == if c == d then Ratio(calls * m + 1, calls * m + 1) else Ratio(1, 1)
  {
    RunWindows(d, mq, k, i);
    RunOccurrences(c, m, k, Run(d, k + 1));
    RunOccurrences(c, m, k, Run(d, k));
    assert |Run(d, k + 1)| != |Run(c, k)| && |Run(d, k)| != |Run(c, k + 1)|;
    if c != d {
      assert Run(d, k + 1)[0] != Run(c, k + 1)[0] && Run(d, k)[0] != Run(c, k)[0];
    }
  }

  /** ... so every ratio of such a query is 1, one per query character. */
  lemma RunTerms(c: char, m: nat, d: char, mq: nat, k: int, cnt: map<string, int>, calls: nat)
    requires 1 <= k < m && k <= mq
    requires forall key :: Get(cnt, 0, key) == calls * Occurrences(Run(c, m), k, key)
    ensures var ts := Terms(cnt, 1, Wrapped(Run(d, mq), k), k);
            && |ts| == mq
            && forall i :: 0 <= i < mq ==> ts[i].den >= 1 && ts[i].num == ts[i].den
  {
    hide Occurrences, TermOf, Get, Slice, Wrapped, Grams, Score;
    var w := Run(d, mq + k);
    RunWindows(d, mq, k, 0);
    assert TermCount(w, k) == mq;
    var ts := Terms(cnt, 1, w, k);
    forall i | 0 <= i < mq
      ensures ts[i].den >= 1 && ts[i].num == ts[i].den
    {
      TermsUpToIndex(cnt, 1, w, k, mq, i);
      RunTermAt(c, m, d, mq, k, cnt, calls, i);
    }
  }

  /** Ratios that are all 1 score 0 when ln(1) = 0. */
  lemma {:induction false} ScoreOfOnes(ts: seq<Ratio>, ln: real -> real)
    requires ln(1.0) == 0.0
    requires forall i :: 0 <= i < |ts| ==> ts[i].den >= 1 && ts[i].num == ts[i].den
    ensures Score(ts, ln) == Ok(0.0)
  {
    if ts != [] {
      var init, t := ts[..|ts| - 1], ts[|ts| - 1];
      ScoreOfOnes(init, ln);
      assert Value(t) == 1.0;
    }
  }

  /** A model trained on one repeated character scores a query made of
      any single repeated character at |q| ln(1) = 0, at every call. */
  lemma RunScore(c: char, m: nat, d: char, mq: nat, k: int, cnt: map<string, int>, calls: nat,
                 ln: real -> real)
    requires 1 <= k < m && k <= mq && ln(1.0) == 0.0
    requires forall key :: Get(cnt, 0, key) == calls * Occurrences(Run(c, m), k, key)
    ensures Score(Terms(cnt, |Alphabet(Run(c, m))|, Wrapped(Run(d, mq), k), k), ln) == Ok(0.0)
  {
    RunAlphabet(c, m);
    RunTerms(c, m, d, mq, k, cnt, calls);
    ScoreOfOnes(Terms(cnt, 1, Wrapped(Run(d, mq), k), k), ln);
  }

  /** Training text "aaaa", order 1, query "aaaa": every ratio is 5/5 and
      the log-probability is 0. */
  lemma KnownValue(s: string, q: string, ln: real -> real)
    requires s == "aaaa" && q == "aaaa" && ln(1.0) == 0.0
    ensures FirstScore(s, 1, q, ln) == Ok(0.0)
  {
    assert s == Run('a', 4) && q == Run('a', 4);
    FirstRound(s, 1);
    RunScore('a', 4, 'a', 4, 1, FirstCounts(s, 1), 1, ln);
  }

  /** A fresh model trained on a run scores a query that is a run at 0. */
  lemma RunFirstScore(c: char, m: nat, d: char, mq: nat, k: int, ln: real -> real)
    requires 1 <= k < m && k <= mq && ln(1.0) == 0.0
    ensures FirstScore(Run(c, m), k, Run(d, mq), ln) == Ok(0.0)
  {
    FirstRound(Run(c, m), k);
    RunScore(c, m, d, mq, k, FirstCounts(Run(c, m), k), 1, ln);
  }

  /** Speakers "aaaaaaaa" and "bbbbbbbb", order 1, query "aaaaa": both
      scores are 0 (ratios 9/9 against 1/1), so the strict comparison
      answers "B". */
  lemma ComparativeScenario(a: string, b: string, q: string, ln: real -> real)
    requires a == "aaaaaaaa" && b == "bbbbbbbb" && q == "aaaaa" && ln(1.0) == 0.0
    ensures Decide(FirstScore(a, 1, q, ln), FirstScore(b, 1, q, ln), |q|) == Ok(Verdict(0.0, 0.0, "B"))
  {
    assert a == Run('a', 8) && b == Run('b', 8) && q == Run('a', 5);
    RunFirstScore('a', 8, 'a', 5, 1, ln);
    RunFirstScore('b', 8, 'a', 5, 1, ln);
  }

  /** Training text "ab", order 1: the 1-grams are "b", "a" ... */
  lemma AbGrams1(s: string)
    requires s == "ab"
    ensures Grams(s, 1) == ["b", "a"]
  {
    GramsInRange(s, 1);
    var w := s[1..] + s;
    assert w == "bab";
    assert w[0..1] == "b" && w[1..2] == "a";
    assert Grams(s, 1)[0] == "b" && Grams(s, 1)[1] == "a";
  }

  /** ... and the 2-grams are "ab", "ba". */
  lemma AbGrams2(s: string)
    requires s == "ab"
    ensures Grams(s, 2) == ["ab", "ba"]
  {
    GramsInRange(s, 2);
    var w := s[0..] + s;
    assert w == "abab";
    assert w[0..2] == "ab" && w[1..3] == "ba";
    assert Grams(s, 2)[0] == "ab" && Grams(s, 2)[1] == "ba";
  }

  /** So one round of counting gives "a" one occurrence and "aa" none. */
  lemma AbOccurrences(s: string)
    requires s == "ab"
    ensures Occurrences(s, 1, "a") == 1 && Occurrences(s, 1, "aa") == 0
  {
    AbGrams1(s);
    AbGrams2(s);
  }

  /** The query "a" against "ab" after c rounds: a single ratio 1 / (c + 2). */
  lemma AbTerms(cnt: map<string, int>, c: nat, s: string, k: int, q: string)
    requires s == "ab" && k == 1 && q == "a"
    requires forall key :: Get(cnt, 0, key) == c * Occurrences(s, k, key)
    ensures Terms(cnt, 2, Wrapped(q, k), k) == [Ratio(1, c + 2)]
  {
    AbOccurrences(s);
    assert Wrapped(q, k) == "aa";
    assert ContextGram("aa", 1, 0) == "a" && ExtendedGram("aa", 1, 0) == "aa";
    assert TermsUpTo(cnt, 2, "aa", 1, 1) == [TermOf(cnt, 2, "aa", 1, 0)];
  }

  /** ... so the call scores ln(1 / (c + 2)). */
  lemma AbScore(cnt: map<string, int>, c: nat, s: string, k: int, n: int, q: string, ln: real -> real)
    requires s == "ab" && k == 1 && q == "a" && n == |Alphabet(s)|
    requires forall key :: Get(cnt, 0, key) == c * Occurrences(s, k, key)
    ensures Score(Terms(cnt, n, Wrapped(q, k), k), ln) == Ok(0.0 + ln(Value(Ratio(1, c + 2))))
  {
    assert Alphabet(s) == {'a', 'b'};
    AbTerms(cnt, c, s, k, q);
    var ts := [Ratio(1, c + 2)];
    assert ts[..0] == [];
  }

  /** Two `log_probability("a")` calls on `Markov(1, "ab")`: the second
      call counts the training text again, so it returns ln(1/4) where the
      first returned ln(1/3). */
  method RepeatedCalls(s: string, q: string, ln: real -> real)
    returns (first: Outcome<real>, second: Outcome<real>)
    requires s == "ab" && q == "a"
    ensures first == Ok(0.0 + ln(Value(Ratio(1, 3)))) && second == Ok(0.0 + ln(Value(Ratio(1, 4))))
  {
    hide Score, Terms, Tally, Grams, Occurrences, Alphabet, Wrapped;
    var model := new MarkovModel(1, s);
    first := model.LogProbability(q, ln);
    AbScore(model.ht.counts, 1, model.s, model.k, model.n, q, ln);
    second := model.LogProbability(q, ln);
    AbScore(model.ht.counts, 2, model.s, model.k, model.n, q, ln);
  }
}
