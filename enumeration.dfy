/**
 * Candidate enumeration: every string of each length in [lo, hi] over an ordered
 * alphabet, in ascending length and then in lexicographic order under the
 * alphabet's order.
 *
 * `Product` is the per-length `itertools.product(alphabet, repeat=n)` joined into
 * strings, `Enumerate` is `generate_candidates`, and `Candidate` is the
 * ordinal-based description of the same sequence: the candidate with ordinal k
 * of length n is k written in base |alphabet| with n digits, the leftmost digit
 * most significant.
 */
module Enumeration {
  import opened Sequences

  /**
   * a * x as repeated addition. Powers are built from it so that the solver does
   * not meet a nonlinear product unless a proof asks for one (TimesIsMul).
   */
  function Times(a: nat, x: nat): nat
  {
    if a == 0 then 0 else x + Times(a - 1, x)
  }

  function Pow(a: nat, n: nat): nat
  {
    if n == 0 then 1 else Times(a, Pow(a, n - 1))
  }

  /** Number of candidates of all lengths lo..hi: the sum of a^len. */
  function Count(a: nat, lo: nat, hi: int): nat
    decreases hi - lo
  {
    if lo > hi then 0 else Pow(a, lo) + Count(a, lo + 1, hi)
  }

  predicate Distinct<T(==)>(s: seq<T>)
  {
    forall i, j :: 0 <= i < j < |s| ==> s[i] != s[j]
  }

  predicate OverAlphabet(alphabet: string, s: string)
  {
    forall i :: 0 <= i < |s| ==> s[i] in alphabet
  }

  // ---------------------------------------------------------------------------
  // Arithmetic on one base-p digit
  // ---------------------------------------------------------------------------

  lemma {:induction false} TimesIsMul(a: nat, x: nat)
    ensures Times(a, x) == a * x
  {
    if a > 0 {
      TimesIsMul(a - 1, x);
      assert a * x == x + (a - 1) * x;
    }
  }

  lemma MulLeq(x: nat, y: nat, p: nat)
    requires x <= y
    ensures x * p <= y * p
  {
    assert y * p == x * p + (y - x) * p;
  }

  /** Comparing d1*p + r1 with d2*p + r2 is comparing (d1, r1) with (d2, r2). */
  lemma DigitOrder(d1: nat, r1: nat, d2: nat, r2: nat, p: nat)
    requires r1 < p && r2 < p
    ensures d1 * p + r1 < d2 * p + r2 <==> d1 < d2 || (d1 == d2 && r1 < r2)
  {
    if d1 < d2 {
      MulLeq(d1 + 1, d2, p);
      assert (d1 + 1) * p == d1 * p + p;
    } else if d2 < d1 {
      MulLeq(d2 + 1, d1, p);
      assert (d2 + 1) * p == d2 * p + p;
    }
  }

  /** A digit d < a followed by a remainder r < p: its value is below a*p and splits back. */
  lemma JoinDigit(d: nat, r: nat, a: nat, p: nat)
    requires d < a && r < p
    ensures d * p + r < Times(a, p)
    ensures (d * p + r) / p == d && (d * p + r) % p == r
  {
    TimesIsMul(a, p);
    DigitOrder(d, r, a, 0, p);
    var k := d * p + r;
    var q, m := k / p, k % p;
    assert k == q * p + m && 0 <= m < p;
    DigitOrder(q, m, d, r, p);
    DigitOrder(d, r, q, m, p);
  }

  /** Any k < a*p splits into a leading digit k / p < a and a remainder k % p < p. */
  lemma SplitDigit(k: nat, a: nat, p: nat)
    requires k < Times(a, p)
    ensures p > 0 && 0 <= k / p < a && k % p < p && k == (k / p) * p + k % p
  {
    TimesIsMul(a, p);
    var q := k / p;
    if q >= a {
      MulLeq(a, q, p);
    }
  }

  /** Stepping back one whole block of p moves the leading digit down by one. */
  lemma DropBlock(k: nat, p: nat)
    requires 0 < p <= k
    ensures 1 <= k / p
    ensures (k - p) / p == k / p - 1 && (k - p) % p == k % p
  {
    var q, m := (k - p) / p, (k - p) % p;
    assert k == (q + 1) * p + m;
    JoinDigit(q + 1, m, q + 2, p);
  }

  // ---------------------------------------------------------------------------
  // The candidate with a given ordinal, and the ordinal of a string
  // ---------------------------------------------------------------------------

  /** Candidate(alphabet, n, k): k written with n digits in base |alphabet|. */
  function Candidate(alphabet: string, n: nat, k: nat): (s: string)
    requires k < Pow(|alphabet|, n)
    ensures |s| == n
    ensures OverAlphabet(alphabet, s)
    decreases n
  {
    if n == 0 then []
    else
      var p := Pow(|alphabet|, n - 1);
      SplitDigit(k, |alphabet|, p);
      [alphabet[k / p]] + Candidate(alphabet, n - 1, k % p)
  }

  /** A candidate is its leading digit's character followed by the candidate of the remainder. */
  lemma CandidateSplit(alphabet: string, n: nat, k: nat)
    requires 0 < n && k < Pow(|alphabet|, n)
    ensures Pow(|alphabet|, n - 1) > 0
    ensures 0 <= k / Pow(|alphabet|, n - 1) < |alphabet| && k % Pow(|alphabet|, n - 1) < Pow(|alphabet|, n - 1)
    ensures Candidate(alphabet, n, k)[0] == alphabet[k / Pow(|alphabet|, n - 1)]
    ensures Candidate(alphabet, n, k)[1..] == Candidate(alphabet, n - 1, k % Pow(|alphabet|, n - 1))
  {
    SplitDigit(k, |alphabet|, Pow(|alphabet|, n - 1));
  }

  /** Position of the first occurrence of c in the alphabet. */
  function IndexOf(alphabet: string, c: char): (r: nat)
    requires c in alphabet
    ensures r < |alphabet| && alphabet[r] == c
    ensures forall j :: 0 <= j < r ==> alphabet[j] != c
  {
    if alphabet[0] == c then 0 else 1 + IndexOf(alphabet[1..], c)
  }

  lemma IndexOfAt(alphabet: string, d: nat)
    requires Distinct(alphabet) && d < |alphabet|
    ensures IndexOf(alphabet, alphabet[d]) == d
  {
  }

  /** The ordinal of a string over the alphabet: its digits read in base |alphabet|. */
  function Ordinal(alphabet: string, s: string): (k: nat)
    requires OverAlphabet(alphabet, s)
    ensures k < Pow(|alphabet|, |s|)
  {
    if s == [] then 0
    else
      var d := IndexOf(alphabet, s[0]);
      var rest := Ordinal(alphabet, s[1..]);
      JoinDigit(d, rest, |alphabet|, Pow(|alphabet|, |s| - 1));
      d * Pow(|alphabet|, |s| - 1) + rest
  }

  /** Round trip: the ordinal of the candidate with ordinal k is k. */
  lemma {:induction false} OrdinalOfCandidate(alphabet: string, n: nat, k: nat)
    requires Distinct(alphabet)
    requires k < Pow(|alphabet|, n)
    ensures Ordinal(alphabet, Candidate(alphabet, n, k)) == k
  {
    if n > 0 {
      var p := Pow(|alphabet|, n - 1);
      var s := Candidate(alphabet, n, k);
      CandidateSplit(alphabet, n, k);
      var d, r := k / p, k % p;
      assert IndexOf(alphabet, s[0]) == d by { IndexOfAt(alphabet, d); }
      assert Ordinal(alphabet, s[1..]) == r by { OrdinalOfCandidate(alphabet, n - 1, r); }
      assert k == d * p + r by { SplitDigit(k, |alphabet|, p); }
    }
  }

  /** Round trip: every string over the alphabet is the candidate of its ordinal. */
  lemma {:induction false} CandidateOfOrdinal(alphabet: string, s: string)
    requires OverAlphabet(alphabet, s)
    ensures Candidate(alphabet, |s|, Ordinal(alphabet, s)) == s
  {
    if s != [] {
      var p := Pow(|alphabet|, |s| - 1);
      var d := IndexOf(alphabet, s[0]);
      var rest := Ordinal(alphabet, s[1..]);
      JoinDigit(d, rest, |alphabet|, p);
      CandidateOfOrdinal(alphabet, s[1..]);
      assert s == [s[0]] + s[1..];
    }
  }

  /** Different ordinals of one length give different candidates. */
  lemma CandidateInjective(alphabet: string, n: nat, k1: nat, k2: nat)
    requires Distinct(alphabet)
    requires k1 < Pow(|alphabet|, n) && k2 < Pow(|alphabet|, n)
    ensures Candidate(alphabet, n, k1) == Candidate(alphabet, n, k2) <==> k1 == k2
  {
    OrdinalOfCandidate(alphabet, n, k1);
    OrdinalOfCandidate(alphabet, n, k2);
  }

  // ---------------------------------------------------------------------------
  // itertools.product and generate_candidates
  // ---------------------------------------------------------------------------

  /** Each tail prefixed by the character c, in order. */
  function Prepend(c: char, tails: seq<string>): (r: seq<string>)
    ensures |r| == |tails|
  {
    if tails == [] then [] else [[c] + tails[0]] + Prepend(c, tails[1..])
  }

  lemma {:induction false} PrependAt(c: char, tails: seq<string>, j: nat)
    requires j < |tails|
    ensures Prepend(c, tails)[j] == [c] + tails[j]
  {
    if j > 0 {
      PrependAt(c, tails[1..], j - 1);
    }
  }

  /** For each head in order, every tail prefixed by that head. */
  function PrefixEach(heads: string, tails: seq<string>): seq<string>
  {
    if heads == [] then [] else Prepend(heads[0], tails) + PrefixEach(heads[1..], tails)
  }

  /** itertools.product(alphabet, repeat=n), each tuple joined into a string. */
  function Product(alphabet: string, n: nat): seq<string>
  {
    if n == 0 then [[]] else PrefixEach(alphabet, Product(alphabet, n - 1))
  }

  lemma {:induction false} PrefixEachLength(heads: string, tails: seq<string>)
    ensures |PrefixEach(heads, tails)| == Times(|heads|, |tails|)
  {
    if heads != [] {
      PrefixEachLength(heads[1..], tails);
    }
  }

  /** Position k of PrefixEach: head k / |tails| followed by tail k % |tails|. */
  lemma {:induction false} PrefixEachAt(heads: string, tails: seq<string>, k: nat)
    requires k < |PrefixEach(heads, tails)|
    ensures 0 < |tails| && k / |tails| < |heads| && k % |tails| < |tails|
    ensures PrefixEach(heads, tails)[k] == [heads[k / |tails|]] + tails[k % |tails|]
    decreases |heads|, 1
  {
    assert PrefixEach(heads, tails) == Prepend(heads[0], tails) + PrefixEach(heads[1..], tails);
    if k < |tails| {
      JoinDigit(0, k, 1, |tails|);
      PrependAt(heads[0], tails, k);
    } else {
      PrefixEachPastFirst(heads, tails, k);
    }
  }

  /** Past the first head's block, position k is position k - |tails| of the rest. */
  lemma {:induction false} PrefixEachPastFirst(heads: string, tails: seq<string>, k: nat)
    requires heads != [] && |tails| <= k < |PrefixEach(heads, tails)|
    ensures 0 < |tails| && k / |tails| < |heads| && k % |tails| < |tails|
    ensures PrefixEach(heads, tails)[k] == [heads[k / |tails|]] + tails[k % |tails|]
    decreases |heads|, 0
  {
    var rest := PrefixEach(heads[1..], tails);
    assert PrefixEach(heads, tails) == Prepend(heads[0], tails) + rest;
    PrefixEachAt(heads[1..], tails, k - |tails|);
    DropBlock(k, |tails|);
    assert heads[1..][k / |tails| - 1] == heads[k / |tails|];
  }

  lemma {:induction false} ProductLength(alphabet: string, n: nat)
    ensures |Product(alphabet, n)| == Pow(|alphabet|, n)
  {
    if n > 0 {
      ProductLength(alphabet, n - 1);
      PrefixEachLength(alphabet, Product(alphabet, n - 1));
    }
  }

  /** The k-th tuple itertools.product yields is the candidate with ordinal k. */
  lemma {:induction false} ProductAt(alphabet: string, n: nat, k: nat)
    requires k < Pow(|alphabet|, n)
    ensures |Product(alphabet, n)| == Pow(|alphabet|, n)
    ensures Product(alphabet, n)[k] == Candidate(alphabet, n, k)
  {
    ProductLength(alphabet, n);
    if n > 0 {
      var tails := Product(alphabet, n - 1);
      ProductLength(alphabet, n - 1);
      PrefixEachAt(alphabet, tails, k);
      ProductAt(alphabet, n - 1, k % |tails|);
    }
  }

  /** generate_candidates(lo, hi, alphabet) as a sequence. */
  function Enumerate(alphabet: string, lo: nat, hi: int): seq<string>
    decreases hi - lo
  {
    if lo > hi then [] else Product(alphabet, lo) + Enumerate(alphabet, lo + 1, hi)
  }

  /** The enumeration resumed at ordinal s of length n: what a search started there visits. */
  function Resumed(alphabet: string, n: nat, s: nat, hi: int): seq<string>
    requires s <= Pow(|alphabet|, n)
  {
    if n > hi then []
    else
      ProductLength(alphabet, n);
      Product(alphabet, n)[s..] + Enumerate(alphabet, n + 1, hi)
  }

  // ---------------------------------------------------------------------------
  // Count, position and the suffix after a skip
  // ---------------------------------------------------------------------------

  /** The enumeration yields exactly the sum of a^len candidates. */
  lemma {:induction false} EnumerateCount(alphabet: string, lo: nat, hi: int)
    ensures |Enumerate(alphabet, lo, hi)| == Count(|alphabet|, lo, hi)
    decreases hi - lo
  {
    if lo <= hi {
      ProductLength(alphabet, lo);
      EnumerateCount(alphabet, lo + 1, hi);
    }
  }

  /** The candidate with ordinal k at length n sits right after all shorter candidates. */
  lemma {:induction false} EnumerateAt(alphabet: string, lo: nat, hi: int, n: nat, k: nat)
    requires lo <= n <= hi && k < Pow(|alphabet|, n)
    ensures Count(|alphabet|, lo, n - 1) + k < |Enumerate(alphabet, lo, hi)|
    ensures Enumerate(alphabet, lo, hi)[Count(|alphabet|, lo, n - 1) + k] == Candidate(alphabet, n, k)
    decreases n - lo
  {
    ProductLength(alphabet, lo);
    EnumerateCount(alphabet, lo + 1, hi);
    if n == lo {
      ProductAt(alphabet, n, k);
    } else {
      EnumerateAt(alphabet, lo + 1, hi, n, k);
    }
  }

  /** Resuming at (n, s) within length n's own enumeration drops its first s candidates. */
  lemma ResumedAtStart(alphabet: string, n: nat, s: nat, hi: int)
    requires n <= hi && s <= Pow(|alphabet|, n)
    ensures s <= |Enumerate(alphabet, n, hi)|
    ensures Resumed(alphabet, n, s, hi) == Enumerate(alphabet, n, hi)[s..]
  {
    ProductLength(alphabet, n);
    var p := Product(alphabet, n);
    var rest := Enumerate(alphabet, n + 1, hi);
    assert Enumerate(alphabet, n, hi) == p + rest;
    assert Resumed(alphabet, n, s, hi) == p[s..] + rest;
    DropAppend(p, rest, s);
  }

  /** Resuming at (n, s) yields exactly the suffix of the full enumeration from that ordinal. */
  lemma ResumedIsSuffix(alphabet: string, lo: nat, hi: int, n: nat, s: nat)
    requires lo <= n <= hi && s <= Pow(|alphabet|, n)
    ensures Count(|alphabet|, lo, n - 1) + s <= |Enumerate(alphabet, lo, hi)|
    ensures Resumed(alphabet, n, s, hi) == Enumerate(alphabet, lo, hi)[Count(|alphabet|, lo, n - 1) + s..]
  {
    ResumedAtStart(alphabet, n, s, hi);
    EnumerateSuffix(alphabet, lo, hi, n, s);
  }

  /** Past the candidates of lengths lo .. n - 1, the enumeration from lo goes on as the one from n. */
  lemma {:induction false} EnumerateSuffix(alphabet: string, lo: nat, hi: int, n: nat, s: nat)
    requires lo <= n <= hi + 1 && s <= |Enumerate(alphabet, n, hi)|
    ensures Count(|alphabet|, lo, n - 1) + s <= |Enumerate(alphabet, lo, hi)|
    ensures Enumerate(alphabet, n, hi)[s..] == Enumerate(alphabet, lo, hi)[Count(|alphabet|, lo, n - 1) + s..]
    decreases n - lo
  {
    if n == lo {
      assert Count(|alphabet|, lo, n - 1) == 0;
    } else {
      EnumerateSuffix(alphabet, lo + 1, hi, n, s);
      ProductLength(alphabet, lo);
      var p := Product(alphabet, lo);
      var rest := Enumerate(alphabet, lo + 1, hi);
      assert Enumerate(alphabet, lo, hi) == p + rest;
      assert Count(|alphabet|, lo, n - 1) + s == |p| + (Count(|alphabet|, lo + 1, n - 1) + s);
      SuffixOfAppend(Enumerate(alphabet, lo, hi), p, rest, Enumerate(alphabet, n, hi)[s..],
                     Count(|alphabet|, lo + 1, n - 1) + s, Count(|alphabet|, lo, n - 1) + s);
    }
  }

  /** Without a checkpoint the resumed stream is the whole enumeration. */
  lemma ResumedFromStart(alphabet: string, lo: nat, hi: int)
    ensures Resumed(alphabet, lo, 0, hi) == Enumerate(alphabet, lo, hi)
  {
    if lo <= hi {
      ProductLength(alphabet, lo);
      assert Product(alphabet, lo)[0..] == Product(alphabet, lo);
    }
  }

  // ---------------------------------------------------------------------------
  // What the candidates are: shape, completeness, distinctness
  // ---------------------------------------------------------------------------

  lemma {:induction false} ProductMembers(alphabet: string, n: nat, i: nat)
    requires i < |Product(alphabet, n)|
    ensures |Product(alphabet, n)[i]| == n && OverAlphabet(alphabet, Product(alphabet, n)[i])
  {
    ProductLength(alphabet, n);
    ProductAt(alphabet, n, i);
  }

  /** Every candidate has a length in [lo, hi] and uses only alphabet characters. */
  lemma {:induction false} EnumerateMembers(alphabet: string, lo: nat, hi: int, i: nat)
    requires i < |Enumerate(alphabet, lo, hi)|
    ensures lo <= |Enumerate(alphabet, lo, hi)[i]| <= hi
    ensures OverAlphabet(alphabet, Enumerate(alphabet, lo, hi)[i])
    decreases hi - lo
  {
    var p := Product(alphabet, lo);
    if i < |p| {
      ProductMembers(alphabet, lo, i);
    } else {
      EnumerateMembers(alphabet, lo + 1, hi, i - |p|);
    }
  }

  /** Every string over the alphabet with a length in [lo, hi] is enumerated. */
  lemma EnumerateComplete(alphabet: string, lo: nat, hi: int, s: string)
    requires OverAlphabet(alphabet, s) && lo <= |s| <= hi
    ensures s in Enumerate(alphabet, lo, hi)
  {
    var k := Ordinal(alphabet, s);
    CandidateOfOrdinal(alphabet, s);
    EnumerateAt(alphabet, lo, hi, |s|, k);
  }

  lemma ProductDistinct(alphabet: string, n: nat)
    requires Distinct(alphabet)
    ensures Distinct(Product(alphabet, n))
  {
    ProductLength(alphabet, n);
    var p := Product(alphabet, n);
    forall i, j | 0 <= i < j < |p|
      ensures p[i] != p[j]
    {
      ProductAt(alphabet, n, i);
      ProductAt(alphabet, n, j);
      CandidateInjective(alphabet, n, i, j);
    }
  }

  /** With a duplicate-free alphabet no candidate is produced twice. */
  lemma {:induction false} EnumerateDistinct(alphabet: string, lo: nat, hi: int)
    requires Distinct(alphabet)
    ensures Distinct(Enumerate(alphabet, lo, hi))
    decreases hi - lo
  {
    if lo <= hi {
      var p := Product(alphabet, lo);
      var rest := Enumerate(alphabet, lo + 1, hi);
      ProductDistinct(alphabet, lo);
      EnumerateDistinct(alphabet, lo + 1, hi);
      forall i, j | 0 <= i < |p| && 0 <= j < |rest|
        ensures p[i] != rest[j]
      {
        ProductMembers(alphabet, lo, i);
        EnumerateMembers(alphabet, lo + 1, hi, j);
      }
      DistinctConcat(p, rest);
    }
  }

  /** Two duplicate-free sequences with no element in common concatenate to a duplicate-free one. */
  lemma DistinctConcat<T>(a: seq<T>, b: seq<T>)
    requires Distinct(a) && Distinct(b)
    requires forall i, j :: 0 <= i < |a| && 0 <= j < |b| ==> a[i] != b[j]
    ensures Distinct(a + b)
  {
    var e := a + b;
    forall i, j | 0 <= i < j < |e|
      ensures e[i] != e[j]
    {
      if i >= |a| {
        assert e[i] == b[i - |a|] && e[j] == b[j - |a|];
      } else if j >= |a| {
        assert e[i] == a[i] && e[j] == b[j - |a|];
      }
    }
  }

  /** The first s candidates of length n are never part of the stream resumed at (n, s). */
  lemma SkippedNeverResumed(alphabet: string, n: nat, s: nat, hi: int, k: nat)
    requires Distinct(alphabet)
    requires s <= Pow(|alphabet|, n) && k < s
    ensures Candidate(alphabet, n, k) !in Resumed(alphabet, n, s, hi)
  {
    var c := Candidate(alphabet, n, k);
    if n <= hi {
      ProductLength(alphabet, n);
      var tail := Product(alphabet, n)[s..];
      var rest := Enumerate(alphabet, n + 1, hi);
      forall i | 0 <= i < |tail| ensures tail[i] != c {
        ProductAt(alphabet, n, s + i);
        CandidateInjective(alphabet, n, k, s + i);
      }
      forall i | 0 <= i < |rest| ensures rest[i] != c {
        EnumerateMembers(alphabet, n + 1, hi, i);
      }
      assert Resumed(alphabet, n, s, hi) == tail + rest;
    }
  }

  // ---------------------------------------------------------------------------
  // Order
  // ---------------------------------------------------------------------------

  /** Lexicographic order of equal-length strings under the alphabet's order. */
  predicate LexLess(alphabet: string, s: string, t: string)
    requires OverAlphabet(alphabet, s) && OverAlphabet(alphabet, t) && |s| == |t|
  {
    s != [] &&
    (IndexOf(alphabet, s[0]) < IndexOf(alphabet, t[0]) ||
     (s[0] == t[0] && LexLess(alphabet, s[1..], t[1..])))
  }

  /** Shorter strings first, equal lengths in lexicographic order. */
  predicate ShortLexLess(alphabet: string, s: string, t: string)
    requires OverAlphabet(alphabet, s) && OverAlphabet(alphabet, t)
  {
    |s| < |t| || (|s| == |t| && LexLess(alphabet, s, t))
  }

  /** Ordinals compare as their (leading digit, remainder) pairs. */
  lemma CompareOrdinals(k1: nat, k2: nat, a: nat, p: nat)
    requires k1 < Times(a, p) && k2 < Times(a, p)
    ensures p > 0 && 0 <= k1 / p < a && 0 <= k2 / p < a && k1 % p < p && k2 % p < p
    ensures k1 < k2 <==> k1 / p < k2 / p || (k1 / p == k2 / p && k1 % p < k2 % p)
  {
    SplitDigit(k1, a, p);
    SplitDigit(k2, a, p);
    DigitOrder(k1 / p, k1 % p, k2 / p, k2 % p, p);
  }

  /** Counting up in ordinals is moving up in lexicographic order. */
  lemma {:induction false} CandidateOrder(alphabet: string, n: nat, k1: nat, k2: nat)
    requires Distinct(alphabet)
    requires k1 < Pow(|alphabet|, n) && k2 < Pow(|alphabet|, n)
    ensures k1 < k2 <==> LexLess(alphabet, Candidate(alphabet, n, k1), Candidate(alphabet, n, k2))
  {
    if n > 0 {
      var p := Pow(|alphabet|, n - 1);
      CompareOrdinals(k1, k2, |alphabet|, p);
      CandidateSplit(alphabet, n, k1);
      CandidateSplit(alphabet, n, k2);
      var d1, r1, d2, r2 := k1 / p, k1 % p, k2 / p, k2 % p;
      var s, t := Candidate(alphabet, n, k1), Candidate(alphabet, n, k2);
      IndexOfAt(alphabet, d1);
      IndexOfAt(alphabet, d2);
      CandidateOrder(alphabet, n - 1, r1, r2);
      LexLessStep(alphabet, s, t, d1, d2);
    }
  }

  /** One step of LexLess on strings whose first characters sit at d1 and d2 of the alphabet. */
  lemma LexLessStep(alphabet: string, s: string, t: string, d1: nat, d2: nat)
    requires Distinct(alphabet)
    requires OverAlphabet(alphabet, s) && OverAlphabet(alphabet, t) && 0 < |s| == |t|
    requires d1 < |alphabet| && d2 < |alphabet| && s[0] == alphabet[d1] && t[0] == alphabet[d2]
    ensures LexLess(alphabet, s, t) <==> d1 < d2 || (d1 == d2 && LexLess(alphabet, s[1..], t[1..]))
  {
    IndexOfAt(alphabet, d1);
    IndexOfAt(alphabet, d2);
  }

  lemma ProductSorted(alphabet: string, n: nat, i: nat, j: nat)
    requires Distinct(alphabet)
    requires i < j < |Product(alphabet, n)|
    ensures OverAlphabet(alphabet, Product(alphabet, n)[i]) && OverAlphabet(alphabet, Product(alphabet, n)[j])
    ensures |Product(alphabet, n)[i]| == |Product(alphabet, n)[j]|
    ensures LexLess(alphabet, Product(alphabet, n)[i], Product(alphabet, n)[j])
  {
    ProductLength(alphabet, n);
    ProductAt(alphabet, n, i);
    ProductAt(alphabet, n, j);
    CandidateOrder(alphabet, n, i, j);
  }

  /** The enumeration is strictly increasing: ascending length, then lexicographic. */
  lemma {:induction false} EnumerateSorted(alphabet: string, lo: nat, hi: int, i: nat, j: nat)
    requires Distinct(alphabet)
    requires i < j < |Enumerate(alphabet, lo, hi)|
    ensures OverAlphabet(alphabet, Enumerate(alphabet, lo, hi)[i])
    ensures OverAlphabet(alphabet, Enumerate(alphabet, lo, hi)[j])
    ensures ShortLexLess(alphabet, Enumerate(alphabet, lo, hi)[i], Enumerate(alphabet, lo, hi)[j])
    decreases hi - lo, 1
  {
    var p := Product(alphabet, lo);
    assert Enumerate(alphabet, lo, hi) == p + Enumerate(alphabet, lo + 1, hi);
    if j < |p| {
      SortedWithinLength(alphabet, lo, hi, i, j);
    } else if i < |p| {
      SortedAcrossLengths(alphabet, lo, hi, i, j);
    } else {
      SortedPastFirst(alphabet, lo, hi, i, j);
    }
  }

  /** Two candidates past the first length are ordered as they are in the rest. */
  lemma {:induction false} SortedPastFirst(alphabet: string, lo: nat, hi: int, i: nat, j: nat)
    requires Distinct(alphabet)
    requires |Product(alphabet, lo)| <= i < j < |Enumerate(alphabet, lo, hi)|
    ensures OverAlphabet(alphabet, Enumerate(alphabet, lo, hi)[i])
    ensures OverAlphabet(alphabet, Enumerate(alphabet, lo, hi)[j])
    ensures ShortLexLess(alphabet, Enumerate(alphabet, lo, hi)[i], Enumerate(alphabet, lo, hi)[j])
    decreases hi - lo, 0
  {
    var p := Product(alphabet, lo);
    var rest := Enumerate(alphabet, lo + 1, hi);
    assert Enumerate(alphabet, lo, hi) == p + rest;
    EnumerateSorted(alphabet, lo + 1, hi, i - |p|, j - |p|);
    assert Enumerate(alphabet, lo, hi)[i] == rest[i - |p|];
    assert Enumerate(alphabet, lo, hi)[j] == rest[j - |p|];
  }

  /** Two candidates of the first length: the product's own order. */
  lemma SortedWithinLength(alphabet: string, lo: nat, hi: int, i: nat, j: nat)
    requires Distinct(alphabet)
    requires i < j < |Product(alphabet, lo)| && lo <= hi
    ensures OverAlphabet(alphabet, Enumerate(alphabet, lo, hi)[i])
    ensures OverAlphabet(alphabet, Enumerate(alphabet, lo, hi)[j])
    ensures ShortLexLess(alphabet, Enumerate(alphabet, lo, hi)[i], Enumerate(alphabet, lo, hi)[j])
  {
    var p := Product(alphabet, lo);
    assert Enumerate(alphabet, lo, hi) == p + Enumerate(alphabet, lo + 1, hi);
    ProductSorted(alphabet, lo, i, j);
    ShortLexOfLex(alphabet, p[i], p[j]);
  }

  /** A candidate of the first length comes before every longer one. */
  lemma SortedAcrossLengths(alphabet: string, lo: nat, hi: int, i: nat, j: nat)
    requires i < |Product(alphabet, lo)| <= j < |Enumerate(alphabet, lo, hi)|
    ensures OverAlphabet(alphabet, Enumerate(alphabet, lo, hi)[i])
    ensures OverAlphabet(alphabet, Enumerate(alphabet, lo, hi)[j])
    ensures ShortLexLess(alphabet, Enumerate(alphabet, lo, hi)[i], Enumerate(alphabet, lo, hi)[j])
  {
    var p := Product(alphabet, lo);
    var rest := Enumerate(alphabet, lo + 1, hi);
    assert Enumerate(alphabet, lo, hi) == p + rest;
    ProductMembers(alphabet, lo, i);
    EnumerateMembers(alphabet, lo + 1, hi, j - |p|);
    ShortLexOfLength(alphabet, p[i], rest[j - |p|]);
  }

  /** Equal lengths: short-lex order is lexicographic order. */
  lemma ShortLexOfLex(alphabet: string, s: string, t: string)
    requires OverAlphabet(alphabet, s) && OverAlphabet(alphabet, t) && |s| == |t|
    requires LexLess(alphabet, s, t)
    ensures ShortLexLess(alphabet, s, t)
  {
  }

  /** A shorter string comes first in short-lex order. */
  lemma ShortLexOfLength(alphabet: string, s: string, t: string)
    requires OverAlphabet(alphabet, s) && OverAlphabet(alphabet, t) && |s| < |t|
    ensures ShortLexLess(alphabet, s, t)
  {
  }
}
