/**
 * The batched search loop of main: candidates of each length are collected into
 * batches of at most `chunk`, each batch goes through an order-preserving map of
 * the worker over its candidates, the results are scanned in order up to the
 * first success, and a checkpoint {file, length, index} is saved after every
 * dispatched batch. The search stops at the first success.
 *
 * The process pool is modelled by a sequential map (only its order preservation
 * matters here). The dispatched batches are recorded in a ghost log so that the
 * contracts can say exactly what was dispatched, scanned and persisted.
 */
module Search {
  import opened Wrappers
  import opened Enumeration
  import opened Oracle
  import opened Checkpoint
  import opened Sequences

  /** The (candidate, info) pair main keeps in `found`. */
  datatype Found = Found(candidate: string, info: string)

  // ---------------------------------------------------------------------------
  // Specification of what a run visits
  // ---------------------------------------------------------------------------

  /** How many tuples `for _ in range(index): next(combos, None)` consumes from an iterator of count tuples. */
  function Skipped(index: int, count: nat): (s: nat)
    ensures s <= count
    ensures 0 <= index <= count ==> s == index
    ensures index <= 0 ==> s == 0
    ensures count < index ==> s == count
  {
    if index <= 0 then 0 else if count < index then count else index
  }

  /** The candidates a search resumed at (startLen, startIndex) visits, in order. */
  function Schedule(alphabet: string, startLen: int, startIndex: int, maxLen: int): seq<string>
    requires 0 <= startLen || maxLen < startLen
  {
    if maxLen < startLen then []
    else Resumed(alphabet, startLen, Skipped(startIndex, Pow(|alphabet|, startLen)), maxLen)
  }

  /**
   * Resuming at (startLen, startIndex) inside [minLen, maxLen] with
   * 0 <= startIndex <= a^startLen visits exactly the suffix of the full
   * enumeration from that candidate.
   */
  lemma ScheduleIsSuffix(alphabet: string, minLen: nat, maxLen: int, startLen: nat, startIndex: nat)
    requires minLen <= startLen <= maxLen && startIndex <= Pow(|alphabet|, startLen)
    ensures Count(|alphabet|, minLen, startLen - 1) + startIndex <= |Enumerate(alphabet, minLen, maxLen)|
    ensures Schedule(alphabet, startLen, startIndex, maxLen)
         == Enumerate(alphabet, minLen, maxLen)[Count(|alphabet|, minLen, startLen - 1) + startIndex..]
  {
    ResumedIsSuffix(alphabet, minLen, maxLen, startLen, startIndex);
  }

  /** Without a checkpoint a search visits every candidate generate_candidates yields. */
  lemma FreshScheduleIsEnumeration(alphabet: string, minLen: nat, maxLen: int)
    ensures Schedule(alphabet, minLen, 0, maxLen) == Enumerate(alphabet, minLen, maxLen)
  {
    ResumedFromStart(alphabet, minLen, maxLen);
  }

  // ---------------------------------------------------------------------------
  // One batch: order-preserving map, in-order scan, checkpoint
  // ---------------------------------------------------------------------------

  /** pool.map(worker_task, batch): one result per candidate, in input order. */
  function MapWorkers(gpg: Gpg, batch: seq<string>): (results: seq<WorkerResult>)
    ensures |results| == |batch|
    ensures forall i :: 0 <= i < |batch| ==> results[i] == WorkerTask(gpg, batch[i])
  {
    if batch == [] then [] else [WorkerTask(gpg, batch[0])] + MapWorkers(gpg, batch[1..])
  }

  /**
   * `scanned` results of `cands` were looked at, in order, up to and including
   * the first accepted one; `hit` is that one, or None when none is accepted.
   */
  ghost predicate FirstHit(gpg: Gpg, cands: seq<string>, scanned: nat, hit: Option<Found>)
  {
    scanned <= |cands| &&
    (hit.None? ==> scanned == |cands| && forall i :: 0 <= i < |cands| ==> !Accepts(gpg, cands[i])) &&
    (hit.Some? ==>
      0 < scanned && Accepts(gpg, cands[scanned - 1]) &&
      hit.value == Found(cands[scanned - 1], Classify(Run(gpg, cands[scanned - 1])).info) &&
      forall i :: 0 <= i < scanned - 1 ==> !Accepts(gpg, cands[i]))
  }

  /** The scan of one batch's results: count each, stop after the first success. */
  method Scan(results: seq<WorkerResult>) returns (scanned: nat, hit: Option<Found>)
    ensures scanned <= |results|
    ensures hit.None? ==> scanned == |results| && forall i :: 0 <= i < |results| ==> !results[i].ok
    ensures hit.Some? ==>
      0 < scanned && results[scanned - 1].ok &&
      hit.value == Found(results[scanned - 1].candidate, results[scanned - 1].info) &&
      forall i :: 0 <= i < scanned - 1 ==> !results[i].ok
  {
    scanned := 0;
    hit := None;
    while scanned < |results|
      invariant scanned <= |results|
      invariant forall i :: 0 <= i < scanned ==> !results[i].ok
    {
      var r := results[scanned];
      scanned := scanned + 1;
      if r.ok {
        hit := Some(Found(r.candidate, r.info));
        break;
      }
    }
  }

  /** Dispatch one batch, scan its results, and checkpoint the advanced index. */
  method Dispatch(store: Storage, target: string, length: nat, idx: int, batch: seq<string>,
                  gpg: Gpg)
    returns (scanned: nat, hit: Option<Found>)
    modifies store
    ensures FirstHit(gpg, batch, scanned, hit)
    ensures store.saves == old(store.saves) + [Record(target, length, idx + scanned)]
    ensures store.checkpoint == Some(Written(Encode(Record(target, length, idx + scanned))))
    ensures store.found == old(store.found)
  {
    var results := MapWorkers(gpg, batch);
    scanned, hit := Scan(results);
    store.Save(Record(target, length, idx + scanned));
  }

  // ---------------------------------------------------------------------------
  // Batches and the checkpoints of one length
  // ---------------------------------------------------------------------------

  function Last<T>(s: seq<T>): T
    requires s != []
  {
    s[|s| - 1]
  }

  function Min(a: int, b: int): int
  {
    if a <= b then a else b
  }

  /** The concatenation of a sequence of batches. */
  function Flatten<T>(batches: seq<seq<T>>): seq<T>
  {
    if batches == [] then [] else batches[0] + Flatten(batches[1..])
  }

  /** A run of tuples cut the way the loop cuts it: consecutive batches of n. */
  function Chunks<T>(s: seq<T>, n: nat): seq<seq<T>>
    requires 0 < n
    decreases |s|
  {
    if s == [] then []
    else if |s| <= n then [s]
    else [s[..n]] + Chunks(s[n..], n)
  }

  /** A run is cut into no batches exactly when it is empty. */
  lemma ChunksEmpty<T>(s: seq<T>, n: nat)
    requires 0 < n
    ensures Chunks(s, n) == [] <==> s == []
  {
  }

  /**
   * The batches hold the run in order, each of 1..n tuples, and only the last
   * may be shorter than n.
   */
  lemma {:induction false} ChunksCover<T>(s: seq<T>, n: nat)
    requires 0 < n
    ensures Flatten(Chunks(s, n)) == s
    ensures forall j :: 0 <= j < |Chunks(s, n)| ==> 1 <= |Chunks(s, n)[j]| <= n
    ensures forall j :: 0 <= j < |Chunks(s, n)| - 1 ==> |Chunks(s, n)[j]| == n
    decreases |s|
  {
    if |s| > n {
      var rest := Chunks(s[n..], n);
      ChunksCover(s[n..], n);
      var r := Chunks(s, n);
      assert r == [s[..n]] + rest;
      assert r[1..] == rest;
      assert s == s[..n] + s[n..];
      forall j | 1 <= j < |r|
        ensures r[j] == rest[j - 1]
      {
      }
    }
  }

  /** After m full batches, one more batch of 1..n tuples is exactly one more chunk. */
  lemma {:induction false} ChunksSnoc<T>(s: seq<T>, t: seq<T>, n: nat, m: nat)
    requires 0 < n && |s| == Times(m, n) && 1 <= |t| <= n
    ensures |Chunks(s, n)| == m
    ensures Chunks(s + t, n) == Chunks(s, n) + [t]
    decreases m
  {
    if m == 0 {
      assert s + t == t;
    } else {
      assert (s + t)[..n] == s[..n];
      assert (s + t)[n..] == s[n..] + t;
      ChunksSnoc(s[n..], t, n, m - 1);
      assert Chunks(s, n) == [s[..n]] + Chunks(s[n..], n);
    }
  }

  lemma {:induction false} TimesMonotone(a: nat, b: nat, x: nat)
    requires a <= b
    ensures Times(a, x) <= Times(b, x)
    ensures a < b && 0 < x ==> Times(a, x) < Times(b, x)
    decreases b
  {
    if a < b {
      TimesMonotone(a, b - 1, x);
    }
  }

  /**
   * The checkpoints one length saves after n batches of `chunk`: the j-th
   * (from 1) records index resume + min(tested, j * chunk), since every batch
   * but the last is scanned in full.
   */
  ghost function LengthSaves(target: string, length: nat, resume: int, chunk: nat, tested: nat, n: nat): seq<Record>
  {
    if n == 0 then []
    else LengthSaves(target, length, resume, chunk, tested, n - 1)
         + [Record(target, length, resume + Min(tested, Times(n, chunk)))]
  }

  /** Scanning more of a later batch does not change what earlier batches saved. */
  lemma {:induction false} LengthSavesStable(target: string, length: nat, resume: int, chunk: nat,
                                             tested: nat, tested': nat, n: nat)
    requires Times(n, chunk) <= tested <= tested'
    ensures LengthSaves(target, length, resume, chunk, tested, n) == LengthSaves(target, length, resume, chunk, tested', n)
    decreases n
  {
    if n > 0 {
      LengthSavesStable(target, length, resume, chunk, tested, tested', n - 1);
    }
  }

  lemma {:induction false} LengthSavesAt(target: string, length: nat, resume: int, chunk: nat,
                                         tested: nat, n: nat, j: nat)
    requires j < n
    ensures |LengthSaves(target, length, resume, chunk, tested, n)| == n
    ensures LengthSaves(target, length, resume, chunk, tested, n)[j]
         == Record(target, length, resume + Min(tested, Times(j + 1, chunk)))
    decreases n
  {
    if j < n - 1 {
      LengthSavesAt(target, length, resume, chunk, tested, n - 1, j);
    } else if n > 1 {
      LengthSavesAt(target, length, resume, chunk, tested, n - 1, 0);
    }
  }

  /**
   * The checkpoints of one length, when the scanning stopped inside the last of
   * n batches: all for this target and length, with indices strictly increasing
   * from above resume up to resume + tested.
   */
  lemma LengthSavesIncrease(target: string, length: nat, resume: int, chunk: nat, tested: nat, n: nat)
    requires 0 < chunk
    requires 0 < n ==> Times(n - 1, chunk) < tested <= Times(n, chunk)
    ensures var saves := LengthSaves(target, length, resume, chunk, tested, n);
      && |saves| == n
      && (forall i :: 0 <= i < n ==>
            saves[i].file == target && saves[i].length == length && resume < saves[i].index <= resume + tested)
      && (forall i, j :: 0 <= i < j < n ==> saves[i].index < saves[j].index)
      && (0 < n ==> saves[n - 1].index == resume + tested)
  {
    var saves := LengthSaves(target, length, resume, chunk, tested, n);
    if n == 0 {
      return;
    }
    LengthSavesAt(target, length, resume, chunk, tested, n, 0);
    forall i | 0 <= i < n
      ensures saves[i].file == target && saves[i].length == length && resume < saves[i].index <= resume + tested
    {
      LengthSavesAt(target, length, resume, chunk, tested, n, i);
      TimesMonotone(0, i + 1, chunk);
    }
    forall i, j | 0 <= i < j < n
      ensures saves[i].index < saves[j].index
    {
      LengthSavesAt(target, length, resume, chunk, tested, n, i);
      LengthSavesAt(target, length, resume, chunk, tested, n, j);
      TimesMonotone(i + 1, n - 1, chunk);
      TimesMonotone(i + 1, j + 1, chunk);
    }
    LengthSavesAt(target, length, resume, chunk, tested, n, n - 1);
  }

  /** What the loop knows of a batch it dispatched in the middle of combos[k0..]. */
  lemma FirstHitAfter(gpg: Gpg, pre: seq<string>, mid: seq<string>, rest: seq<string>,
                      t: nat, hit: Option<Found>)
    requires forall i :: 0 <= i < |pre| ==> !Accepts(gpg, pre[i])
    requires FirstHit(gpg, mid, t, hit)
    ensures hit.Some? ==> FirstHit(gpg, pre + mid + rest, |pre| + t, hit)
    ensures hit.None? ==> FirstHit(gpg, pre + mid, |pre| + t, hit)
  {
    var whole := pre + mid + rest;
    if hit.Some? {
      assert whole[|pre| + t - 1] == mid[t - 1];
      forall i | 0 <= i < |pre| + t - 1
        ensures !Accepts(gpg, whole[i])
      {
        if i >= |pre| {
          assert whole[i] == mid[i - |pre|];
        }
      }
    } else {
      forall i | 0 <= i < |pre + mid|
        ensures !Accepts(gpg, (pre + mid)[i])
      {
        if i >= |pre| {
          assert (pre + mid)[i] == mid[i - |pre|];
        }
      }
    }
  }

  // ---------------------------------------------------------------------------
  // One length
  // ---------------------------------------------------------------------------

  /** The fast-skip: `for _ in range(resume): next(combos, None)` leaves the iterator at position k. */
  method SkipTo(combos: seq<string>, resume: int) returns (k: nat)
    ensures k == Skipped(resume, |combos|)
  {
    k := 0;
    var n := 0;
    while n < resume
      invariant 0 <= n <= (if resume < 0 then 0 else resume)
      invariant k == Skipped(n, |combos|)
    {
      if k < |combos| {
        k := k + 1;
      }
      n := n + 1;
    }
  }

  /**
   * The state of SearchLength's loop at position k of combos, having skipped to
   * k0, before the full-batch test: `batch` holds the tuples since the last
   * dispatch (at most a chunk), `batches` are those dispatched, cut into chunks,
   * and all `tested` of those were rejected.
   */
  ghost predicate Pending(gpg: Gpg, combos: seq<string>, chunk: nat, k0: nat, k: nat,
                          batch: seq<string>, batches: seq<seq<string>>, tested: nat)
  {
    && 0 < chunk && k0 + tested <= k <= |combos| && k - (k0 + tested) <= chunk
    && batch == combos[k0 + tested .. k]
    && tested == Times(|batches|, chunk)
    && batches == Chunks(combos[k0 .. k0 + tested], chunk)
    && forall i :: k0 <= i < k0 + tested ==> !Accepts(gpg, combos[i])
  }

  /** The same state between iterations, when the batch is not full. */
  ghost predicate Progress(gpg: Gpg, combos: seq<string>, chunk: nat, k0: nat, k: nat,
                           batch: seq<string>, batches: seq<seq<string>>, tested: nat)
  {
    Pending(gpg, combos, chunk, k0, k, batch, batches, tested) && |batch| < chunk
  }

  /**
   * What the search of one length establishes, from the skip point k0: the
   * `used` tuples after it were dispatched, cut into `batches` of `chunk`; the
   * outcome is the first success in combos[k0..] after `tested` of them; every
   * tuple was dispatched when there is none; and a success lies in the last
   * batch, beyond every full batch before it.
   */
  ghost predicate LengthOutcome(gpg: Gpg, combos: seq<string>, chunk: nat, k0: nat,
                          found: Option<Found>, tested: nat, batches: seq<seq<string>>, used: nat)
  {
    && 0 < chunk && k0 + used <= |combos|
    && batches == Chunks(combos[k0 .. k0 + used], chunk)
    && FirstHit(gpg, combos[k0..], tested, found)
    && (found.None? ==> k0 + used == |combos|)
    && (found.Some? ==> tested <= used < tested + chunk)
    && (batches != [] ==> Times(|batches| - 1, chunk) < tested <= Times(|batches|, chunk))
  }

  lemma ProgressStart(gpg: Gpg, combos: seq<string>, chunk: nat, k0: nat)
    requires 0 < chunk && k0 <= |combos|
    ensures Progress(gpg, combos, chunk, k0, k0, [], [], 0)
  {
    assert combos[k0 .. k0] == [];
  }

  /** Appending the next tuple to the batch. */
  lemma Push(gpg: Gpg, combos: seq<string>, chunk: nat, k0: nat, k: nat,
             batch: seq<string>, batches: seq<seq<string>>, tested: nat)
    requires Progress(gpg, combos, chunk, k0, k, batch, batches, tested) && k < |combos|
    ensures Pending(gpg, combos, chunk, k0, k + 1, batch + [combos[k]], batches, tested)
    ensures |batch| + 1 < chunk ==> Progress(gpg, combos, chunk, k0, k + 1, batch + [combos[k]], batches, tested)
  {
    assert combos[k0 + tested .. k + 1] == batch + [combos[k]];
  }

  /** The end of a length's tuples with nothing left in the batch. */
  lemma ProgressEnd(gpg: Gpg, combos: seq<string>, chunk: nat, k0: nat,
                    batches: seq<seq<string>>, tested: nat)
    requires Progress(gpg, combos, chunk, k0, |combos|, [], batches, tested)
    ensures LengthOutcome(gpg, combos, chunk, k0, None, tested, batches, |combos| - k0)
  {
    AllRejected(gpg, combos, k0);
    if batches != [] {
      assert Times(|batches|, chunk) == chunk + Times(|batches| - 1, chunk);
    }
  }

  /** The bookkeeping of one dispatched batch combos[k0 + tested .. k]. */
  lemma BatchDone(gpg: Gpg, combos: seq<string>, chunk: nat, k0: nat, k: nat,
                  batch: seq<string>, batches: seq<seq<string>>, tested: nat, scanned: nat, hit: Option<Found>)
    requires Pending(gpg, combos, chunk, k0, k, batch, batches, tested) && batch != []
    requires FirstHit(gpg, batch, scanned, hit)
    ensures hit.None? && |batch| == chunk ==>
      Progress(gpg, combos, chunk, k0, k, [], batches + [batch], tested + scanned)
    ensures hit.None? && k == |combos| ==>
      LengthOutcome(gpg, combos, chunk, k0, None, tested + scanned, batches + [batch], k - k0)
    ensures hit.Some? ==> LengthOutcome(gpg, combos, chunk, k0, hit, tested + scanned, batches + [batch], k - k0)
  {
    if hit.Some? {
      BatchHit(gpg, combos, chunk, k0, k, batch, batches, tested, scanned, hit);
    } else {
      if |batch| == chunk {
        BatchFull(gpg, combos, chunk, k0, k, batch, batches, tested, scanned);
      }
      if k == |combos| {
        BatchLast(gpg, combos, chunk, k0, k, batch, batches, tested, scanned);
      }
    }
  }

  /** The dispatched batch seen as the next chunk of combos[k0..]. */
  lemma BatchJoin(gpg: Gpg, combos: seq<string>, chunk: nat, k0: nat, k: nat,
                  batch: seq<string>, batches: seq<seq<string>>, tested: nat)
    requires Pending(gpg, combos, chunk, k0, k, batch, batches, tested) && batch != []
    ensures combos[k0 .. k] == combos[k0 .. k0 + tested] + batch
    ensures Chunks(combos[k0 .. k], chunk) == batches + [batch]
    ensures Times(|batches + [batch]|, chunk) == chunk + tested
    ensures forall i {:trigger Accepts(gpg, combos[k0 .. k0 + tested][i])} :: 0 <= i < tested ==> !Accepts(gpg, combos[k0 .. k0 + tested][i])
  {
    var pre := combos[k0 .. k0 + tested];
    assert pre + batch == combos[k0 .. k];
    ChunksSnoc(pre, batch, chunk, |batches|);
    assert |batches + [batch]| - 1 == |batches|;
    forall i | 0 <= i < tested
      ensures !Accepts(gpg, pre[i])
    {
      assert pre[i] == combos[k0 + i];
    }
  }

  /** A full batch with no success: the loop goes on with an empty batch. */
  lemma BatchFull(gpg: Gpg, combos: seq<string>, chunk: nat, k0: nat, k: nat,
                  batch: seq<string>, batches: seq<seq<string>>, tested: nat, scanned: nat)
    requires Pending(gpg, combos, chunk, k0, k, batch, batches, tested) && batch != []
    requires FirstHit(gpg, batch, scanned, None) && |batch| == chunk
    ensures Progress(gpg, combos, chunk, k0, k, [], batches + [batch], tested + scanned)
  {
    BatchJoin(gpg, combos, chunk, k0, k, batch, batches, tested);
    forall i | k0 <= i < k
      ensures !Accepts(gpg, combos[i])
    {
      assert combos[i] == combos[k0 .. k][i - k0];
    }
    assert combos[k .. k] == [];
  }

  /** The batch that ends combos, with no success: the length is done. */
  lemma BatchLast(gpg: Gpg, combos: seq<string>, chunk: nat, k0: nat, k: nat,
                  batch: seq<string>, batches: seq<seq<string>>, tested: nat, scanned: nat)
    requires Pending(gpg, combos, chunk, k0, k, batch, batches, tested) && batch != []
    requires FirstHit(gpg, batch, scanned, None) && k == |combos|
    ensures LengthOutcome(gpg, combos, chunk, k0, None, tested + scanned, batches + [batch], k - k0)
  {
    BatchJoin(gpg, combos, chunk, k0, k, batch, batches, tested);
    var pre := combos[k0 .. k0 + tested];
    FirstHitAfter(gpg, pre, batch, [], scanned, None);
    assert combos[k0..] == combos[k0 .. k];
  }

  /** A batch with a success: the length's search ends with it. */
  lemma BatchHit(gpg: Gpg, combos: seq<string>, chunk: nat, k0: nat, k: nat,
                 batch: seq<string>, batches: seq<seq<string>>, tested: nat, scanned: nat, hit: Option<Found>)
    requires Pending(gpg, combos, chunk, k0, k, batch, batches, tested) && batch != []
    requires FirstHit(gpg, batch, scanned, hit) && hit.Some?
    ensures LengthOutcome(gpg, combos, chunk, k0, hit, tested + scanned, batches + [batch], k - k0)
  {
    BatchJoin(gpg, combos, chunk, k0, k, batch, batches, tested);
    var pre := combos[k0 .. k0 + tested];
    FirstHitAfter(gpg, pre, batch, combos[k..], scanned, hit);
    SplitAt(combos, k0, k);
  }

  /** When every tuple from k0 on was rejected, scanning combos[k0..] finds nothing. */
  lemma {:induction false} AllRejected(gpg: Gpg, combos: seq<string>, k0: nat)
    requires k0 <= |combos|
    requires forall i :: k0 <= i < |combos| ==> !Accepts(gpg, combos[i])
    ensures FirstHit(gpg, combos[k0..], |combos| - k0, None)
  {
    forall i | 0 <= i < |combos| - k0
      ensures !Accepts(gpg, combos[k0..][i])
    {
      assert combos[k0..][i] == combos[k0 + i];
    }
  }

  /**
   * Dispatch the batch combos[k0 + tested .. k] of a length, the one after
   * `batches` (see Dispatch): its checkpoint extends the length's saves, and
   * the loop state moves past it, or the length's search ends with it.
   */
  method Flush(store: Storage, target: string, length: nat, resume: int, chunk: nat, idx: int,
               combos: seq<string>, batch: seq<string>, gpg: Gpg,
               ghost k0: nat, ghost k: nat, ghost batches: seq<seq<string>>, ghost tested: nat,
               ghost before: seq<Record>)
    returns (scanned: nat, hit: Option<Found>)
    requires Pending(gpg, combos, chunk, k0, k, batch, batches, tested) && batch != []
    requires idx == resume + tested
    requires store.saves == before + LengthSaves(target, length, resume, chunk, tested, |batches|)
    modifies store
    ensures hit.None? && |batch| == chunk ==>
      Progress(gpg, combos, chunk, k0, k, [], batches + [batch], tested + scanned)
    ensures hit.None? && k == |combos| ==>
      LengthOutcome(gpg, combos, chunk, k0, None, tested + scanned, batches + [batch], k - k0)
    ensures hit.Some? ==> LengthOutcome(gpg, combos, chunk, k0, hit, tested + scanned, batches + [batch], k - k0)
    ensures store.saves == before + LengthSaves(target, length, resume, chunk, tested + scanned, |batches + [batch]|)
    ensures store.checkpoint == Some(Written(Encode(Last(store.saves))))
    ensures store.found == old(store.found)
  {
    scanned, hit := Dispatch(store, target, length, idx, batch, gpg);
    LengthSavesStable(target, length, resume, chunk, tested, tested + scanned, |batches|);
    BatchDone(gpg, combos, chunk, k0, k, batch, batches, tested, scanned, hit);
  }

  /**
   * One turn of the per-length loop: append the tuple at position k to the
   * batch and, when the batch is full, dispatch it.
   */
  method Step(store: Storage, target: string, length: nat, resume: int, chunk: nat,
              combos: seq<string>, gpg: Gpg, ghost k0: nat, ghost before: seq<Record>,
              k: nat, batch: seq<string>, ghost batches: seq<seq<string>>, tested: nat, idx: int)
    returns (k': nat, batch': seq<string>, ghost batches': seq<seq<string>>, tested': nat, idx': int,
             hit: Option<Found>)
    requires Progress(gpg, combos, chunk, k0, k, batch, batches, tested) && k < |combos|
    requires idx == resume + tested
    requires store.saves == before + LengthSaves(target, length, resume, chunk, tested, |batches|)
    requires batches != [] ==> store.checkpoint == Some(Written(Encode(Last(store.saves))))
    modifies store
    ensures k' == k + 1 && idx' == resume + tested' && |batches| <= |batches'|
    ensures hit.None? ==> Progress(gpg, combos, chunk, k0, k', batch', batches', tested')
    ensures hit.Some? ==> LengthOutcome(gpg, combos, chunk, k0, hit, tested', batches', k' - k0)
    ensures store.saves == before + LengthSaves(target, length, resume, chunk, tested', |batches'|)
    ensures batches' != [] ==> store.checkpoint == Some(Written(Encode(Last(store.saves))))
    ensures batches' == batches ==> store.checkpoint == old(store.checkpoint)
    ensures store.found == old(store.found)
  {
    Push(gpg, combos, chunk, k0, k, batch, batches, tested);
    k' := k + 1;
    batch' := batch + [combos[k]];
    batches', tested', idx', hit := batches, tested, idx, None;
    if |batch'| >= chunk {
      var scanned;
      scanned, hit := Flush(store, target, length, resume, chunk, idx, combos, batch', gpg,
                            k0, k', batches, tested, before);
      batches' := batches + [batch'];
      tested' := tested + scanned;
      idx' := idx + scanned;
      batch' := [];
    }
  }

  /** After the last tuple: dispatch the leftover batch, if any. */
  method Finish(store: Storage, target: string, length: nat, resume: int, chunk: nat,
                combos: seq<string>, gpg: Gpg, ghost k0: nat, ghost before: seq<Record>,
                k: nat, batch: seq<string>, ghost batches: seq<seq<string>>, tested: nat, idx: int)
    returns (found: Option<Found>, tested': nat, ghost batches': seq<seq<string>>)
    requires Progress(gpg, combos, chunk, k0, k, batch, batches, tested) && k == |combos|
    requires idx == resume + tested
    requires store.saves == before + LengthSaves(target, length, resume, chunk, tested, |batches|)
    requires batches != [] ==> store.checkpoint == Some(Written(Encode(Last(store.saves))))
    modifies store
    ensures LengthOutcome(gpg, combos, chunk, k0, found, tested', batches', k - k0)
    ensures store.saves == before + LengthSaves(target, length, resume, chunk, tested', |batches'|)
    ensures batches' != [] ==> store.checkpoint == Some(Written(Encode(Last(store.saves))))
    ensures batches' == batches ==> store.checkpoint == old(store.checkpoint)
    ensures store.found == old(store.found)
  {
    if batch != [] {
      var scanned;
      scanned, found := Flush(store, target, length, resume, chunk, idx, combos, batch, gpg,
                              k0, k, batches, tested, before);
      batches' := batches + [batch];
      tested' := tested + scanned;
    } else {
      ProgressEnd(gpg, combos, chunk, k0, batches, tested);
      found, tested', batches' := None, tested, batches;
    }
  }

  /**
   * The per-length loop from position k0 of the length's tuples `combos`, where
   * the checkpoint index is resume: batch the tuples and dispatch every full
   * batch, stopping at the first success. It ends at the success, or at the
   * end of the tuples with the leftover batch not yet dispatched.
   */
  method BatchLoop(store: Storage, target: string, length: nat, combos: seq<string>, chunk: nat,
                   resume: int, k0: nat, gpg: Gpg)
    returns (found: Option<Found>, tested: nat, ghost batches: seq<seq<string>>, k: nat,
             batch: seq<string>, idx: int)
    requires 0 < chunk && k0 <= |combos|
    modifies store
    ensures k0 <= k <= |combos|
    ensures found.None? ==> k == |combos| && Progress(gpg, combos, chunk, k0, k, batch, batches, tested)
    ensures found.Some? ==> LengthOutcome(gpg, combos, chunk, k0, found, tested, batches, k - k0)
    ensures idx == resume + tested
    ensures store.saves == old(store.saves) + LengthSaves(target, length, resume, chunk, tested, |batches|)
    ensures batches != [] ==> store.checkpoint == Some(Written(Encode(Last(store.saves))))
    ensures batches == [] ==> store.checkpoint == old(store.checkpoint)
    ensures store.found == old(store.found)
  {
    k := k0;
    idx := resume;
    ghost var before := store.saves;
    found := None;
    tested := 0;
    batches := [];
    batch := [];
    ProgressStart(gpg, combos, chunk, k0);
    while k < |combos|
      invariant k0 <= k <= |combos| && found.None?
      invariant Progress(gpg, combos, chunk, k0, k, batch, batches, tested)
      invariant idx == resume + tested
      invariant store.saves == before + LengthSaves(target, length, resume, chunk, tested, |batches|)
      invariant batches != [] ==> store.checkpoint == Some(Written(Encode(Last(store.saves))))
      invariant batches == [] ==> store.checkpoint == old(store.checkpoint)
      invariant store.found == old(store.found)
    {
      k, batch, batches, tested, idx, found := Step(store, target, length, resume, chunk, combos, gpg, k0, before,
                                                    k, batch, batches, tested, idx);
      if found.Some? {
        return;
      }
    }
  }

  /**
   * The body of `for length in range(start_len, max + 1)` for one length, over
   * its tuples `combos`: skip `resume` of them (start_index on the resumed
   * length, 0 on the others), then run the batch loop on the rest and
   * dispatch the leftover batch; the checkpoint index counts from `resume`.
   */
  method SearchLength(store: Storage, target: string, length: nat, combos: seq<string>, chunk: nat,
                      resume: int, gpg: Gpg)
    returns (found: Option<Found>, tested: nat, ghost batches: seq<seq<string>>, ghost used: nat)
    requires 0 < chunk
    modifies store
    ensures LengthOutcome(gpg, combos, chunk, Skipped(resume, |combos|), found, tested, batches, used)
    ensures store.saves == old(store.saves) + LengthSaves(target, length, resume, chunk, tested, |batches|)
    ensures store.checkpoint == if batches == [] then old(store.checkpoint)
                                else Some(Written(Encode(Last(store.saves))))
    ensures store.found == old(store.found)
  {
    var k0 := 0;
    var start := 0;
    if resume != 0 {
      k0 := SkipTo(combos, resume);
      start := resume;
    }
    ghost var before := store.saves;
    var k, batch, idx;
    found, tested, batches, k, batch, idx := BatchLoop(store, target, length, combos, chunk, start, k0, gpg);
    used := k - k0;
    if found.None? {
      found, tested, batches := Finish(store, target, length, start, chunk, combos, gpg, k0, before,
                                       k, batch, batches, tested, idx);
    }
  }

  // ---------------------------------------------------------------------------
  // The search over all lengths
  // ---------------------------------------------------------------------------

  /** Checkpoints that move strictly forward: to a longer length, or further within one. */
  ghost predicate Forward(saved: seq<Record>)
  {
    forall i, j {:trigger Before(saved[i], saved[j])} :: 0 <= i < j < |saved| ==> Before(saved[i], saved[j])
  }

  /** Checkpoint a lies before checkpoint b: a shorter length, or the same length and a smaller index. */
  predicate Before(a: Record, b: Record)
  {
    a.length < b.length || (a.length == b.length && a.index < b.index)
  }

  lemma ForwardAppend(a: seq<Record>, b: seq<Record>, length: int)
    requires Forward(a)
    requires forall i :: 0 <= i < |a| ==> a[i].length < length
    requires forall i :: 0 <= i < |b| ==> b[i].length == length
    requires forall i, j :: 0 <= i < j < |b| ==> b[i].index < b[j].index
    ensures Forward(a + b)
  {
    var ab := a + b;
    forall i, j | 0 <= i < j < |ab|
      ensures Before(ab[i], ab[j])
    {
      if j < |a| {
        assert ab[i] == a[i] && ab[j] == a[j];
      } else if i < |a| {
        assert ab[i] == a[i] && ab[j] == b[j - |a|];
      } else {
        assert ab[i] == b[i - |a|] && ab[j] == b[j - |a|];
      }
    }
  }

  /** Where the candidates of one length sit in the schedule. */
  lemma ScheduleStep(alphabet: string, startLen: int, startIndex: int, maxLen: int, length: nat,
                     dispatched: seq<string>)
    requires startLen <= length <= maxLen && 0 <= startLen
    requires length == startLen ==> dispatched == []
    requires length > startLen ==>
      Schedule(alphabet, startLen, startIndex, maxLen) == dispatched + Enumerate(alphabet, length, maxLen)
    ensures var combos := Product(alphabet, length);
      var resume := if length == startLen then startIndex else 0;
      Schedule(alphabet, startLen, startIndex, maxLen)
        == dispatched + combos[Skipped(resume, |combos|)..] + Enumerate(alphabet, length + 1, maxLen)
  {
    var combos := Product(alphabet, length);
    var rest := Enumerate(alphabet, length + 1, maxLen);
    ProductLength(alphabet, length);
    if length == startLen {
      assert Schedule(alphabet, startLen, startIndex, maxLen) == combos[Skipped(startIndex, |combos|)..] + rest;
    } else {
      assert combos[Skipped(0, |combos|)..] == combos;
      assert Enumerate(alphabet, length, maxLen) == combos + rest;
      AppendAssoc(dispatched, combos, rest);
    }
  }


  /**
   * The candidates main's length loop has dispatched before the iteration for
   * `length`: the schedule up to this length, all rejected and all counted in
   * `tested`.
   */
  ghost predicate Visited(gpg: Gpg, alphabet: string, startLen: int, startIndex: int,
                          maxLen: int, length: int, tested: nat, dispatched: seq<string>)
  {
    && (0 <= startLen || maxLen < startLen) && startLen <= length
    && (length == startLen ==> dispatched == [])
    && (length > startLen ==>
          && 0 <= startLen && length <= maxLen + 1
          && Schedule(alphabet, startLen, startIndex, maxLen) == dispatched + Enumerate(alphabet, length, maxLen))
    && tested == |dispatched|
    && (forall i :: 0 <= i < |dispatched| ==> !Accepts(gpg, dispatched[i]))
  }

  /**
   * What a search from (startLen, startIndex) has dispatched at its end: `found`
   * is the first success of the schedule after `tested` candidates, and
   * `dispatched`, the candidates sent to the workers, is a prefix of the
   * schedule that overshoots the success by less than a batch.
   */
  ghost predicate Reached(gpg: Gpg, alphabet: string, startLen: int, startIndex: int,
                          maxLen: int, chunk: nat, found: Option<Found>, tested: nat, dispatched: seq<string>)
  {
    && (0 <= startLen || maxLen < startLen)
    && FirstHit(gpg, Schedule(alphabet, startLen, startIndex, maxLen), tested, found)
    && tested <= |dispatched| <= |Schedule(alphabet, startLen, startIndex, maxLen)|
    && dispatched == Schedule(alphabet, startLen, startIndex, maxLen)[..|dispatched|]
    && (found.Some? ==> |dispatched| < tested + chunk)
  }

  /**
   * The checkpoint records `saved` by the lengths below `bound`: they move
   * forward, belong to the target and to lengths from startLen on, and, on a
   * resume at a non-negative index, hold indices in 1 .. a^length.
   */
  ghost predicate Recorded(target: string, alphabet: string, startLen: int, startIndex: int, bound: int,
                           saved: seq<Record>)
  {
    && Forward(saved)
    && (forall i :: 0 <= i < |saved| ==> saved[i].file == target && 0 <= startLen <= saved[i].length < bound)
    && (0 <= startIndex ==>
          forall i :: 0 <= i < |saved| ==> 0 < saved[i].index <= Pow(|alphabet|, saved[i].length))
  }

  /** Records below a bound are below every larger bound. */
  lemma RecordedWiden(target: string, alphabet: string, startLen: int, startIndex: int, bound: int, bound': int,
                      saved: seq<Record>)
    requires Recorded(target, alphabet, startLen, startIndex, bound, saved) && bound <= bound'
    ensures Recorded(target, alphabet, startLen, startIndex, bound', saved)
  {
  }

  /** No record at all satisfies every bound. */
  lemma RecordedNone(target: string, alphabet: string, startLen: int, startIndex: int, bound: int)
    ensures Recorded(target, alphabet, startLen, startIndex, bound, [])
  {
  }

  /** Past the last length, the loop has dispatched the whole schedule and found nothing. */
  lemma VisitedEnd(gpg: Gpg, alphabet: string, startLen: int, startIndex: int, maxLen: int,
                   chunk: nat, length: int, tested: nat, dispatched: seq<string>)
    requires Visited(gpg, alphabet, startLen, startIndex, maxLen, length, tested, dispatched)
    requires maxLen < length
    ensures Reached(gpg, alphabet, startLen, startIndex, maxLen, chunk, None, tested, dispatched)
  {
    if length > startLen {
      assert Enumerate(alphabet, length, maxLen) == [];
      assert Schedule(alphabet, startLen, startIndex, maxLen) == dispatched;
    }
    assert dispatched[..|dispatched|] == dispatched;
  }

  /**
   * The tuples one length dispatched (combos[k0 .. k0 + used], see
   * LengthOutcome) extend what the loop dispatched before it: the loop goes
   * on to the next length with nothing found, or the whole search ends with
   * the success.
   */
  lemma VisitedStep(gpg: Gpg, alphabet: string, startLen: int, startIndex: int, maxLen: int,
                    chunk: nat, length: nat, tested: nat, dispatched: seq<string>,
                    combos: seq<string>, k0: nat, found: Option<Found>, t: nat, batches: seq<seq<string>>, used: nat)
    requires Visited(gpg, alphabet, startLen, startIndex, maxLen, length, tested, dispatched)
    requires length <= maxLen && combos == Product(alphabet, length)
    requires k0 == Skipped(if length == startLen then startIndex else 0, |combos|)
    requires LengthOutcome(gpg, combos, chunk, k0, found, t, batches, used)
    ensures found.None? ==>
      Visited(gpg, alphabet, startLen, startIndex, maxLen, length + 1, tested + t, dispatched + combos[k0 .. k0 + used])
    ensures found.Some? ==>
      Reached(gpg, alphabet, startLen, startIndex, maxLen, chunk, found, tested + t, dispatched + combos[k0 .. k0 + used])
  {
    if found.None? {
      VisitedNext(gpg, alphabet, startLen, startIndex, maxLen, chunk, length, tested, dispatched,
                  combos, k0, found, t, batches, used);
    } else {
      ReachedHit(gpg, alphabet, startLen, startIndex, maxLen, chunk, length, tested, dispatched,
                 combos, k0, found, t, batches, used);
    }
  }

  /** VisitedStep when the length found nothing. */
  lemma VisitedNext(gpg: Gpg, alphabet: string, startLen: int, startIndex: int, maxLen: int,
                    chunk: nat, length: nat, tested: nat, dispatched: seq<string>,
                    combos: seq<string>, k0: nat, found: Option<Found>, t: nat, batches: seq<seq<string>>, used: nat)
    requires Visited(gpg, alphabet, startLen, startIndex, maxLen, length, tested, dispatched)
    requires length <= maxLen && combos == Product(alphabet, length)
    requires k0 == Skipped(if length == startLen then startIndex else 0, |combos|)
    requires LengthOutcome(gpg, combos, chunk, k0, found, t, batches, used)
    requires found.None?
    ensures Visited(gpg, alphabet, startLen, startIndex, maxLen, length + 1, tested + t, dispatched + combos[k0 .. k0 + used])
  {
    ScheduleStep(alphabet, startLen, startIndex, maxLen, length, dispatched);
    TakeOfDrop(combos, k0, used);
    PrefixStep(gpg, Schedule(alphabet, startLen, startIndex, maxLen), dispatched, combos[k0..],
               Enumerate(alphabet, length + 1, maxLen), chunk, t, found, used, dispatched + combos[k0 .. k0 + used]);
  }

  /** VisitedStep when the length found a success. */
  lemma ReachedHit(gpg: Gpg, alphabet: string, startLen: int, startIndex: int, maxLen: int,
                    chunk: nat, length: nat, tested: nat, dispatched: seq<string>,
                    combos: seq<string>, k0: nat, found: Option<Found>, t: nat, batches: seq<seq<string>>, used: nat)
    requires Visited(gpg, alphabet, startLen, startIndex, maxLen, length, tested, dispatched)
    requires length <= maxLen && combos == Product(alphabet, length)
    requires k0 == Skipped(if length == startLen then startIndex else 0, |combos|)
    requires LengthOutcome(gpg, combos, chunk, k0, found, t, batches, used)
    requires found.Some?
    ensures Reached(gpg, alphabet, startLen, startIndex, maxLen, chunk, found, tested + t, dispatched + combos[k0 .. k0 + used])
  {
    ScheduleStep(alphabet, startLen, startIndex, maxLen, length, dispatched);
    TakeOfDrop(combos, k0, used);
    PrefixStep(gpg, Schedule(alphabet, startLen, startIndex, maxLen), dispatched, combos[k0..],
               Enumerate(alphabet, length + 1, maxLen), chunk, t, found, used, dispatched + combos[k0 .. k0 + used]);
  }

  /**
   * The schedule cut as pre + mid + rest, where pre is rejected and mid is
   * scanned up to its first success after t tuples, `used` of them
   * dispatched: `next`, pre followed by those, is still a prefix of the
   * schedule, all rejected when nothing was found, and otherwise reaching
   * the schedule's first success with less than a batch to spare.
   */
  lemma PrefixStep(gpg: Gpg, schedule: seq<string>, pre: seq<string>, mid: seq<string>,
                   rest: seq<string>, chunk: nat, t: nat, found: Option<Found>, used: nat, next: seq<string>)
    requires schedule == pre + mid + rest
    requires forall i :: 0 <= i < |pre| ==> !Accepts(gpg, pre[i])
    requires FirstHit(gpg, mid, t, found) && used <= |mid| && next == pre + mid[..used]
    requires found.None? ==> used == |mid|
    requires found.Some? ==> t <= used < t + chunk
    ensures found.None? ==> schedule == next + rest
    ensures found.None? ==> forall i :: 0 <= i < |next| ==> !Accepts(gpg, next[i])
    ensures found.Some? ==> FirstHit(gpg, schedule, |pre| + t, found)
    ensures found.Some? ==> |pre| + t <= |next| <= |schedule| && next == schedule[..|next|]
    ensures found.Some? ==> |next| < |pre| + t + chunk
  {
    FirstHitAfter(gpg, pre, mid, rest, t, found);
    if found.None? {
      assert mid[..used] == mid;
    } else {
      assert schedule[..|next|] == next;
    }
  }

  /**
   * The records one length saves (see LengthSaves) extend the loop's: they
   * come after every earlier one, and their indices stay in 1 .. a^length
   * when the length's resume index is non-negative and the scanning did not
   * pass the length's last tuple.
   */
  lemma RecordedStep(target: string, alphabet: string, startLen: int, startIndex: int, length: nat,
                     resume: int, chunk: nat, t: nat, n: nat, saved: seq<Record>)
    requires Recorded(target, alphabet, startLen, startIndex, length, saved) && 0 <= startLen <= length
    requires 0 < chunk && (0 < n ==> Times(n - 1, chunk) < t <= Times(n, chunk))
    requires 0 <= startIndex ==> 0 <= resume && (0 < n ==> resume + t <= Pow(|alphabet|, length))
    ensures |LengthSaves(target, length, resume, chunk, t, n)| == n
    ensures Recorded(target, alphabet, startLen, startIndex, length + 1,
                     saved + LengthSaves(target, length, resume, chunk, t, n))
  {
    var saves := LengthSaves(target, length, resume, chunk, t, n);
    var saved' := saved + saves;
    LengthSavesIncrease(target, length, resume, chunk, t, n);
    ForwardAppend(saved, saves, length);
    forall i | 0 <= i < |saved'|
      ensures saved'[i].file == target && 0 <= startLen <= saved'[i].length < length + 1
      ensures 0 <= startIndex ==> 0 < saved'[i].index <= Pow(|alphabet|, saved'[i].length)
    {
      if i >= |saved| {
        assert saved'[i] == saves[i - |saved|];
      }
    }
  }

  /**
   * A length whose search saved a record had its resume point inside its
   * tuples, so every record's index stays within the tuples.
   */
  lemma LengthIndexBound(gpg: Gpg, combos: seq<string>, chunk: nat, resume: int,
                         found: Option<Found>, t: nat, batches: seq<seq<string>>, used: nat)
    requires 0 <= resume
    requires LengthOutcome(gpg, combos, chunk, Skipped(resume, |combos|), found, t, batches, used)
    ensures batches != [] ==> resume + t <= |combos|
  {
    var k0 := Skipped(resume, |combos|);
    if batches != [] {
      assert combos[k0 .. k0 + used] != [];
    }
  }

  /** What one iteration of the length loop adds to the loop's invariants (see VisitedStep, RecordedStep). */
  lemma LengthStep(gpg: Gpg, target: string, alphabet: string, startLen: int, startIndex: int,
                   maxLen: int, chunk: nat, length: nat, tested: nat, dispatched: seq<string>, saved: seq<Record>,
                   combos: seq<string>, resume: int, k0: nat, found: Option<Found>, t: nat,
                   batches: seq<seq<string>>, used: nat)
    requires length <= maxLen
    requires Visited(gpg, alphabet, startLen, startIndex, maxLen, length, tested, dispatched)
    requires Recorded(target, alphabet, startLen, startIndex, length, saved)
    requires combos == Product(alphabet, length) && resume == (if length == startLen then startIndex else 0)
    requires k0 == Skipped(resume, |combos|)
    requires LengthOutcome(gpg, combos, chunk, k0, found, t, batches, used)
    ensures found.None? ==>
      Visited(gpg, alphabet, startLen, startIndex, maxLen, length + 1, tested + t, dispatched + combos[k0 .. k0 + used])
    ensures found.Some? ==>
      Reached(gpg, alphabet, startLen, startIndex, maxLen, chunk, found, tested + t, dispatched + combos[k0 .. k0 + used])
    ensures Recorded(target, alphabet, startLen, startIndex, length + 1,
                     saved + LengthSaves(target, length, resume, chunk, t, |batches|))
    ensures |LengthSaves(target, length, resume, chunk, t, |batches|)| == |batches|
    ensures k0 + used <= |combos| && (batches == [] <==> combos[k0 .. k0 + used] == [])
  {
    ChunksEmpty(combos[k0 .. k0 + used], chunk);
    VisitedStep(gpg, alphabet, startLen, startIndex, maxLen, chunk, length, tested, dispatched,
                combos, k0, found, t, batches, used);
    if 0 <= resume {
      LengthIndexBound(gpg, combos, chunk, resume, found, t, batches, used);
      ProductLength(alphabet, length);
    }
    RecordedStep(target, alphabet, startLen, startIndex, length, resume, chunk, t, |batches|, saved);
  }

  /**
   * The iteration of main's length loop for `length` (see SearchLength): the
   * length's candidates and records extend those of the earlier lengths.
   */
  method NextLength(store: Storage, target: string, alphabet: string, maxLen: int, chunk: nat,
                    startLen: int, startIndex: int, gpg: Gpg, length: int, tested: nat,
                    ghost dispatched: seq<string>, ghost saved: seq<Record>, ghost before: seq<Record>)
    returns (found: Option<Found>, tested': nat, ghost dispatched': seq<string>, ghost saved': seq<Record>)
    requires 0 < chunk && length <= maxLen
    requires Visited(gpg, alphabet, startLen, startIndex, maxLen, length, tested, dispatched)
    requires Recorded(target, alphabet, startLen, startIndex, length, saved)
    requires store.saves == before + saved
    requires saved != [] ==> store.checkpoint == Some(Written(Encode(Last(saved))))
    modifies store
    ensures found.None? ==> Visited(gpg, alphabet, startLen, startIndex, maxLen, length + 1, tested', dispatched')
    ensures found.Some? ==> Reached(gpg, alphabet, startLen, startIndex, maxLen, chunk, found, tested', dispatched')
    ensures Recorded(target, alphabet, startLen, startIndex, length + 1, saved')
    ensures store.saves == before + saved'
    ensures saved' != [] ==> store.checkpoint == Some(Written(Encode(Last(saved'))))
    ensures saved' == [] ==> saved == [] && store.checkpoint == old(store.checkpoint)
    ensures |saved'| == |saved| <==> |dispatched'| == |dispatched|
    ensures store.found == old(store.found)
  {
    var combos := Product(alphabet, length);
    var resume := if length == startLen then startIndex else 0;
    ghost var k0 := Skipped(resume, |combos|);
    var t;
    ghost var batches, used;
    found, t, batches, used := SearchLength(store, target, length, combos, chunk, resume, gpg);
    LengthStep(gpg, target, alphabet, startLen, startIndex, maxLen, chunk, length, tested, dispatched, saved,
               combos, resume, k0, found, t, batches, used);
    dispatched' := dispatched + combos[k0 .. k0 + used];
    saved' := saved + LengthSaves(target, length, resume, chunk, t, |batches|);
    tested' := tested + t;
    AppendAssoc(before, saved, LengthSaves(target, length, resume, chunk, t, |batches|));
  }

  /**
   * main's loop `for length in range(start_len, max + 1)` from a resolved start:
   * every length's candidates in turn, until the first success. `dispatched`
   * is every candidate sent to the workers, in order, and `saved` every
   * checkpoint record written.
   */
  method Search(store: Storage, target: string, alphabet: string, maxLen: int, chunk: nat,
                startLen: int, startIndex: int, gpg: Gpg)
    returns (found: Option<Found>, totalTested: nat, ghost dispatched: seq<string>, ghost saved: seq<Record>)
    requires 0 < chunk
    requires 0 <= startLen || maxLen < startLen
    modifies store
    ensures Reached(gpg, alphabet, startLen, startIndex, maxLen, chunk, found, totalTested, dispatched)
    ensures Recorded(target, alphabet, startLen, startIndex, maxLen + 1, saved)
    ensures store.saves == old(store.saves) + saved
    ensures store.checkpoint == if saved == [] then old(store.checkpoint) else Some(Written(Encode(Last(saved))))
    ensures saved == [] <==> dispatched == []
    ensures store.found == old(store.found)
  {
    ghost var length;
    found, totalTested, dispatched, saved, length := Lengths(store, target, alphabet, maxLen, chunk,
                                                             startLen, startIndex, gpg);
    if found.None? {
      VisitedEnd(gpg, alphabet, startLen, startIndex, maxLen, chunk, length, totalTested, dispatched);
    }
    if saved == [] {
      RecordedNone(target, alphabet, startLen, startIndex, maxLen + 1);
    } else {
      RecordedWiden(target, alphabet, startLen, startIndex, length, maxLen + 1, saved);
    }
  }

  /**
   * The loop of Search, up to the length after the last one it searched: past
   * maxLen when nothing was found, and after the successful one otherwise.
   */
  method Lengths(store: Storage, target: string, alphabet: string, maxLen: int, chunk: nat,
                 startLen: int, startIndex: int, gpg: Gpg)
    returns (found: Option<Found>, totalTested: nat, ghost dispatched: seq<string>, ghost saved: seq<Record>,
             ghost length: int)
    requires 0 < chunk
    requires 0 <= startLen || maxLen < startLen
    modifies store
    ensures found.None? ==> maxLen < length && Visited(gpg, alphabet, startLen, startIndex, maxLen, length, totalTested, dispatched)
    ensures found.Some? ==> Reached(gpg, alphabet, startLen, startIndex, maxLen, chunk, found, totalTested, dispatched)
    ensures Recorded(target, alphabet, startLen, startIndex, length, saved)
    ensures saved != [] ==> length <= maxLen + 1
    ensures store.saves == old(store.saves) + saved
    ensures saved != [] ==> store.checkpoint == Some(Written(Encode(Last(saved))))
    ensures saved == [] ==> store.checkpoint == old(store.checkpoint)
    ensures saved == [] <==> dispatched == []
    ensures store.found == old(store.found)
  {
    found := None;
    totalTested := 0;
    dispatched := [];
    saved := [];
    ghost var before := store.saves;
    var n := startLen;
    while n <= maxLen
      invariant found.None?
      invariant Visited(gpg, alphabet, startLen, startIndex, maxLen, n, totalTested, dispatched)
      invariant Recorded(target, alphabet, startLen, startIndex, n, saved)
      invariant saved != [] ==> n <= maxLen + 1
      invariant store.saves == before + saved
      invariant saved != [] ==> store.checkpoint == Some(Written(Encode(Last(saved))))
      invariant saved == [] ==> store.checkpoint == old(store.checkpoint)
      invariant saved == [] <==> dispatched == []
      invariant store.found == old(store.found)
    {
      found, totalTested, dispatched, saved := NextLength(store, target, alphabet, maxLen, chunk, startLen, startIndex,
                                                          gpg, n, totalTested, dispatched, saved, before);
      n := n + 1;
      if found.Some? {
        break;
      }
    }
    length := n;
  }

  /** How many tuples go into a batch: `len(batch) >= chunk` holds at once for a chunk below 1. */
  function BatchSize(chunk: int): (n: nat)
    ensures 0 < n
    ensures 1 <= chunk ==> n == chunk
    ensures chunk < 1 ==> n == 1
  {
    if chunk < 1 then 1 else chunk
  }

  // ---------------------------------------------------------------------------
  // main, end to end
  // ---------------------------------------------------------------------------

  /** The command-line settings the search uses. */
  datatype Config = Config(minLen: int, maxLen: int, chunk: int, alphabet: string)

  /** How a run of main ends. */
  datatype Outcome =
    | TargetMissing
    | Crash(reason: string)
    | PassFound(passphrase: string, outPath: string)
    | Exhausted(tested: nat)

  /**
   * main: check the target exists, choose the start from the checkpoint, run
   * the search, then on success write found.txt and remove the checkpoint.
   */
  method BruteForce(store: Storage, target: string, targetExists: bool, config: Config, gpg: Gpg)
    returns (outcome: Outcome, ghost tested: nat)
    modifies store
    ensures !targetExists ==> outcome == TargetMissing
    ensures outcome.TargetMissing? || outcome.Crash? ==>
      store.checkpoint == old(store.checkpoint) && store.found == old(store.found) && store.saves == old(store.saves)
    ensures targetExists ==>
      var start := ResolveStart(ChooseStart(Load(old(store.checkpoint)), target, config.minLen), config.maxLen);
      && (start.Crashed? ==> outcome == Crash(start.reason))
      && (start.StartAt? ==>
            var schedule := Schedule(config.alphabet, start.length, start.index, config.maxLen);
            && (outcome.PassFound? || outcome.Exhausted?)
            && (outcome.PassFound? ==>
                  FirstHit(gpg, schedule, tested, Some(Found(outcome.passphrase, outcome.outPath))) &&
                  store.found == Some(outcome.passphrase + "\n") && store.checkpoint == None)
            && (outcome.Exhausted? ==>
                  outcome.tested == tested && FirstHit(gpg, schedule, tested, None) &&
                  store.found == old(store.found) &&
                  (tested == 0 <==> |store.saves| == |old(store.saves)|) &&
                  (|store.saves| == |old(store.saves)| ==> store.checkpoint == old(store.checkpoint)) &&
                  (|store.saves| > |old(store.saves)| ==> store.checkpoint == Some(Written(Encode(Last(store.saves)))))))
  {
    tested := 0;
    if !targetExists {
      outcome := TargetMissing;
      return;
    }
    var ck := Load(store.checkpoint);
    var start := ResolveStart(ChooseStart(ck, target, config.minLen), config.maxLen);
    if start.Crashed? {
      outcome := Crash(start.reason);
      return;
    }
    var found, total, dispatched, saved := Search(store, target, config.alphabet, config.maxLen,
                                                  BatchSize(config.chunk), start.length, start.index, gpg);
    tested := total;
    if found.Some? {
      store.WriteFound(found.value.candidate);
      store.RemoveCheckpoint();
      outcome := PassFound(found.value.candidate, found.value.info);
    } else {
      outcome := Exhausted(total);
    }
  }
}
