# Resumable brute-force passphrase search, modelled in Dafny

The program, `main.py`, searches for the passphrase of a symmetrically
GPG-encrypted file. It tries every string over an alphabet, shortest first,
from `--min` up to `--max` characters. For each length it walks
`itertools.product(alphabet, repeat=length)` and collects the candidates into
batches of `--chunk`. A process pool maps the gpg worker over each batch, and
the results come back in batch order. main scans them in order up to the
first success. After every dispatched batch it saves the checkpoint
`{"file", "length", "index"}`. When it starts, it resumes from a checkpoint
saved for the same target. On success it writes `found.txt` and deletes the
checkpoint. On exhaustion it reports how many candidates it tested.

The model is split into these modules:

- `Enumeration` (enumeration.dfy, pure). `Product` is one length's tuples,
  `Enumerate` is `generate_candidates`, and `Resumed` is that stream restarted
  at a (length, ordinal) position. `Candidate` and `Ordinal` describe the
  same strings by position, as base-|alphabet| numerals. The lemmas prove:
  - the two round trips between `Candidate` and `Ordinal`;
  - the position of every candidate;
  - that the stream is complete and duplicate-free;
  - that it is ordered by length, then lexicographically;
  - that resuming yields exactly a suffix of the stream.
- `Oracle` (oracle.dfy, pure). `gpg_try_decrypt` and `worker_task` map one gpg
  call to an `(ok, info)` classification. A `Gpg` value is a table that gives
  the gpg call (its output path, process result and header read) for every
  passphrase. The search is proved for every such table.
- `Checkpoint` (checkpoint.dfy, mixed):
  - `load_checkpoint`;
  - the resume decision of `main`;
  - what `range()` and the skip loop make of the values they get;
  - the class `Storage`. Its fields are the checkpoint file and `found.txt`,
    updated in place by `save_checkpoint`, the final write and the removal.
    A ghost log records every save.
- `Search` (search.dfy, imperative). Each loop of `main` is a method with its
  own invariants:
  - the skip (`SkipTo`);
  - the in-order scan of one batch (`Scan`);
  - the per-length batching loop (`BatchLoop`, with `Step`, `Flush` and `Finish`);
  - the loop over lengths (`Lengths`, with `NextLength`).

  `BruteForce` is `main` end to end. The contracts tie what these methods do to
  a specification of the search:
  - `Schedule` is the candidates a run resumed at (startLen, startIndex) must visit;
  - `FirstHit` says which candidate is the first success;
  - `Chunks` is how the dispatched candidates are cut into batches;
  - `LengthSaves` lists the checkpoints each length writes.
- `Wrappers` and `Sequences` hold `Option` and a few sequence facts.

## Model

| member | source | states |
|---|---|---|
| Enumeration.Candidate | main.py:77-78 | the candidate with ordinal k has exactly n characters, all from the alphabet |
| Enumeration.Ordinal | main.py:77-78 | a string's ordinal lies below a^length, so it names a tuple of that length |
| Enumeration.OrdinalOfCandidate | main.py:77-78 | round trip: with a duplicate-free alphabet, the ordinal of candidate k is k |
| Enumeration.CandidateOfOrdinal | main.py:77-78 | round trip: every string over the alphabet is the candidate of its ordinal |
| Enumeration.CandidateInjective | main.py:77-78 | two candidates of one length are equal exactly when their ordinals are |
| Enumeration.CandidateSplit | main.py:77-78 | a candidate's first character is its leading base-a digit, and the rest is the candidate of the remainder |
| Enumeration.Prepend | main.py:77 | prefixing one character keeps the number of tails |
| Enumeration.PrependAt | main.py:77 | element j of a prefixed block is the character followed by tail j |
| Enumeration.PrefixEachLength | main.py:77 | product's outer step yields |heads| * |tails| tuples |
| Enumeration.PrefixEachAt | main.py:77 | position k of product's outer step is head k / |tails| followed by tail k % |tails| |
| Enumeration.PrefixEachPastFirst | main.py:77 | past the first head's block, position k is position k - |tails| of the remaining heads |
| Enumeration.Product | main.py:77 | itertools.product(alphabet, repeat=n) joined into strings; ProductLength gives its a^n length and ProductAt its k-th element, the candidate with ordinal k |
| Enumeration.ProductLength | main.py:77 | itertools.product(alphabet, repeat=n) yields exactly a^n tuples |
| Enumeration.ProductAt | main.py:77 | the k-th tuple product yields is the candidate with ordinal k (rightmost position varies fastest) |
| Enumeration.ProductMembers | main.py:77-78 | every tuple of length n has n characters, all from the alphabet |
| Enumeration.ProductDistinct | main.py:77-78 | with a duplicate-free alphabet, product yields no tuple twice |
| Enumeration.ProductSorted | main.py:77-78 | product's tuples are in strictly increasing lexicographic order under the alphabet's order |
| Enumeration.CandidateOrder | main.py:77-78 | ordinal k1 < k2 exactly when candidate k1 is lexicographically below candidate k2 |
| Enumeration.LexLessStep | main.py:77-78 | lexicographic comparison is decided by the first characters' alphabet positions, then by the rest |
| Enumeration.Enumerate | main.py:74-78 | generate_candidates(lo, hi) as a sequence; EnumerateCount gives its length, EnumerateAt the position of every candidate, EnumerateSorted its order |
| Enumeration.EnumerateCount | main.py:74-78 | generate_candidates(lo, hi) yields the sum of a^len over lo..hi candidates |
| Enumeration.EnumerateAt | main.py:74-78 | candidate k of length n sits right after all the shorter candidates |
| Enumeration.EnumerateMembers | main.py:74-78 | every candidate has a length in [lo, hi] and only alphabet characters |
| Enumeration.EnumerateComplete | main.py:74-78 | every string over the alphabet with a length in [lo, hi] is yielded |
| Enumeration.EnumerateDistinct | main.py:74-78 | with a duplicate-free alphabet, no candidate is yielded twice |
| Enumeration.EnumerateSorted | main.py:74-78 | for i < j, candidate i comes before candidate j: shorter first, then lexicographic ("increasing length order") |
| Enumeration.SortedPastFirst | main.py:76-78 | two candidates past the first length keep the order of the later lengths |
| Enumeration.SortedWithinLength | main.py:76-78 | two candidates of the first length are in product's lexicographic order |
| Enumeration.SortedAcrossLengths | main.py:76-78 | a candidate of the first length precedes every candidate of a later length |
| Enumeration.Resumed | main.py:125-135 | the candidates visited from length n after skipping its first s; ResumedIsSuffix proves it is the suffix of generate_candidates from that position |
| Enumeration.ResumedAtStart | main.py:131-135 | resuming length n at ordinal s drops exactly the first s candidates of the stream from n |
| Enumeration.ResumedIsSuffix | main.py:110-135 | resuming at (n, s) yields exactly the suffix of generate_candidates(lo, hi) that starts after the sum of a^len for len < n, plus s |
| Enumeration.EnumerateSuffix | main.py:125-135 | after the candidates of lengths lo .. n - 1, the stream from lo continues as the stream from n |
| Enumeration.ResumedFromStart | main.py:111-112 | resuming at (lo, 0) yields the whole enumeration |
| Enumeration.SkippedNeverResumed | main.py:131-135 | the s candidates skipped on the resumed length are never visited again |
| Oracle.Truncate | main.py:66 | Python's s[:n]: a prefix of s of length min(n, |s|) |
| Oracle.Run | main.py:34-40 | the gpg call made for one passphrase: the table entry for it, or the default call; every search contract holds for every such table |
| Oracle.LooksLikePdf | main.py:49-55 | the header check: the first four bytes are %PDF, or the file could not be read; HeaderIsAdvisory proves it never matters |
| Oracle.Classify | main.py:29-66 | success exactly when gpg exited with status 0, and then info is the output path; a raised call gives "ERROR: " + message; another exit status gives exactly the first 200 characters of stderr (all of it when shorter) |
| Oracle.HeaderIsAdvisory | main.py:48-60 | the %PDF header check never changes the classification |
| Oracle.WorkerTask | main.py:68-72 | worker_task returns the candidate with the classification of its own gpg call |
| Oracle.Accepts | main.py:147 | the `if ok:` test of the scan for one candidate, defined through Classify; WorkerTask proves a worker's ok is exactly it |
| Checkpoint.Load | main.py:80-87 | a missing or unparseable file gives None; a parsed file gives its object |
| Checkpoint.Get | main.py:114-116 | Python's dict.get(key, default) on the loaded object; ChooseStart states its effect on the start values |
| Checkpoint.Honoured | main.py:113-114 | `if ck:` and `ck.get("file") == gpg_file`: a non-empty object whose "file" is the target; ChooseStart, SaveThenResume and ForeignCheckpointIgnored state both outcomes |
| Checkpoint.ChooseStart | main.py:110-119 | a checkpoint is honoured only if it is a non-empty object whose "file" is the target, and then "length" and "index" are taken from it with defaults min and 0; otherwise the start is (min, 0) |
| Checkpoint.Truthy | main.py:131 | Python truthiness of a JSON value, as in `and start_index`; ResolveStart states where a truthy non-integer index crashes and a falsy one skips nothing |
| Checkpoint.SaveThenResume | main.py:113-116 | loading what save_checkpoint wrote for a target resumes at exactly its length and index |
| Checkpoint.ForeignCheckpointIgnored | main.py:114-119 | a checkpoint for another target gives the same start as no checkpoint |
| Checkpoint.UnreadableCheckpointIgnored | main.py:80-87 | a missing or corrupt checkpoint file means starting at (min, 0) |
| Checkpoint.ResolveStart | main.py:125-135 | main crashes exactly when the start length is not an integer, or it is in range and is negative, or it is in range and the index is a truthy non-integer; otherwise it starts at that length and index (a falsy index skips nothing) |
| Checkpoint.Storage.Save | main.py:89-91 | the checkpoint file is overwritten with the record, which is appended to the save log; found.txt is unchanged |
| Checkpoint.Storage.RemoveCheckpoint | main.py:177-180 | afterwards there is no checkpoint file; nothing else changes |
| Checkpoint.Storage.WriteFound | main.py:174-175 | found.txt holds the passphrase and a newline; the checkpoint is unchanged |
| Search.Skipped | main.py:131-135 | the skip consumes min(index, count) tuples, and none for a non-positive index |
| Search.SkipTo | main.py:131-135 | the skip loop leaves the iterator at position Skipped(index, count) |
| Search.Schedule | main.py:110-135 | the candidates a run resumed at (startLen, startIndex) visits, in order; ScheduleIsSuffix and FreshScheduleIsEnumeration tie it to generate_candidates, and Search proves the loops visit exactly its prefix up to the first success |
| Search.ScheduleIsSuffix | main.py:110-135 | a run resumed at an in-range (length, index) visits exactly the suffix of generate_candidates from that position |
| Search.FreshScheduleIsEnumeration | main.py:111-128 | without a checkpoint, the run visits exactly generate_candidates(min, max) |
| Search.MapWorkers | main.py:143 | pool.map gives one result per candidate, in input order, each the worker's result for that candidate |
| Search.Scan | main.py:144-149 | the scan counts results up to and including the first ok one, which it returns; with no ok result it counts all of them and returns None |
| Search.Dispatch | main.py:143-151 | FirstHit of the batch, and the checkpoint and save log now hold {file, length, idx + scanned} |
| Search.ChunksCover | main.py:137-154 | the batches concatenate to the dispatched run; each has 1..chunk tuples and all but the last are full |
| Search.ChunksSnoc | main.py:137-154 | after m full batches, one more batch of 1..chunk tuples is exactly one more chunk |
| Search.LengthSavesStable | main.py:144-151 | scanning further in a later batch does not change the checkpoints of earlier batches |
| Search.LengthSavesAt | main.py:144-151 | the j-th checkpoint of a length records resume + min(tested, (j + 1) * chunk) |
| Search.LengthSavesIncrease | main.py:144-164 | one length's checkpoints all belong to the target and the length; their indices strictly increase, from above resume up to resume + tested |
| Search.FirstHitAfter | main.py:144-149 | a batch scanned after rejected candidates gives the first success of the whole run so far |
| Search.ProgressEnd | main.py:155-156 | at the end of the tuples with an empty batch, the length dispatched everything and found nothing |
| Search.BatchDone | main.py:141-164 | one dispatched batch either continues the loop, ends the length with nothing found, or ends it at the first success |
| Search.BatchJoin | main.py:141-152 | a dispatched batch is the next chunk of the length's tuples, and everything before it was rejected |
| Search.BatchFull | main.py:141-152 | a full batch without success continues the loop with an empty batch |
| Search.BatchLast | main.py:155-164 | the leftover batch without success ends the length with every tuple dispatched |
| Search.BatchHit | main.py:147-154 | a batch with a success ends the length at the first success, with less than a batch dispatched past it |
| Search.AllRejected | main.py:155-164 | if every tuple from the skip point was rejected, the length's first hit is None after all of them |
| Search.Flush | main.py:141-164 | dispatching a batch extends the length's checkpoints by one, and the loop state moves past the batch or the length ends |
| Search.Step | main.py:138-154 | one turn of `for c in combos`: the tuple is added and a full batch is dispatched; the loop invariant is kept, or the length ends at a success |
| Search.Finish | main.py:155-164 | the leftover batch is dispatched only when it is non-empty, and the length's outcome is complete |
| Search.BatchLoop | main.py:137-154 | the batching loop stops at the first success or at the last tuple, with every checkpoint it saved |
| Search.SearchLength | main.py:126-164 | one length: the first success among the tuples after the skip; every tuple is dispatched when there is none; the checkpoints are exactly LengthSaves |
| Search.ForwardAppend | main.py:151-164 | checkpoints of a new length, with increasing indices, keep the save log moving forward |
| Search.ScheduleStep | main.py:125-135 | the schedule is what was dispatched, then this length's tuples after the skip, then the longer lengths |
| Search.VisitedEnd | main.py:166-183 | when the loop passes max, the whole schedule was dispatched and rejected |
| Search.VisitedStep | main.py:125-167 | one length extends the loop's prefix of the schedule: with nothing found it is the schedule up to the next length, otherwise it reaches the schedule's first success |
| Search.VisitedNext | main.py:125-167 | a length with no success extends the rejected prefix of the schedule to the next length |
| Search.ReachedHit | main.py:147-167 | a length with a success ends the search at the schedule's first success |
| Search.PrefixStep | main.py:125-167 | a scanned stretch of the schedule after a rejected prefix keeps what was dispatched a prefix of the schedule, and the first success overshoots by less than a batch |
| Search.RecordedStep | main.py:151-164 | a length's checkpoints come after all earlier ones; their indices stay in 1 .. a^length when the resume index is non-negative |
| Search.LengthIndexBound | main.py:131-164 | a length that saved a checkpoint resumed within its tuples, so its indices stay at most a^length |
| Search.LengthStep | main.py:125-167 | one iteration of the length loop keeps both the loop's schedule prefix and its checkpoint invariant |
| Search.NextLength | main.py:125-167 | one length's candidates and checkpoints extend those of the earlier lengths, and it writes a checkpoint exactly when it dispatches a candidate |
| Search.Lengths | main.py:125-167 | the length loop ends past max with the whole schedule rejected, or at the schedule's first success; its checkpoints move forward, there are none exactly when nothing was dispatched, and the file holds the last one |
| Search.Search | main.py:123-167 | found is the first success of the schedule after totalTested candidates (none when every one is rejected); less than a batch past it is dispatched; every checkpoint is for the target with strictly advancing (length, index); none is written exactly when nothing is dispatched; the file holds the last one, or is untouched when none was written |
| Search.BatchSize | main.py:141 | `len(batch) >= chunk` makes batches of chunk tuples, or of 1 tuple for a chunk below 1 |
| Search.BruteForce | main.py:104-183 | a missing target exits untouched; a crash of the resume values happens before anything is tested; otherwise PASSFOUND is the schedule's first success, found.txt holds it and the checkpoint is gone; exhaustion reports every scheduled candidate as tested and rejected, writes a checkpoint exactly when it tested something, and leaves the last one written (or the earlier file) in place |

## Left out

- gpg, the subprocess, its timeout, the temporary output file and its removal
  are not run. Each passphrase's call is a value of `Oracle.Gpg` (its output
  path, process result and header read), and the search is proved for every
  such table. A passphrase tried twice (an alphabet holding a character twice)
  is assumed to get the same answer both times, although main makes a fresh
  call with a fresh output file each time. Decoding stderr bytes
  (`errors="replace"`) is taken as done.
- `--timeout` is parsed but never passed on, so gpg always gets 15 seconds.
  Timeouts appear only as a raised call in the model.
- The process pool's concurrency and its `--workers` size. `pool.map` is
  modelled as an in-order sequential map; only its order preservation is
  observable to main.
- JSON text, file I/O and atomicity. The checkpoint file is the object it
  parses to, or `Corrupt`. A top-level JSON value that is not an object is
  not modelled. A falsy one (`null`, `0`, `false`, `""`, `[]`) fails `if ck:`
  and main starts at (min, 0) as with no checkpoint; a truthy one makes main
  fail in `ck.get`. A crash in the middle of a write is not modelled.
- argparse, `print` and `sys.exit`. The configuration is a `Config` value,
  and a missing target is the `TargetMissing` outcome.
- Checkpoint.Encode: has no ensures of its own. What it writes is stated
  through `SaveThenResume`.
- Search.Lengths: its returned `length` is ghost, stated only as far as the
  loop needs it: past max when nothing is found.
- The model follows the code where it says more than, or differs from, its
  description:
  - a checkpoint for the target is honoured even when its length lies below `--min`;
  - after exhaustion the last checkpoint written stays in place, and a run that dispatches nothing leaves an earlier checkpoint file untouched;
  - a chunk below 1 gives batches of one candidate (`BatchSize`);
  - a negative checkpoint index skips nothing, and the indices written then count from that negative value.
