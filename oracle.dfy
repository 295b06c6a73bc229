/**
 * The outcome of one decryption attempt (gpg_try_decrypt and worker_task), as a
 * pure function of what the external gpg process did. The process itself, its
 * timeout and the temporary output file are outside the model: one attempt is
 * described by an `Invocation` value.
 */
module Oracle {

  /** What `subprocess.run` gave back for one gpg call. */
  datatype ProcessResult =
    | Raised(error: string)                  // the call raised: timeout, missing binary, ...
    | Exited(returncode: int, stderr: string) // the process ran; stderr already decoded

  /** Reading the first four bytes of the decrypted output. */
  datatype HeaderRead = Header(bytes: seq<bv8>) | Unreadable

  /** One gpg call for one passphrase: the temporary output path, the process result, the header read. */
  datatype Invocation = Invocation(outPath: string, result: ProcessResult, header: HeaderRead)

  /**
   * How gpg answers every passphrase: the calls listed in `table`, and
   * `otherwise` for every passphrase not listed. A search makes finitely many
   * calls, so any behaviour it can observe is one of these (a passphrase tried
   * twice, as with an alphabet holding a character twice, is assumed to get
   * the same answer both times).
   */
  datatype Gpg = Gpg(table: map<string, Invocation>, otherwise: Invocation)

  /** The gpg call made for one passphrase. */
  function Run(gpg: Gpg, passphrase: string): Invocation
  {
    if passphrase in gpg.table then gpg.table[passphrase] else gpg.otherwise
  }

  /** The pair (ok, info) that gpg_try_decrypt returns. */
  datatype Attempt = Attempt(ok: bool, info: string)

  /** The triple (candidate, ok, info) that worker_task returns. */
  datatype WorkerResult = WorkerResult(candidate: string, ok: bool, info: string)

  /** The bytes "%PDF". */
  const PdfMagic: seq<bv8> := [0x25, 0x50, 0x44, 0x46]

  /** At most this many characters of gpg's error output are kept. */
  const StderrLimit: nat := 200

  /** The advisory content check: an unreadable file counts as valid. */
  predicate LooksLikePdf(h: HeaderRead)
  {
    match h
    case Unreadable => true
    case Header(bytes) => bytes == PdfMagic
  }

  /** The first n elements of s, or all of s when it is shorter (Python's s[:n]). */
  function Truncate(s: string, n: nat): (r: string)
    ensures |r| <= n && |r| <= |s|
    ensures |r| == (if |s| <= n then |s| else n)
    ensures r == s[..|r|]
    ensures |s| <= n ==> r == s
  {
    if |s| <= n then s else s[..n]
  }

  /** gpg_try_decrypt's classification of one call. */
  function Classify(inv: Invocation): (r: Attempt)
    ensures r.ok <==> inv.result.Exited? && inv.result.returncode == 0
    ensures r.ok ==> r.info == inv.outPath
    ensures inv.result.Raised? ==> r.info == "ERROR: " + inv.result.error
    ensures inv.result.Exited? && !r.ok ==>
      |r.info| <= StderrLimit && |r.info| <= |inv.result.stderr| &&
      r.info == inv.result.stderr[..|r.info|] &&
      (|inv.result.stderr| <= StderrLimit ==> r.info == inv.result.stderr) &&
      (StderrLimit < |inv.result.stderr| ==> |r.info| == StderrLimit)
  {
    match inv.result
    case Raised(e) => Attempt(false, "ERROR: " + e)
    case Exited(code, err) =>
      if code == 0 then
        // a file that does not start with %PDF is still a success
        if LooksLikePdf(inv.header) then Attempt(true, inv.outPath) else Attempt(true, inv.outPath)
      else
        Attempt(false, Truncate(err, StderrLimit))
  }

  /** The content check never changes the classification. */
  lemma HeaderIsAdvisory(inv: Invocation, other: HeaderRead)
    ensures Classify(inv) == Classify(inv.(header := other))
  {
  }

  /** worker_task: the candidate paired with the classification of its gpg call. */
  function WorkerTask(gpg: Gpg, candidate: string): (r: WorkerResult)
    ensures r.candidate == candidate
    ensures r.ok <==> Accepts(gpg, candidate)
    ensures r.info == Classify(Run(gpg, candidate)).info
  {
    var a := Classify(Run(gpg, candidate));
    WorkerResult(candidate, a.ok, a.info)
  }

  /** The oracle the search consults: Classify reports success for this passphrase's gpg call. */
  predicate Accepts(gpg: Gpg, candidate: string)
  {
    Classify(Run(gpg, candidate)).ok
  }
}
