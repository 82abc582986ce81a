/** The multipart writer of store/s3.go: parts of growing size, published together or not at all. */
module S3Writer {
  import opened Prelude

  const MIB: int := 1024 * 1024
  const BASE_SIZE: int := 64 * MIB
  const MAX_SIZE: int := 4096 * MIB

  function Pow2(i: nat): nat {
    if i == 0 then 1 else 2 * Pow2(i - 1)
  }

  /** A buffer longer than this is uploaded as part i (counting from 0). */
  function Threshold(i: nat): int {
    if i < 6 then BASE_SIZE * Pow2(i) else MAX_SIZE
  }

  /** A part the bucket holds, and the tag it was acknowledged with. */
  datatype Part = Part(data: Bytes, etag: nat)

  /** The bucket's side of one upload. */
  datatype Bucket = Bucket(uploaded: map<int, Part>, tags: nat, published: Option<Bytes>)

  datatype Upload = Upload(buf: Option<Bytes>, isMulti: bool, part: nat, etags: seq<nat>, abort: bool, b: Bucket)

  const NEW: Upload := Upload(None, false, 0, [], false, Bucket(map[], 0, None))

  /** uploadpart; a failed start leaves no upload id, and then no part can be uploaded. */
  function UploadPart(u: Upload, data: Bytes, startOK: bool, uploadOK: bool): (Upload, bool) {
    var u1 := u.(isMulti := u.isMulti || startOK);
    if !u1.isMulti || !uploadOK then (u1, false)
    else
      (u1.(etags := u.etags + [u.b.tags],
           b := u.b.(uploaded := u.b.uploaded[u.part + 1 := Part(data, u.b.tags)], tags := u.b.tags + 1)),
       true)
  }

  function Buffered(u: Upload): Bytes {
    match u.buf case None => "" case Some(s) => s
  }

  /** Write. */
  function Write(u: Upload, p: Bytes, startOK: bool, uploadOK: bool): (Upload, bool) {
    var buf := Buffered(u) + p;
    if |buf| <= Threshold(u.part) then (u.(buf := Some(buf)), true)
    else
      var (u1, ok) := UploadPart(u, buf, startOK, uploadOK);
      if ok then (u1.(buf := Some(""), part := u1.part + 1), true)
      else (u1.(buf := Some(""), abort := true), false)
  }

  /** An entry of the list that ends a multipart upload. */
  datatype Completed = Completed(etag: nat, number: int)

  /** The list finishMultipart sends: the tags in order, with the part numbers 1, 2, ... */
  function Numbered(etags: seq<nat>): (r: seq<Completed>)
    ensures |r| == |etags|
    ensures forall i :: 0 <= i < |r| ==> r[i] == Completed(etags[i], i + 1)
  {
    if etags == [] then [] else Numbered(etags[..|etags| - 1]) + [Completed(etags[|etags| - 1], |etags|)]
  }

  /** CompleteMultipartUpload: the bucket joins the parts named, if their numbers ascend and the tags
      are theirs. */
  function Joined(b: Bucket, parts: seq<Completed>): Option<Bytes> {
    if parts == [] then Some("")
    else
      var last := parts[|parts| - 1];
      if last.number !in b.uploaded || b.uploaded[last.number].etag != last.etag then None
      else if |parts| > 1 && parts[|parts| - 2].number >= last.number then None
      else match Joined(b, parts[..|parts| - 1])
        case None => None
        case Some(s) => Some(s + b.uploaded[last.number].data)
  }

  function CompleteUpload(b: Bucket, parts: seq<Completed>, completeOK: bool): (Bucket, bool) {
    match Joined(b, parts)
    case Some(s) =>
      if completeOK && parts != [] then (b.(uploaded := map[], published := Some(s)), true) else (b, false)
    case None => (b, false)
  }

  function Complete(u: Upload, completeOK: bool): (Upload, bool) {
    var (b, ok) := CompleteUpload(u.b, Numbered(u.etags), completeOK);
    (u.(b := b), ok)
  }

  function Abort(u: Upload): Upload {
    u.(b := u.b.(uploaded := map[]))
  }

  /** Which requests of Close succeed. */
  datatype CloseFaults = CloseFaults(putOK: bool, startOK: bool, uploadOK: bool, completeOK: bool, abortOK: bool)

  /** Close. Note that an aborted upload is closed without an error when the abort itself succeeds. */
  function Close(u: Upload, f: CloseFaults): (Upload, bool) {
    if !u.isMulti then
      if u.abort then (u, true)
      else if f.putOK then (u.(b := u.b.(published := Some(Buffered(u)))), true)
      else (u, false)
    else if u.abort then (Abort(u), f.abortOK)
    else if Buffered(u) != "" then
      var (u1, ok) := UploadPart(u, Buffered(u), f.startOK, f.uploadOK);
      if ok then Complete(u1, f.completeOK) else (Abort(u1.(abort := true)), false)
    else Complete(u, f.completeOK)
  }

  // ---- the invariant

  /** The first k uploaded parts, joined. */
  function Parts(b: Bucket, k: nat): Bytes
    requires forall i :: 1 <= i <= k ==> i in b.uploaded
  {
    if k == 0 then "" else Parts(b, k - 1) + b.uploaded[k].data
  }

  ghost predicate PartsNumbered(u: Upload, k: nat) {
    && |u.etags| == k
    && (forall i :: 1 <= i <= k ==> i in u.b.uploaded && u.b.uploaded[i].etag == u.etags[i - 1])
    && (forall i :: 1 <= i <= k ==> u.b.uploaded[i].etag < u.b.tags)
  }

  /** Unless it is to be aborted, an upload's parts and its buffer are exactly what was written. */
  ghost predicate Writing(u: Upload, written: Bytes) {
    && u.b.published == None
    && (!u.abort ==>
          && PartsNumbered(u, u.part) && (u.isMulti <==> u.part > 0)
          && Parts(u.b, u.part) + Buffered(u) == written
          && (forall i :: 0 <= i < u.part ==> |u.b.uploaded[i + 1].data| > Threshold(i))
          && |Buffered(u)| <= Threshold(u.part))
  }

  lemma {:induction false} PartsKept(b: Bucket, c: Bucket, k: nat)
    requires forall i :: 1 <= i <= k ==> i in b.uploaded && i in c.uploaded && c.uploaded[i].data == b.uploaded[i].data
    ensures Parts(b, k) == Parts(c, k)
  {
    if k > 0 { PartsKept(b, c, k - 1); }
  }

  lemma UploadPartKeeps(u: Upload, data: Bytes, startOK: bool, uploadOK: bool)
    requires PartsNumbered(u, u.part)
    ensures var (v, ok) := UploadPart(u, data, startOK, uploadOK);
      && v.part == u.part && v.abort == u.abort && v.b.published == u.b.published
      && (ok ==> PartsNumbered(v, u.part + 1) && v.isMulti && Parts(v.b, u.part + 1) == Parts(u.b, u.part) + data
                 && v.b.uploaded == u.b.uploaded[u.part + 1 := v.b.uploaded[u.part + 1]]
                 && v.b.uploaded[u.part + 1].data == data)
  {
    var (v, ok) := UploadPart(u, data, startOK, uploadOK);
    if ok { PartsKept(u.b, v.b, u.part); }
  }

  lemma FullBufferKeeps(u: Upload, p: Bytes, startOK: bool, uploadOK: bool, written: Bytes)
    requires Writing(u, written) && !u.abort && |Buffered(u) + p| > Threshold(u.part)
    ensures var (v, ok) := UploadPart(u, Buffered(u) + p, startOK, uploadOK);
      ok ==> Writing(v.(buf := Some(""), part := v.part + 1), written + p)
  {
    UploadPartKeeps(u, Buffered(u) + p, startOK, uploadOK);
    var (v, ok) := UploadPart(u, Buffered(u) + p, startOK, uploadOK);
    if ok {
      var w := v.(buf := Some(""), part := v.part + 1);
      ThresholdPositive(w.part);
      assert Parts(w.b, w.part) + "" == Parts(u.b, u.part) + (Buffered(u) + p) == written + p;
    }
  }

  lemma WriteKeeps(u: Upload, p: Bytes, startOK: bool, uploadOK: bool, written: Bytes)
    requires Writing(u, written)
    ensures var (v, ok) := Write(u, p, startOK, uploadOK);
      Writing(v, written + p) && (v.abort <==> u.abort || !ok)
  {
    if !u.abort {
      if |Buffered(u) + p| > Threshold(u.part) {
        FullBufferKeeps(u, p, startOK, uploadOK, written);
      } else {
        assert Parts(u.b, u.part) + (Buffered(u) + p) == written + p;
      }
    }
  }

  lemma {:induction false} ThresholdPositive(i: nat)
    ensures Threshold(i) >= BASE_SIZE
  {
    if i < 6 { Pow2Positive(i); }
  }

  lemma {:induction false} Pow2Positive(i: nat)
    ensures Pow2(i) >= 1
  {
    if i > 0 { Pow2Positive(i - 1); }
  }

  // ---- runs

  datatype Call = Call(p: Bytes, startOK: bool, uploadOK: bool)

  function Run(calls: seq<Call>): Upload {
    if calls == [] then NEW
    else var c := calls[|calls| - 1]; Write(Run(calls[..|calls| - 1]), c.p, c.startOK, c.uploadOK).0
  }

  function Written(calls: seq<Call>): Bytes {
    if calls == [] then "" else Written(calls[..|calls| - 1]) + calls[|calls| - 1].p
  }

  /** After any sequence of Writes the uploaded parts followed by the buffer are exactly the bytes
      written, every part being over its threshold, or the upload is marked to be aborted. */
  lemma {:induction false} RunWrites(calls: seq<Call>)
    ensures Writing(Run(calls), Written(calls))
  {
    if calls == [] {
      ThresholdPositive(0);
    } else {
      RunWrites(calls[..|calls| - 1]);
      var c := calls[|calls| - 1];
      WriteKeeps(Run(calls[..|calls| - 1]), c.p, c.startOK, c.uploadOK, Written(calls[..|calls| - 1]));
    }
  }

  predicate FailedAt(calls: seq<Call>, i: nat)
    requires i < |calls|
  {
    !Write(Run(calls[..i]), calls[i].p, calls[i].startOK, calls[i].uploadOK).1
  }

  /** Some Write returned an error. */
  predicate SomeWriteFailed(calls: seq<Call>) {
    exists i :: 0 <= i < |calls| && FailedAt(calls, i)
  }

  lemma FailedBefore(calls: seq<Call>, i: nat)
    requires i < |calls| - 1
    ensures FailedAt(calls, i) == FailedAt(calls[..|calls| - 1], i)
  {
    assert calls[..|calls| - 1][..i] == calls[..i];
  }

  lemma LastWriteAborts(calls: seq<Call>)
    requires calls != []
    ensures Run(calls).abort <==> Run(calls[..|calls| - 1]).abort || FailedAt(calls, |calls| - 1)
  {
    var c, before := calls[|calls| - 1], calls[..|calls| - 1];
    RunWrites(before);
    WriteKeeps(Run(before), c.p, c.startOK, c.uploadOK, Written(before));
  }

  lemma {:induction false} AbortsIffFailed(calls: seq<Call>)
    ensures Run(calls).abort <==> SomeWriteFailed(calls)
  {
    if calls != [] {
      var before := calls[..|calls| - 1];
      AbortsIffFailed(before);
      LastWriteAborts(calls);
      forall i | 0 <= i < |before|
        ensures FailedAt(calls, i) == FailedAt(before, i)
      {
        FailedBefore(calls, i);
      }
    }
  }

  lemma {:induction false} JoinedIsParts(u: Upload, k: nat)
    requires PartsNumbered(u, |u.etags|) && k <= |u.etags|
    ensures Joined(u.b, Numbered(u.etags)[..k]) == Some(Parts(u.b, k))
  {
    if k > 0 {
      JoinedIsParts(u, k - 1);
      assert Numbered(u.etags)[..k][..k - 1] == Numbered(u.etags)[..k - 1];
    }
  }

  lemma CompletePublishes(u: Upload, completeOK: bool)
    requires PartsNumbered(u, |u.etags|) && u.etags != []
    ensures var (v, ok) := Complete(u, completeOK);
      ok == completeOK && v.b.published == if ok then Some(Parts(u.b, |u.etags|)) else u.b.published
  {
    JoinedIsParts(u, |u.etags|);
    assert Numbered(u.etags)[..|u.etags|] == Numbered(u.etags);
  }

  /** Close publishes everything that was written or nothing: everything exactly when no Write failed and
      Close returns nil. */
  lemma ClosePublishes(calls: seq<Call>, f: CloseFaults)
    ensures var (v, ok) := Close(Run(calls), f);
      v.b.published == if ok && !SomeWriteFailed(calls) then Some(Written(calls)) else None
  {
    var u, all := Run(calls), Written(calls);
    RunWrites(calls);
    AbortsIffFailed(calls);
    if !u.abort {
      if !u.isMulti {
        assert Parts(u.b, 0) + Buffered(u) == Buffered(u);
      } else if Buffered(u) != "" {
        UploadPartKeeps(u, Buffered(u), f.startOK, f.uploadOK);
        var (v, ok) := UploadPart(u, Buffered(u), f.startOK, f.uploadOK);
        if ok { CompletePublishes(v, f.completeOK); }
      } else {
        assert Parts(u.b, u.part) + "" == Parts(u.b, u.part);
        CompletePublishes(u, f.completeOK);
      }
    }
  }

  /** Close alone does not tell: after a failed Write it can return nil although nothing is published. */
  lemma AbortedCloseReturnsNil(calls: seq<Call>, f: CloseFaults)
    requires SomeWriteFailed(calls) && f.abortOK
    ensures Close(Run(calls), f).1 && Close(Run(calls), f).0.b.published == None
  {
    AbortsIffFailed(calls);
    ClosePublishes(calls, f);
  }

  // ---- sizes

  /** The least total of the first k parts. */
  function LeastTotal(k: nat): int {
    if k == 0 then 0 else LeastTotal(k - 1) + Threshold(k - 1)
  }

  lemma {:induction false} LeastTotalBound(k: nat)
    ensures k >= 6 ==> LeastTotal(k) == 63 * BASE_SIZE + (k - 6) * MAX_SIZE
    ensures LeastTotal(k) >= 0
  {
    if k > 6 {
      LeastTotalBound(k - 1);
    } else if k > 0 {
      LeastTotalBound(k - 1);
      ThresholdPositive(k - 1);
      assert Pow2(1) == 2 && Pow2(2) == 4 && Pow2(3) == 8 && Pow2(4) == 16 && Pow2(5) == 32;
      if k == 6 {
        assert LeastTotal(1) == BASE_SIZE;
        assert LeastTotal(2) == 3 * BASE_SIZE;
        assert LeastTotal(3) == 7 * BASE_SIZE;
        assert LeastTotal(4) == 15 * BASE_SIZE;
        assert LeastTotal(5) == 31 * BASE_SIZE;
      }
    }
  }

  lemma {:induction false} PartsAtLeast(u: Upload, k: nat)
    requires PartsNumbered(u, u.part) && k <= u.part
    requires forall i :: 0 <= i < u.part ==> |u.b.uploaded[i + 1].data| > Threshold(i)
    ensures |Parts(u.b, k)| >= LeastTotal(k)
  {
    if k > 0 {
      PartsAtLeast(u, k - 1);
      assert |u.b.uploaded[(k - 1) + 1].data| > Threshold(k - 1);
    }
  }

  /** How many parts closing sends: those uploaded, and one more for what is in the buffer. */
  function PartCount(u: Upload): nat {
    u.part + (if Buffered(u) != "" then 1 else 0)
  }

  lemma FewAtMost(k: nat)
    requires LeastTotal(k) <= 5 * 1024 * 1024 * MIB
    ensures k < 1299
  {
    LeastTotalBound(k);
  }

  lemma PartsWithin(u: Upload, written: Bytes)
    requires Writing(u, written) && !u.abort
    ensures LeastTotal(u.part) <= |written|
  {
    PartsAtLeast(u, u.part);
    assert |Parts(u.b, u.part)| + |Buffered(u)| == |written|;
  }

  /** An object of at most 5 TiB needs fewer than 1300 parts. */
  lemma FewParts(calls: seq<Call>)
    requires !SomeWriteFailed(calls) && |Written(calls)| <= 5 * 1024 * 1024 * MIB
    ensures PartCount(Run(calls)) < 1300
  {
    RunWrites(calls);
    AbortsIffFailed(calls);
    PartsWithin(Run(calls), Written(calls));
    FewAtMost(Run(calls).part);
  }
}
