/** s3WriteCloser as an object over the service it sends its requests to. */
module S3WriterObject {
  import opened Prelude
  import M = S3Writer
  import opened S3Writer

  /** The requests the writer makes. Each is told whether it is to succeed. */
  class Service {
    var b: Bucket

    constructor ()
      ensures b == NEW.b
    {
      b := NEW.b;
    }

    method UploadPart(number: int, data: Bytes, ok: bool) returns (etag: Option<nat>)
      modifies this
      ensures !ok ==> etag == None && b == old(b)
      ensures ok ==> etag == Some(old(b.tags)) && b.published == old(b.published) && b.tags == old(b.tags) + 1
                     && b.uploaded == old(b.uploaded)[number := Part(data, old(b.tags))]
    {
      etag := None;
      if ok {
        etag := Some(b.tags);
        b := b.(uploaded := b.uploaded[number := Part(data, b.tags)], tags := b.tags + 1);
      }
    }

    method CompleteUpload(parts: seq<Completed>, completeOK: bool) returns (ok: bool)
      modifies this
      ensures (b, ok) == M.CompleteUpload(old(b), parts, completeOK)
    {
      var r := M.CompleteUpload(b, parts, completeOK);
      b := r.0;
      ok := r.1;
    }

    /** The bucket drops the parts whether or not the answer arrives. */
    method AbortUpload()
      modifies this
      ensures b == old(b).(uploaded := map[])
    {
      b := b.(uploaded := map[]);
    }

    method PutObject(data: Bytes, ok: bool)
      modifies this
      ensures b == if ok then old(b).(published := Some(data)) else old(b)
    {
      if ok { b := b.(published := Some(data)); }
    }
  }

  class S3WriteCloser {
    const svc: Service
    var buf: Option<Bytes>
    var isMulti: bool
    var part: nat
    var etags: seq<nat>
    var abort: bool

    function State(): Upload
      reads this, svc
    {
      Upload(buf, isMulti, part, etags, abort, svc.b)
    }

    constructor (svc: Service)
      ensures this.svc == svc && State() == NEW.(b := svc.b)
    {
      this.svc := svc;
      buf, isMulti, part, etags, abort := None, false, 0, [], false;
    }

    /** Reports no error of its own: after a failed start uploading the part fails. */
    method StartMultipart(startOK: bool)
      modifies this`isMulti
      ensures isMulti == (old(isMulti) || startOK)
    {
      if isMulti { return; }
      isMulti := startOK;
    }

    method UploadPart(partno: nat, data: Bytes, startOK: bool, uploadOK: bool) returns (ok: bool)
      requires partno == part
      modifies this`isMulti, this`etags, svc
      ensures (State(), ok) == M.UploadPart(old(State()), data, startOK, uploadOK)
    {
      if !isMulti {
        StartMultipart(startOK);
      }
      var etag := svc.UploadPart(partno + 1, data, uploadOK && isMulti);
      match etag
      case None => return false;
      case Some(tag) =>
        etags := etags + [tag];
        return true;
    }

    method Write(p: Bytes, startOK: bool, uploadOK: bool) returns (n: nat, ok: bool)
      modifies this, svc
      ensures (State(), ok) == M.Write(old(State()), p, startOK, uploadOK)
      ensures n == if ok then |p| else 0
    {
      if buf == None {
        buf := Some("");
      }
      buf := Some(buf.value + p);
      var lowerLimit := MAX_SIZE;
      if part < 6 {
        lowerLimit := BASE_SIZE * Pow2(part);
      }
      if |buf.value| > lowerLimit {
        var sent := UploadPart(part, buf.value, startOK, uploadOK);
        buf := Some("");
        if !sent {
          abort := true;
          return 0, false;
        }
        part := part + 1;
      }
      return |p|, true;
    }

    method FinishMultipart(completeOK: bool) returns (ok: bool)
      modifies svc
      ensures (State(), ok) == M.Complete(old(State()), completeOK)
    {
      var completed: seq<Completed> := [];
      for i := 0 to |etags|
        invariant completed == Numbered(etags[..i])
      {
        assert etags[..i + 1][..i] == etags[..i];
        completed := completed + [Completed(etags[i], i + 1)];
      }
      assert etags[..|etags|] == etags;
      ok := svc.CompleteUpload(completed, completeOK);
    }

    /** The buffer goes back to the pool in every case. */
    method Close(f: CloseFaults) returns (ok: bool)
      modifies this, svc
      ensures (State(), ok) == var (u, r) := M.Close(old(State()), f); (u.(buf := None), r)
    {
      if isMulti {
        ok := CloseMulti(f);
      } else {
        ok := abort || f.putOK;
        if !abort {
          svc.PutObject(if buf == None then "" else buf.value, f.putOK);
        }
      }
      buf := None;
    }

    /** The part of Close for an upload that has started, with its jump back to the abort. */
    method CloseMulti(f: CloseFaults) returns (ok: bool)
      requires isMulti
      modifies this, svc
      ensures (State(), ok) == M.Close(old(State()), f)
    {
      if abort {
        svc.AbortUpload();
        return f.abortOK;
      }
      if buf != None && buf.value != "" {
        var sent := UploadPart(part, buf.value, f.startOK, f.uploadOK);
        if !sent {
          abort := true;
          svc.AbortUpload();
          return false;
        }
      }
      ok := FinishMultipart(f.completeOK);
    }
  }
}
