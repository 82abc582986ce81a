/** Executing a transaction's commands on the item's Writer. */
module CommandObjects {
  import opened Prelude
  import opened Names
  import opened TxModel
  import opened ItemModel
  import opened ItemSafety
  import opened ItemWriter
  import M = Commands
  import opened Commands

  class Execution {
    const iw: Writer
    var blobMap: map<string, int>
    ghost var orig: seq<Bytes>   // the bytes first written for each blob

    ghost predicate Wired()
    {
      iw.Wired()
    }

    ghost function State(): Exec
      reads this, iw, iw.bw, iw.bw.store, iw.bw.item
    {
      Exec(iw.State(), blobMap, orig)
    }

    constructor (iw: Writer, ghost orig: seq<Bytes>)
      requires iw.Wired()
      ensures Wired() && this.iw == iw && State() == Exec(iw.State(), map[], orig)
    {
      this.iw, this.blobMap, this.orig := iw, map[], orig;
    }

    method AddFile(h: Hasher, f: Upload, file: string) returns (ok: bool)
      requires Wired()
      modifies this, iw, iw.bw, iw.bw.store, iw.item
      ensures Outcome(State(), ok) == M.AddFile(h, old(State()), file, f)
    {
      orig := WrittenOrig(iw.State(), orig, f.data, f.size, f.md5, f.sha256);
      var bid := iw.WriteBlob(h, f.data, f.readerOK, f.size, f.md5, f.sha256);
      if bid == 0 {
        return false;
      }
      blobMap := blobMap[file := bid];
      iw.SetMimeType(bid, f.mimeType);
      return true;
    }

    method Execute(h: Hasher, up: map<string, Upload>, c: Cmd) returns (ok: bool)
      requires Wired()
      modifies this, iw, iw.bw, iw.bw.store, iw.item
      ensures Outcome(State(), ok) == M.Execute(h, up, old(State()), c)
    {
      match c
      case Delete(id) =>
        iw.DeleteBlob(id);
        return true;
      case Slot(path, ref) =>
        var id := if ref in blobMap then Some(blobMap[ref]) else ParseInt(ref);
        if id == None {
          return false;
        }
        iw.SetSlot(path, id.value);
        return true;
      case Note(text) =>
        iw.SetNote(text);
        return true;
      case Add(file) =>
        if file !in up {
          return false;
        }
        ok := AddFile(h, up[file], file);
      case MimeType(bid, mimeType) =>
        var id := ParseInt(bid);
        if id == None {
          return false;
        }
        iw.SetMimeType(id.value, mimeType);
        return true;
      case Sleep =>
        return true;
    }

    /** The loop of Commit, which stops at the first command that fails. */
    method ExecuteAll(h: Hasher, up: map<string, Upload>, cs: seq<Command>) returns (ok: bool)
      requires Wired()
      modifies this, iw, iw.bw, iw.bw.store, iw.item
      ensures Outcome(State(), ok) == M.ExecuteAll(h, up, old(State()), cs)
    {
      for i := 0 to |cs|
        invariant Outcome(State(), true) == M.ExecuteAll(h, up, old(State()), cs[..i])
      {
        assert cs[..i + 1][..i] == cs[..i];
        var c := Parse(cs[i]);
        ok := false;
        if c != None {
          ok := Execute(h, up, c.value);
        }
        if !ok {
          Stopped(h, up, old(State()), cs, i + 1);
          return false;
        }
      }
      assert cs[..|cs|] == cs;
      return true;
    }
  }

  /** After a command that failed nothing more happens. */
  lemma {:induction false} Stopped(h: Hasher, up: map<string, Upload>, x: Exec, cs: seq<Command>, i: nat)
    requires i <= |cs| && !M.ExecuteAll(h, up, x, cs[..i]).ok
    ensures M.ExecuteAll(h, up, x, cs) == M.ExecuteAll(h, up, x, cs[..i])
    decreases |cs| - i
  {
    if i == |cs| {
      assert cs[..i] == cs;
    } else {
      assert cs[..i + 1][..i] == cs[..i];
      Stopped(h, up, x, cs, i + 1);
    }
  }
}
