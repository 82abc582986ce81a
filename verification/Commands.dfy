/** The commands of a transaction and what executing them does to the item being written
    (transaction/transaction.go). */
module Commands {
  import opened Prelude
  import opened Names
  import opened TxModel
  import opened ItemModel
  import opened ItemSafety
  import R = ItemRuns

  /** A file in the upload area, with the size and hashes it was declared to have; `data` is what reading it
      yields, in full when `readerOK`, up to the error otherwise. */
  datatype Upload = Upload(data: Bytes, readerOK: bool, size: int, md5: Bytes, sha256: Bytes, mimeType: string)

  datatype Cmd =
    | Delete(id: int)
    | Slot(path: string, ref: string)
    | Note(text: string)
    | Add(file: string)
    | MimeType(bid: string, mimeType: string)
    | Sleep

  /** How a list of words is understood; None when it is not well formed. */
  function Parse(c: Command): Option<Cmd> {
    if !WellFormed(c) then None
    else match |c|
      case 1 => Some(Sleep)
      case 2 =>
        if c[0] == "delete" then Some(Delete(ParseInt(c[1]).value))
        else if c[0] == "note" then Some(Note(c[1]))
        else Some(Add(c[1]))
      case _ => if c[0] == "slot" then Some(Slot(c[1], c[2])) else Some(MimeType(c[1], c[2]))
  }

  /** A Commit under way: the item's writer, which files became which blobs, and the bytes first written
      for each blob (history, which no operation reads). */
  datatype Exec = Exec(s: Session, blobMap: map<string, int>, orig: seq<Bytes>)

  /** One call on the writer. */
  function Call(h: Hasher, x: Exec, op: R.Op): Exec {
    x.(s := R.Apply(h, x.s, op), orig := R.ApplyOrig(x.s, x.orig, op))
  }

  /** A blob of this transaction or, failing that, a blob id. */
  function Resolve(blobMap: map<string, int>, ref: string): Option<int> {
    if ref in blobMap then Some(blobMap[ref]) else ParseInt(ref)
  }

  /** "add": write the uploaded file, remember its blob, and give the blob its type. */
  function AddFile(h: Hasher, x: Exec, file: string, f: Upload): Outcome<Exec> {
    var y := Call(h, x, R.Write(f.data, f.readerOK, f.size, f.md5, f.sha256));
    var id := WriteBlob(h, x.s, f.data, f.readerOK, f.size, f.md5, f.sha256).1;
    if id == 0 then Outcome(y, false) else Outcome(Noted(h, y, file, id, f.mimeType), true)
  }

  /** The file is known to be this blob, and the blob to be of this type. */
  function Noted(h: Hasher, y: Exec, file: string, id: int, mimeType: string): Exec {
    Call(h, y.(blobMap := y.blobMap[file := id]), R.SetMimeType(id, mimeType))
  }

  function Execute(h: Hasher, up: map<string, Upload>, x: Exec, c: Cmd): Outcome<Exec> {
    match c
    case Delete(id) => Outcome(Call(h, x, R.DeleteBlob(id)), true)
    case Slot(path, ref) => (
      match Resolve(x.blobMap, ref)
      case None => Outcome(x, false)
      case Some(id) => Outcome(Call(h, x, R.SetSlot(path, id)), true))
    case Note(text) => Outcome(Call(h, x, R.SetNote(text)), true)
    case Add(file) =>
      if file !in up then Outcome(x, false) else AddFile(h, x, file, up[file])
    case MimeType(bid, mimeType) => (
      match ParseInt(bid)
      case None => Outcome(x, false)
      case Some(id) => Outcome(Call(h, x, R.SetMimeType(id, mimeType)), true))
    case Sleep => Outcome(x, true)
  }

  /** The loop of Commit: it stops at the first command that fails. */
  function ExecuteAll(h: Hasher, up: map<string, Upload>, x: Exec, cs: seq<Command>): Outcome<Exec> {
    if cs == [] then Outcome(x, true)
    else
      var before := ExecuteAll(h, up, x, cs[..|cs| - 1]);
      if !before.ok then before
      else match Parse(cs[|cs| - 1])
        case None => Outcome(before.state, false)
        case Some(c) => Execute(h, up, before.state, c)
  }

  lemma ExecuteNext(h: Hasher, up: map<string, Upload>, x: Exec, cs: seq<Command>, c: Command)
    requires ExecuteAll(h, up, x, cs).ok && Parse(c) != None
    ensures ExecuteAll(h, up, x, cs + [c]) == Execute(h, up, ExecuteAll(h, up, x, cs).state, Parse(c).value)
  {
    assert (cs + [c])[..|cs + [c]| - 1] == cs;
  }

  lemma {:induction false} ExecuteConcat(h: Hasher, up: map<string, Upload>, x: Exec, a: seq<Command>, b: seq<Command>)
    requires ExecuteAll(h, up, x, a).ok
    ensures ExecuteAll(h, up, x, a + b) == ExecuteAll(h, up, ExecuteAll(h, up, x, a).state, b)
  {
    if b == [] {
      assert a + b == a;
    } else {
      ExecuteConcat(h, up, x, a, b[..|b| - 1]);
      assert (a + b)[..|a + b| - 1] == a + b[..|b| - 1];
    }
  }

  lemma ExecuteSafe(h: Hasher, up: map<string, Upload>, x: Exec, c: Cmd)
    requires SafeSession(h, x.s, x.orig)
    ensures var y := Execute(h, up, x, c).state; SafeSession(h, y.s, y.orig)
  {
    match c
    case Delete(id) => R.ApplySafe(h, x.s, R.DeleteBlob(id), x.orig);
    case Slot(path, ref) =>
      if Resolve(x.blobMap, ref) != None {
        R.ApplySafe(h, x.s, R.SetSlot(path, Resolve(x.blobMap, ref).value), x.orig);
      }
    case Note(text) => R.ApplySafe(h, x.s, R.SetNote(text), x.orig);
    case Add(file) =>
      if file in up {
        var f := up[file];
        var op := R.Write(f.data, f.readerOK, f.size, f.md5, f.sha256);
        R.ApplySafe(h, x.s, op, x.orig);
        var y := Call(h, x, op);
        var id := WriteBlob(h, x.s, f.data, f.readerOK, f.size, f.md5, f.sha256).1;
        R.ApplySafe(h, y.s, R.SetMimeType(id, f.mimeType), y.orig);
      }
    case MimeType(bid, mimeType) =>
      if ParseInt(bid) != None { R.ApplySafe(h, x.s, R.SetMimeType(ParseInt(bid).value, mimeType), x.orig); }
    case Sleep =>
  }

  /** Commit, the commands being whatever the user sent: the item stays safe to close. */
  lemma {:induction false} ExecuteAllSafe(h: Hasher, up: map<string, Upload>, x: Exec, cs: seq<Command>)
    requires SafeSession(h, x.s, x.orig)
    ensures var y := ExecuteAll(h, up, x, cs).state; SafeSession(h, y.s, y.orig)
  {
    if cs != [] {
      var front, last := cs[..|cs| - 1], cs[|cs| - 1];
      ExecuteAllSafe(h, up, x, front);
      if Parse(last) != None { ExecuteSafe(h, up, ExecuteAll(h, up, x, front).state, Parse(last).value); }
    }
  }
}
