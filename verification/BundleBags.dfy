/** Bundles are bags: each committed bundle, written as BundleWriter writes it, has distinct stream names,
    reads back in order, and passes Verify. */
module BundleBags {
  import opened Prelude
  import Names
  import Text = BagText
  import B = BagModel
  import V = BagVerify
  import R = BagRoundTrip
  import Reading = BagReading
  import I = ItemModel
  import Runs = ItemRuns
  import Residence = ItemResidence

  /** BundleWriter.WriteBlob on the bag: a stream, its bytes, and its checksums. */
  function AddStream(h: Hasher, w: B.Draft, name: string, data: Bytes): B.Draft {
    B.SaveChecksum(h, B.WritePayload(B.CreatePayload(h, w, name), data))
  }

  function AddBlobs(h: Hasher, w: B.Draft, es: seq<I.Entry>): B.Draft
    requires forall e :: e in es ==> e.id >= 0
  {
    if es == [] then w
    else AddStream(h, AddBlobs(h, w, es[..|es| - 1]), Names.BlobName(es[|es| - 1].id), es[|es| - 1].data)
  }

  /** A bundle about to be closed: its blobs and then the item record. */
  function BagOf(h: Hasher, name: string, es: seq<I.Entry>, record: string): B.Draft
    requires forall e :: e in es ==> e.id >= 0
  {
    AddStream(h, AddBlobs(h, B.NewDraft(name), es), Names.INFO_NAME, record)
  }

  lemma BlobNameShape(id: nat)
    ensures Text.NoSpace(Names.BlobName(id)) && Names.BlobName(id) != Names.INFO_NAME
  {
    Names.DecimalDigits(id);
    assert Names.BlobName(id)[0] == 'b' && Names.INFO_NAME[0] == 'i';
    var s := Names.BlobName(id);
    forall i | 0 <= i < |s|
      ensures !Text.IsSpace(s[i])
    {
      if i < 5 { assert s[i] == "blob/"[i]; } else { assert s[i] == Names.Decimal(id)[i - 5]; }
    }
  }

  lemma DataName(name: string)
    requires Text.NoSpace(name)
    ensures R.IsPayloadName("data/" + name) && ("data/" + name)[5..] == name
  {
    var full := "data/" + name;
    assert full[..5] == "data/";
    forall i | 0 <= i < |full|
      ensures !Text.IsSpace(full[i])
    {
      assert full[i] == if i < 5 then "data/"[i] else name[i - 5];
    }
  }

  /** The counters play no part in what is tracked. */
  lemma CountersApart(h: Hasher, w: B.Draft, ns: nat, sz: nat)
    requires R.Tracked(h, w)
    ensures R.Tracked(h, w.(ns := ns, sz := sz))
  {
    var c := w.(ns := ns, sz := sz);
    assert forall f :: R.Has(c, f) <==> R.Has(w, f);
  }

  lemma StreamTracked(h: Hasher, w: B.Draft, full: string, data: Bytes)
    requires R.Tracked(h, w) && !R.Has(w, full)
    ensures var b := B.Write(B.Create(h, w, full), data);
      R.Tracked(h, b) && b.files == w.files + [B.ZFile(full, data)]
  {
    R.CreateTracked(h, w, full);
    R.WriteTracked(h, B.Create(h, w, full), data);
    assert "" + data == data;
  }

  lemma StreamAdded(h: Hasher, w: B.Draft, name: string, data: Bytes)
    requires R.PayloadOnly(h, w) && Text.NoSpace(name) && !R.Has(w, "data/" + name)
    ensures var c := AddStream(h, w, name, data);
      && R.PayloadOnly(h, c) && c.dirname == w.dirname
      && c.files == w.files + [B.ZFile("data/" + name, data)]
      && c.ns == w.ns + 1 && c.sz == w.sz + |data|
  {
    var full := "data/" + name;
    DataName(name);
    StreamTracked(h, w, full, data);
    var b := B.Write(B.Create(h, w, full), data);
    var p := B.WritePayload(B.CreatePayload(h, w, name), data);
    CountersApart(h, b, w.ns + 1, w.sz + |data|);
    assert p == b.(ns := w.ns + 1, sz := w.sz + |data|);
    R.SaveSettles(h, p);
  }

  function TotalSize(es: seq<I.Entry>): nat {
    if es == [] then 0 else TotalSize(es[..|es| - 1]) + |es[|es| - 1].data|
  }

  lemma {:induction false} BlobsAdded(h: Hasher, name: string, es: seq<I.Entry>)
    requires forall e :: e in es ==> e.id >= 0
    requires Residence.DistinctIds(es)
    ensures var w := AddBlobs(h, B.NewDraft(name), es);
      && R.PayloadOnly(h, w) && w.dirname == name + "/" && Streams(w, es)
      && w.ns == |es| && w.sz == TotalSize(es)
  {
    if es == [] {
      R.NewTracked(h, name);
    } else {
      var before, e := es[..|es| - 1], es[|es| - 1];
      BlobsAdded(h, name, before);
      assert e in es;
      NewBlobName(AddBlobs(h, B.NewDraft(name), before), es);
      BlobNameShape(e.id);
      StreamAdded(h, AddBlobs(h, B.NewDraft(name), before), Names.BlobName(e.id), e.data);
    }
  }

  /** The files of a bag are the streams of these entries. */
  ghost predicate Streams(w: B.Draft, es: seq<I.Entry>)
    requires forall e :: e in es ==> e.id >= 0
  {
    && |w.files| == |es|
    && forall i :: 0 <= i < |es| ==> w.files[i] == B.ZFile("data/" + Names.BlobName(es[i].id), es[i].data)
  }

  lemma NewBlobName(w: B.Draft, es: seq<I.Entry>)
    requires es != [] && Residence.DistinctIds(es) && forall e :: e in es ==> e.id >= 0
    requires Streams(w, es[..|es| - 1])
    ensures es[|es| - 1] in es && !R.Has(w, "data/" + Names.BlobName(es[|es| - 1].id))
  {
    var e := es[|es| - 1];
    var full := "data/" + Names.BlobName(e.id);
    forall i | 0 <= i < |w.files|
      ensures w.files[i].name != full
    {
      assert es[i] in es && es[..|es| - 1][i] == es[i];
      if w.files[i].name == full {
        assert full[5..] == Names.BlobName(e.id) && w.files[i].name[5..] == Names.BlobName(es[i].id);
        Names.BlobNameInjective(es[i].id, e.id);
      }
    }
  }

  lemma NoInfoYet(w: B.Draft, es: seq<I.Entry>)
    requires (forall e :: e in es ==> e.id >= 0) && Streams(w, es)
    ensures !R.Has(w, "data/" + Names.INFO_NAME)
  {
    var full := "data/" + Names.INFO_NAME;
    assert full[5..] == Names.INFO_NAME;
    forall i | 0 <= i < |w.files|
      ensures w.files[i].name != full
    {
      assert es[i] in es;
      BlobNameShape(es[i].id);
      assert w.files[i].name[5..] == Names.BlobName(es[i].id);
    }
  }

  lemma InfoNameShape()
    ensures Text.NoSpace(Names.INFO_NAME)
  {
  }

  /** The bag of a bundle: blobs in order, then the record; octets and streams counted. */
  lemma BagHolds(h: Hasher, name: string, es: seq<I.Entry>, record: string)
    requires forall e :: e in es ==> e.id >= 0
    requires Residence.DistinctIds(es) && '/' !in name
    ensures var w := BagOf(h, name, es, record);
      && Reading.Bagged(h, w, name)
      && w.ns == |es| + 1 && w.sz == TotalSize(es) + |record|
      && |w.files| == |es| + 1 && Streams(w.(files := w.files[..|es|]), es)
      && w.files[|es|] == B.ZFile("data/" + Names.INFO_NAME, record)
  {
    BlobsAdded(h, name, es);
    var w := AddBlobs(h, B.NewDraft(name), es);
    NoInfoYet(w, es);
    InfoNameShape();
    StreamAdded(h, w, Names.INFO_NAME, record);
    assert BagOf(h, name, es, record).files[..|es|] == w.files;
  }

  /** A store content that occurs while a run is in state w: at rest, during the session so far, or in
      the middle of closing it. */
  ghost predicate Occurs(h: Hasher, w: Runs.World, t: I.Disk) {
    match w
    case Idle(disk, _, _) => t == disk
    case Busy(s, _) => t in s.b.trace || exists order, faults ::
      IsOrder(order, I.Marked(s).1.Keys) && t in I.CloseWriter(h, s, order, faults).state.b.trace
  }

  /** Every bundle the store holds at any moment of a clean run, written as a bag of any slash-free name
      with any record text and any map orders, passes Verify, and its payload reads back as the blobs'
      streams in order followed by the record. */
  lemma CommittedBundlesVerify(h: Hasher, ws: seq<Runs.World>, evs: seq<Runs.Event>, i: nat, t: I.Disk, k: int,
                               name: string, record: string, info: string, o: B.Orders)
    requires Residence.CleanRun(h, ws, evs) && i < |ws| && Occurs(h, ws[i], t) && k in t && '/' !in name
    ensures forall e :: e in t[k].entries ==> e.id >= 0
    ensures var es := t[k].entries;
      var w := BagOf(h, name, es, record);
      R.OrdersFit(h, w, info, o) ==>
        var z := B.ZipOf(B.CloseDraft(h, w, info, o));
        var names := B.PayloadNames(z, B.Dirname(z));
        && V.DistinctNames(z) && B.Verify(h, z, B.Dirname(z), map[]) == B.Good
        && |names| == |es| + 1 && names[|es|] == Names.INFO_NAME
        && forall j :: 0 <= j < |es| ==> names[j] == Names.BlobName(es[j].id)
                                         && (es[j].id <= Names.MAX_INT ==> Names.ExtractBlobID(names[j]) == es[j].id)
  {
    Residence.RunClean(h, ws, evs, i);
    Residence.BundlesHaveDistinctNames(h, ws, evs, i, t, k);
    var es := t[k].entries;
    BagHolds(h, name, es, record);
    var w := BagOf(h, name, es, record);
    if R.OrdersFit(h, w, info, o) {
      Reading.WrittenBagVerifies(h, w, name, info, o);
      Reading.NamesRoundTrip(h, w, name, info, o);
      var z := B.ZipOf(B.CloseDraft(h, w, info, o));
      var names := B.PayloadNames(z, B.Dirname(z));
      DataNameTail(names[|es|], w.files[|es|].name, Names.INFO_NAME);
      forall j | 0 <= j < |es|
        ensures names[j] == Names.BlobName(es[j].id)
        ensures es[j].id <= Names.MAX_INT ==> Names.ExtractBlobID(names[j]) == es[j].id
      {
        assert w.files[..|es|][j] == w.files[j];
        StreamNameReadBack(names[j], w.files[j].name, es[j].id);
      }
    }
  }

  lemma StreamNameReadBack(a: string, full: string, id: int)
    requires full == "data/" + a && id >= 0 && full == "data/" + Names.BlobName(id)
    ensures a == Names.BlobName(id)
    ensures id <= Names.MAX_INT ==> Names.ExtractBlobID(a) == id
  {
    DataNameTail(a, full, Names.BlobName(id));
    if id <= Names.MAX_INT { Names.BlobNameRoundTrip(id); }
  }

  lemma DataNameTail(a: string, full: string, b: string)
    requires full == "data/" + a && full == "data/" + b
    ensures a == b
  {
    assert ("data/" + a)[5..] == a && ("data/" + b)[5..] == b;
  }
}
