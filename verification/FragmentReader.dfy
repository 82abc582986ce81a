/** fragreader: one reader over a list of fragments, each opened when the one before has ended. */
module FragmentReader {
  import opened Prelude
  import opened FragmentModel

  /** `current` is the open fragment's content; `offset` counts from its start. */
  datatype Reader = Reader(keys: seq<string>, current: Option<Bytes>, offset: nat)

  /** The fragments are there, and reading has not gone past the end of the open one. */
  predicate Readable(store: map<string, Bytes>, r: Reader) {
    && (forall i :: 0 <= i < |r.keys| ==> r.keys[i] in store)
    && (r.current != None ==> r.offset <= |r.current.value|)
  }

  /** How much a fragment's ReadAt returns, and whether it says EOF with it. All stores return what fits and
      say EOF when there is nothing; with the last bytes some do (`eager`) and some do not. */
  function ReadAt(data: Bytes, offset: nat, len: nat, eager: bool): (nat, bool)
    requires offset <= |data|
  {
    var n := if len < |data| - offset then len else |data| - offset;
    (n, offset + n == |data| && (n == 0 || eager))
  }

  /** Read into a buffer of the given length: the bytes, whether EOF is returned, and the reader after. */
  function Read(store: map<string, Bytes>, r: Reader, len: nat, eager: nat -> bool): (Bytes, bool, Reader)
    requires Readable(store, r) && len > 0
    decreases |r.keys|, if r.current == None then 0 else 1
  {
    if r.keys == [] && r.current == None then ("", true, r)
    else
      var s := Opened(store, r);
      var (n, eof) := ReadAt(s.current.value, s.offset, len, eager(|s.keys|));
      var t := Taken(s, n, eof);
      if n > 0 then (s.current.value[s.offset..s.offset + n], false, t) else Read(store, t, len, eager)
  }

  function Opened(store: map<string, Bytes>, r: Reader): (s: Reader)
    requires Readable(store, r) && !(r.keys == [] && r.current == None)
    ensures Readable(store, s) && s.current != None
  {
    if r.current != None then r else Reader(r.keys[1..], Some(store[r.keys[0]]), 0)
  }

  /** What is still to be read. */
  function Rest(store: map<string, Bytes>, r: Reader): Bytes
    requires Readable(store, r)
  {
    (if r.current == None then "" else r.current.value[r.offset..]) + Concat(store, r.keys)
  }

  function Concat(store: map<string, Bytes>, keys: seq<string>): Bytes
    requires forall i :: 0 <= i < |keys| ==> keys[i] in store
  {
    if keys == [] then "" else store[keys[0]] + Concat(store, keys[1..])
  }

  lemma OpenedRest(store: map<string, Bytes>, r: Reader)
    requires Readable(store, r) && !(r.keys == [] && r.current == None)
    ensures Rest(store, Opened(store, r)) == Rest(store, r)
  {
  }

  /** The open fragment after n bytes of it have been taken, closed if that is all. */
  function Taken(s: Reader, n: nat, eof: bool): Reader {
    if eof then Reader(s.keys, None, s.offset + n) else s.(offset := s.offset + n)
  }

  lemma TakenRest(store: map<string, Bytes>, s: Reader, n: nat, eof: bool)
    requires Readable(store, s) && s.current != None && s.offset + n <= |s.current.value|
    requires eof ==> s.offset + n == |s.current.value|
    ensures Readable(store, Taken(s, n, eof))
    ensures s.current.value[s.offset..s.offset + n] + Rest(store, Taken(s, n, eof)) == Rest(store, s)
  {
    var data := s.current.value;
    assert data[s.offset..s.offset + n] + data[s.offset + n..] == data[s.offset..];
    if eof { assert data[s.offset + n..] == ""; }
  }

  /** A Read with a non-empty buffer takes the next bytes off what is left, at least one unless nothing is
      left, and says EOF exactly then; empty fragments are passed over. */
  lemma {:induction false} ReadExact(store: map<string, Bytes>, r: Reader, len: nat, eager: nat -> bool)
    requires Readable(store, r) && len > 0
    ensures var (data, eof, t) := Read(store, r, len, eager);
      && Readable(store, t) && |data| <= len
      && data + Rest(store, t) == Rest(store, r)
      && (eof <==> Rest(store, r) == "") && (data == "" <==> eof)
    decreases |r.keys|, if r.current == None then 0 else 1
  {
    if !(r.keys == [] && r.current == None) {
      OpenedRest(store, r);
      var s := Opened(store, r);
      var (n, eof) := ReadAt(s.current.value, s.offset, len, eager(|s.keys|));
      TakenRest(store, s, n, eof);
      if n == 0 { ReadExact(store, Taken(s, n, eof), len, eager); }
    }
  }

  // ---- reading into an empty buffer

  predicate Ended(r: Reader) {
    r.keys == [] && r.current == None
  }

  /** One turn of Read's loop with an empty buffer. A store answers with no bytes; at the end of a fragment it may say
      EOF with that, which `says` tells for each fragment, by the number of those after it, or may not. Nothing is
      returned until the loop has ended. */
  function EmptyTurn(store: map<string, Bytes>, r: Reader, says: nat -> bool): (t: Reader)
    requires Readable(store, r) && !Ended(r)
    ensures Readable(store, t)
  {
    var s := Opened(store, r);
    Taken(s, 0, s.offset == |s.current.value| && says(|s.keys|))
  }

  function EmptyTurns(store: map<string, Bytes>, r: Reader, says: nat -> bool, n: nat): (t: Reader)
    requires Readable(store, r)
    ensures Readable(store, t)
    decreases n
  {
    if n == 0 || Ended(r) then r else EmptyTurns(store, EmptyTurn(store, r, says), says, n - 1)
  }

  ghost predicate Ends(store: map<string, Bytes>, r: Reader, says: nat -> bool)
    requires Readable(store, r)
  {
    exists n: nat :: Ended(EmptyTurns(store, r, says, n))
  }

  /** How many fragments the reader has not closed. */
  function Left(r: Reader): nat {
    |r.keys| + if r.current == None then 0 else 1
  }

  /** No bytes are left, and the store says EOF to an empty read at the end of each fragment that is. */
  ghost predicate SaysSo(store: map<string, Bytes>, r: Reader, says: nat -> bool)
    requires Readable(store, r)
  {
    Rest(store, r) == "" && AllSay(says, Left(r))
  }

  ghost predicate AllSay(says: nat -> bool, n: nat) {
    forall k :: 0 <= k < n ==> says(k)
  }

  lemma SaysSoTurn(store: map<string, Bytes>, r: Reader, says: nat -> bool)
    requires Readable(store, r) && !Ended(r)
    ensures var s := Opened(store, r);
      var eof := s.offset == |s.current.value| && says(|s.keys|);
      SaysSo(store, r, says) <==> eof && SaysSo(store, EmptyTurn(store, r, says), says)
  {
    OpenedRest(store, r);
    var s := Opened(store, r);
    var eof := s.offset == |s.current.value| && says(|s.keys|);
    assert |Rest(store, s)| == |s.current.value| - s.offset + |Concat(store, s.keys)|;
    assert AllSay(says, Left(r)) <==> says(|s.keys|) && AllSay(says, |s.keys|);
    if eof { TakenRest(store, s, 0, eof); }
  }

  /** A turn that does not close the fragment leaves the next one just the same to do. */
  lemma {:induction false} Stuck(store: map<string, Bytes>, s: Reader, says: nat -> bool, n: nat)
    requires Readable(store, s) && s.current != None && !(s.offset == |s.current.value| && says(|s.keys|))
    ensures EmptyTurns(store, s, says, n) == s
    decreases n
  {
    if n > 0 { Stuck(store, s, says, n - 1); }
  }

  /** A Read with an empty buffer ends, after passing over all that is left, if and only if no bytes are left and the
      store says EOF to empty reads at the end of every fragment still to be closed; otherwise it loops forever. */
  lemma {:induction false} EmptyReadEndsIff(store: map<string, Bytes>, r: Reader, says: nat -> bool)
    requires Readable(store, r)
    ensures Ends(store, r, says) <==> SaysSo(store, r, says)
    ensures SaysSo(store, r, says) ==> Ended(EmptyTurns(store, r, says, Left(r)))
    decreases Left(r)
  {
    if Ended(r) {
      assert Ended(EmptyTurns(store, r, says, 0));
    } else {
      SaysSoTurn(store, r, says);
      var s, t := Opened(store, r), EmptyTurn(store, r, says);
      if s.offset == |s.current.value| && says(|s.keys|) {
        EmptyReadEndsIff(store, t, says);
        assert EmptyTurns(store, r, says, Left(r)) == EmptyTurns(store, t, says, Left(t));
        if Ends(store, r, says) {
          var n: nat :| Ended(EmptyTurns(store, r, says, n));
          assert n > 0 && Ended(EmptyTurns(store, t, says, n - 1));
          assert Ends(store, t, says);
        }
      } else {
        assert t == s;
        forall n: nat
          ensures !Ended(EmptyTurns(store, r, says, n))
        {
          if n > 0 { Stuck(store, s, says, n - 1); }
        }
      }
    }
  }

  // ---- reading to the end

  /** What a sequence of Reads yields, the i-th with a buffer of lens[i] bytes. */
  function ReadAll(store: map<string, Bytes>, r: Reader, lens: seq<nat>, eager: nat -> bool): (Bytes, bool)
    requires Readable(store, r) && forall i :: 0 <= i < |lens| ==> lens[i] > 0
    decreases |lens|
  {
    if lens == [] then ("", false)
    else
      ReadExact(store, r, lens[0], eager);
      var (data, eof, t) := Read(store, r, lens[0], eager);
      if eof then ("", true)
      else
        var (more, end) := ReadAll(store, t, lens[1..], eager);
        (data + more, end)
  }

  /** Whatever the buffers, as many Reads as there are bytes, and one, reach the end, and what they return up
      to EOF is exactly the concatenation. */
  lemma {:induction false} ReadAllExact(store: map<string, Bytes>, r: Reader, lens: seq<nat>, eager: nat -> bool)
    requires Readable(store, r) && forall i :: 0 <= i < |lens| ==> lens[i] > 0
    ensures var (data, end) := ReadAll(store, r, lens, eager);
      && (end ==> data == Rest(store, r))
      && (|lens| > |Rest(store, r)| ==> end)
    decreases |lens|
  {
    if lens != [] {
      ReadExact(store, r, lens[0], eager);
      var (data, eof, t) := Read(store, r, lens[0], eager);
      if !eof {
        ReadAllExact(store, t, lens[1..], eager);
        assert |Rest(store, r)| == |data| + |Rest(store, t)|;
      }
    }
  }

  /** file.Open. */
  function Open(f: File): Reader {
    Reader(seq(|f.children|, i requires 0 <= i < |f.children| => f.children[i].key), None, 0)
  }

  lemma {:induction false} ConcatSnoc(store: map<string, Bytes>, keys: seq<string>, key: string)
    requires key in store && forall i :: 0 <= i < |keys| ==> keys[i] in store
    ensures Concat(store, keys + [key]) == Concat(store, keys) + store[key]
  {
    if keys != [] {
      ConcatSnoc(store, keys[1..], key);
      assert (keys + [key])[1..] == keys[1..] + [key];
    }
  }

  lemma {:induction false} ConcatIsJoined(store: map<string, Bytes>, keys: seq<string>, pieces: seq<Bytes>)
    requires |keys| == |pieces| && forall i :: 0 <= i < |keys| ==> keys[i] in store && pieces[i] == store[keys[i]]
    ensures Concat(store, keys) == Joined(pieces)
  {
    if keys != [] {
      var k := |keys| - 1;
      ConcatIsJoined(store, keys[..k], pieces[..k]);
      ConcatSnoc(store, keys[..k], keys[k]);
      assert keys[..k] + [keys[k]] == keys;
    }
  }

  /** Opening a file and reading it gives the pieces appended to it, joined. */
  lemma OpenReadsFile(store: map<string, Bytes>, f: File)
    requires ChildrenOK(store, f)
    ensures Readable(store, Open(f)) && Rest(store, Open(f)) == Joined(Pieces(store, f.children))
  {
    forall i | 0 <= i < |f.children|
      ensures f.children[i].key in store
    {
      assert ChildOK(store, f, f.children[i]);
    }
    ConcatIsJoined(store, Open(f).keys, Pieces(store, f.children));
  }
}
