/** The fragment store, its files, their writers and their readers as objects. */
module FragmentObjects {
  import opened Prelude
  import M = FragmentModel
  import opened FragmentModel
  import R = FragmentReader

  class FragmentStore {
    var fragments: map<string, Bytes>
    var saved: map<string, File>
    var files: map<string, FileObject>

    ghost predicate Valid()
      reads this, files.Values
    {
      forall id :: id in files ==> files[id].id == id && files[id].parent == this
    }

    ghost function Views(): map<string, File>
      reads this, files.Values
    {
      map id | id in files :: files[id].View()
    }

    /** The state of FragmentModel, `writers` being the fragments now being written. */
    ghost function State(writers: seq<Writer>): FragmentModel.State
      reads this, files.Values
    {
      M.State(fragments, saved, Views(), writers)
    }

    constructor ()
      ensures Valid() && State([]) == M.State(map[], map[], map[], [])
    {
      fragments, saved, files := map[], map[], map[];
    }

    /** Keep an object for a file. */
    method Keep(f: File) returns (o: FileObject)
      requires Valid()
      modifies this`files
      ensures Valid() && fresh(o) && o.View() == f && files == old(files)[f.id := o]
      ensures Views() == old(Views())[f.id := f]
    {
      o := new FileObject(this, f);
      files := files[f.id := o];
    }

    /** null when there is a file of this name. */
    method New(id: string, ghost writers: seq<Writer>) returns (o: FileObject?)
      requires Valid()
      modifies this`files
      ensures Valid() && (o == null <==> !Enabled(old(State(writers)), Event.New(id)))
      ensures State(writers) == if o == null then old(State(writers)) else Step(old(State(writers)), Event.New(id))
    {
      if id in files {
        return null;
      }
      o := Keep(File(id, 0, 0, []));
    }

    /** The files of the saved records, at start-up. */
    method Load()
      requires Valid() && files == map[] && forall id :: id in saved ==> saved[id].id == id
      modifies this`files
      ensures Valid() && State([]) == old(State([])).(files := saved)
    {
      var rest, done := saved.Keys, {};
      while rest != {}
        invariant rest !! done && rest + done == saved.Keys && files.Keys == done
        invariant Valid() && saved == old(saved) && fragments == old(fragments)
        invariant forall id :: id in files ==> Views()[id] == saved[id]
      {
        var id :| id in rest;
        var _ := Keep(saved[id]);
        rest, done := rest - {id}, done + {id};
      }
      assert Views() == saved;
    }

    method DeleteFragments(f: FileObject)
      modifies this`fragments
      ensures fragments == old(fragments) - KeysOf(f.View())
    {
      for i := 0 to |f.children|
        invariant fragments == old(fragments) - set k | 0 <= k < i :: f.children[k].key
      {
        fragments := fragments - {f.children[i].key};
      }
    }

    method Delete(id: string, ghost writers: seq<Writer>)
      requires Valid() && forall w :: 0 <= w < |writers| ==> writers[w].id != id
      modifies this
      ensures Valid()
      ensures State(writers)
        == if id in old(files) then Step(old(State(writers)), Event.Delete(id)) else old(State(writers))
    {
      if id in files {
        var f := files[id];
        assert old(Views())[id] == f.View();
        files := files - {id};
        saved := saved - {id};
        DeleteFragments(f);
        assert Views() == old(Views()) - {id};
      }
    }
  }

  class FileObject {
    const parent: FragmentStore
    const id: string
    var size: int
    var n: nat
    var children: seq<Fragment>

    function View(): File
      reads this
    {
      File(id, size, n, children)
    }

    /** The store knows this object as the file of its name. */
    ghost predicate Known()
      reads parent, parent.files.Values
    {
      parent.Valid() && id in parent.files && parent.files[id] == this
    }

    constructor (parent: FragmentStore, f: File)
      ensures this.parent == parent && View() == f
    {
      this.parent, id, size, n, children := parent, f.id, f.size, f.n, f.children;
    }

    method Save(ghost writers: seq<Writer>)
      requires Known()
      modifies parent`saved
      ensures Known() && parent.State(writers) == M.Save(old(parent.State(writers)), View())
    {
      parent.saved := parent.saved[id := View()];
      assert parent.Views() == old(parent.Views())[id := View()];
    }

    /** A fragment has been put in place. */
    method Extend(key: string, size: int)
      requires Known()
      modifies this`size, this`children, parent`saved
      ensures Known() && View() == Grown(old(View()), key, size)
      ensures parent.Views() == old(parent.Views())[id := View()]
      ensures parent.saved == old(parent.saved)[id := View()]
    {
      this.size := this.size + size;
      children := children + [Fragment(key, size)];
      parent.saved := parent.saved[id := View()];
      assert parent.Views() == old(parent.Views())[id := View()];
    }

    /** null when the fragment cannot be created; its number is not used again either way. */
    method Append(createOK: bool, ghost writers: seq<Writer>) returns (w: FragmentWriter?)
      requires Known()
      modifies this`n
      ensures Known() && (w != null ==> fresh(w) && w.parent == this)
      ensures parent.State(if w == null then writers else writers + [w.View()])
           == AppendStep(old(parent.State(writers)), id, createOK)
    {
      assert parent.State(writers).files[id] == View();
      var key := Key(id, n);
      n := n + 1;
      assert parent.Views() == old(parent.Views())[id := View()];
      if !createOK || key in parent.fragments {
        return null;
      }
      w := new FragmentWriter(this, key);
    }

    method Rollback(ghost writers: seq<Writer>)
      requires Known() && children != []
      modifies this, parent`fragments, parent`saved
      ensures Known() && parent.State(writers) == RollbackStep(old(parent.State(writers)), id)
    {
      assert parent.State(writers).files[id] == View();
      var last := |children| - 1;
      var frag := children[last];
      parent.fragments := parent.fragments - {frag.key};
      children := children[..last];
      size := size - frag.size;
      parent.saved := parent.saved[id := View()];
      assert parent.Views() == old(parent.Views())[id := View()];
    }

    method Open() returns (r: FragmentReader)
      ensures fresh(r) && r.store == parent && r.State() == R.Open(View())
    {
      var keys := seq(|children|, i requires 0 <= i < |children| reads this => children[i].key);
      r := new FragmentReader(parent, keys);
    }
  }

  class FragmentWriter {
    const parent: FileObject
    const key: string
    var data: Bytes
    var size: int

    function View(): Writer
      reads this
    {
      Writer(parent.id, key, data)
    }

    ghost predicate Valid()
      reads this
    {
      size == |data|
    }

    constructor (parent: FileObject, key: string)
      ensures Valid() && this.parent == parent && this.key == key && data == ""
    {
      this.parent, this.key, data, size := parent, key, "", 0;
    }

    method Write(p: Bytes)
      requires Valid()
      modifies this
      ensures Valid() && data == old(data) + p
    {
      data := data + p;
      size := size + |p|;
    }

    method Close(closeOK: bool, ghost writers: seq<Writer>, ghost w: nat) returns (ok: bool)
      requires Valid() && parent.Known() && w < |writers| && writers[w] == View()
      modifies parent, parent.parent`fragments, parent.parent`saved
      ensures parent.Known() && ok == closeOK
      ensures parent.parent.State(Without(writers, w)) == CloseStep(old(parent.parent.State(writers)), w, closeOK)
    {
      if !closeOK {
        return false;
      }
      assert parent.parent.State(writers).files[parent.id] == parent.View();
      parent.parent.fragments := parent.parent.fragments[key := data];
      parent.Extend(key, size);
      return true;
    }
  }

  class FragmentReader {
    const store: FragmentStore
    var keys: seq<string>
    var current: Option<Bytes>
    var offset: nat

    function State(): R.Reader
      reads this
    {
      R.Reader(keys, current, offset)
    }

    constructor (store: FragmentStore, keys: seq<string>)
      ensures this.store == store && State() == R.Reader(keys, None, 0)
    {
      this.store, this.keys, current, offset := store, keys, None, 0;
    }

    method OpenNext()
      requires current == None && keys != [] && R.Readable(store.fragments, State())
      modifies this
      ensures State() == R.Opened(store.fragments, old(State()))
    {
      current := Some(store.fragments[keys[0]]);
      offset := 0;
      keys := keys[1..];
    }

    method Read(len: nat, eager: nat -> bool) returns (data: Bytes, eof: bool)
      requires len > 0 && R.Readable(store.fragments, State())
      modifies this
      ensures (data, eof, State()) == R.Read(store.fragments, old(State()), len, eager)
      ensures R.Readable(store.fragments, State())
    {
      while keys != [] || current != None
        invariant R.Readable(store.fragments, State())
        invariant R.Read(store.fragments, State(), len, eager) == R.Read(store.fragments, old(State()), len, eager)
        decreases |keys|, if current == None then 0 else 1
      {
        if current == None {
          OpenNext();
        }
        var s := current.value;
        var (n, end) := R.ReadAt(s, offset, len, eager(|keys|));
        data := s[offset..offset + n];
        offset := offset + n;
        if end {
          current := None;
        }
        if n > 0 {
          return data, false;
        }
      }
      return "", true;
    }
  }
}
