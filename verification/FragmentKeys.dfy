/** Which fragment keys are handed out twice: those of a deleted file, to a later file of its name. */
module FragmentKeys {
  import opened FragmentModel
  import opened FragmentRuns

  ghost predicate SameLife(evs: seq<Event>, i: nat, k: nat, id: string)
    requires i <= k <= |evs|
  {
    forall j :: i <= j < k ==> !evs[j].Restart? && evs[j] != Delete(id)
  }

  lemma {:induction false} NumbersGrow(sts: seq<State>, evs: seq<Event>, i: nat, k: nat, id: string)
    requires IsRun(sts, evs) && i <= k <= |evs| && SameLife(evs, i, k, id) && id in sts[i].files
    ensures id in sts[k].files && sts[k].files[id].n >= sts[i].files[id].n
  {
    if i < k {
      NumbersGrow(sts, evs, i, k - 1, id);
      RunKeeps(sts, evs, k - 1);
      assert Enabled(sts[k - 1], evs[k - 1]) && sts[k] == Step(sts[k - 1], evs[k - 1]);
      OneStepGrows(sts[k - 1], evs[k - 1], id);
    }
  }

  lemma OneStepGrows(st: State, e: Event, id: string)
    requires Inv(st) && Enabled(st, e) && id in st.files && !e.Restart? && e != Delete(id)
    ensures id in Step(st, e).files && Step(st, e).files[id].n >= st.files[id].n
  {
    match e
    case Close(w, _) => assert SavedOK(st, st.writers[w].id);
    case Rollback(g) => assert SavedOK(st, g);
    case SaveMeta(g) => assert SavedOK(st, g);
    case _ =>
  }

  /** No two Appends are given the same key, not even when the first of them failed, as long as the server
      runs on and the file is not deleted in between. */
  lemma KeysNeverReused(sts: seq<State>, evs: seq<Event>, i: nat, k: nat, a: string, b: string)
    requires IsRun(sts, evs) && i < k < |evs| && evs[i].Append? && evs[k].Append?
    requires a == evs[i].id && b == evs[k].id && SameLife(evs, i, k, a)
    ensures a in sts[i].files && b in sts[k].files && Key(a, sts[i].files[a].n) != Key(b, sts[k].files[b].n)
  {
    assert Enabled(sts[i], evs[i]) && Enabled(sts[k], evs[k]) && sts[i + 1] == Step(sts[i], evs[i]);
    if Key(a, sts[i].files[a].n) == Key(b, sts[k].files[b].n) {
      KeyInjective(a, sts[i].files[a].n, b, sts[k].files[b].n);
      NumbersGrow(sts, evs, i + 1, k, a);
    }
  }

  // ---- lives

  /** An Append of file id before event k, since r, was given number v. */
  ghost predicate Given(sts: seq<State>, evs: seq<Event>, r: nat, k: nat, id: string, v: nat) {
    exists i :: r <= i < k && GivenAt(sts, evs, i, id, v)
  }

  ghost predicate GivenAt(sts: seq<State>, evs: seq<Event>, i: int, id: string, v: nat) {
    0 <= i < |evs| && i < |sts| && evs[i].Append? && evs[i].id == id && id in sts[i].files && sts[i].files[id].n == v
  }

  /** A life of file id: it is there from state b on, made by event b - 1 or loaded by the start at r, and event j
      deletes it. */
  ghost predicate IsLife(sts: seq<State>, evs: seq<Event>, r: nat, b: nat, j: nat, id: string) {
    && r <= b <= j < |evs| && j < |sts| && evs[j] == Delete(id) && (b == r || evs[b - 1] == New(id))
    && SameLife(evs, b, j, id) && id in sts[b].files && id in sts[j].files
  }

  /** Before event k, since r, a life of file id ended that had used up number v. */
  ghost predicate UsedInLife(sts: seq<State>, evs: seq<Event>, r: nat, k: nat, id: string, v: nat) {
    exists b: nat, j: nat :: j < k && IsLife(sts, evs, r, b, j, id) && sts[b].files[id].n <= v < sts[j].files[id].n
  }

  lemma StepNumber(st: State, e: Event, id: string)
    requires Inv(st) && Enabled(st, e) && id in st.files && !e.Restart? && e != Delete(id)
    ensures id in Step(st, e).files
    ensures Step(st, e).files[id].n == st.files[id].n + if e.Append? && e.id == id then 1 else 0
  {
    match e
    case Close(w, _) => assert SavedOK(st, st.writers[w].id);
    case Rollback(g) => assert SavedOK(st, g);
    case SaveMeta(g) => assert SavedOK(st, g);
    case _ =>
  }

  lemma NumberAfter(sts: seq<State>, evs: seq<Event>, i: nat, id: string)
    requires IsRun(sts, evs) && i < |evs| && id in sts[i].files && !evs[i].Restart? && evs[i] != Delete(id)
    ensures id in sts[i + 1].files
    ensures sts[i + 1].files[id].n == sts[i].files[id].n + if evs[i].Append? && evs[i].id == id then 1 else 0
  {
    RunKeeps(sts, evs, i);
    assert Enabled(sts[i], evs[i]) && sts[i + 1] == Step(sts[i], evs[i]);
    StepNumber(sts[i], evs[i], id);
  }

  lemma GivenNext(sts: seq<State>, evs: seq<Event>, b: nat, j: nat, id: string, v: nat)
    requires b <= j
    ensures Given(sts, evs, b, j + 1, id, v) <==> Given(sts, evs, b, j, id, v) || GivenAt(sts, evs, j, id, v)
  {
    if Given(sts, evs, b, j, id, v) {
      var i :| b <= i < j && GivenAt(sts, evs, i, id, v);
      assert GivenAt(sts, evs, i, id, v);
    }
  }

  /** Along a life the numbers given are just those from its first to its last. */
  lemma {:induction false} LifeGives(sts: seq<State>, evs: seq<Event>, b: nat, j: nat, id: string, v: nat)
    requires IsRun(sts, evs) && b <= j <= |evs| && SameLife(evs, b, j, id) && id in sts[b].files
    ensures id in sts[j].files
    ensures Given(sts, evs, b, j, id, v) <==> sts[b].files[id].n <= v < sts[j].files[id].n
  {
    if b < j {
      LifeGives(sts, evs, b, j - 1, id, v);
      NumbersGrow(sts, evs, b, j - 1, id);
      NumberAfter(sts, evs, j - 1, id);
      GivenNext(sts, evs, b, j - 1, id, v);
    }
  }

  lemma WasThereBefore(sts: seq<State>, evs: seq<Event>, i: nat, id: string)
    requires IsRun(sts, evs) && i < |evs| && !evs[i].Restart? && evs[i] != New(id) && id in sts[i + 1].files
    ensures id in sts[i].files && evs[i] != Delete(id)
  {
    assert Enabled(sts[i], evs[i]) && sts[i + 1] == Step(sts[i], evs[i]);
    RunKeeps(sts, evs, i);
    WasThere(sts[i], evs[i], id);
  }

  /** A file that is there has been since some start of a life. */
  lemma {:induction false} LifeStart(sts: seq<State>, evs: seq<Event>, r: nat, i: nat, id: string) returns (b: nat)
    requires IsRun(sts, evs) && r <= i <= |evs| && id in sts[i].files
    requires forall j :: r <= j < i ==> !evs[j].Restart?
    ensures r <= b <= i && (b == r || evs[b - 1] == New(id)) && SameLife(evs, b, i, id) && id in sts[b].files
  {
    if i == r || evs[i - 1] == New(id) {
      b := i;
    } else {
      WasThereBefore(sts, evs, i - 1, id);
      b := LifeStart(sts, evs, r, i - 1, id);
    }
  }

  lemma WasThere(st: State, e: Event, id: string)
    requires Inv(st) && Enabled(st, e) && !e.Restart? && e != New(id) && id in Step(st, e).files
    ensures id in st.files && e != Delete(id)
  {
    match e
    case Close(w, _) => assert SavedOK(st, st.writers[w].id);
    case Rollback(g) => assert SavedOK(st, g);
    case SaveMeta(g) => assert SavedOK(st, g);
    case _ =>
  }

  lemma {:induction false} FirstDeletion(evs: seq<Event>, i: nat, k: nat, id: string) returns (j: nat)
    requires i <= k <= |evs| && !SameLife(evs, i, k, id) && forall q :: i <= q < k ==> !evs[q].Restart?
    ensures i <= j < k && evs[j] == Delete(id) && SameLife(evs, i, j, id)
    decreases k - i
  {
    if evs[i] == Delete(id) {
      j := i;
    } else {
      j := FirstDeletion(evs, i + 1, k, id);
    }
  }

  /** Since the server started, at r, an Append is given a key that was given before if and only if a life of
      the same file name has ended that had used up the number. */
  lemma KeyReusedIffLifeEnded(sts: seq<State>, evs: seq<Event>, r: nat, k: nat, id: string)
    requires IsRun(sts, evs) && r <= k < |evs| && evs[k].Append? && evs[k].id == id
    requires forall j :: r <= j < k ==> !evs[j].Restart?
    ensures id in sts[k].files
    ensures var v := sts[k].files[id].n;
      (exists i, a: string, n :: r <= i < k && GivenAt(sts, evs, i, a, n) && Key(a, n) == Key(id, v))
      <==> UsedInLife(sts, evs, r, k, id, v)
  {
    assert Enabled(sts[k], evs[k]);
    var v := sts[k].files[id].n;
    if exists i, a: string, n :: r <= i < k && GivenAt(sts, evs, i, a, n) && Key(a, n) == Key(id, v) {
      var i, a: string, n :| r <= i < k && GivenAt(sts, evs, i, a, n) && Key(a, n) == Key(id, v);
      KeyInjective(a, n, id, v);
      GivenInLife(sts, evs, r, k, i, id);
    }
    if UsedInLife(sts, evs, r, k, id, v) {
      var b: nat, j: nat :| j < k && IsLife(sts, evs, r, b, j, id) && sts[b].files[id].n <= v < sts[j].files[id].n;
      LifeGives(sts, evs, b, j, id, v);
      var i :| b <= i < j && GivenAt(sts, evs, i, id, v);
    }
  }

  /** A number that is given again was used up in a life that ended in between. */
  lemma GivenInLife(sts: seq<State>, evs: seq<Event>, r: nat, k: nat, i: nat, id: string)
    requires IsRun(sts, evs) && r <= i < k < |evs| && id in sts[k].files && GivenAt(sts, evs, i, id, sts[k].files[id].n)
    requires forall j :: r <= j < k ==> !evs[j].Restart?
    ensures UsedInLife(sts, evs, r, k, id, sts[k].files[id].n)
  {
    NumberAfter(sts, evs, i, id);
    if SameLife(evs, i + 1, k, id) {
      NumbersGrow(sts, evs, i + 1, k, id);
    } else {
      var j := FirstDeletion(evs, i + 1, k, id);
      var b := LifeStart(sts, evs, r, i, id);
      NumbersGrow(sts, evs, b, i, id);
      NumbersGrow(sts, evs, i + 1, j, id);
      assert SameLife(evs, b, j, id);
      assert IsLife(sts, evs, r, b, j, id);
    }
  }

  // ---- a run that does it

  lemma Extend(sts: seq<State>, evs: seq<Event>, e: Event) returns (sts': seq<State>, evs': seq<Event>)
    requires IsRun(sts, evs) && Enabled(sts[|evs|], e)
    ensures IsRun(sts', evs') && evs' == evs + [e] && sts' == sts + [Step(sts[|evs|], e)]
  {
    sts', evs' := sts + [Step(sts[|evs|], e)], evs + [e];
  }

  /** A file is made and given a fragment. */
  lemma FileMade(id: string) returns (sts: seq<State>, evs: seq<Event>)
    ensures IsRun(sts, evs) && evs == [New(id), Append(id, true), Close(0, true)]
    ensures |sts[2].writers| == 1 && sts[2].writers[0].key == Key(id, 0)
    ensures sts[3].writers == [] && id in sts[3].files && sts[3].files[id].children == [Fragment(Key(id, 0), 0)]
    ensures sts[3].files.Keys == {id} && sts[3].fragments == map[Key(id, 0) := ""]
  {
    sts, evs := [State(map[], map[], map[], [])], [];
    sts, evs := Extend(sts, evs, New(id));
    sts, evs := Extend(sts, evs, Append(id, true));
    assert [] + [Writer(id, Key(id, 0), "")] == [Writer(id, Key(id, 0), "")];
    sts, evs := Extend(sts, evs, Close(0, true));
    assert [] + [Fragment(Key(id, 0), 0)] == [Fragment(Key(id, 0), 0)];
  }

  /** A file is made, given a fragment, deleted, made again and given a fragment: both have the same key. */
  lemma DeletedNameReusesKeys(id: string) returns (sts: seq<State>, evs: seq<Event>)
    ensures IsRun(sts, evs)
    ensures evs == [New(id), Append(id, true), Close(0, true), Delete(id), New(id), Append(id, true)]
    ensures |sts[2].writers| == 1 == |sts[6].writers|
    ensures sts[2].writers[0].key == sts[6].writers[0].key == Key(id, 0)
  {
    sts, evs := FileMade(id);
    assert sts[3].files[id].children[0].key == Key(id, 0);
    assert Key(id, 0) in KeysOf(sts[3].files[id]);
    sts, evs := Extend(sts, evs, Delete(id));
    sts, evs := Extend(sts, evs, New(id));
    sts, evs := Extend(sts, evs, Append(id, true));
    assert sts[6].writers == [] + [Writer(id, Key(id, 0), "")];
  }
}
