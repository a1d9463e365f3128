/** When a search fails: which failures reach the caller, and which are lost on the way. */
module SearchFailures {
  import opened Prelude
  import opened Search

  /* ---------------------------------------------------------------- traces only grow */

  // The calls added to `v` concern `path` and what lies below it.
  ghost predicate Extends(v: seq<Event>, v': seq<Event>, path: Path)
  {
    && |v| <= |v'| && (forall i :: 0 <= i < |v| ==> v'[i] == v[i])
    && forall i :: |v| <= i < |v'| ==> path <= v'[i].path
  }

  // They concern only what lies below it.
  ghost predicate ExtendsBelow(v: seq<Event>, v': seq<Event>, path: Path)
  {
    && |v| <= |v'| && (forall i :: 0 <= i < |v| ==> v'[i] == v[i])
    && forall i :: |v| <= i < |v'| ==> path < v'[i].path
  }

  lemma {:induction false} TraverseExtends(o: Oracle, d: Directory, path: Path, recursive: bool, w: seq<Event>)
    ensures Extends(w, Traverse(o, d, path, recursive, w).trace, path)
    decreases d, 0
  {
    match d
    case Listing(entries) =>
      if !Failed(o(Enter(path))) {
        EntriesExtend(o, entries, path, recursive, w + [Enter(path)], |entries|);
      }
    case _ =>
  }

  lemma {:induction false} EntriesExtend(o: Oracle, entries: seq<Entry>, path: Path, recursive: bool, w: seq<Event>, n: nat)
    requires n <= |entries|
    ensures ExtendsBelow(w, Entries(o, entries, path, recursive, w, n).trace, path)
    decreases entries, n
  {
    if n > 0 {
      EntriesExtend(o, entries, path, recursive, w, n - 1);
      var r := Entries(o, entries, path, recursive, w, n - 1);
      if !Failed(r.hr) {
        OneExtends(o, entries[n - 1], path + [n - 1], recursive, r.trace);
      }
    }
  }

  lemma {:induction false} OneExtends(o: Oracle, e: Entry, path: Path, recursive: bool, w: seq<Event>)
    ensures Extends(w, One(o, e, path, recursive, w).trace, path)
    decreases e, 0
  {
    if e.Folder? && recursive && e.tooLong.None? {
      TraverseExtends(o, e.directory, path, recursive, w);
    }
  }

  lemma {:induction false} VisitsStable(v: seq<Event>, v': seq<Event>, p: Path, n: nat)
    requires n <= |v| <= |v'| && forall i :: 0 <= i < |v| ==> v'[i] == v[i]
    ensures Visits(v', p, n) == Visits(v, p, n)
  {
    if n > 0 {
      VisitsStable(v, v', p, n - 1);
    }
  }

  /* ---------------------------------------------------------------- failures that are lost */

  // Access to a file of the directory at `p` was denied in the first `n` calls.
  ghost predicate DeniedIn(o: Oracle, v: seq<Event>, p: Path, n: nat)
    requires n <= |v|
  {
    exists k: nat :: o(Visit(p + [k])) == AccessDenied && Visits(v, p + [k], n) > 0
  }

  // Below the top directory call `i` does not make the search fail: it succeeded, or it was denied,
  // or its failure was overwritten by a later result, or it leaves a directory whose body had been
  // given up already because access to a file was denied.
  ghost predicate Tame(o: Oracle, v: seq<Event>, i: nat)
    requires i < |v|
  {
    var hr := ResultOf(o, v[i]);
    hr == Success || if v[i].Overlong? then v[i].overwritten
                     else hr == AccessDenied || (v[i].Leave? && DeniedIn(o, v, v[i].path, i))
  }

  ghost predicate AllTame(o: Oracle, v: seq<Event>, lo: nat)
  {
    forall i :: lo <= i < |v| ==> Tame(o, v, i)
  }

  lemma TameStable(o: Oracle, v: seq<Event>, v': seq<Event>, i: nat)
    requires i < |v| <= |v'| && forall j :: 0 <= j < |v| ==> v'[j] == v[j]
    ensures Tame(o, v', i) <==> Tame(o, v, i)
  {
    if v[i].Leave? {
      forall k: nat
        ensures Visits(v', v[i].path + [k], i) == Visits(v, v[i].path + [k], i)
      {
        VisitsStable(v, v', v[i].path + [k], i);
      }
    }
  }

  lemma AllTameSplit(o: Oracle, v: seq<Event>, v': seq<Event>, lo: nat)
    requires lo <= |v| <= |v'| && forall j :: 0 <= j < |v| ==> v'[j] == v[j]
    ensures AllTame(o, v', lo) <==> AllTame(o, v, lo) && AllTame(o, v', |v|)
  {
    forall i | lo <= i < |v|
      ensures Tame(o, v', i) <==> Tame(o, v, i)
    {
      TameStable(o, v, v', i);
    }
  }

  // One more call, not the end of a directory
  lemma TameOne(o: Oracle, v: seq<Event>, e: Event)
    requires !e.Leave?
    ensures AllTame(o, v + [e], |v|) <==>
              ResultOf(o, e) == Success || if e.Overlong? then e.overwritten else ResultOf(o, e) == AccessDenied
  {
    assert (v + [e])[|v|] == e;
    assert Tame(o, v + [e], |v|) <==>
      ResultOf(o, e) == Success || if e.Overlong? then e.overwritten else ResultOf(o, e) == AccessDenied;
  }

  predicate Mild(hr: Hr) { hr == Success || hr == AccessDenied }

  // No file at or below `path` has been visited.
  ghost predicate Unvisited(w: seq<Event>, path: Path)
  {
    forall q :: path <= q ==> Count(w, q) == 0
  }

  lemma UnvisitedOne(w: seq<Event>, e: Event, path: Path)
    requires Unvisited(w, path) && !e.Visit?
    ensures Unvisited(w + [e], path)
  {
    forall q | path <= q
      ensures Count(w + [e], q) == 0
    {
      CountOne(w, e, q);
    }
  }

  lemma EntriesUnvisited(o: Oracle, entries: seq<Entry>, path: Path, recursive: bool, w: seq<Event>, n: nat)
    requires n <= |entries| && Unvisited(w, path)
    ensures Unvisited(Entries(o, entries, path, recursive, w, n).trace, path + [n])
  {
    forall q | path + [n] <= q
      ensures Count(Entries(o, entries, path, recursive, w, n).trace, q) == 0
    {
      BelowIndex(path, n, q);
      EntriesCount(o, entries, path, recursive, w, n, q);
    }
  }

  lemma {:induction false} TraverseTame(o: Oracle, d: Directory, path: Path, recursive: bool, w: seq<Event>)
    requires ValidDirectory(d) && Unvisited(w, path)
    ensures var r := Traverse(o, d, path, recursive, w); Mild(r.hr) <==> AllTame(o, r.trace, |w|)
    decreases d, 0
  {
    match d
    case Inaccessible(e) => TameOne(o, w, Unsearchable(path, e));
    case NoMatch =>
    case Listing(entries) =>
      TameOne(o, w, Enter(path));
      if !Failed(o(Enter(path))) {
        var start := w + [Enter(path)];
        UnvisitedOne(w, Enter(path), path);
        EntriesTame(o, entries, path, recursive, start, |entries|);
        EntriesExtend(o, entries, path, recursive, start, |entries|);
        LeaveTame(o, w, start, Entries(o, entries, path, recursive, start, |entries|), path);
      }
  }

  // The end of a directory
  lemma LeaveTame(o: Oracle, w: seq<Event>, start: seq<Event>, body: Outcome, path: Path)
    requires start == w + [Enter(path)] && !Failed(o(Enter(path))) && AllTame(o, start, |w|)
    requires ExtendsBelow(start, body.trace, path)
    requires Mild(body.hr) <==> AllTame(o, body.trace, |start|)
    requires body.hr == AccessDenied <==> Mild(body.hr) && DeniedIn(o, body.trace, path, |body.trace|)
    ensures Mild(if Failed(body.hr) then body.hr else o(Leave(path))) <==> AllTame(o, body.trace + [Leave(path)], |w|)
  {
    var v := body.trace + [Leave(path)];
    AllTameSplit(o, body.trace, v, |w|);
    AllTameSplit(o, start, body.trace, |w|);
    forall k: nat
      ensures Visits(v, path + [k], |body.trace|) == Visits(body.trace, path + [k], |body.trace|)
    {
      VisitsStable(body.trace, v, path + [k], |body.trace|);
    }
    assert v[|body.trace|] == Leave(path);
    assert AllTame(o, v, |body.trace|) <==> Tame(o, v, |body.trace|);
  }

  lemma {:induction false} EntriesTame(o: Oracle, entries: seq<Entry>, path: Path, recursive: bool, w: seq<Event>, n: nat)
    requires n <= |entries| && (forall i :: 0 <= i < |entries| ==> ValidEntry(entries[i])) && Unvisited(w, path)
    ensures var r := Entries(o, entries, path, recursive, w, n);
      && (Mild(r.hr) <==> AllTame(o, r.trace, |w|))
      && (r.hr == AccessDenied <==> Mild(r.hr) && DeniedIn(o, r.trace, path, |r.trace|))
    decreases entries, n
  {
    if n == 0 {
      NoneDenied(o, w, path);
    } else {
      EntriesTame(o, entries, path, recursive, w, n - 1);
      EntriesExtend(o, entries, path, recursive, w, n - 1);
      var r := Entries(o, entries, path, recursive, w, n - 1);
      if !Failed(r.hr) {
        var e, p := entries[n - 1], path + [n - 1];
        EntriesUnvisited(o, entries, path, recursive, w, n - 1);
        OneTame(o, e, p, recursive, r.trace);
        OneExtends(o, e, p, recursive, r.trace);
        AllTameSplit(o, r.trace, One(o, e, p, recursive, r.trace).trace, |w|);
        OneDenied(o, e, path, n - 1, recursive, r.trace);
      }
    }
  }

  lemma NoneDenied(o: Oracle, w: seq<Event>, path: Path)
    requires Unvisited(w, path)
    ensures !DeniedIn(o, w, path, |w|)
  {
    forall k: nat
      ensures Visits(w, path + [k], |w|) == 0
    {
      assert Count(w, path + [k]) == 0;
    }
  }

  // If no file of the directory was denied before, one is now exactly if the entry is one.
  lemma OneDenied(o: Oracle, e: Entry, path: Path, n: nat, recursive: bool, w: seq<Event>)
    requires !DeniedIn(o, w, path, |w|)
    ensures var r := One(o, e, path + [n], recursive, w);
      DeniedIn(o, r.trace, path, |r.trace|) <==> e.File? && o(Visit(path + [n])) == AccessDenied
  {
    var r := One(o, e, path + [n], recursive, w);
    if e.Folder? {
      assert !FileAt(e.directory, recursive, []);
    }
    forall k: nat | o(Visit(path + [k])) == AccessDenied && Visits(r.trace, path + [k], |r.trace|) > 0
      ensures e.File? && k == n
    {
      OneCount(o, e, path + [n], recursive, w, path + [k]);
      BelowIndex(path, n, path + [k]);
      assert (path + [k])[|path + [n]|..] == [];
      assert Count(w, path + [k]) == 0;
    }
    if e.File? {
      CountOne(Combine(e.tooLong, path + [n], true, w), Visit(path + [n]), path + [n]);
      assert Visits(r.trace, path + [n], |r.trace|) > 0;
    }
  }

  lemma {:induction false} OneTame(o: Oracle, e: Entry, path: Path, recursive: bool, w: seq<Event>)
    requires ValidEntry(e) && Unvisited(w, path)
    ensures var r := One(o, e, path, recursive, w);
      && (Mild(r.hr) <==> AllTame(o, r.trace, |w|))
      && (r.hr == AccessDenied <==> e.File? && o(Visit(path)) == AccessDenied)
    decreases e, 0
  {
    match e
    case Dot =>
    case Link(t) => TameOne(o, w, Overlong(path, false));
    case File(t) =>
      CombineTame(o, t, path, w);
      TameOne(o, Combine(t, path, true, w), Visit(path));
      AllTameSplit(o, Combine(t, path, true, w), One(o, e, path, recursive, w).trace, |w|);
    case Folder(d, t) =>
      if !recursive {
        TameOne(o, w, Overlong(path, false));
      } else if t.Some? {
        CombineTame(o, t, path, w);
        TameOne(o, Combine(t, path, true, w), Unsearchable(path, t.value));
        AllTameSplit(o, Combine(t, path, true, w), One(o, e, path, recursive, w).trace, |w|);
      } else {
        TraverseTame(o, d, path, recursive, w);
      }
  }

  lemma CombineTame(o: Oracle, t: Option<Hr>, path: Path, w: seq<Event>)
    ensures AllTame(o, Combine(t, path, true, w), |w|)
  {
    TameOne(o, w, Overlong(path, true));
  }

  /* ---------------------------------------------------------------- the whole search */

  // A call for the top directory itself or for a file in it
  predicate AtTop(e: Event)
  {
    if e.Visit? then |e.path| <= 1 else if e.Overlong? then false else e.path == []
  }

  // A failure that is lost: it is overwritten, or it lies below the top directory and is either a
  // denial of access or comes from leaving a directory that was given up for one.
  ghost predicate Lost(o: Oracle, v: seq<Event>, i: nat)
    requires i < |v|
  {
    Tame(o, v, i) && !AtTop(v[i])
  }

  ghost predicate AllLost(o: Oracle, v: seq<Event>, lo: nat)
  {
    forall i :: lo <= i < |v| && Failed(ResultOf(o, v[i])) ==> Lost(o, v, i)
  }

  lemma {:induction false} VisitIndex(v: seq<Event>, p: Path, n: nat) returns (i: nat)
    requires n <= |v| && Visits(v, p, n) > 0
    ensures i < n && v[i] == Visit(p)
  {
    if v[n - 1] == Visit(p) {
      i := n - 1;
    } else {
      i := VisitIndex(v, p, n - 1);
    }
  }

  lemma {:induction false} VisitCounted(v: seq<Event>, i: nat, n: nat)
    requires i < n <= |v| && v[i].Visit?
    ensures Visits(v, v[i].path, n) > 0
  {
    if i < n - 1 {
      VisitCounted(v, i, n - 1);
    }
  }

  lemma BodyLost(o: Oracle, entries: seq<Entry>, recursive: bool, start: seq<Event>)
    requires (forall i :: 0 <= i < |entries| ==> ValidEntry(entries[i])) && start == [Enter([])]
    ensures var b := Entries(o, entries, [], recursive, start, |entries|);
      b.hr == Success <==> AllLost(o, b.trace, |start|)
  {
    var b := Entries(o, entries, [], recursive, start, |entries|);
    forall q: Path
      ensures Count(start, q) == 0
    {
      CountOne([], Enter([]), q);
      assert [] + [Enter([])] == start;
    }
    EntriesTame(o, entries, [], recursive, start, |entries|);
    EntriesExtend(o, entries, [], recursive, start, |entries|);
    if b.hr == Success {
      forall i | |start| <= i < |b.trace| && Failed(ResultOf(o, b.trace[i]))
        ensures Lost(o, b.trace, i)
      {
        assert Tame(o, b.trace, i);
        TopFileDenies(o, b.trace, i);
      }
    } else if b.hr == AccessDenied {
      assert b.trace[0] == start[0];
      DeniedNotLost(o, b.trace);
    } else {
      var i :| |start| <= i < |b.trace| && !Tame(o, b.trace, i);
      assert !Lost(o, b.trace, i);
    }
  }

  lemma DeniedNotLost(o: Oracle, v: seq<Event>)
    requires v != [] && v[0].Enter? && DeniedIn(o, v, [], |v|)
    ensures !AllLost(o, v, 1)
  {
    var k: nat :| o(Visit([] + [k])) == AccessDenied && Visits(v, [] + [k], |v|) > 0;
    var i := VisitIndex(v, [] + [k], |v|);
    assert AtTop(v[i]);
    assert !Lost(o, v, i);
  }

  // A failed call that is tame and lies below the top is at the top only if it denies a file there.
  lemma TopFileDenies(o: Oracle, v: seq<Event>, i: nat)
    requires i < |v| && Failed(ResultOf(o, v[i])) && Tame(o, v, i) && [] < v[i].path
    requires !DeniedIn(o, v, [], |v|)
    ensures !AtTop(v[i])
  {
    if v[i].Visit? && |v[i].path| == 1 {
      assert v[i].path == [] + [v[i].path[0]];
      VisitCounted(v, i, |v|);
    }
  }

  lemma TopIff(o: Oracle, start: seq<Event>, b: Outcome)
    requires start == [Enter([])] && !Failed(o(Enter([]))) && ExtendsBelow(start, b.trace, [])
    requires b.hr == Success <==> AllLost(o, b.trace, |start|)
    ensures (if Failed(b.hr) then b.hr else o(Leave([]))) == Success <==> AllLost(o, b.trace + [Leave([])], 0)
  {
    var v := b.trace + [Leave([])];
    assert v[0] == start[0] && v[|b.trace|] == Leave([]);
    forall i | 0 <= i < |b.trace|
      ensures Lost(o, v, i) <==> Lost(o, b.trace, i)
    {
      TameStable(o, b.trace, v, i);
    }
    assert AtTop(Leave([]));
    if AllLost(o, v, 0) {
      assert !Lost(o, v, |b.trace|);
      forall i | |start| <= i < |b.trace| && Failed(ResultOf(o, b.trace[i]))
        ensures Lost(o, b.trace, i)
      {
        assert Lost(o, v, i);
      }
    }
  }

  // For any tree and any visitor: the search succeeds exactly if every call that failed is lost.
  lemma {:induction false} SucceedsIff(o: Oracle, d: Directory, recursive: bool)
    requires ValidDirectory(d)
    ensures var r := Traverse(o, d, [], recursive, []);
      r.hr == Success <==> forall i :: 0 <= i < |r.trace| && Failed(ResultOf(o, r.trace[i])) ==> Lost(o, r.trace, i)
  {
    var r := Traverse(o, d, [], recursive, []);
    match d
    case Inaccessible(e) =>
      assert r.trace == [Unsearchable([], e)];
      assert !Lost(o, r.trace, 0);
    case NoMatch =>
    case Listing(entries) =>
      var start: seq<Event> := [Enter([])];
      assert [] + [Enter([])] == start;
      if !Failed(o(Enter([]))) {
        BodyLost(o, entries, recursive, start);
        EntriesExtend(o, entries, [], recursive, start, |entries|);
        TopIff(o, start, Entries(o, entries, [], recursive, start, |entries|));
      } else {
        assert r.trace == start;
        assert !Lost(o, r.trace, 0);
      }
  }

  /* ---------------------------------------------------------------- when nothing is lost */

  // No system call has failed since `w`.
  ghost predicate Quiet(v: seq<Event>, lo: nat)
  {
    forall i :: lo <= i < |v| ==> !v[i].Unsearchable? && !v[i].Overlong?
  }

  lemma {:induction false} TraverseQuiet(o: Oracle, d: Directory, path: Path, recursive: bool, w: seq<Event>)
    requires Accessible(d)
    ensures Quiet(Traverse(o, d, path, recursive, w).trace, |w|)
    decreases d, 0
  {
    match d
    case Listing(entries) =>
      if !Failed(o(Enter(path))) {
        EntriesQuiet(o, entries, path, recursive, w + [Enter(path)], |entries|);
        EntriesExtend(o, entries, path, recursive, w + [Enter(path)], |entries|);
      }
    case _ =>
  }

  lemma {:induction false} EntriesQuiet(o: Oracle, entries: seq<Entry>, path: Path, recursive: bool, w: seq<Event>, n: nat)
    requires n <= |entries| && forall i :: 0 <= i < |entries| ==> AccessibleEntry(entries[i])
    ensures Quiet(Entries(o, entries, path, recursive, w, n).trace, |w|)
    decreases entries, n
  {
    if n > 0 {
      EntriesQuiet(o, entries, path, recursive, w, n - 1);
      EntriesExtend(o, entries, path, recursive, w, n - 1);
      var r := Entries(o, entries, path, recursive, w, n - 1);
      if !Failed(r.hr) {
        OneExtends(o, entries[n - 1], path + [n - 1], recursive, r.trace);
        OneQuiet(o, entries[n - 1], path + [n - 1], recursive, r.trace);
      }
    }
  }

  lemma {:induction false} OneQuiet(o: Oracle, e: Entry, path: Path, recursive: bool, w: seq<Event>)
    requires AccessibleEntry(e)
    ensures Quiet(One(o, e, path, recursive, w).trace, |w|)
    decreases e, 0
  {
    match e
    case Folder(d, _) =>
      if recursive {
        TraverseQuiet(o, d, path, recursive, w);
      }
    case _ =>
  }

  // If every directory can be searched, every path fits and the visitor never denies access, the
  // search fails exactly if some call of the visitor failed.
  lemma {:induction false} NothingLost(o: Oracle, d: Directory, recursive: bool)
    requires ValidDirectory(d) && Accessible(d) && forall e :: o(e) != AccessDenied
    ensures var r := Traverse(o, d, [], recursive, []);
      Failed(r.hr) <==> exists i :: 0 <= i < |r.trace| && Failed(o(r.trace[i]))
  {
    var r := Traverse(o, d, [], recursive, []);
    SucceedsIff(o, d, recursive);
    TraverseQuiet(o, d, [], recursive, []);
    forall i | 0 <= i < |r.trace| && Failed(o(r.trace[i]))
      ensures !Lost(o, r.trace, i)
    {
      assert ResultOf(o, r.trace[i]) == o(r.trace[i]);
    }
  }

  // Access to a file in a subdirectory is denied: the search succeeds, even if the visitor then
  // fails to leave that directory.
  lemma DeniedFileExample(o: Oracle)
    requires o(Enter([])) == Success && o(Enter([0])) == Success && o(Visit([0, 0])) == AccessDenied
    requires o(Leave([0])) == Other(5) && o(Leave([])) == Success
    ensures var r := Traverse(o, Listing([Folder(Listing([File(None)]), None)]), [], true, []);
      r.hr == Success && r.trace == [Enter([]), Enter([0]), Visit([0, 0]), Leave([0]), Leave([])]
  {
    var inner := [File(None)];
    var outer := [Folder(Listing(inner), None)];
    var w := [] + [Enter([])];
    var v := w + [Enter([0])];
    assert [] + [0] == [0] && [0] + [0] == [0, 0];
    assert Entries(o, inner, [0], true, v, 1) == One(o, inner[0], [0] + [0], true, v);
    assert Traverse(o, Listing(inner), [0], true, w).hr == AccessDenied;
    assert Entries(o, outer, [], true, w, 0) == Outcome(Success, w);
    assert Entries(o, outer, [], true, w, 1) == One(o, outer[0], [] + [0], true, w);
  }
}
