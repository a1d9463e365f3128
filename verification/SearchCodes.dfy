/** Which result a failing search returns. */
module SearchCodes {
  import opened Prelude
  import opened Search
  import opened SearchFailures

  /* ---------------------------------------------------------------- below the top directory */

  // The result of the first call from number `lo` on that is not tame
  ghost function FirstWild(o: Oracle, v: seq<Event>, lo: nat): Hr
    decreases |v| - lo
  {
    if lo >= |v| then Success
    else if !Tame(o, v, lo) then ResultOf(o, v[lo])
    else FirstWild(o, v, lo + 1)
  }

  lemma {:induction false} AllTameNoWild(o: Oracle, v: seq<Event>, lo: nat)
    requires AllTame(o, v, lo)
    ensures FirstWild(o, v, lo) == Success
    decreases |v| - lo
  {
    if lo < |v| {
      AllTameNoWild(o, v, lo + 1);
    }
  }

  // Calls that are added do not matter if one before them is not tame.
  lemma {:induction false} FirstWildSplit(o: Oracle, v: seq<Event>, v': seq<Event>, lo: nat)
    requires lo <= |v| <= |v'| && forall j :: 0 <= j < |v| ==> v'[j] == v[j]
    ensures FirstWild(o, v', lo) == if AllTame(o, v, lo) then FirstWild(o, v', |v|) else FirstWild(o, v, lo)
    decreases |v| - lo
  {
    if lo < |v| {
      TameStable(o, v, v', lo);
      FirstWildSplit(o, v, v', lo + 1);
      assert AllTame(o, v, lo) <==> Tame(o, v, lo) && AllTame(o, v, lo + 1);
    }
  }

  // One more call, not the end of a directory
  lemma FirstWildOne(o: Oracle, v: seq<Event>, e: Event)
    requires !e.Leave? && !AllTame(o, v + [e], |v|)
    ensures FirstWild(o, v + [e], |v|) == ResultOf(o, e)
  {
    assert (v + [e])[|v|] == e;
  }

  lemma {:induction false} TraverseCode(o: Oracle, d: Directory, path: Path, recursive: bool, w: seq<Event>)
    requires ValidDirectory(d) && Unvisited(w, path)
    ensures var r := Traverse(o, d, path, recursive, w); !Mild(r.hr) ==> FirstWild(o, r.trace, |w|) == r.hr
    decreases d, 0
  {
    TraverseTame(o, d, path, recursive, w);
    match d
    case Inaccessible(e) =>
      if !Mild(e) {
        FirstWildOne(o, w, Unsearchable(path, e));
      }
    case NoMatch =>
    case Listing(entries) =>
      var start := w + [Enter(path)];
      TameOne(o, w, Enter(path));
      if Failed(o(Enter(path))) {
        if !Mild(o(Enter(path))) {
          FirstWildOne(o, w, Enter(path));
        }
      } else {
        UnvisitedOne(w, Enter(path), path);
        EntriesTame(o, entries, path, recursive, start, |entries|);
        EntriesExtend(o, entries, path, recursive, start, |entries|);
        EntriesCode(o, entries, path, recursive, start, |entries|);
        LeaveCode(o, w, start, Entries(o, entries, path, recursive, start, |entries|), path);
      }
  }

  // The end of a directory
  lemma LeaveCode(o: Oracle, w: seq<Event>, start: seq<Event>, body: Outcome, path: Path)
    requires start == w + [Enter(path)] && AllTame(o, start, |w|)
    requires ExtendsBelow(start, body.trace, path)
    requires Mild(body.hr) <==> AllTame(o, body.trace, |start|)
    requires !Mild(body.hr) ==> FirstWild(o, body.trace, |start|) == body.hr
    ensures var hr := if Failed(body.hr) then body.hr else o(Leave(path));
      !Mild(hr) && !AllTame(o, body.trace + [Leave(path)], |w|) ==> FirstWild(o, body.trace + [Leave(path)], |w|) == hr
  {
    AllTameSplit(o, start, body.trace, |w|);
    FirstWildSplit(o, start, body.trace, |w|);
    FirstWildSplit(o, body.trace, body.trace + [Leave(path)], |w|);
    if Mild(body.hr) {
      LastWild(o, body.trace, Leave(path), |w|);
    }
  }

  lemma LastWild(o: Oracle, v: seq<Event>, e: Event, lo: nat)
    requires lo <= |v| && AllTame(o, v, lo)
    ensures !AllTame(o, v + [e], lo) ==> FirstWild(o, v + [e], |v|) == ResultOf(o, e)
  {
    AllTameSplit(o, v, v + [e], lo);
    assert (v + [e])[|v|] == e;
  }

  lemma {:induction false} EntriesCode(o: Oracle, entries: seq<Entry>, path: Path, recursive: bool, w: seq<Event>, n: nat)
    requires n <= |entries| && (forall i :: 0 <= i < |entries| ==> ValidEntry(entries[i])) && Unvisited(w, path)
    ensures var r := Entries(o, entries, path, recursive, w, n); !Mild(r.hr) ==> FirstWild(o, r.trace, |w|) == r.hr
    decreases entries, n
  {
    if n > 0 {
      EntriesCode(o, entries, path, recursive, w, n - 1);
      EntriesTame(o, entries, path, recursive, w, n - 1);
      EntriesExtend(o, entries, path, recursive, w, n - 1);
      var r := Entries(o, entries, path, recursive, w, n - 1);
      if !Failed(r.hr) {
        var e, p := entries[n - 1], path + [n - 1];
        EntriesUnvisited(o, entries, path, recursive, w, n - 1);
        OneCode(o, e, p, recursive, r.trace);
        OneExtends(o, e, p, recursive, r.trace);
        FirstWildSplit(o, r.trace, One(o, e, p, recursive, r.trace).trace, |w|);
      }
    }
  }

  lemma {:induction false} OneCode(o: Oracle, e: Entry, path: Path, recursive: bool, w: seq<Event>)
    requires ValidEntry(e) && Unvisited(w, path)
    ensures var r := One(o, e, path, recursive, w); !Mild(r.hr) ==> FirstWild(o, r.trace, |w|) == r.hr
    decreases e, 0
  {
    OneTame(o, e, path, recursive, w);
    match e
    case Dot =>
    case Link(t) => OverlongCode(o, path, w);
    case File(t) => CombineCode(o, t, path, w, Visit(path));
    case Folder(d, t) =>
      if !recursive {
        OverlongCode(o, path, w);
      } else if t.Some? {
        CombineCode(o, t, path, w, Unsearchable(path, t.value));
      } else {
        TraverseCode(o, d, path, recursive, w);
      }
  }

  lemma OverlongCode(o: Oracle, path: Path, w: seq<Event>)
    ensures FirstWild(o, w + [Overlong(path, false)], |w|) == Unexpected
  {
    TameOne(o, w, Overlong(path, false));
    FirstWildOne(o, w, Overlong(path, false));
  }

  lemma CombineCode(o: Oracle, t: Option<Hr>, path: Path, w: seq<Event>, e: Event)
    requires e.Visit? || e.Unsearchable?
    ensures !Mild(ResultOf(o, e)) ==> FirstWild(o, Combine(t, path, true, w) + [e], |w|) == ResultOf(o, e)
  {
    var v := Combine(t, path, true, w);
    CombineTame(o, t, path, w);
    TameOne(o, v, e);
    FirstWildSplit(o, v, v + [e], |w|);
    if !Mild(ResultOf(o, e)) {
      FirstWildOne(o, v, e);
    }
  }

  /* ---------------------------------------------------------------- the whole search */

  // Call `i` fails, and its failure is not lost.
  ghost predicate Counts(o: Oracle, v: seq<Event>, i: nat)
    requires i < |v|
  {
    Failed(ResultOf(o, v[i])) && !Lost(o, v, i)
  }

  // The result of the first such call
  ghost function FirstCounting(o: Oracle, v: seq<Event>, lo: nat): Hr
    decreases |v| - lo
  {
    if lo >= |v| then Success
    else if Counts(o, v, lo) then ResultOf(o, v[lo])
    else FirstCounting(o, v, lo + 1)
  }

  // Up to `n` nothing counts.
  lemma {:induction false} NothingCounts(o: Oracle, v: seq<Event>, lo: nat, n: nat)
    requires lo <= n <= |v| && forall i :: lo <= i < n ==> !Counts(o, v, i)
    ensures FirstCounting(o, v, lo) == FirstCounting(o, v, n)
    decreases n - lo
  {
    if lo < n {
      NothingCounts(o, v, lo + 1, n);
    }
  }

  // Up to `n` everything that counts has the result `hr`, and something counts.
  lemma {:induction false} SameCounts(o: Oracle, v: seq<Event>, lo: nat, n: nat, hr: Hr, i: nat)
    requires lo <= i < n <= |v| && Counts(o, v, i)
    requires forall j :: lo <= j < n && Counts(o, v, j) ==> ResultOf(o, v[j]) == hr
    ensures FirstCounting(o, v, lo) == hr
    decreases n - lo
  {
    if !Counts(o, v, lo) {
      SameCounts(o, v, lo + 1, n, hr, i);
    }
  }

  // Up to `n` exactly the calls that are not tame count.
  lemma {:induction false} WildCounts(o: Oracle, v: seq<Event>, lo: nat)
    requires lo <= |v| && !AllTame(o, v, lo)
    requires forall i :: lo <= i < |v| ==> (Counts(o, v, i) <==> !Tame(o, v, i))
    ensures FirstCounting(o, v, lo) == FirstWild(o, v, lo)
    decreases |v| - lo
  {
    if Tame(o, v, lo) {
      assert AllTame(o, v, lo) <==> AllTame(o, v, lo + 1);
      WildCounts(o, v, lo + 1);
    }
  }

  lemma {:induction false} CountingStable(o: Oracle, v: seq<Event>, v': seq<Event>, lo: nat)
    requires lo <= |v| <= |v'| && forall j :: 0 <= j < |v| ==> v'[j] == v[j]
    requires exists i :: lo <= i < |v| && Counts(o, v, i)
    ensures FirstCounting(o, v', lo) == FirstCounting(o, v, lo)
    decreases |v| - lo
  {
    TameStable(o, v, v', lo);
    if !Counts(o, v, lo) {
      CountingStable(o, v, v', lo + 1);
    }
  }

  // Denied files of the top directory are the last thing that is visited there.
  lemma {:induction false} DeniedIsLast(o: Oracle, entries: seq<Entry>, path: Path, recursive: bool, w: seq<Event>, n: nat)
    requires n <= |entries| && (forall i :: 0 <= i < |entries| ==> ValidEntry(entries[i])) && Unvisited(w, path)
    ensures var r := Entries(o, entries, path, recursive, w, n);
      r.hr == AccessDenied <==> DeniedIn(o, r.trace, path, |r.trace|)
    decreases entries, n
  {
    if n == 0 {
      NoneDenied(o, w, path);
    } else {
      DeniedIsLast(o, entries, path, recursive, w, n - 1);
      var r := Entries(o, entries, path, recursive, w, n - 1);
      if !Failed(r.hr) {
        EntriesUnvisited(o, entries, path, recursive, w, n - 1);
        OneTame(o, entries[n - 1], path + [n - 1], recursive, r.trace);
        OneDenied(o, entries[n - 1], path, n - 1, recursive, r.trace);
      }
    }
  }

  // The entries of the top directory
  lemma BodyCode(o: Oracle, entries: seq<Entry>, recursive: bool, start: seq<Event>)
    requires (forall i :: 0 <= i < |entries| ==> ValidEntry(entries[i])) && start == [Enter([])]
    ensures var b := Entries(o, entries, [], recursive, start, |entries|);
      if b.hr == Success then forall i :: |start| <= i < |b.trace| ==> !Counts(o, b.trace, i)
      else FirstCounting(o, b.trace, |start|) == b.hr && exists i :: |start| <= i < |b.trace| && Counts(o, b.trace, i)
  {
    var b := Entries(o, entries, [], recursive, start, |entries|);
    StartUnvisited(start);
    BodyLost(o, entries, recursive, start);
    EntriesTame(o, entries, [], recursive, start, |entries|);
    EntriesExtend(o, entries, [], recursive, start, |entries|);
    EntriesCode(o, entries, [], recursive, start, |entries|);
    DeniedIsLast(o, entries, [], recursive, start, |entries|);
    if b.hr == AccessDenied {
      DeniedCode(o, b.trace);
    } else if b.hr != Success {
      WildCode(o, b.trace, |start|);
    }
  }

  lemma StartUnvisited(start: seq<Event>)
    requires start == [Enter([])]
    ensures Unvisited(start, [])
  {
    forall q: Path
      ensures Count(start, q) == 0
    {
      CountOne([], Enter([]), q);
      assert [] + [Enter([])] == start;
    }
  }

  // Below the top a call that is tame counts only if it denies access to a file of the top directory.
  lemma TameTop(o: Oracle, v: seq<Event>, i: nat)
    requires i < |v| && [] < v[i].path && Tame(o, v, i) && Counts(o, v, i)
    ensures v[i].Visit? && |v[i].path| == 1 && ResultOf(o, v[i]) == AccessDenied
  {
  }

  lemma DeniedCounts(o: Oracle, v: seq<Event>) returns (i: nat)
    requires v != [] && v[0].Enter? && DeniedIn(o, v, [], |v|)
    ensures 1 <= i < |v| && Counts(o, v, i)
  {
    var k: nat :| o(Visit([] + [k])) == AccessDenied && Visits(v, [] + [k], |v|) > 0;
    i := VisitIndex(v, [] + [k], |v|);
    assert AtTop(v[i]);
    assert !Lost(o, v, i);
  }

  lemma DeniedCode(o: Oracle, v: seq<Event>)
    requires v != [] && v[0].Enter? && AllTame(o, v, 1) && DeniedIn(o, v, [], |v|)
    requires forall i :: 1 <= i < |v| ==> [] < v[i].path
    ensures FirstCounting(o, v, 1) == AccessDenied && exists i :: 1 <= i < |v| && Counts(o, v, i)
  {
    var i := DeniedCounts(o, v);
    forall j | 1 <= j < |v| && Counts(o, v, j)
      ensures ResultOf(o, v[j]) == AccessDenied
    {
      TameTop(o, v, j);
    }
    SameCounts(o, v, 1, |v|, AccessDenied, i);
  }

  lemma WildCode(o: Oracle, v: seq<Event>, lo: nat)
    requires lo <= |v| && !AllTame(o, v, lo) && !DeniedIn(o, v, [], |v|)
    requires forall i :: lo <= i < |v| ==> [] < v[i].path
    ensures FirstCounting(o, v, lo) == FirstWild(o, v, lo) && exists i :: lo <= i < |v| && Counts(o, v, i)
  {
    forall i | lo <= i < |v|
      ensures Counts(o, v, i) <==> !Tame(o, v, i)
    {
      if Tame(o, v, i) && Failed(ResultOf(o, v[i])) {
        TopFileDenies(o, v, i);
      }
    }
    WildCounts(o, v, lo);
    var i :| lo <= i < |v| && !Tame(o, v, i);
    assert Counts(o, v, i);
  }

  lemma TopCode(o: Oracle, start: seq<Event>, b: Outcome)
    requires start == [Enter([])] && !Failed(o(Enter([]))) && ExtendsBelow(start, b.trace, [])
    requires if b.hr == Success then forall i :: |start| <= i < |b.trace| ==> !Counts(o, b.trace, i)
      else FirstCounting(o, b.trace, |start|) == b.hr && exists i :: |start| <= i < |b.trace| && Counts(o, b.trace, i)
    ensures FirstCounting(o, b.trace + [Leave([])], 0) == if Failed(b.hr) then b.hr else o(Leave([]))
  {
    var v := b.trace + [Leave([])];
    assert v[0] == start[0] == Enter([]) && v[|b.trace|] == Leave([]);
    assert FirstCounting(o, v, 0) == FirstCounting(o, v, 1);
    if b.hr == Success {
      forall i | 1 <= i < |b.trace|
        ensures !Counts(o, v, i)
      {
        TameStable(o, b.trace, v, i);
        assert !Counts(o, b.trace, i);
      }
      NothingCounts(o, v, 1, |b.trace|);
      assert AtTop(Leave([]));
      assert FirstCounting(o, v, |v|) == Success;
    } else {
      CountingStable(o, b.trace, v, 1);
    }
  }

  // For any tree and any visitor: the search returns the result of the first call that fails without
  // being lost, and success if there is none.
  lemma {:induction false} ResultIsFirstCounting(o: Oracle, d: Directory, recursive: bool)
    requires ValidDirectory(d)
    ensures var r := Traverse(o, d, [], recursive, []); r.hr == FirstCounting(o, r.trace, 0)
  {
    var r := Traverse(o, d, [], recursive, []);
    match d
    case Inaccessible(e) =>
      assert r.trace == [Unsearchable([], e)];
      assert Counts(o, r.trace, 0);
    case NoMatch =>
    case Listing(entries) =>
      var start: seq<Event> := [Enter([])];
      assert [] + [Enter([])] == start;
      if !Failed(o(Enter([]))) {
        BodyCode(o, entries, recursive, start);
        EntriesExtend(o, entries, [], recursive, start, |entries|);
        TopCode(o, start, Entries(o, entries, [], recursive, start, |entries|));
      } else {
        assert r.trace == start;
        assert Counts(o, r.trace, 0);
      }
  }
}
