/** cfix/cfixutil/search.c: visiting the files of a directory tree. */
module Search {
  import opened Prelude

  datatype Hr = Success | AccessDenied | Unexpected | Other(code: nat)

  predicate Failed(hr: Hr) { hr != Success }

  // What a directory is found to contain: either it cannot be searched, or nothing matches, or
  // FindFirstFile and FindNextFile return these entries.
  datatype Directory = Inaccessible(error: Hr) | NoMatch | Listing(entries: seq<Entry>)

  // `tooLong` is set if PathCombine fails; a search below such a path fails with that error.
  datatype Entry =
    | Dot
    | Link(tooLong: Option<Hr>)
    | File(tooLong: Option<Hr>)
    | Folder(directory: Directory, tooLong: Option<Hr>)

  // The indices that lead from the root to an entry
  type Path = seq<nat>

  // The calls of the visitor, and the system calls that fail: a directory cannot be searched, or the
  // path of an entry cannot be combined, which goes unnoticed if another result overwrites it.
  datatype Event =
    | Enter(path: Path)
    | Visit(path: Path)
    | Leave(path: Path)
    | Unsearchable(path: Path, error: Hr)
    | Overlong(path: Path, overwritten: bool)

  // What the visitor returns
  type Oracle = Event -> Hr

  function ResultOf(o: Oracle, e: Event): Hr
  {
    match e
    case Unsearchable(_, error) => error
    case Overlong(_, _) => Unexpected
    case _ => o(e)
  }

  // FindFirstFile succeeds only if there is an entry, and errors are errors.
  predicate ValidDirectory(d: Directory)
  {
    match d
    case Inaccessible(e) => Failed(e)
    case NoMatch => true
    case Listing(entries) => entries != [] && forall i :: 0 <= i < |entries| ==> ValidEntry(entries[i])
  }

  predicate ValidEntry(e: Entry)
  {
    match e
    case Dot => true
    case Link(t) => t.Some? ==> Failed(t.value)
    case File(t) => t.Some? ==> Failed(t.value)
    case Folder(d, t) => ValidDirectory(d) && (t.Some? ==> Failed(t.value))
  }

  /* ---------------------------------------------------------------- specification */

  datatype Outcome = Outcome(hr: Hr, trace: seq<Event>)

  // CfixutilsTraverseDirectory after the calls in `w`
  function Traverse(o: Oracle, d: Directory, path: Path, recursive: bool, w: seq<Event>): Outcome
    decreases d, 0
  {
    match d
    case Inaccessible(e) => Outcome(e, w + [Unsearchable(path, e)])
    case NoMatch => Outcome(Success, w)
    case Listing(entries) =>
      var start := w + [Enter(path)];
      if Failed(o(Enter(path))) then Outcome(o(Enter(path)), start)
      else
        var body := Entries(o, entries, path, recursive, start, |entries|);
        var left := o(Leave(path));
        Outcome(if Failed(body.hr) then body.hr else left, body.trace + [Leave(path)])
  }

  // The first `n` entries, up to the first failure
  function Entries(o: Oracle, entries: seq<Entry>, path: Path, recursive: bool, w: seq<Event>, n: nat): Outcome
    requires n <= |entries|
    decreases entries, n
  {
    if n == 0 then Outcome(Success, w)
    else
      var p := Entries(o, entries, path, recursive, w, n - 1);
      if Failed(p.hr) then p else One(o, entries[n - 1], path + [n - 1], recursive, p.trace)
  }

  function Forgive(hr: Hr): Hr { if hr == AccessDenied then Success else hr }

  // PathCombine for an entry
  function Combine(tooLong: Option<Hr>, path: Path, overwritten: bool, w: seq<Event>): seq<Event>
  {
    if tooLong.Some? then w + [Overlong(path, overwritten)] else w
  }

  function One(o: Oracle, e: Entry, path: Path, recursive: bool, w: seq<Event>): Outcome
    decreases e, 0
  {
    match e
    case Dot => Outcome(Success, w)
    case Link(t) => Outcome(if t.Some? then Unexpected else Success, Combine(t, path, false, w))
    case File(t) => Outcome(o(Visit(path)), Combine(t, path, true, w) + [Visit(path)])
    case Folder(d, t) =>
      if !recursive then Outcome(if t.Some? then Unexpected else Success, Combine(t, path, false, w))
      else if t.Some? then Outcome(Forgive(t.value), Combine(t, path, true, w) + [Unsearchable(path, t.value)])
      else
        var r := Traverse(o, d, path, recursive, w);
        Outcome(Forgive(r.hr), r.trace)
  }

  /* ---------------------------------------------------------------- the code */

  // The caller of the search: the visitor's results, and the calls made
  class Visitor {
    const oracle: Oracle
    var trace: seq<Event>

    constructor (o: Oracle)
      ensures oracle == o && trace == []
    {
      oracle, trace := o, [];
    }

    method Call(e: Event) returns (hr: Hr)
      modifies this
      ensures trace == old(trace) + [e] && hr == oracle(e)
    {
      trace := trace + [e];
      hr := oracle(e);
    }

    // A system call fails.
    method Note(e: Event)
      modifies this
      ensures trace == old(trace) + [e]
    {
      trace := trace + [e];
    }

    // The loop body
    method VisitEntry(e: Entry, path: Path, recursive: bool) returns (hr: Hr)
      requires ValidEntry(e)
      modifies this
      ensures Outcome(hr, trace) == One(oracle, e, path, recursive, old(trace))
      decreases e, 0
    {
      hr := Success;
      if e.Dot? {
        return;
      }
      if e.tooLong.Some? {
        hr := Unexpected;
        Note(Overlong(path, e.File? || (e.Folder? && recursive)));
      }
      match e
      case Link(_) =>
      case Folder(d, tooLong) =>
        if recursive {
          if tooLong.Some? {
            hr := tooLong.value;
            Note(Unsearchable(path, hr));
          } else {
            hr := TraverseDirectory(d, path, recursive);
          }
          if hr == AccessDenied {
            hr := Success;
          }
        }
      case File(_) =>
        hr := Call(Visit(path));
    }

    // CfixutilsTraverseDirectory
    method TraverseDirectory(d: Directory, path: Path, recursive: bool) returns (hr: Hr)
      requires ValidDirectory(d)
      modifies this
      ensures Outcome(hr, trace) == Traverse(oracle, d, path, recursive, old(trace))
      decreases d, 0
    {
      match d
      case Inaccessible(e) =>
        Note(Unsearchable(path, e));
        return e;
      case NoMatch => return Success;
      case Listing(entries) =>
        hr := Call(Enter(path));
        if !Failed(hr) {
          ghost var start := trace;
          hr := VisitEntry(entries[0], path + [0], recursive);
          var index := 1;
          while !Failed(hr) && index < |entries|
            invariant 1 <= index <= |entries|
            invariant Outcome(hr, trace) == Entries(oracle, entries, path, recursive, start, index)
          {
            hr := VisitEntry(entries[index], path + [index], recursive);
            index := index + 1;
          }
          EntriesStay(oracle, entries, path, recursive, start, index, |entries|);
          var hr2 := Call(Leave(path));
          if !Failed(hr) && Failed(hr2) {
            hr := hr2;
          }
        }
    }
  }

  lemma {:induction false} EntriesStay(o: Oracle, entries: seq<Entry>, path: Path, recursive: bool, w: seq<Event>,
                                       m: nat, n: nat)
    requires m <= n <= |entries| && (m == n || Failed(Entries(o, entries, path, recursive, w, m).hr))
    ensures Entries(o, entries, path, recursive, w, n) == Entries(o, entries, path, recursive, w, m)
    decreases n
  {
    if m < n {
      EntriesStay(o, entries, path, recursive, w, m, n - 1);
    }
  }

  /* ---------------------------------------------------------------- nesting */

  // The directories entered and not yet left, the innermost last
  type Stack = seq<Path>

  predicate Inside(s: Stack, path: Path)
  {
    s == [] || (path != [] && path[..|path| - 1] == s[|s| - 1])
  }

  // A directory counts as entered if the visitor agreed; a call is allowed for an entry of the
  // innermost directory, and only that directory may be left.
  function Next(o: Oracle, s: Stack, e: Event): Option<Stack>
  {
    match e
    case Enter(p) => if !Inside(s, p) then None else if Failed(o(e)) then Some(s) else Some(s + [p])
    case Visit(p) => if s != [] && Inside(s, p) then Some(s) else None
    case Leave(p) => if s != [] && s[|s| - 1] == p then Some(s[..|s| - 1]) else None
    case Unsearchable(p, _) => if Inside(s, p) then Some(s) else None
    case Overlong(p, _) => if Inside(s, p) then Some(s) else None
  }

  function NestTo(o: Oracle, w: seq<Event>, n: nat): Option<Stack>
    requires n <= |w|
  {
    if n == 0 then Some([])
    else
      match NestTo(o, w, n - 1)
      case None => None
      case Some(s) => Next(o, s, w[n - 1])
  }

  function Nest(o: Oracle, w: seq<Event>): Option<Stack>
  {
    NestTo(o, w, |w|)
  }

  lemma {:induction false} NestPrefix(o: Oracle, w: seq<Event>, e: Event, n: nat)
    requires n <= |w|
    ensures NestTo(o, w + [e], n) == NestTo(o, w, n)
  {
    if n > 0 {
      NestPrefix(o, w, e, n - 1);
      assert (w + [e])[n - 1] == w[n - 1];
    }
  }

  lemma NestOne(o: Oracle, w: seq<Event>, e: Event)
    requires Nest(o, w).Some?
    ensures Nest(o, w + [e]) == Next(o, Nest(o, w).value, e)
  {
    NestPrefix(o, w, e, |w|);
    assert (w + [e])[|w|] == e;
  }

  lemma InsideEntry(s: Stack, path: Path, k: nat)
    ensures Inside(s + [path], path + [k])
  {
    assert (path + [k])[..|path + [k]| - 1] == path;
  }

  // Whatever fails, a traversal leaves every directory that it entered, in reverse order.
  lemma {:induction false} TraverseNests(o: Oracle, d: Directory, path: Path, recursive: bool, w: seq<Event>, s: Stack)
    requires Nest(o, w) == Some(s) && Inside(s, path)
    ensures Nest(o, Traverse(o, d, path, recursive, w).trace) == Some(s)
    decreases d, 0
  {
    match d
    case Listing(entries) =>
      var start := w + [Enter(path)];
      NestOne(o, w, Enter(path));
      if !Failed(o(Enter(path))) {
        EntriesNest(o, entries, path, recursive, start, |entries|, s);
        NestOne(o, Entries(o, entries, path, recursive, start, |entries|).trace, Leave(path));
        assert (s + [path])[..|s|] == s;
      }
    case Inaccessible(e) => NestOne(o, w, Unsearchable(path, e));
    case NoMatch =>
  }

  lemma {:induction false} EntriesNest(o: Oracle, entries: seq<Entry>, path: Path, recursive: bool, w: seq<Event>,
                                       n: nat, s: Stack)
    requires n <= |entries| && Nest(o, w) == Some(s + [path])
    ensures Nest(o, Entries(o, entries, path, recursive, w, n).trace) == Some(s + [path])
    decreases entries, n
  {
    if n > 0 {
      EntriesNest(o, entries, path, recursive, w, n - 1, s);
      var p := Entries(o, entries, path, recursive, w, n - 1);
      if !Failed(p.hr) {
        InsideEntry(s, path, n - 1);
        OneNests(o, entries[n - 1], path + [n - 1], recursive, p.trace, s + [path]);
      }
    }
  }

  lemma CombineNests(o: Oracle, t: Option<Hr>, path: Path, overwritten: bool, w: seq<Event>, s: Stack)
    requires Nest(o, w) == Some(s) && Inside(s, path)
    ensures Nest(o, Combine(t, path, overwritten, w)) == Some(s)
  {
    NestOne(o, w, Overlong(path, overwritten));
  }

  lemma {:induction false} OneNests(o: Oracle, e: Entry, path: Path, recursive: bool, w: seq<Event>, s: Stack)
    requires Nest(o, w) == Some(s) && s != [] && Inside(s, path)
    ensures Nest(o, One(o, e, path, recursive, w).trace) == Some(s)
    decreases e, 0
  {
    match e
    case Folder(d, t) =>
      CombineNests(o, t, path, recursive, w, s);
      if recursive && t.None? {
        TraverseNests(o, d, path, recursive, w, s);
      } else if recursive {
        NestOne(o, Combine(t, path, recursive, w), Unsearchable(path, t.value));
      }
    case File(t) =>
      CombineNests(o, t, path, true, w, s);
      NestOne(o, Combine(t, path, true, w), Visit(path));
    case Link(t) =>
      CombineNests(o, t, path, false, w, s);
    case Dot =>
  }

  // A search from the root is properly nested as a whole.
  lemma SearchNests(o: Oracle, d: Directory, recursive: bool)
    ensures Nest(o, Traverse(o, d, [], recursive, []).trace) == Some([])
  {
    TraverseNests(o, d, [], recursive, [], []);
  }

  /* ---------------------------------------------------------------- every file once */

  // How often a file is visited in the first `n` calls
  function Visits(w: seq<Event>, p: Path, n: nat): nat
    requires n <= |w|
  {
    if n == 0 then 0 else Visits(w, p, n - 1) + (if w[n - 1] == Visit(p) then 1 else 0)
  }

  function Count(w: seq<Event>, p: Path): nat
  {
    Visits(w, p, |w|)
  }

  lemma {:induction false} VisitsPrefix(w: seq<Event>, e: Event, p: Path, n: nat)
    requires n <= |w|
    ensures Visits(w + [e], p, n) == Visits(w, p, n)
  {
    if n > 0 {
      VisitsPrefix(w, e, p, n - 1);
    }
  }

  lemma CountOne(w: seq<Event>, e: Event, p: Path)
    ensures Count(w + [e], p) == Count(w, p) + (if e == Visit(p) then 1 else 0)
  {
    VisitsPrefix(w, e, p, |w|);
  }

  // The entry at `q` below a directory is a file that is searched for: no link leads to it, and
  // subdirectories count only in a recursive search.
  predicate FileAt(d: Directory, recursive: bool, q: Path)
    decreases q, 1
  {
    d.Listing? && q != [] && q[0] < |d.entries| && EntryFileAt(d.entries[q[0]], recursive, q[1..])
  }

  predicate EntryFileAt(e: Entry, recursive: bool, q: Path)
    decreases q, 2
  {
    match e
    case File(_) => q == []
    case Folder(d, _) => recursive && FileAt(d, recursive, q)
    case _ => false
  }

  // Position `p` is a file below the directory at `path`, or below the entry at `path`, or below one
  // of the first `n` entries of the directory at `path`.
  predicate FileBelow(d: Directory, path: Path, recursive: bool, p: Path)
  {
    path <= p && FileAt(d, recursive, p[|path|..])
  }

  predicate FileBelowEntry(e: Entry, path: Path, recursive: bool, p: Path)
  {
    path <= p && EntryFileAt(e, recursive, p[|path|..])
  }

  predicate FileBelowEntries(entries: seq<Entry>, path: Path, recursive: bool, n: nat, p: Path)
    requires n <= |entries|
  {
    path < p && p[|path|] < n && EntryFileAt(entries[p[|path|]], recursive, p[|path| + 1..])
  }

  lemma BelowIndex(path: Path, k: nat, p: Path)
    ensures path + [k] <= p <==> path < p && p[|path|] == k
  {
    if path < p && p[|path|] == k {
      assert p[..|path| + 1] == path + [k];
    }
  }

  lemma FileBelowStep(entries: seq<Entry>, path: Path, recursive: bool, n: nat, p: Path)
    requires n < |entries|
    ensures FileBelowEntries(entries, path, recursive, n + 1, p) <==>
              || FileBelowEntries(entries, path, recursive, n, p)
              || FileBelowEntry(entries[n], path + [n], recursive, p)
    ensures !(FileBelowEntries(entries, path, recursive, n, p) && FileBelowEntry(entries[n], path + [n], recursive, p))
  {
    BelowIndex(path, n, p);
  }

  lemma FileBelowAll(entries: seq<Entry>, path: Path, recursive: bool, p: Path)
    ensures FileBelow(Listing(entries), path, recursive, p) <==>
              FileBelowEntries(entries, path, recursive, |entries|, p)
  {
    if path < p {
      assert p[|path|..][0] == p[|path|] && p[|path|..][1..] == p[|path| + 1..];
    } else if path <= p {
      assert p[|path|..] == [];
    }
  }

  // Nothing goes wrong: the visitor never fails, every directory can be searched, every path fits.
  ghost predicate Smooth(o: Oracle, d: Directory)
  {
    (forall e :: !Failed(o(e))) && Accessible(d)
  }

  predicate Accessible(d: Directory)
  {
    match d
    case Inaccessible(_) => false
    case NoMatch => true
    case Listing(entries) => forall i :: 0 <= i < |entries| ==> AccessibleEntry(entries[i])
  }

  predicate AccessibleEntry(e: Entry)
  {
    match e
    case Dot => true
    case Link(t) => t.None?
    case File(t) => t.None?
    case Folder(d, t) => t.None? && Accessible(d)
  }

  // The file is visited at most once since `w`, and not at all unless `hit`; if nothing goes wrong,
  // exactly once if `hit`, and the search succeeds.
  ghost predicate Counted(w: seq<Event>, r: Outcome, p: Path, hit: bool, smooth: bool)
  {
    && Count(w, p) <= Count(r.trace, p) <= Count(w, p) + (if hit then 1 else 0)
    && (smooth ==> r.hr == Success && Count(r.trace, p) == Count(w, p) + (if hit then 1 else 0))
  }

  lemma {:induction false} TraverseCounts(o: Oracle, d: Directory, path: Path, recursive: bool, w: seq<Event>, p: Path)
    ensures Counted(w, Traverse(o, d, path, recursive, w), p, FileBelow(d, path, recursive, p), Smooth(o, d))
    decreases d, 0
  {
    match d
    case Listing(entries) =>
      var start := w + [Enter(path)];
      CountOne(w, Enter(path), p);
      FileBelowAll(entries, path, recursive, p);
      if !Failed(o(Enter(path))) {
        EntriesCount(o, entries, path, recursive, start, |entries|, p);
        CountOne(Entries(o, entries, path, recursive, start, |entries|).trace, Leave(path), p);
      }
    case Inaccessible(e) => CountOne(w, Unsearchable(path, e), p);
    case NoMatch =>
  }

  lemma {:induction false} EntriesCount(o: Oracle, entries: seq<Entry>, path: Path, recursive: bool, w: seq<Event>,
                                        n: nat, p: Path)
    requires n <= |entries|
    ensures Counted(w, Entries(o, entries, path, recursive, w, n), p,
                    FileBelowEntries(entries, path, recursive, n, p), Smooth(o, Listing(entries)))
    decreases entries, n
  {
    if n > 0 {
      EntriesCount(o, entries, path, recursive, w, n - 1, p);
      FileBelowStep(entries, path, recursive, n - 1, p);
      var r := Entries(o, entries, path, recursive, w, n - 1);
      if !Failed(r.hr) {
        OneCount(o, entries[n - 1], path + [n - 1], recursive, r.trace, p);
      }
    }
  }

  lemma {:induction false} OneCount(o: Oracle, e: Entry, path: Path, recursive: bool, w: seq<Event>, p: Path)
    ensures Counted(w, One(o, e, path, recursive, w), p, FileBelowEntry(e, path, recursive, p),
                    (forall x :: !Failed(o(x))) && AccessibleEntry(e))
    decreases e, 0
  {
    match e
    case Folder(d, t) =>
      CountOne(w, Overlong(path, recursive), p);
      if recursive && t.None? {
        TraverseCounts(o, d, path, recursive, w, p);
      } else if recursive {
        CountOne(Combine(t, path, recursive, w), Unsearchable(path, t.value), p);
      }
    case File(t) =>
      CountOne(w, Overlong(path, true), p);
      CountOne(Combine(t, path, true, w), Visit(path), p);
      assert path <= p && p[|path|..] == [] <==> p == path;
    case Link(t) =>
      CountOne(w, Overlong(path, false), p);
    case Dot =>
  }

  // In every search a file is visited at most once, and nothing else is visited; if nothing goes
  // wrong every file that is searched for is visited exactly once.
  lemma EveryFileOnce(o: Oracle, d: Directory, recursive: bool, p: Path)
    ensures Count(Traverse(o, d, [], recursive, []).trace, p) <= (if FileAt(d, recursive, p) then 1 else 0)
    ensures Smooth(o, d) ==>
      && Traverse(o, d, [], recursive, []).hr == Success
      && Count(Traverse(o, d, [], recursive, []).trace, p) == (if FileAt(d, recursive, p) then 1 else 0)
  {
    TraverseCounts(o, d, [], recursive, [], p);
    assert p[0..] == p;
  }
}
