/**
 cdiag/cdiag/formatstr.c: a pointer-driven scanner that expands %variables into a bounded buffer, and
 the small grammar that it implements.
 */
module Formatter {
  import opened Prelude

  // iswalnum and towlower
  datatype Locale = Locale(isAlnum: char -> bool, lower: char -> char)

  const NUL: char := '\0'

  ghost predicate ValidLocale(l: Locale)
  {
    && !l.isAlnum('%') && !l.isAlnum(NUL)
    && (forall c :: l.lower(c) == NUL <==> c == NUL)
    && (forall c, d :: l.isAlnum(c) && !l.isAlnum(d) ==> l.lower(c) != l.lower(d))
  }

  // FORMAT_VARIABLE; `value` is what _snwprintf makes of its format and its binding
  datatype Variable = Variable(name: string, value: string)

  datatype Table = Table(locale: Locale, variables: seq<Variable>)

  // A variable name is a non-empty alphanumeric C string.
  ghost predicate ValidName(l: Locale, name: string)
  {
    name != [] && forall i :: 0 <= i < |name| ==> l.isAlnum(name[i])
  }

  ghost predicate ValidTable(tab: Table)
  {
    ValidLocale(tab.locale) && forall i :: 0 <= i < |tab.variables| ==> ValidName(tab.locale, tab.variables[i].name)
  }

  ghost predicate CString(s: string)
  {
    forall i :: 0 <= i < |s| ==> s[i] != NUL
  }

  // What a pointer to position `i` of a C string points to
  function CharAt(s: string, i: nat): char
    requires i <= |s|
  {
    if i == |s| then NUL else s[i]
  }

  /* ---------------------------------------------------------------- looking up a variable */

  // The `n` characters of `t` from position `v` on are a prefix of `name`, up to case.
  predicate PrefixOf(l: Locale, name: string, t: string, v: nat, n: nat)
    requires v + n <= |t|
  {
    n <= |name| && forall i :: 0 <= i < n ==> l.lower(name[i]) == l.lower(t[v + i])
  }

  // The first variable whose name begins with t[v..e], and none for the empty name
  function Lookup(tab: Table, t: string, v: nat, e: nat, k: nat): Option<nat>
    requires v <= e <= |t| && k <= |tab.variables|
    decreases |tab.variables| - k
  {
    if v == e || k == |tab.variables| then None
    else if PrefixOf(tab.locale, tab.variables[k].name, t, v, e - v) then Some(k)
    else Lookup(tab, t, v, e, k + 1)
  }

  function Value(tab: Table, t: string, v: nat, e: nat): string
    requires v <= e <= |t|
  {
    match Lookup(tab, t, v, e, 0)
    case None => []
    case Some(k) => LookupInRange(tab, t, v, e, 0); tab.variables[k].value
  }

  lemma {:induction false} LookupInRange(tab: Table, t: string, v: nat, e: nat, k: nat)
    requires v <= e <= |t| && k <= |tab.variables|
    ensures Lookup(tab, t, v, e, k).Some? ==> k <= Lookup(tab, t, v, e, k).value < |tab.variables|
    decreases |tab.variables| - k
  {
    if v < e && k < |tab.variables| {
      LookupInRange(tab, t, v, e, k + 1);
    }
  }

  // The name of variable `k` begins with t[v..e], up to case.
  ghost predicate BeginsWith(tab: Table, k: nat, t: string, v: nat, e: nat)
    requires v <= e <= |t| && k < |tab.variables|
  {
    var name := tab.variables[k].name;
    && |name| >= e - v
    && forall i :: v <= i < e ==> tab.locale.lower(name[i - v]) == tab.locale.lower(t[i])
  }

  // The variable that is found is the first one that begins with these characters; for no characters none
  // is.
  lemma {:induction false} LookupIff(tab: Table, t: string, v: nat, e: nat, k: nat)
    requires v <= e <= |t| && k <= |tab.variables|
    ensures Lookup(tab, t, v, e, k) == None <==>
              v == e || forall j :: k <= j < |tab.variables| ==> !BeginsWith(tab, j, t, v, e)
    ensures forall m :: Lookup(tab, t, v, e, k) == Some(m) <==>
              && v < e && k <= m < |tab.variables| && BeginsWith(tab, m, t, v, e)
              && forall j :: k <= j < m ==> !BeginsWith(tab, j, t, v, e)
    decreases |tab.variables| - k
  {
    if v < e && k < |tab.variables| {
      PrefixIff(tab, k, t, v, e);
      LookupIff(tab, t, v, e, k + 1);
    }
  }

  lemma PrefixIff(tab: Table, k: nat, t: string, v: nat, e: nat)
    requires v <= e <= |t| && k < |tab.variables|
    ensures PrefixOf(tab.locale, tab.variables[k].name, t, v, e - v) <==> BeginsWith(tab, k, t, v, e)
  {
    var name := tab.variables[k].name;
    if BeginsWith(tab, k, t, v, e) {
      forall i | 0 <= i < e - v
        ensures tab.locale.lower(name[i]) == tab.locale.lower(t[v + i])
      {
        var j := v + i;
        assert name[j - v] == name[i];
      }
    }
    if PrefixOf(tab.locale, name, t, v, e - v) {
      forall i | v <= i < e
        ensures tab.locale.lower(name[i - v]) == tab.locale.lower(t[i])
      {
        var j := i - v;
        assert t[v + j] == t[i];
      }
    }
  }

  // CdiagsCompareString: compares at most `cch` characters, or all if `cch` is 0, since the counter
  // is decremented before it is tested.
  method CompareString(l: Locale, dst: string, t: string, v: nat, cch: nat) returns (difference: int)
    requires ValidLocale(l) && CString(t) && ValidName(l, dst) && v + cch <= |t|
    ensures cch > 0 ==> (difference == 0 <==> PrefixOf(l, dst, t, v, cch))
    ensures cch == 0 && !l.isAlnum(CharAt(t, v)) ==> difference != 0
  {
    var max: int := cch;
    var i := 0;
    var dstChar := l.lower(CharAt(dst, i));
    var srcChar := l.lower(CharAt(t, v + i));
    i := i + 1;
    max := max - 1;
    while (max > 0 || cch == 0) && dstChar != NUL && dstChar == srcChar
      invariant 1 <= i <= |dst| + 1 && v + i <= |t| + 1 && (cch > 0 ==> max == cch - i >= 0)
      invariant dstChar == l.lower(CharAt(dst, i - 1)) && srcChar == l.lower(CharAt(t, v + i - 1))
      invariant forall k :: 0 <= k < i - 1 ==> CharAt(dst, k) != NUL && l.lower(CharAt(dst, k)) == l.lower(CharAt(t, v + k))
      invariant i > 1 && cch == 0 ==> l.isAlnum(CharAt(t, v))
      decreases |dst| + 1 - i
    {
      dstChar := l.lower(CharAt(dst, i));
      srcChar := l.lower(CharAt(t, v + i));
      i := i + 1;
      max := max - 1;
    }
    difference := dstChar as int - srcChar as int;
    assert dstChar == NUL <==> i - 1 == |dst|;
    if cch > 0 {
      assert CharAt(t, v + (i - 1)) == t[v + (i - 1)];
      assert srcChar != NUL;
      CompareResult(l, dst, t, v, cch, i, difference);
    }
  }

  // What the comparison of the first `i` characters says if it stopped there
  lemma CompareResult(l: Locale, dst: string, t: string, v: nat, cch: nat, i: nat, difference: int)
    requires ValidLocale(l) && CString(t) && ValidName(l, dst) && v + cch <= |t| && 1 <= i <= cch && i <= |dst| + 1
    requires forall k :: 0 <= k < i - 1 ==> l.lower(CharAt(dst, k)) == l.lower(CharAt(t, v + k))
    requires difference == l.lower(CharAt(dst, i - 1)) as int - l.lower(CharAt(t, v + (i - 1))) as int
    requires i == cch || i - 1 == |dst| || difference != 0
    ensures difference == 0 <==> PrefixOf(l, dst, t, v, cch)
  {
    var last := i - 1;
    assert t[v + last] != NUL;
    if difference == 0 {
      assert last < |dst|;
      forall k | 0 <= k < cch
        ensures l.lower(dst[k]) == l.lower(t[v + k])
      {
        assert k < last ==> l.lower(CharAt(dst, k)) == l.lower(CharAt(t, v + k));
      }
    } else if last < |dst| {
      assert l.lower(dst[last]) != l.lower(t[v + last]);
    }
  }

  // CdiagsGetVariableBindingIndex
  method GetBindingIndex(tab: Table, t: string, v: nat, e: nat) returns (index: Option<nat>)
    requires ValidTable(tab) && CString(t) && v <= e <= |t| && (v == e ==> !tab.locale.isAlnum(CharAt(t, v)))
    ensures index == Lookup(tab, t, v, e, 0)
  {
    var i := 0;
    while i < |tab.variables|
      invariant 0 <= i <= |tab.variables|
      invariant Lookup(tab, t, v, e, 0) == Lookup(tab, t, v, e, i)
    {
      var difference := CompareString(tab.locale, tab.variables[i].name, t, v, e - v);
      if difference == 0 {
        return Some(i);
      }
      i := i + 1;
    }
    return None;
  }

  // CdiagsHandleVariable with _snwprintf, which stores at most `room` characters and fails if the
  // value has more
  method HandleVariable(tab: Table, t: string, v: nat, e: nat, buffer: array<char>, pos: nat, room: nat)
    returns (ok: bool, pos': nat)
    requires ValidTable(tab) && CString(t) && v <= e <= |t| && (v == e ==> !tab.locale.isAlnum(CharAt(t, v)))
    requires pos + room <= buffer.Length
    modifies buffer
    ensures ok <==> |Value(tab, t, v, e)| <= room
    ensures ok ==> pos' == pos + |Value(tab, t, v, e)| && buffer[pos..pos'] == Value(tab, t, v, e)
    ensures buffer[..pos] == old(buffer[..pos]) && buffer[pos + room..] == old(buffer[pos + room..])
  {
    ok, pos' := true, pos;
    var index := GetBindingIndex(tab, t, v, e);
    if index.None? {
      return;
    }
    LookupInRange(tab, t, v, e, 0);
    var value := tab.variables[index.value].value;
    var i := 0;
    while i < |value| && i < room
      invariant 0 <= i <= |value| && i <= room
      invariant buffer[pos..pos + i] == value[..i]
      invariant buffer[..pos] == old(buffer[..pos]) && buffer[pos + room..] == old(buffer[pos + room..])
    {
      buffer[pos + i] := value[i];
      i := i + 1;
    }
    ok := i == |value|;
    if ok {
      if i < room {
        buffer[pos + i] := NUL;
      }
      pos' := pos + i;
      assert value[..i] == value;
    }
  }

  /* ---------------------------------------------------------------- the grammar */

  // The end of the alphanumeric run from position `i` on
  function RunEnd(l: Locale, t: string, i: nat): (e: nat)
    requires i <= |t|
    ensures i <= e <= |t| && (forall k :: i <= k < e ==> l.isAlnum(t[k])) && (e < |t| ==> !l.isAlnum(t[e]))
    decreases |t| - i
  {
    if i < |t| && l.isAlnum(t[i]) then RunEnd(l, t, i + 1) else i
  }

  // template ::= ( "%%" | "%" name | other )*, where name is as long as possible
  function Render(tab: Table, t: string, i: nat): string
    requires i <= |t|
    decreases |t| - i
  {
    if i == |t| then []
    else if t[i] != '%' then [t[i]] + Render(tab, t, i + 1)
    else if i + 1 < |t| && t[i + 1] == '%' then ['%'] + Render(tab, t, i + 2)
    else
      var e := RunEnd(tab.locale, t, i + 1);
      Value(tab, t, i + 1, e) + Render(tab, t, e)
  }

  /* ---------------------------------------------------------------- what templates are made of */

  datatype Piece = Text(c: char) | Percent | Name(name: string)

  function Written(p: Piece): string
  {
    match p
    case Text(c) => [c]
    case Percent => "%%"
    case Name(name) => "%" + name
  }

  function Template(ps: seq<Piece>): string
  {
    if ps == [] then [] else Written(ps[0]) + Template(ps[1..])
  }

  // A variable stands for the value of the first one that its name abbreviates.
  function Meaning(tab: Table, p: Piece): string
  {
    match p
    case Text(c) => [c]
    case Percent => "%"
    case Name(name) => Value(tab, name, 0, |name|)
  }

  function Expansion(tab: Table, ps: seq<Piece>): string
  {
    if ps == [] then [] else Meaning(tab, ps[0]) + Expansion(tab, ps[1..])
  }

  // Names are alphanumeric and as long as possible.
  ghost predicate WellFormed(l: Locale, ps: seq<Piece>)
  {
    ps != [] ==>
      && WellFormed(l, ps[1..])
      && match ps[0]
         case Text(c) => c != '%'
         case Percent => true
         case Name(name) =>
           && ValidName(l, name)
           && (|ps| > 1 && ps[1].Text? ==> !l.isAlnum(ps[1].c))
  }

  lemma SamePrefix(l: Locale, n: string, t: string, v: nat, e: nat, name: string)
    requires v <= e <= |t| && t[v..e] == name
    ensures PrefixOf(l, n, t, v, e - v) <==> PrefixOf(l, n, name, 0, |name|)
  {
    forall i | 0 <= i < |name|
      ensures name[i] == t[v + i]
    {
      assert t[v..e][i] == name[i];
    }
  }

  lemma {:induction false} LookupSame(tab: Table, t: string, v: nat, e: nat, name: string, k: nat)
    requires v <= e <= |t| && t[v..e] == name && k <= |tab.variables|
    ensures Lookup(tab, t, v, e, k) == Lookup(tab, name, 0, |name|, k)
    decreases |tab.variables| - k
  {
    if v < e && k < |tab.variables| {
      SamePrefix(tab.locale, tab.variables[k].name, t, v, e, name);
      LookupSame(tab, t, v, e, name, k + 1);
    }
  }

  lemma NameParts(t: string, i: nat, name: string, rest: string)
    requires i <= |t| && t[i..] == "%" + name + rest
    ensures i + 1 + |name| <= |t| && t[i] == '%'
    ensures t[i + 1..i + 1 + |name|] == name && t[i + 1 + |name|..] == rest
  {
    var s := t[i..];
    assert t[i] == s[0];
    assert t[i + 1..i + 1 + |name|] == s[1..1 + |name|];
    assert t[i + 1 + |name|..] == s[1 + |name|..];
  }

  // What follows a name does not continue it.
  lemma RestBegins(l: Locale, ps: seq<Piece>)
    requires !l.isAlnum('%') && ps != [] && ps[0].Name? && WellFormed(l, ps)
    ensures Template(ps[1..]) != [] ==> !l.isAlnum(Template(ps[1..])[0])
  {
    if |ps| > 1 {
      assert ps[1..][0] == ps[1];
    }
  }

  lemma RenderName(tab: Table, t: string, i: nat, name: string)
    requires !tab.locale.isAlnum('%') && ValidName(tab.locale, name) && i + 1 + |name| <= |t| && t[i] == '%'
    requires t[i + 1..i + 1 + |name|] == name
    requires t[i + 1 + |name|..] != [] ==> !tab.locale.isAlnum(t[i + 1 + |name|..][0])
    ensures Render(tab, t, i) == Value(tab, name, 0, |name|) + Render(tab, t, i + 1 + |name|)
  {
    var v, e := i + 1, i + 1 + |name|;
    forall k | v <= k < e
      ensures tab.locale.isAlnum(t[k])
    {
      assert t[k] == t[v..e][k - v];
    }
    assert e < |t| ==> t[e..][0] == t[e];
    assert tab.locale.isAlnum(t[v]);
    RunEndIs(tab.locale, t, v, e);
    LookupSame(tab, t, v, e, name, 0);
  }

  lemma TextParts(t: string, i: nat, s: string, rest: string)
    requires i <= |t| && t[i..] == s + rest
    ensures i + |s| <= |t| && t[i..i + |s|] == s && t[i + |s|..] == rest
  {
    assert t[i..i + |s|] == t[i..][..|s|];
    assert t[i + |s|..] == t[i..][|s|..];
  }

  lemma RenderText(tab: Table, t: string, i: nat, c: char)
    requires i + 1 <= |t| && t[i..i + 1] == [c] && c != '%'
    ensures Render(tab, t, i) == [c] + Render(tab, t, i + 1)
  {
    assert t[i] == t[i..i + 1][0];
  }

  lemma RenderPercent(tab: Table, t: string, i: nat)
    requires i + 2 <= |t| && t[i..i + 2] == "%%"
    ensures Render(tab, t, i) == "%" + Render(tab, t, i + 2)
  {
    assert t[i] == t[i..i + 2][0] && t[i + 1] == t[i..i + 2][1];
  }

  lemma RenderFirst(tab: Table, t: string, i: nat, ps: seq<Piece>)
    requires !tab.locale.isAlnum('%') && i <= |t| && t[i..] == Template(ps) && ps != [] && WellFormed(tab.locale, ps)
    ensures i + |Written(ps[0])| <= |t| && t[i + |Written(ps[0])|..] == Template(ps[1..])
    ensures Render(tab, t, i) == Meaning(tab, ps[0]) + Render(tab, t, i + |Written(ps[0])|)
  {
    TextParts(t, i, Written(ps[0]), Template(ps[1..]));
    match ps[0]
    case Text(c) => RenderText(tab, t, i, c);
    case Percent => RenderPercent(tab, t, i);
    case Name(name) =>
      NameParts(t, i, name, Template(ps[1..]));
      RestBegins(tab.locale, ps);
      RenderName(tab, t, i, name);
  }

  // A template renders to the expansion of its pieces: text to itself, a double percent sign to a single
  // one, and a variable to its value, whatever comes before and after them.
  lemma {:induction false} RenderPieces(tab: Table, t: string, i: nat, ps: seq<Piece>)
    requires !tab.locale.isAlnum('%') && i <= |t| && t[i..] == Template(ps) && WellFormed(tab.locale, ps)
    ensures Render(tab, t, i) == Expansion(tab, ps)
    decreases |ps|
  {
    if ps != [] {
      var rest, next := ps[1..], i + |Written(ps[0])|;
      RenderFirst(tab, t, i, ps);
      RenderPieces(tab, t, next, rest);
    }
  }

  // Doubling the percent signs of a text makes a template of it that renders to the text.
  function Escaped(s: string): seq<Piece>
  {
    if s == [] then [] else [if s[0] == '%' then Percent else Text(s[0])] + Escaped(s[1..])
  }

  lemma {:induction false} EscapedIs(tab: Table, s: string)
    requires !tab.locale.isAlnum('%')
    ensures WellFormed(tab.locale, Escaped(s)) && Expansion(tab, Escaped(s)) == s
  {
    if s != [] {
      EscapedIs(tab, s[1..]);
      assert Escaped(s)[1..] == Escaped(s[1..]);
    }
  }

  lemma EscapedRenders(tab: Table, s: string)
    requires !tab.locale.isAlnum('%')
    ensures Render(tab, Template(Escaped(s)), 0) == s
  {
    var t := Template(Escaped(s));
    EscapedIs(tab, s);
    assert t[0..] == t;
    RenderPieces(tab, t, 0, Escaped(s));
  }

  /* ---------------------------------------------------------------- the scanner */

  // The characters written so far, and where the variable name begins that is being read
  datatype Scan = Scan(out: string, open: Option<nat>)

  function ScanOne(tab: Table, t: string, i: nat, s: Scan): Scan
    requires i < |t| && (s.open.Some? ==> s.open.value <= i)
  {
    match s.open
    case None => if t[i] == '%' then Scan(s.out, Some(i + 1)) else Scan(s.out + [t[i]], None)
    case Some(v) =>
      if t[i] == '%' then
        if v == i then Scan(s.out + ['%'], None) else Scan(s.out + Value(tab, t, v, i), Some(i + 1))
      else if !tab.locale.isAlnum(t[i]) then Scan(s.out + Value(tab, t, v, i) + [t[i]], None)
      else s
  }

  // After the first `n` characters of the template
  function ScanTo(tab: Table, t: string, n: nat): (s: Scan)
    requires n <= |t|
    ensures s.open.Some? ==> s.open.value <= n
  {
    if n == 0 then Scan([], None) else ScanOne(tab, t, n - 1, ScanTo(tab, t, n - 1))
  }

  // All output, including that of a variable that ends with the template
  function Finish(tab: Table, t: string): string
  {
    var s := ScanTo(tab, t, |t|);
    match s.open
    case None => s.out
    case Some(v) => s.out + Value(tab, t, v, |t|)
  }

  // What the output will be in the end, seen from position `n`
  ghost predicate Promises(tab: Table, t: string, s: Scan, n: nat)
    requires n <= |t|
  {
    match s.open
    case None => s.out + Render(tab, t, n) == Render(tab, t, 0)
    case Some(v) =>
      && 0 < v <= n && t[v - 1] == '%' && s.out + Render(tab, t, v - 1) == Render(tab, t, 0)
      && (forall k :: v <= k < n ==> tab.locale.isAlnum(t[k]))
  }

  lemma {:induction false} RunEndIs(l: Locale, t: string, i: nat, e: nat)
    requires i <= e <= |t| && (forall k :: i <= k < e ==> l.isAlnum(t[k])) && (e == |t| || !l.isAlnum(t[e]))
    ensures RunEnd(l, t, i) == e
    decreases e - i
  {
    if i < e {
      RunEndIs(l, t, i + 1, e);
    }
  }

  // A variable that ends before position `n`
  lemma RenderVariable(tab: Table, t: string, v: nat, n: nat)
    requires ValidLocale(tab.locale) && 0 < v <= n <= |t| && t[v - 1] == '%'
    requires (forall k :: v <= k < n ==> tab.locale.isAlnum(t[k])) && (n == |t| || !tab.locale.isAlnum(t[n]))
    requires v == n && n < |t| ==> t[n] != '%'
    ensures Render(tab, t, v - 1) == Value(tab, t, v, n) + Render(tab, t, n)
  {
    RunEndIs(tab.locale, t, v, n);
    assert v < n ==> tab.locale.isAlnum(t[v]);
  }

  lemma PromiseStep(tab: Table, t: string, s: Scan, n: nat)
    requires ValidLocale(tab.locale) && n < |t| && Promises(tab, t, s, n)
    ensures Promises(tab, t, ScanOne(tab, t, n, s), n + 1)
  {
    match s.open
    case None =>
      if t[n] != '%' {
        assert s.out + ([t[n]] + Render(tab, t, n + 1)) == s.out + [t[n]] + Render(tab, t, n + 1);
      }
    case Some(v) => PromiseInVariable(tab, t, s, v, n);
  }

  lemma PromiseInVariable(tab: Table, t: string, s: Scan, v: nat, n: nat)
    requires ValidLocale(tab.locale) && n < |t| && Promises(tab, t, s, n) && s.open == Some(v)
    ensures Promises(tab, t, ScanOne(tab, t, n, s), n + 1)
  {
    if t[n] == '%' && v == n {
      assert s.out + (['%'] + Render(tab, t, n + 1)) == s.out + ['%'] + Render(tab, t, n + 1);
    } else if !tab.locale.isAlnum(t[n]) {
      RenderVariable(tab, t, v, n);
      var value, rest := Value(tab, t, v, n), Render(tab, t, n);
      assert s.out + (value + rest) == s.out + value + rest;
      if t[n] != '%' {
        assert rest == [t[n]] + Render(tab, t, n + 1);
        assert s.out + value + ([t[n]] + Render(tab, t, n + 1)) == s.out + value + [t[n]] + Render(tab, t, n + 1);
      }
    }
  }

  lemma {:induction false} PromiseTo(tab: Table, t: string, n: nat)
    requires ValidLocale(tab.locale) && n <= |t|
    ensures Promises(tab, t, ScanTo(tab, t, n), n)
  {
    if n > 0 {
      PromiseTo(tab, t, n - 1);
      PromiseStep(tab, t, ScanTo(tab, t, n - 1), n - 1);
    }
  }

  // The scanner implements the grammar.
  lemma ScannerRenders(tab: Table, t: string)
    requires ValidLocale(tab.locale)
    ensures Finish(tab, t) == Render(tab, t, 0)
  {
    PromiseTo(tab, t, |t|);
    var s := ScanTo(tab, t, |t|);
    if s.open.Some? {
      RenderVariable(tab, t, s.open.value, |t|);
    }
  }

  lemma {:induction false} OutGrows(tab: Table, t: string, m: nat, n: nat)
    requires m <= n <= |t|
    ensures |ScanTo(tab, t, m).out| <= |ScanTo(tab, t, n).out|
  {
    if m < n {
      OutGrows(tab, t, m, n - 1);
    }
  }

  lemma OutBelowFinish(tab: Table, t: string, m: nat)
    requires m <= |t|
    ensures |ScanTo(tab, t, m).out| <= |Finish(tab, t)|
  {
    OutGrows(tab, t, m, |t|);
  }

  /* ---------------------------------------------------------------- CdiagpFormatString */

  datatype Hr = Success | InvalidArg | BufferTooSmall

  predicate IsWhitespace(c: char) { c == ' ' || c == '\t' || c == '\n' || c == '\r' }

  const MAXWORD: nat := 0xFFFF

  // CdiagpIsStringValid( ..., 1, MAXWORD, FALSE )
  predicate ValidTemplate(t: string)
  {
    1 <= |t| <= MAXWORD && exists i :: 0 <= i < |t| && !IsWhitespace(t[i])
  }

  // The two variables of the scanner agree with the specification.  Outside a variable the pointer
  // may be stale, but then it points to a percent sign.
  ghost predicate Agrees(t: string, s: Scan, cur: nat, inVariable: bool, name: Option<nat>)
  {
    && (inVariable <==> s.open.Some?)
    && (inVariable ==> name == s.open && name.value <= cur)
    && (!inVariable && name.Some? ==> name.value < cur && name.value < |t| && t[name.value] == '%')
  }

  lemma NotPrefix(l: Locale, name: string, t: string, v: nat, n: nat)
    requires ValidLocale(l) && ValidName(l, name) && 0 < n && v + n <= |t| && !l.isAlnum(t[v])
    ensures !PrefixOf(l, name, t, v, n)
  {
    assert l.isAlnum(name[0]);
    assert l.lower(name[0]) != l.lower(t[v + 0]);
  }

  // A stale pointer finds no variable.
  lemma {:induction false} StaleFindsNone(tab: Table, t: string, v: nat, e: nat, k: nat)
    requires ValidTable(tab) && v < e <= |t| && t[v] == '%' && k <= |tab.variables|
    ensures Lookup(tab, t, v, e, k) == None
    decreases |tab.variables| - k
  {
    if k < |tab.variables| {
      NotPrefix(tab.locale, tab.variables[k].name, t, v, e - v);
      StaleFindsNone(tab, t, v, e, k + 1);
    }
  }

  // The loop body after the check for space; `end` is the last position of the buffer
  method ScanChar(tab: Table, t: string, cur: nat, buffer: array<char>, pos: nat, end: nat,
                  inVariable: bool, name: Option<nat>, ghost s: Scan)
    returns (ok: bool, pos': nat, inVariable': bool, name': Option<nat>)
    requires ValidTable(tab) && CString(t) && cur < |t| && pos < end < buffer.Length
    requires Agrees(t, s, cur, inVariable, name) && buffer[..pos] == s.out
    modifies buffer
    ensures buffer[end + 1..] == old(buffer[end + 1..])
    ensures !ok ==> |ScanOne(tab, t, cur, s).out| > end
    ensures ok ==> pos' <= end + 1 && buffer[..pos'] == ScanOne(tab, t, cur, s).out
    ensures ok ==> Agrees(t, ScanOne(tab, t, cur, s), cur + 1, inVariable', name')
  {
    ok, pos', inVariable', name' := true, pos, inVariable, name;
    if t[cur] == '%' {
      if name == Some(cur) {
        inVariable' := false;
        buffer[pos'] := '%';
        pos' := pos' + 1;
      } else {
        inVariable' := true;
        if name.Some? {
          if !inVariable {
            StaleFindsNone(tab, t, name.value, cur, 0);
          }
          ok, pos' := Append(tab, t, name.value, cur, buffer, pos, end, s.out);
        }
        name' := Some(cur + 1);
      }
    } else if inVariable && !tab.locale.isAlnum(t[cur]) {
      ok, pos' := Append(tab, t, name.value, cur, buffer, pos, end, s.out);
      if ok {
        inVariable', name' := false, None;
        buffer[pos'] := t[cur];
        pos' := pos' + 1;
      }
    } else if !inVariable {
      buffer[pos'] := t[cur];
      pos' := pos' + 1;
    }
  }

  // HandleVariable behind the output so far
  method Append(tab: Table, t: string, v: nat, e: nat, buffer: array<char>, pos: nat, end: nat, ghost out: string)
    returns (ok: bool, pos': nat)
    requires ValidTable(tab) && CString(t) && v <= e <= |t| && (v == e ==> !tab.locale.isAlnum(CharAt(t, v)))
    requires pos <= end < buffer.Length && buffer[..pos] == out
    modifies buffer
    ensures buffer[end + 1..] == old(buffer[end + 1..])
    ensures ok <==> |out + Value(tab, t, v, e)| <= end
    ensures ok ==> pos' <= end && buffer[..pos'] == out + Value(tab, t, v, e)
  {
    ok, pos' := HandleVariable(tab, t, v, e, buffer, pos, end - pos);
    assert buffer[end + 1..] == buffer[end..][1..];
    assert old(buffer[end + 1..]) == old(buffer[end..])[1..];
    if ok {
      assert buffer[..pos'] == buffer[..pos] + buffer[pos..pos'];
    }
  }

  // The output before the last character of the template is scanned
  function LastCheck(tab: Table, t: string): nat
    requires t != []
  {
    |ScanTo(tab, t, |t| - 1).out|
  }

  // The loop of CdiagpFormatString
  method ScanTemplate(tab: Table, t: string, buffer: array<char>, end: nat)
    returns (ok: bool, pos: nat, inVariable: bool, name: Option<nat>)
    requires ValidTable(tab) && CString(t) && t != [] && end < buffer.Length
    modifies buffer
    ensures buffer[end + 1..] == old(buffer[end + 1..])
    ensures !ok ==> |Finish(tab, t)| > end || LastCheck(tab, t) >= end
    ensures ok ==> LastCheck(tab, t) < end && pos <= end + 1 && buffer[..pos] == ScanTo(tab, t, |t|).out
    ensures ok ==> Agrees(t, ScanTo(tab, t, |t|), |t|, inVariable, name)
  {
    ok, pos, inVariable, name := true, 0, false, None;
    var cur: nat := 0;
    while cur < |t|
      invariant 0 <= cur <= |t| && pos <= end + 1
      invariant buffer[..pos] == ScanTo(tab, t, cur).out
      invariant Agrees(t, ScanTo(tab, t, cur), cur, inVariable, name)
      invariant cur > 0 ==> |ScanTo(tab, t, cur - 1).out| < end
      invariant buffer[end + 1..] == old(buffer[end + 1..])
    {
      if pos >= end {
        OutGrows(tab, t, cur, |t| - 1);
        return false, pos, inVariable, name;
      }
      ok, pos, inVariable, name := ScanChar(tab, t, cur, buffer, pos, end, inVariable, name, ScanTo(tab, t, cur));
      cur := cur + 1;
      if !ok {
        OutBelowFinish(tab, t, cur);
        return;
      }
    }
    ok := true;
  }

  // CdiagpFormatString: success means that the buffer holds the rendering, and it depends on the size
  // in the way stated, so that two characters more than the rendering are always enough.
  method FormatString(tab: Table, t: string, size: nat, buffer: array<char>) returns (hr: Hr)
    requires ValidTable(tab) && CString(t) && size <= buffer.Length
    modifies buffer
    ensures hr == InvalidArg <==>
              tab.variables == [] || size == 0 || |t| > 65535 || forall i :: 0 <= i < |t| ==> t[i] in " \t\n\r"
    ensures hr == Success ==> |Render(tab, t, 0)| < size
    ensures hr == Success ==> buffer[..|Render(tab, t, 0)|] == Render(tab, t, 0) && buffer[|Render(tab, t, 0)|] == NUL
    ensures hr != InvalidArg ==>
      (hr == Success <==> size >= |Render(tab, t, 0)| + 1 && size >= LastCheck(tab, t) + 2)
    ensures hr != InvalidArg && size >= |Render(tab, t, 0)| + 2 ==> hr == Success
    ensures buffer[size..] == old(buffer[size..])
  {
    if tab.variables == [] || !ValidTemplate(t) || size == 0 {
      return InvalidArg;
    }
    ScannerRenders(tab, t);
    OutBelowFinish(tab, t, |t| - 1);
    OutBelowFinish(tab, t, |t|);
    var end := size - 1;
    var ok, pos, inVariable, name := ScanTemplate(tab, t, buffer, end);
    if !ok || pos > end {
      return BufferTooSmall;
    }
    if inVariable {
      ok, pos := Append(tab, t, name.value, |t|, buffer, pos, end, ScanTo(tab, t, |t|).out);
      if !ok {
        return BufferTooSmall;
      }
    }
    buffer[pos] := NUL;
    return Success;
  }
}
