/**
 The comparison of two collected trees (tools/source-update/update.go): the list of differing
 paths, each with its tag, in byte order. A path name is a string of bytes.
 */
module TreeDiff {

  const MISSING := "missing: "
  const CHANGED := "changed: "
  const ADDED := "added: "

  type Files = map<string, string>

  /** Byte-wise lexicographic order, the order `slices.Sort` uses on strings. */
  predicate Less(a: string, b: string) {
    if a == "" then b != ""
    else b != "" && (a[0] < b[0] || (a[0] == b[0] && Less(a[1..], b[1..])))
  }

  /** `k` is the first byte in which the two differ, and `a` has the smaller one. */
  ghost predicate SmallerAt(a: string, b: string, k: int) {
    0 <= k < |a| && k < |b| && a[..k] == b[..k] && a[k] < b[k]
  }

  lemma SmallerLater(a: string, b: string, k: int)
    requires a != "" && b != "" && a[0] == b[0]
    ensures SmallerAt(a[1..], b[1..], k) ==> SmallerAt(a, b, k + 1)
    ensures SmallerAt(a, b, k) ==> SmallerAt(a[1..], b[1..], k - 1)
  {
    if SmallerAt(a[1..], b[1..], k) {
      assert a[..k + 1] == [a[0]] + a[1..][..k] && b[..k + 1] == [b[0]] + b[1..][..k];
    }
    if SmallerAt(a, b, k) {
      assert a[1..][..k - 1] == a[..k][1..] && b[1..][..k - 1] == b[..k][1..];
    }
  }

  lemma SmallerStarts(a: string, b: string, k: int)
    requires a != "" && b != ""
    ensures SmallerAt(a, b, k) && k > 0 ==> a[0] == b[0]
  {
    if SmallerAt(a, b, k) && k > 0 { assert a[..k][0] == b[..k][0]; }
  }

  /** A proper prefix comes first; otherwise the first differing byte decides. */
  lemma {:induction false} LessMeans(a: string, b: string)
    ensures Less(a, b) <==> a < b || exists k :: SmallerAt(a, b, k)
    decreases |a|
  {
    if a != "" && b != "" {
      assert a == [a[0]] + a[1..] && b == [b[0]] + b[1..];
      if a[0] == b[0] {
        LessMeans(a[1..], b[1..]);
        if k :| SmallerAt(a, b, k) { SmallerLater(a, b, k); }
        if k :| SmallerAt(a[1..], b[1..], k) { SmallerLater(a, b, k); assert SmallerAt(a, b, k + 1); }
      } else {
        forall k ensures SmallerAt(a, b, k) ==> k == 0 { SmallerStarts(a, b, k); }
        assert a[0] < b[0] ==> SmallerAt(a, b, 0);
      }
    }
  }

  lemma LessTotal(a: string, b: string)
    ensures Less(a, b) || a == b || Less(b, a)
    ensures !(Less(a, b) && Less(b, a)) && (Less(a, b) ==> a != b)
  {}

  lemma LessTransitive(a: string, b: string, c: string)
    requires Less(a, b) && Less(b, c)
    ensures Less(a, c)
  {
    if a != "" && a[0] == b[0] == c[0] {
      LessTransitive(a[1..], b[1..], c[1..]);
    }
  }

  predicate StrictlySorted(s: seq<string>) {
    forall i, j :: 0 <= i < j < |s| ==> Less(s[i], s[j])
  }

  /** `slices.Sort` on distinct strings, seen as repeated insertion. */
  function Sorted(s: seq<string>): (r: seq<string>) {
    if s == [] then [] else Insert(s[0], Sorted(s[1..]))
  }

  function Insert(x: string, s: seq<string>): seq<string> {
    if s == [] then [x] else if Less(x, s[0]) then [x] + s else [s[0]] + Insert(x, s[1..])
  }

  lemma {:induction false} InsertSorted(x: string, s: seq<string>)
    requires StrictlySorted(s) && x !in s
    ensures StrictlySorted(Insert(x, s))
    ensures forall y :: y in Insert(x, s) <==> y == x || y in s
  {
    if s == [] {
    } else if Less(x, s[0]) {
      forall j | 0 < j < |s| ensures Less(x, s[j]) { LessTransitive(x, s[0], s[j]); }
    } else {
      LessTotal(x, s[0]);
      InsertSorted(x, s[1..]);
      var tail := Insert(x, s[1..]);
      forall j | 0 <= j < |tail| ensures Less(s[0], tail[j]) { assert tail[j] in tail; }
    }
  }

  predicate Distinct(s: seq<string>) {
    forall i, j :: 0 <= i < j < |s| ==> s[i] != s[j]
  }

  lemma {:induction false} SortedSorts(s: seq<string>)
    requires Distinct(s)
    ensures StrictlySorted(Sorted(s))
    ensures forall y :: y in Sorted(s) <==> y in s
  {
    if s != [] {
      SortedSorts(s[1..]);
      InsertSorted(s[0], Sorted(s[1..]));
    }
  }

  /** Strictly sorted lists of the same strings are the same list, so map order cannot show. */
  lemma {:induction false} SortedUnique(s: seq<string>, t: seq<string>)
    requires StrictlySorted(s) && StrictlySorted(t)
    requires forall y :: y in s <==> y in t
    ensures s == t
  {
    if s == [] || t == [] {
      EmptyMembers(s);
      EmptyMembers(t);
    } else {
      HeadsAgree(s, t);
      forall y ensures y in s[1..] <==> y in t[1..] {
        TailMember(s, y);
        TailMember(t, y);
      }
      SortedUnique(s[1..], t[1..]);
      assert s == [s[0]] + s[1..] && t == [t[0]] + t[1..];
    }
  }

  lemma EmptyMembers(s: seq<string>)
    ensures (forall y :: y !in s) ==> s == []
  {
    if s != [] { assert s[0] in s; }
  }

  lemma HeadsAgree(s: seq<string>, t: seq<string>)
    requires StrictlySorted(s) && StrictlySorted(t) && s != [] && t != []
    requires forall y :: y in s <==> y in t
    ensures s[0] == t[0]
  {
    assert s[0] in s && t[0] in t;
    var i :| 0 <= i < |t| && t[i] == s[0];
    var j :| 0 <= j < |s| && s[j] == t[0];
    assert i > 0 ==> Less(t[0], s[0]);
    assert j > 0 ==> Less(s[0], t[0]);
    LessTotal(s[0], t[0]);
  }

  lemma TailMember(s: seq<string>, y: string)
    requires StrictlySorted(s) && s != []
    ensures y in s[1..] <==> y in s && y != s[0]
  {
    forall j | 0 < j < |s| ensures s[j] != s[0] { LessTotal(s[0], s[j]); }
    if y in s && y != s[0] {
      var j :| 0 <= j < |s| && s[j] == y;
      assert s[1..][j - 1] == y;
    }
  }

  /** What one path contributes: nothing when both trees agree on it. */
  function Tag(want: Files, got: Files, name: string): seq<string> {
    if name in want && name !in got then [MISSING + name]
    else if name in want && want[name] != got[name] then [CHANGED + name]
    else if name !in want && name in got then [ADDED + name]
    else []
  }

  /** The differences of the names in `done`. */
  ghost predicate Lists(diffs: seq<string>, want: Files, got: Files, done: set<string>) {
    Distinct(diffs) && forall d :: d in diffs <==> exists name :: name in done && d in Tag(want, got, name)
  }

  /** A line determines its tag and its path. */
  lemma LinesDiffer(tag: string, a: string, tag': string, b: string)
    requires tag in ["missing: ", "changed: ", "added: "] && tag' in ["missing: ", "changed: ", "added: "]
    ensures tag + a == tag' + b ==> tag == tag' && a == b
  {
    if tag == tag' {
      assert (tag + a)[|tag|..] == a && (tag' + b)[|tag'|..] == b;
    } else {
      assert tag[0] != tag'[0];
      assert (tag + a)[0] != (tag' + b)[0];
    }
  }

  lemma TagsDiffer(want: Files, got: Files, a: string, b: string)
    requires a != b
    ensures forall d :: d in Tag(want, got, a) ==> d !in Tag(want, got, b)
  {
    if Tag(want, got, a) != [] && Tag(want, got, b) != [] {
      var d, e := Tag(want, got, a)[0], Tag(want, got, b)[0];
      LinesDiffer(d[..|d| - |a|], a, e[..|e| - |b|], b);
    }
  }

  /** The list has exactly the lines the two trees call for. */
  lemma LinesOf(diffs: seq<string>, want: Files, got: Files, name: string)
    requires forall d :: d in diffs <==> exists n :: n in want.Keys + got.Keys && d in Tag(want, got, n)
    ensures "missing: " + name in diffs <==> name in want && name !in got
    ensures "changed: " + name in diffs <==> name in want && name in got && want[name] != got[name]
    ensures "added: " + name in diffs <==> name !in want && name in got
  {
    forall tag | tag in ["missing: ", "changed: ", "added: "]
      ensures tag + name in diffs <==> tag + name in Tag(want, got, name)
    {
      forall n | n != name ensures tag + name !in Tag(want, got, n) {
        if Tag(want, got, n) != [] {
          var d := Tag(want, got, n)[0];
          LinesDiffer(tag, name, d[..|d| - |n|], n);
        }
      }
    }
    LinesDiffer("missing: ", name, "changed: ", name);
    LinesDiffer("missing: ", name, "added: ", name);
    LinesDiffer("changed: ", name, "added: ", name);
  }

  /** And no other lines. */
  lemma OnlyLines(diffs: seq<string>, want: Files, got: Files, d: string)
    requires forall d :: d in diffs <==> exists n :: n in want.Keys + got.Keys && d in Tag(want, got, n)
    ensures d in diffs ==> exists name :: d == "missing: " + name || d == "changed: " + name || d == "added: " + name
  {}

  lemma ListsExtends(diffs: seq<string>, want: Files, got: Files, done: set<string>, name: string)
    requires Lists(diffs, want, got, done) && name !in done
    ensures Lists(diffs + Tag(want, got, name), want, got, done + {name})
  {
    var tag := Tag(want, got, name);
    var more := diffs + tag;
    assert |tag| <= 1;
    forall d | d in Tag(want, got, name) ensures d !in diffs {
      forall other | other in done ensures d !in Tag(want, got, other) { TagsDiffer(want, got, name, other); }
    }
    assert |tag| == 1 ==> tag[0] in tag;
    assert forall i :: 0 <= i < |diffs| ==> diffs[i] in diffs;
    forall d ensures d in more <==> exists n :: n in done + {name} && d in Tag(want, got, n) {
      if d in Tag(want, got, name) { assert name in done + {name}; }
      if d in diffs {
        var n :| n in done && d in Tag(want, got, n);
        assert n in done + {name};
      }
    }
  }

  /** The differences of the wanted names, in whatever order the map yields them. */
  method CompareWanted(want: Files, got: Files) returns (diffs: seq<string>)
    ensures Lists(diffs, want, got, want.Keys)
  {
    diffs := [];
    var todo := want.Keys;
    while todo != {}
      invariant todo <= want.Keys && Lists(diffs, want, got, want.Keys - todo)
      decreases |todo|
    {
      var name :| name in todo;
      ListsExtends(diffs, want, got, want.Keys - todo, name);
      if name !in got {
        diffs := diffs + [MISSING + name];
      } else if want[name] != got[name] {
        diffs := diffs + [CHANGED + name];
      }
      assert want.Keys - todo + {name} == want.Keys - (todo - {name});
      todo := todo - {name};
    }
    assert want.Keys - {} == want.Keys;
  }

  lemma OneMore(wanted: set<string>, present: set<string>, todo: set<string>, name: string)
    requires name in todo && todo <= present
    ensures wanted + (present - (todo - {name})) ==
            if name in wanted then wanted + (present - todo) else wanted + (present - todo) + {name}
  {}

  /** And the names only the other tree has. */
  method AddUnexpected(want: Files, got: Files, found: seq<string>) returns (diffs: seq<string>)
    requires Lists(found, want, got, want.Keys)
    ensures Lists(diffs, want, got, want.Keys + got.Keys)
  {
    diffs := found;
    var todo := got.Keys;
    ghost var done := want.Keys;
    while todo != {}
      invariant todo <= got.Keys && done == want.Keys + (got.Keys - todo)
      invariant Lists(diffs, want, got, done)
      decreases |todo|
    {
      var name :| name in todo;
      OneMore(want.Keys, got.Keys, todo, name);
      if name !in want {
        ListsExtends(diffs, want, got, done, name);
        diffs := diffs + [ADDED + name];
        done := done + {name};
      }
      todo := todo - {name};
    }
    assert want.Keys + (got.Keys - {}) == want.Keys + got.Keys;
  }

  /** Compares the trees and sorts what it found. */
  method TreeDiff(want: Files, got: Files) returns (diffs: seq<string>)
    ensures StrictlySorted(diffs)
    ensures forall name ::
              && ("missing: " + name in diffs <==> name in want && name !in got)
              && ("changed: " + name in diffs <==> name in want && name in got && want[name] != got[name])
              && ("added: " + name in diffs <==> name !in want && name in got)
    ensures forall d :: d in diffs ==>
              exists name :: d == "missing: " + name || d == "changed: " + name || d == "added: " + name
    ensures diffs == [] <==> want == got
  {
    diffs := CompareWanted(want, got);
    diffs := AddUnexpected(want, got, diffs);
    SortedSorts(diffs);
    diffs := Sorted(diffs);
    EmptyMeansEqual(diffs, want, got);
    forall name
      ensures "missing: " + name in diffs <==> name in want && name !in got
      ensures "changed: " + name in diffs <==> name in want && name in got && want[name] != got[name]
      ensures "added: " + name in diffs <==> name !in want && name in got
    {
      LinesOf(diffs, want, got, name);
    }
    forall d ensures d in diffs ==>
                       exists name :: d == "missing: " + name || d == "changed: " + name || d == "added: " + name
    {
      OnlyLines(diffs, want, got, d);
    }
  }

  lemma EmptyMeansEqual(diffs: seq<string>, want: Files, got: Files)
    requires forall d :: d in diffs <==> exists name :: name in want.Keys + got.Keys && d in Tag(want, got, name)
    ensures diffs == [] <==> want == got
  {
    if want != got {
      if forall name :: name in want.Keys + got.Keys ==> Tag(want, got, name) == [] {
        forall name ensures name in want <==> name in got {
          if name in want || name in got { assert Tag(want, got, name) == []; }
        }
        forall name | name in want ensures want[name] == got[name] { assert Tag(want, got, name) == []; }
        assert false;
      }
      var name :| name in want.Keys + got.Keys && Tag(want, got, name) != [];
      assert Tag(want, got, name)[0] in diffs;
    }
    if diffs != [] { assert diffs[0] in diffs; }
  }
}
