/**
 The namespace rewrite of DNS names (internal/manifests/kustomize.go): a left-to-right
 `strings.ReplaceAll` of ".from." by ".to.", against the label-wise rewrite it stands for.
 Labels are the dot-separated parts of a name, as in section 2.3.1 of RFC 1035; the first and
 the last label are never rewritten, because no dot precedes or follows them.
 */
module DnsNames {

  predicate DotFree(s: string) { '.' !in s }

  predicate AllDotFree(ls: seq<string>) {
    forall i :: 0 <= i < |ls| ==> DotFree(ls[i])
  }

  /** Leftmost matches first, none overlapping an earlier one. */
  function ReplaceAll(s: string, old_: string, new_: string): string
    requires old_ != ""
    decreases |s|
  {
    if |s| < |old_| then s
    else if s[..|old_|] == old_ then new_ + ReplaceAll(s[|old_|..], old_, new_)
    else [s[0]] + ReplaceAll(s[1..], old_, new_)
  }

  function Dotted(ns: string): string { "." + ns + "." }

  /** What the operator does to one name. */
  function Rewrite(name: string, from: string, to: string): string {
    ReplaceAll(name, Dotted(from), Dotted(to))
  }

  function Split(s: string): (ls: seq<string>)
    ensures ls != []
  {
    if s == "" then [""]
    else if s[0] == '.' then [""] + Split(s[1..])
    else var rest := Split(s[1..]); [[s[0]] + rest[0]] + rest[1..]
  }

  /** The labels, each with the dot before it. */
  function Tail(ls: seq<string>): string {
    if ls == [] then "" else "." + ls[0] + Tail(ls[1..])
  }

  function Join(ls: seq<string>): string
    requires ls != []
  {
    ls[0] + Tail(ls[1..])
  }

  predicate Interior(ls: seq<string>, i: int) { 0 < i < |ls| - 1 }

  /** Every interior label equal to `from` becomes `to`. */
  function Relabel(ls: seq<string>, from: string, to: string): seq<string> {
    seq(|ls|, i requires 0 <= i < |ls| => if Interior(ls, i) && ls[i] == from then to else ls[i])
  }

  /** Two neighbouring interior labels are both the old namespace. */
  ghost predicate Adjacent(ls: seq<string>, from: string) {
    exists i :: Interior(ls, i) && Interior(ls, i + 1) && ls[i] == from && ls[i + 1] == from
  }

  // ---------------------------------------------------------------- splitting and joining

  lemma JoinDot(rest: seq<string>)
    requires rest != []
    ensures Join([""] + rest) == "." + Join(rest)
  {
    assert ([""] + rest)[1..] == rest;
    assert "." + rest[0] + Tail(rest[1..]) == "." + (rest[0] + Tail(rest[1..]));
  }

  lemma JoinChar(c: char, rest: seq<string>)
    requires rest != []
    ensures Join([[c] + rest[0]] + rest[1..]) == [c] + Join(rest)
  {
    assert ([[c] + rest[0]] + rest[1..])[1..] == rest[1..];
    assert [c] + rest[0] + Tail(rest[1..]) == [c] + (rest[0] + Tail(rest[1..]));
  }

  lemma {:induction false} SplitDotFree(s: string)
    ensures AllDotFree(Split(s)) && Join(Split(s)) == s
  {
    if s != "" {
      SplitDotFree(s[1..]);
      var rest := Split(s[1..]);
      assert s == [s[0]] + s[1..];
      if s[0] == '.' { JoinDot(rest); } else { JoinChar(s[0], rest); }
    }
  }

  /** Where the first label ends. */
  function FirstDot(s: string): nat {
    if s == "" || s[0] == '.' then 0 else 1 + FirstDot(s[1..])
  }

  lemma {:induction false} FirstDotAt(l: string, rest: string)
    requires DotFree(l) && (rest != "" ==> rest[0] == '.')
    ensures FirstDot(l + rest) == |l|
  {
    if l == "" {
      assert l + rest == rest;
    } else {
      assert (l + rest)[1..] == l[1..] + rest;
      FirstDotAt(l[1..], rest);
    }
  }

  /** A dotted label heads a tail exactly when the first label is it and another label follows. */
  lemma DottedPrefix(ls: seq<string>, from: string)
    requires AllDotFree(ls) && DotFree(from)
    ensures Dotted(from) <= Tail(ls) <==> |ls| >= 2 && ls[0] == from
  {
    if ls != [] { LabelThenDot(ls[0], Tail(ls[1..]), from); }
  }

  lemma LabelThenDot(l: string, rest: string, from: string)
    requires DotFree(l) && DotFree(from) && (rest != "" ==> rest[0] == '.')
    ensures Dotted(from) <= "." + l + rest <==> l == from && rest != ""
  {
    var s := l + rest;
    assert "." + l + rest == "." + s;
    if rest != "" && l == from { assert rest == "." + rest[1..]; assert "." + s == Dotted(from) + rest[1..]; }
    if Dotted(from) <= "." + s {
      var more := ("." + s)[|from| + 2..];
      assert "." + s == Dotted(from) + more;
      assert s == ("." + s)[1..] == from + ("." + more);
      FirstDotAt(l, rest);
      FirstDotAt(from, "." + more);
      assert l == s[..|l|] == from;
      assert rest == s[|l|..] == "." + more;
    }
  }

  lemma {:induction false} SkipDotFree(l: string, t: string, old_: string, new_: string)
    requires DotFree(l) && old_ != "" && old_[0] == '.'
    ensures ReplaceAll(l + t, old_, new_) == l + ReplaceAll(t, old_, new_)
    decreases |l|
  {
    if l == "" {
      assert l + t == t;
    } else {
      assert (l + t)[1..] == l[1..] + t;
      SkipDotFree(l[1..], t, old_, new_);
      assert l == [l[0]] + l[1..];
      if |l + t| < |old_| {
        ShortStays(l[1..] + t, old_, new_);
        ShortStays(t, old_, new_);
      } else {
        assert (l + t)[..|old_|][0] == l[0];
      }
    }
  }

  lemma ShortStays(s: string, old_: string, new_: string)
    requires old_ != "" && |s| < |old_|
    ensures ReplaceAll(s, old_, new_) == s
  {}

  // ---------------------------------------------------------------- what ReplaceAll does to labels

  /** A match uses up the dot after it, so the next label escapes. */
  function Greedy(ls: seq<string>, from: string, to: string): seq<string>
    decreases |ls|
  {
    if |ls| < 2 then ls
    else if ls[0] == from then [to, ls[1]] + Greedy(ls[2..], from, to)
    else [ls[0]] + Greedy(ls[1..], from, to)
  }

  lemma HitAt(o: string, n: string, r: string)
    requires o != ""
    ensures ReplaceAll(o + r, o, n) == n + ReplaceAll(r, o, n)
  {
    assert (o + r)[..|o|] == o && (o + r)[|o|..] == r;
  }

  lemma DottedThen(a: string, l: string, t: string)
    ensures "." + a + ("." + l + t) == Dotted(a) + (l + t)
  {}

  lemma ReplaceHit(l: string, t: string, from: string, to: string)
    requires DotFree(l)
    ensures ReplaceAll("." + from + ("." + l + t), Dotted(from), Dotted(to)) ==
              "." + to + ("." + l + ReplaceAll(t, Dotted(from), Dotted(to)))
  {
    var o, n := Dotted(from), Dotted(to);
    DottedThen(from, l, t);
    HitAt(o, n, l + t);
    SkipDotFree(l, t, o, n);
    DottedThen(to, l, ReplaceAll(t, o, n));
  }

  lemma ReplaceMiss(l: string, t: string, from: string, to: string)
    requires DotFree(l) && !(Dotted(from) <= "." + l + t)
    ensures ReplaceAll("." + l + t, Dotted(from), Dotted(to)) == "." + l + ReplaceAll(t, Dotted(from), Dotted(to))
  {
    var s, o, n := "." + l + t, Dotted(from), Dotted(to);
    assert s[1..] == l + t && s[0] == '.';
    SkipDotFree(l, t, o, n);
    if |s| < |o| { ShortStays(s, o, n); ShortStays(s[1..], o, n); } else { assert s[..|o|] != o; }
  }

  lemma {:induction false} ReplaceTail(ls: seq<string>, from: string, to: string)
    requires AllDotFree(ls) && DotFree(from)
    ensures ReplaceAll(Tail(ls), Dotted(from), Dotted(to)) == Tail(Greedy(ls, from, to))
    decreases |ls|
  {
    DottedPrefix(ls, from);
    if ls == [] {
      ShortStays("", Dotted(from), Dotted(to));
    } else if |ls| >= 2 && ls[0] == from {
      ReplaceTail(ls[2..], from, to);
      ReplaceHit(ls[1], Tail(ls[2..]), from, to);
      TailTwice(from, ls[1], ls[2..]);
      TailTwice(to, ls[1], Greedy(ls[2..], from, to));
      assert ls == [from, ls[1]] + ls[2..];
    } else {
      ReplaceTail(ls[1..], from, to);
      ReplaceMiss(ls[0], Tail(ls[1..]), from, to);
      var g := Greedy(ls[1..], from, to);
      assert ([ls[0]] + g)[1..] == g;
      assert ls == [ls[0]] + ls[1..];
    }
  }

  lemma TailTwice(a: string, b: string, ls: seq<string>)
    ensures Tail([a, b] + ls) == "." + a + ("." + b + Tail(ls))
  {
    assert ([a, b] + ls)[1..] == [b] + ls && ([b] + ls)[1..] == ls;
  }

  /** The greedy rewrite of the labels after the first, compared with the label-wise one. */
  function RelabelTail(ls: seq<string>, from: string, to: string): seq<string> {
    if |ls| < 2 then ls
    else [if ls[0] == from then to else ls[0]] + RelabelTail(ls[1..], from, to)
  }

  predicate AdjacentTail(ls: seq<string>, from: string) {
    |ls| >= 3 && ((ls[0] == from && ls[1] == from) || AdjacentTail(ls[1..], from))
  }

  lemma {:induction false} GreedyExactly(ls: seq<string>, from: string, to: string)
    requires from != to
    ensures Greedy(ls, from, to) == RelabelTail(ls, from, to) <==> !AdjacentTail(ls, from)
    decreases |ls|
  {
    if |ls| >= 2 {
      var r := RelabelTail(ls[1..], from, to);
      if ls[0] == from {
        GreedyExactly(ls[2..], from, to);
        assert ls[1..][1..] == ls[2..];
        var g := Greedy(ls[2..], from, to);
        assert ([to, ls[1]] + g)[1..] == [ls[1]] + g && ([to] + r)[1..] == r;
        if |ls| >= 3 {
          assert r[0] == if ls[1] == from then to else ls[1];
          assert r[1..] == RelabelTail(ls[2..], from, to) && ([ls[1]] + g)[1..] == g;
        }
      } else {
        GreedyExactly(ls[1..], from, to);
        assert ([ls[0]] + Greedy(ls[1..], from, to))[1..] == Greedy(ls[1..], from, to) && ([ls[0]] + r)[1..] == r;
      }
    }
  }

  lemma RelabelSplits(ls: seq<string>, from: string, to: string)
    requires ls != []
    ensures Relabel(ls, from, to) == [ls[0]] + RelabelTail(ls[1..], from, to)
    ensures Adjacent(ls, from) <==> AdjacentTail(ls[1..], from)
  {
    RelabelHead(ls, from, to);
    AdjacentHead(ls, from);
  }

  lemma RelabelHead(ls: seq<string>, from: string, to: string)
    requires ls != []
    ensures Relabel(ls, from, to) == [ls[0]] + RelabelTail(ls[1..], from, to)
  {
    RelabelTailAt(ls[1..], from, to);
    var r, whole := RelabelTail(ls[1..], from, to), Relabel(ls, from, to);
    forall i | 0 <= i < |ls| ensures whole[i] == ([ls[0]] + r)[i] {
      if i > 0 { assert ls[1..][i - 1] == ls[i]; }
    }
  }

  lemma AdjacentHead(ls: seq<string>, from: string)
    requires ls != []
    ensures Adjacent(ls, from) <==> AdjacentTail(ls[1..], from)
  {
    AdjacentTailAt(ls[1..], from);
    if Adjacent(ls, from) {
      var i :| Interior(ls, i) && Interior(ls, i + 1) && ls[i] == from && ls[i + 1] == from;
      assert ls[1..][i - 1] == from && ls[1..][i] == from;
    }
    if AdjacentTail(ls[1..], from) {
      var i :| 0 <= i < |ls[1..]| - 2 && ls[1..][i] == from && ls[1..][i + 1] == from;
      assert Interior(ls, i + 1) && Interior(ls, i + 1 + 1) && ls[i + 1] == from && ls[i + 1 + 1] == from;
    }
  }

  lemma {:induction false} RelabelTailAt(ls: seq<string>, from: string, to: string)
    ensures |RelabelTail(ls, from, to)| == |ls|
    ensures forall i :: 0 <= i < |ls| ==>
              RelabelTail(ls, from, to)[i] == if i < |ls| - 1 && ls[i] == from then to else ls[i]
  {
    if |ls| >= 2 { RelabelTailAt(ls[1..], from, to); }
  }

  lemma {:induction false} AdjacentTailAt(ls: seq<string>, from: string)
    ensures AdjacentTail(ls, from) <==> exists i :: 0 <= i < |ls| - 2 && ls[i] == from && ls[i + 1] == from
  {
    if |ls| >= 3 {
      AdjacentTailAt(ls[1..], from);
      if i :| 0 <= i < |ls| - 2 && ls[i] == from && ls[i + 1] == from {
        if i > 0 { assert ls[1..][i - 1] == from && ls[1..][i - 1 + 1] == from; }
      }
      if i :| 0 <= i < |ls[1..]| - 2 && ls[1..][i] == from && ls[1..][i + 1] == from {
        assert ls[i + 1] == from && ls[i + 1 + 1] == from;
      }
    }
  }

  lemma {:induction false} TailInjective(a: seq<string>, b: seq<string>)
    requires AllDotFree(a) && AllDotFree(b) && |a| == |b| && Tail(a) == Tail(b)
    ensures a == b
  {
    if a != [] {
      FirstLabel(a[0], Tail(a[1..]), b[0], Tail(b[1..]));
      TailInjective(a[1..], b[1..]);
      assert a == [a[0]] + a[1..] && b == [b[0]] + b[1..];
    }
  }

  lemma FirstLabel(l: string, t: string, l': string, t': string)
    requires DotFree(l) && DotFree(l') && "." + l + t == "." + l' + t'
    requires (t != "" ==> t[0] == '.') && (t' != "" ==> t'[0] == '.')
    ensures l == l' && t == t'
  {
    assert "." + l + t == "." + (l + t) && "." + l' + t' == "." + (l' + t');
    var s := l + t;
    assert s == ("." + s)[1..] == l' + t';
    FirstDotAt(l, t);
    FirstDotAt(l', t');
    assert l == s[..|l|] == l' && t == s[|l|..] == t';
  }

  // ---------------------------------------------------------------- the results

  /** On every name: the rewrite is the greedy one, label by label. */
  lemma RewriteIsGreedy(name: string, from: string, to: string)
    requires DotFree(from)
    ensures var ls := Split(name); Rewrite(name, from, to) == ls[0] + Tail(Greedy(ls[1..], from, to))
  {
    var ls := Split(name);
    SplitDotFree(name);
    SkipDotFree(ls[0], Tail(ls[1..]), Dotted(from), Dotted(to));
    ReplaceTail(ls[1..], from, to);
  }

  lemma {:induction false} GreedyDotFree(ls: seq<string>, from: string, to: string)
    requires AllDotFree(ls) && DotFree(to)
    ensures AllDotFree(Greedy(ls, from, to)) && |Greedy(ls, from, to)| == |ls|
    decreases |ls|
  {
    if |ls| >= 2 {
      if ls[0] == from { GreedyDotFree(ls[2..], from, to); } else { GreedyDotFree(ls[1..], from, to); }
    }
  }

  /** The rewrite is the label-wise one exactly when no two neighbouring interior labels are the old namespace. */
  lemma RewriteExactly(name: string, from: string, to: string)
    requires DotFree(from) && DotFree(to) && from != to
    ensures Rewrite(name, from, to) == Join(Relabel(Split(name), from, to)) <==> !Adjacent(Split(name), from)
  {
    var ls := Split(name);
    var g, r := Greedy(ls[1..], from, to), RelabelTail(ls[1..], from, to);
    SplitDotFree(name);
    RewriteIsGreedy(name, from, to);
    RelabelSplits(ls, from, to);
    GreedyExactly(ls[1..], from, to);
    GreedyDotFree(ls[1..], from, to);
    RelabelTailAt(ls[1..], from, to);
    assert Relabel(ls, from, to)[1..] == r;
    if ls[0] + Tail(g) == ls[0] + Tail(r) {
      assert (ls[0] + Tail(g))[|ls[0]|..] == Tail(g) && (ls[0] + Tail(r))[|ls[0]|..] == Tail(r);
      TailInjective(g, r);
    }
  }

  /** The overlap in the smallest case: the second of two neighbouring labels is missed. */
  lemma OverlapMissed()
    ensures Rewrite(".a.a.", "a", "b") == ".b.a."
    ensures Join(Relabel(Split(".a.a."), "a", "b")) == ".b.b."
  {}

  lemma {:induction false} SplitJoin(ls: seq<string>)
    requires ls != [] && AllDotFree(ls)
    ensures Split(Join(ls)) == ls
  {
    SplitDotFree(Join(ls));
    var ls' := Split(Join(ls));
    SameLabels(ls[0], ls[1..], ls'[0], ls'[1..]);
    assert ls == [ls[0]] + ls[1..] && ls' == [ls'[0]] + ls'[1..];
  }

  lemma {:induction false} SameLabels(l: string, ls: seq<string>, l': string, ls': seq<string>)
    requires DotFree(l) && DotFree(l') && AllDotFree(ls) && AllDotFree(ls') && l + Tail(ls) == l' + Tail(ls')
    ensures l == l' && ls == ls'
    decreases |ls|
  {
    assert "." + l + Tail(ls) == "." + (l + Tail(ls)) && "." + l' + Tail(ls') == "." + (l' + Tail(ls'));
    FirstLabel(l, Tail(ls), l', Tail(ls'));
    assert ls == [] <==> Tail(ls) == "";
    assert ls' == [] <==> Tail(ls') == "";
    if ls != [] {
      assert Tail(ls)[1..] == ls[0] + Tail(ls[1..]) && Tail(ls')[1..] == ls'[0] + Tail(ls'[1..]);
      SameLabels(ls[0], ls[1..], ls'[0], ls'[1..]);
      assert ls == [ls[0]] + ls[1..] && ls' == [ls'[0]] + ls'[1..];
    }
  }

  /** The old namespace is still a label with a dot after it. */
  predicate Leftover(ls: seq<string>, from: string) {
    |ls| >= 2 && (ls[0] == from || Leftover(ls[1..], from))
  }

  lemma {:induction false} GreedyFixed(ls: seq<string>, from: string, to: string)
    requires from != to
    ensures Greedy(ls, from, to) == ls <==> !Leftover(ls, from)
  {
    if |ls| >= 2 && ls[0] != from {
      GreedyFixed(ls[1..], from, to);
      assert ls == [ls[0]] + ls[1..];
      assert ([ls[0]] + Greedy(ls[1..], from, to))[1..] == Greedy(ls[1..], from, to);
    }
  }

  lemma {:induction false} GreedyLeaves(ls: seq<string>, from: string, to: string)
    requires from != to
    ensures |Greedy(ls, from, to)| == |ls| && (Leftover(Greedy(ls, from, to), from) <==> AdjacentTail(ls, from))
    decreases |ls|
  {
    if |ls| >= 2 {
      if ls[0] == from {
        GreedyLeaves(ls[2..], from, to);
        var g := Greedy(ls[2..], from, to);
        assert ([to, ls[1]] + g)[1..] == [ls[1]] + g && ([ls[1]] + g)[1..] == g;
        assert ls[1..][1..] == ls[2..];
      } else {
        GreedyLeaves(ls[1..], from, to);
        var g := Greedy(ls[1..], from, to);
        assert ([ls[0]] + g)[1..] == g;
      }
    }
  }

  /** Rewriting again changes nothing, exactly when no two neighbouring interior labels are the old namespace. */
  lemma RewriteIdempotent(name: string, from: string, to: string)
    requires DotFree(from) && DotFree(to) && from != to
    ensures Rewrite(Rewrite(name, from, to), from, to) == Rewrite(name, from, to) <==> !Adjacent(Split(name), from)
  {
    var once, ls := Rewrite(name, from, to), Split(name);
    var g := Greedy(ls[1..], from, to);
    SplitDotFree(name);
    RewriteIsGreedy(name, from, to);
    GreedyDotFree(ls[1..], from, to);
    assert ([ls[0]] + g)[1..] == g;
    SplitJoin([ls[0]] + g);
    RewriteIsGreedy(once, from, to);
    GreedyLeaves(ls[1..], from, to);
    GreedyFixed(g, from, to);
    RelabelSplits(ls, from, to);
    GreedyDotFree(g, from, to);
    if ls[0] + Tail(Greedy(g, from, to)) == ls[0] + Tail(g) {
      assert (ls[0] + Tail(Greedy(g, from, to)))[|ls[0]|..] == Tail(Greedy(g, from, to)) &&
          (ls[0] + Tail(g))[|ls[0]|..] == Tail(g);
      TailInjective(Greedy(g, from, to), g);
    }
  }

  /**
   Every label equal to the new namespace stands right behind a rewritten one, whose match uses
   up the dot before it, or is the last.
   */
  predicate Shielded(ls: seq<string>, from: string, to: string)
    decreases |ls|
  {
    |ls| < 2 || (if ls[0] == from then Shielded(ls[2..], from, to) else ls[0] != to && Shielded(ls[1..], from, to))
  }

  lemma {:induction false} GreedyBack(ls: seq<string>, from: string, to: string)
    requires from != to
    ensures |Greedy(ls, from, to)| == |ls|
    ensures Greedy(Greedy(ls, from, to), to, from) == ls <==> Shielded(ls, from, to)
    decreases |ls|
  {
    if |ls| >= 2 {
      if ls[0] == from {
        GreedyBack(ls[2..], from, to);
        var g := Greedy(ls[2..], from, to);
        assert ([to, ls[1]] + g)[2..] == g;
        assert ls == [from, ls[1]] + ls[2..];
        assert ([from, ls[1]] + Greedy(g, to, from))[2..] == Greedy(g, to, from);
      } else {
        GreedyBack(ls[1..], from, to);
        var g := Greedy(ls[1..], from, to);
        assert ([ls[0]] + g)[1..] == g;
        assert ls == [ls[0]] + ls[1..];
        assert ([ls[0]] + Greedy(g, to, from))[1..] == Greedy(g, to, from);
      }
    }
  }

  /** The reverse rewrite undoes it exactly when every label equal to the new namespace was shielded. */
  lemma RewriteReverses(name: string, from: string, to: string)
    requires DotFree(from) && DotFree(to) && from != to
    ensures Rewrite(Rewrite(name, from, to), to, from) == name <==> Shielded(Split(name)[1..], from, to)
  {
    var ls, once := Split(name), Rewrite(name, from, to);
    var t := ls[1..];
    var g := Greedy(t, from, to);
    SplitDotFree(name);
    RewriteIsGreedy(name, from, to);
    GreedyDotFree(t, from, to);
    assert ([ls[0]] + g)[1..] == g;
    SplitJoin([ls[0]] + g);
    RewriteIsGreedy(once, to, from);
    GreedyBack(t, from, to);
    GreedyDotFree(g, to, from);
    SameAfter(ls[0], Greedy(g, to, from), t);
  }

  lemma SameAfter(l: string, a: seq<string>, b: seq<string>)
    requires AllDotFree(a) && AllDotFree(b) && |a| == |b|
    ensures l + Tail(a) == l + Tail(b) <==> a == b
  {
    if l + Tail(a) == l + Tail(b) {
      assert (l + Tail(a))[|l|..] == Tail(a) && (l + Tail(b))[|l|..] == Tail(b);
      TailInjective(a, b);
    }
  }

  lemma {:induction false} AbsentIsShielded(ls: seq<string>, from: string, to: string)
    requires forall i :: 0 <= i < |ls| - 1 ==> ls[i] != to
    ensures Shielded(ls, from, to)
    decreases |ls|
  {
    if |ls| >= 2 { AbsentIsShielded(if ls[0] == from then ls[2..] else ls[1..], from, to); }
  }

  /** So it is undone whenever the new namespace was no interior label before. */
  lemma AbsentReverses(name: string, from: string, to: string)
    requires DotFree(from) && DotFree(to) && from != to
    requires forall i :: 0 < i < |Split(name)| - 1 ==> Split(name)[i] != to
    ensures Rewrite(Rewrite(name, from, to), to, from) == name
  {
    AbsentIsShielded(Split(name)[1..], from, to);
    RewriteReverses(name, from, to);
  }
}
