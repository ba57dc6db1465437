/**
 The conversion-health check: a paginated LIST of stored MCPServers at v1beta1 with bounded
 restarts (internal/controller/mcplifecycleoperator_reconciler.go). The server pages through
 a snapshot taken when a listing starts, and may fail or expire a token at any call.
 */
module Conversion {
  import opened Wrappers
  import opened Api

  const PAGE_LIMIT := 500
  const MAX_RESTARTS := 3
  const DEFAULT_REQUEUE := 10

  /** The empty token starts a listing; any other resumes one listing at one position. */
  datatype Token = Empty | At(pass: nat, position: nat)

  datatype ListAnswer = Page(items: seq<string>, next: Token) | NotServed | Expired | Unhealthy

  /** One LIST call: the token sent, the answer, and the snapshot being listed when it was given. */
  datatype Call = Call(token: Token, answer: ListAnswer, snapshot: seq<string>)

  /** What a check concludes. */
  datatype Verdict = Healthy | ApiNotServed | KeptExpiring | Broken

  class McpServers {
    const maxPages: nat
    var pass: nat
    var snapshot: seq<string>
    var position: nat
    var pagesLeft: nat
    ghost var log: seq<Call>

    constructor (maxPages: nat)
      requires maxPages >= 1
      ensures Valid() && log == [] && this.maxPages == maxPages
    {
      this.maxPages := maxPages;
      pass, snapshot, position, pagesLeft, log := 0, [], 0, 0, [];
    }

    /** What is left of the running listing fits into the pages it has left. */
    ghost predicate Valid()
      reads this
    {
      maxPages >= 1 && position <= |snapshot| && |snapshot| - position <= PAGE_LIMIT * pagesLeft && pagesLeft < maxPages
    }

    /** The server takes a snapshot for an empty token and continues it for the token it gave last. */
    method List(token: Token) returns (a: ListAnswer)
      requires Valid()
      modifies this
      ensures Valid()
      ensures log == old(log) + [Call(token, a, snapshot)]
      ensures a.Page? && token.Empty? ==> a.items == snapshot[..position] && pagesLeft < maxPages
      ensures a.Page? && token.At? ==>
                && token == At(old(pass), old(position)) && pass == old(pass) && snapshot == old(snapshot)
                && old(position) < position && a.items == snapshot[old(position)..position]
                && pagesLeft < old(pagesLeft)
      ensures a.Page? ==> a.next == (if position == |snapshot| then Empty else At(pass, position))
      ensures a.Page? && a.next.At? ==> pagesLeft >= 1
      ensures a.Page? ==> |a.items| <= PAGE_LIMIT
    {
      a := *;
      var size: nat := *;
      if !a.Page? {
      } else if token.Empty? {
        var objects: seq<string> := *;
        if |objects| > PAGE_LIMIT * maxPages { objects := []; }
        size := PageSize(size, |objects|, maxPages);
        pass, snapshot, position, pagesLeft := pass + 1, objects, size, maxPages - 1;
        a := Page(snapshot[..position], if position == |snapshot| then Empty else At(pass, position));
      } else if token == At(pass, position) && position < |snapshot| && pagesLeft > 0 {
        size := PageSize(size, |snapshot| - position, pagesLeft);
        var items := snapshot[position..position + size];
        position, pagesLeft := position + size, pagesLeft - 1;
        a := Page(items, if position == |snapshot| then Empty else At(pass, position));
      } else {
        a := Expired;
      }
      log := log + [Call(token, a, snapshot)];
    }
  }

  /** A page is never empty while objects remain, never over the limit, and leaves what later pages can hold. */
  function PageSize(wanted: nat, remaining: nat, pagesLeft: nat): (size: nat)
    requires 1 <= pagesLeft && remaining <= PAGE_LIMIT * pagesLeft
    ensures size <= remaining && size <= PAGE_LIMIT && (remaining > 0 ==> size > 0)
    ensures remaining - size <= PAGE_LIMIT * (pagesLeft - 1)
  {
    if 0 < wanted <= remaining && wanted <= PAGE_LIMIT && remaining - wanted <= PAGE_LIMIT * (pagesLeft - 1) then wanted
    else if remaining <= PAGE_LIMIT then remaining
    else PAGE_LIMIT
  }

  function Items(calls: seq<Call>): seq<string> {
    if calls == [] then []
    else Items(calls[..|calls| - 1]) + (if calls[|calls| - 1].answer.Page? then calls[|calls| - 1].answer.items else [])
  }

  /** Consecutive pages of one listing, each asked for with the token of the page before. */
  ghost predicate Uninterrupted(calls: seq<Call>, snapshot: seq<string>) {
    && (forall i :: 0 <= i < |calls| ==> calls[i].answer.Page? && calls[i].snapshot == snapshot)
    && (calls != [] ==> calls[0].token == Empty)
    && (forall i :: 0 < i < |calls| ==> calls[i].token == calls[i - 1].answer.next && calls[i].token != Empty)
  }

  /** One listing from the empty token to the empty token that returned every object of its snapshot. */
  ghost predicate FullPass(calls: seq<Call>) {
    && calls != [] && Uninterrupted(calls, calls[0].snapshot)
    && calls[|calls| - 1].answer.next == Empty
    && Items(calls) == calls[0].snapshot
  }

  ghost predicate EndsInFullPass(from: seq<Call>, to: seq<Call>) {
    from <= to && exists start :: |from| <= start < |to| && FullPass(to[start..])
  }

  /** What a full pass is, spelled out on its calls. */
  lemma FullPassMeans(calls: seq<Call>)
    requires calls != []
    ensures FullPass(calls) <==>
              && (forall i :: 0 <= i < |calls| ==> calls[i].answer.Page? && calls[i].snapshot == calls[0].snapshot)
              && calls[0].token == Empty && calls[|calls| - 1].answer.next == Empty
              && (forall i :: 0 < i < |calls| ==> calls[i].token == calls[i - 1].answer.next && calls[i].token.At?)
              && Items(calls) == calls[0].snapshot
  {}

  function Expiries(calls: seq<Call>): nat {
    if calls == [] then 0 else Expiries(calls[..|calls| - 1]) + (if calls[|calls| - 1].answer.Expired? then 1 else 0)
  }

  /** No page is larger than the limit asked for. */
  ghost predicate PagesBounded(calls: seq<Call>) {
    forall i :: 0 <= i < |calls| && calls[i].answer.Page? ==> |calls[i].answer.items| <= 500
  }

  lemma {:induction false} ItemsBounded(calls: seq<Call>)
    requires PagesBounded(calls)
    ensures |Items(calls)| <= PAGE_LIMIT * |calls|
    decreases |calls|
  {
    if calls != [] {
      var before := calls[..|calls| - 1];
      assert forall i :: 0 <= i < |before| ==> before[i] == calls[i];
      ItemsBounded(before);
    }
  }

  lemma BoundedSuffix(to: seq<Call>, from: nat, start: nat)
    requires from <= start <= |to| && PagesBounded(to[from..])
    ensures PagesBounded(to[start..])
  {
    forall i | 0 <= i < |to[start..]| ensures to[start..][i] == to[from..][start - from + i] {}
  }

  lemma BoundedNext(log: seq<Call>, from: nat, call: Call)
    requires from <= |log| && PagesBounded(log[from..]) && (call.answer.Page? ==> |call.answer.items| <= PAGE_LIMIT)
    ensures PagesBounded((log + [call])[from..])
  {
    var more := (log + [call])[from..];
    forall i | 0 <= i < |more| ensures more[i] == if i < |log| - from then log[from..][i] else call {}
  }

  /** The work grows with what is stored: a pass that returned everything took a call per five hundred objects. */
  lemma PassGrows(from: seq<Call>, to: seq<Call>)
    requires EndsInFullPass(from, to) && PagesBounded(to[|from|..])
    ensures exists start ::
              |from| <= start < |to| && FullPass(to[start..]) && |to[start].snapshot| <= 500 * (|to| - start)
  {
    var start :| |from| <= start < |to| && FullPass(to[start..]);
    BoundedSuffix(to, |from|, start);
    ItemsBounded(to[start..]);
    assert to[start..][0] == to[start];
  }

  /** The listing of `snapshot` in full pages, from its `i`-th page on to its `n`-th. */
  function LongCall(snapshot: seq<string>, n: nat, i: nat): Call
    requires i < n && |snapshot| == PAGE_LIMIT * n
  {
    Call(if i == 0 then Empty else At(1, PAGE_LIMIT * i),
         Page(snapshot[PAGE_LIMIT * i..PAGE_LIMIT * (i + 1)],
              if i + 1 == n then Empty else At(1, PAGE_LIMIT * (i + 1))),
         snapshot)
  }

  lemma LongCallItems(snapshot: seq<string>, n: nat, i: nat)
    requires i < n && |snapshot| == PAGE_LIMIT * n
    ensures LongCall(snapshot, n, i).answer.Page?
    ensures LongCall(snapshot, n, i).answer.items == snapshot[PAGE_LIMIT * i..PAGE_LIMIT * (i + 1)]
  {}

  function LongListing(snapshot: seq<string>, n: nat, k: nat): seq<Call>
    requires k <= n && |snapshot| == PAGE_LIMIT * n
  {
    if k == 0 then [] else LongListing(snapshot, n, k - 1) + [LongCall(snapshot, n, k - 1)]
  }

  lemma {:induction false} LongListingCalls(snapshot: seq<string>, n: nat, k: nat)
    requires k <= n && |snapshot| == PAGE_LIMIT * n
    ensures var calls := LongListing(snapshot, n, k);
              |calls| == k && forall i :: 0 <= i < k ==> calls[i] == LongCall(snapshot, n, i)
  {
    if k > 0 { LongListingCalls(snapshot, n, k - 1); }
  }

  lemma ItemsNext(calls: seq<Call>, last: Call)
    requires last.answer.Page?
    ensures Items(calls + [last]) == Items(calls) + last.answer.items
  {
    assert (calls + [last])[..|calls|] == calls;
  }

  lemma SplitAt(s: seq<string>, a: nat, b: nat)
    requires a <= b <= |s|
    ensures s[..a] + s[a..b] == s[..b]
  {}

  lemma {:induction false} LongListingItems(snapshot: seq<string>, n: nat, k: nat)
    requires k <= n && |snapshot| == PAGE_LIMIT * n
    ensures Items(LongListing(snapshot, n, k)) == snapshot[..PAGE_LIMIT * k]
  {
    if k > 0 {
      LongListingItems(snapshot, n, k - 1);
      LongCallItems(snapshot, n, k - 1);
      ItemsNext(LongListing(snapshot, n, k - 1), LongCall(snapshot, n, k - 1));
      SplitAt(snapshot, PAGE_LIMIT * (k - 1), PAGE_LIMIT * k);
    }
  }

  lemma LongListingLinks(snapshot: seq<string>, n: nat)
    requires n > 0 && |snapshot| == PAGE_LIMIT * n
    ensures var calls := LongListing(snapshot, n, n);
            |calls| == n && calls[0].snapshot == snapshot && Uninterrupted(calls, snapshot) &&
            calls[n - 1].answer.next == Empty
  {
    var calls := LongListing(snapshot, n, n);
    LongListingCalls(snapshot, n, n);
    forall i | 0 < i < n ensures calls[i].token == calls[i - 1].answer.next && calls[i].token != Empty {
      assert calls[i - 1] == LongCall(snapshot, n, i - 1);
    }
  }

  lemma LongListingBounded(snapshot: seq<string>, n: nat)
    requires n > 0 && |snapshot| == PAGE_LIMIT * n
    ensures PagesBounded(LongListing(snapshot, n, n))
  {
    LongListingCalls(snapshot, n, n);
  }

  /** And it grows without bound: five hundred times n stored objects can be listed in n calls, and in no fewer. */
  lemma WorkUnbounded(snapshot: seq<string>, n: nat)
    requires n > 0 && |snapshot| == 500 * n
    ensures var calls := LongListing(snapshot, n, n);
            FullPass(calls) && PagesBounded(calls) && |calls| == n && calls[0].snapshot == snapshot
    ensures forall calls: seq<Call> :: FullPass(calls) && PagesBounded(calls) && calls[0].snapshot == snapshot ==>
              |calls| >= n
  {
    LongListingLinks(snapshot, n);
    LongListingItems(snapshot, n, n);
    LongListingBounded(snapshot, n);
    assert snapshot[..PAGE_LIMIT * n] == snapshot;
    forall other: seq<Call> | FullPass(other) && PagesBounded(other) && other[0].snapshot == snapshot
      ensures |other| >= n
    {
      ItemsBounded(other);
    }
  }

  function ReasonOf(v: Verdict): string {
    if v.Broken? then "ConversionCheckFailed" else "ConversionCheckPending"
  }

  /** The listing so far: the calls since `start` are uninterrupted and `token` asks for the rest. */
  ghost predicate Listing(calls: seq<Call>, token: Token, pass: nat, snapshot: seq<string>, position: nat) {
    if calls == [] then token == Empty
    else
      && position <= |snapshot| && Uninterrupted(calls, snapshot) && Items(calls) == snapshot[..position]
      && token == calls[|calls| - 1].answer.next == (if position == |snapshot| then Empty else At(pass, position))
  }

  lemma OneMoreCall(log: seq<Call>, start: int, call: Call)
    requires 0 <= start <= |log|
    ensures (log + [call])[start..] == log[start..] + [call]
    ensures Items(log[start..] + [call]) == Items(log[start..]) + (if call.answer.Page? then call.answer.items else [])
    ensures Expiries(log[start..] + [call]) == Expiries(log[start..]) + (if call.answer.Expired? then 1 else 0)
  {
    assert (log[start..] + [call])[..|log[start..]|] == log[start..];
  }

  /** A page answering the expected token extends the listing. */
  lemma PageExtends(calls: seq<Call>, token: Token, pass: nat, snapshot: seq<string>, position: nat, call: Call,
                    pass': nat, position': nat)
    requires Listing(calls, token, pass, snapshot, position) && call.token == token && call.answer.Page? &&
               call.snapshot == snapshot
    requires if calls == [] then position == 0 else token.At? && pass' == pass
    requires position <= position' <= |snapshot| && call.answer.items == snapshot[position..position']
    requires call.answer.next == (if position' == |snapshot| then Empty else At(pass', position'))
    ensures Listing(calls + [call], call.answer.next, pass', snapshot, position')
  {
    assert (calls + [call])[..|calls|] == calls;
    assert snapshot[..position] + snapshot[position..position'] == snapshot[..position'];
  }

  /** The pages still to come in the worst case. */
  function PagesAhead(s: McpServers, token: Token): nat
    reads s
  {
    if token.At? then s.pagesLeft else s.maxPages
  }

  /** One LIST and what it does to the listing so far. */
  method NextPage(servers: McpServers, ghost from: seq<Call>, ghost start: int, token: Token)
    returns (answer: ListAnswer)
    requires servers.Valid() && from <= servers.log && |from| <= start <= |servers.log| &&
               (start < |servers.log| <==> token.At?)
    requires Listing(servers.log[start..], token, servers.pass, servers.snapshot, servers.position)
    modifies servers
    ensures servers.Valid() && |servers.log| == |old(servers.log)| + 1 && old(servers.log) <= servers.log
    ensures servers.log[|old(servers.log)|].answer == answer
    ensures answer.Page? ==>
              Listing(servers.log[start..], answer.next, servers.pass, servers.snapshot, servers.position)
    ensures answer.Page? ==>
              servers.pagesLeft < old(PagesAhead(servers, token)) && (answer.next.At? ==> servers.pagesLeft >= 1)
    ensures Expiries(servers.log[|from|..]) == Expiries(old(servers.log)[|from|..]) + (if answer.Expired? then 1 else 0)
    ensures PagesBounded(old(servers.log)[|from|..]) ==> PagesBounded(servers.log[|from|..])
  {
    ghost var log, pass, position := servers.log, servers.pass, if token.At? then servers.position else 0;
    answer := servers.List(token);
    ghost var call := servers.log[|log|];
    OneMoreCall(log, start, call);
    OneMoreCall(log, |from|, call);
    if PagesBounded(log[|from|..]) { BoundedNext(log, |from|, call); }
    if answer.Page? {
      PageExtends(log[start..], token, pass, servers.snapshot, position, call, servers.pass, servers.position);
    }
  }

  /** The calls still allowed after the restarts so far. */
  function Allowance(restarts: int, maxPages: nat): nat {
    if restarts == 0 then 3 * maxPages else if restarts == 1 then 2 * maxPages else if restarts == 2 then maxPages
        else 0
  }

  /** The loop of the check, with what it concludes. */
  method ListAll(servers: McpServers) returns (verdict: Verdict)
    requires servers.Valid()
    modifies servers
    ensures servers.Valid() && old(servers.log) < servers.log
    ensures verdict.Healthy? ==> EndsInFullPass(old(servers.log), servers.log)
    ensures PagesBounded(servers.log[|old(servers.log)|..])
    ensures Concluded(servers.log[|servers.log| - 1].answer, verdict)
    ensures verdict.KeptExpiring? <==> Expiries(servers.log[|old(servers.log)|..]) > 3
    ensures |servers.log| - |old(servers.log)| <= 4 * servers.maxPages
  {
    ghost var from := servers.log;
    ghost var start := |from|;
    var continueToken, restarts := Empty, 0;
    assert from[|from|..] == [];
    while true
      invariant servers.Valid() && 0 <= restarts <= MAX_RESTARTS
      invariant from <= servers.log && |from| <= start <= |servers.log| &&
                  (start < |servers.log| <==> continueToken.At?)
      invariant Listing(servers.log[start..], continueToken, servers.pass, servers.snapshot, servers.position)
      invariant continueToken.At? ==> servers.pagesLeft >= 1
      invariant Expiries(servers.log[|from|..]) == restarts && PagesBounded(servers.log[|from|..])
      invariant |servers.log| - |from| + PagesAhead(servers, continueToken) +
                  Allowance(restarts, servers.maxPages) <= 4 * servers.maxPages
      decreases MAX_RESTARTS - restarts, PagesAhead(servers, continueToken)
    {
      var answer := NextPage(servers, from, start, continueToken);
      match answer {
        case NotServed => return ApiNotServed;
        case Unhealthy => return Broken;
        case Expired =>
          if restarts == MAX_RESTARTS { return KeptExpiring; }
          restarts, continueToken, start := restarts + 1, Empty, |servers.log|;
        case Page(_, next) =>
          continueToken := next;
          if continueToken.Empty? {
            FinishedPass(from, servers.log, start, servers.pass, servers.snapshot, servers.position);
            return Healthy;
          }
      }
    }
  }

  /** The verdict is read off the last answer. */
  predicate Concluded(last: ListAnswer, v: Verdict) {
    match last
    case Page(_, _) => v.Healthy?
    case NotServed => v.ApiNotServed?
    case Expired => v.KeptExpiring?
    case Unhealthy => v.Broken?
  }

  lemma FinishedPass(from: seq<Call>, log: seq<Call>, start: int, pass: nat, snapshot: seq<string>, position: nat)
    requires from <= log && |from| <= start < |log| && Listing(log[start..], Empty, pass, snapshot, position)
    ensures EndsInFullPass(from, log)
  {}

  lemma ReasonMeans(last: ListAnswer, v: Verdict)
    requires Concluded(last, v) && !v.Healthy?
    ensures last.NotServed? || last.Expired? || last.Unhealthy?
    ensures ReasonOf(v) == if last.Unhealthy? then "ConversionCheckFailed" else "ConversionCheckPending"
  {}

  /**
   Lists all stored objects, restarting at most three times when a token expires. Healthy means
   one uninterrupted listing returned its whole snapshot; at most 4 * maxPages calls are made.
   */
  method CheckConversionHealth(servers: McpServers, cr: Resource, cm: ConditionsManager)
    returns (requeue: nat, healthy: bool, ghost verdict: Verdict)
    requires servers.Valid() && cm.accessor == cr
    modifies servers, cr`conditions
    ensures servers.Valid() && old(servers.log) < servers.log
    ensures healthy <==> verdict.Healthy?
    ensures healthy ==>
              requeue == 0 && cr.conditions == old(cr.conditions) && EndsInFullPass(old(servers.log), servers.log)
    ensures !healthy ==>
              requeue == DEFAULT_REQUEUE && cr.conditions ==
              Unavailable(old(cr.conditions), ReasonOf(verdict), cm.generation)
    ensures !healthy ==>
              && requeue == 10 && !servers.log[|servers.log| - 1].answer.Page?
              && Find(cr.conditions, Available) == Some(Condition(Available, False,
                   if servers.log[|servers.log| - 1].answer.Unhealthy? then "ConversionCheckFailed"
                   else "ConversionCheckPending", Error, cm.generation))
    ensures verdict.KeptExpiring? <==> Expiries(servers.log[|old(servers.log)|..]) > 3
    ensures Concluded(servers.log[|servers.log| - 1].answer, verdict)
    ensures |servers.log| - |old(servers.log)| <= 4 * servers.maxPages
    ensures PagesBounded(servers.log[|old(servers.log)|..])
  {
    var v := ListAll(servers);
    verdict, healthy := v, v.Healthy?;
    if healthy {
      requeue := 0;
    } else {
      UnavailableReason(cr.conditions, ReasonOf(v), cm.generation);
      ReasonMeans(servers.log[|servers.log| - 1].answer, v);
      cm.MarkUnavailable(ReasonOf(v));
      requeue := DEFAULT_REQUEUE;
    }
  }
}
