/**
  The glob matcher: backtracking recursion over pattern bytes, with braces rewritten away as they
  are met.

  `Accepts` is the matcher's recursion; every call is on a shorter remaining pattern, also across
  the brace rewrite. For patterns without braces it is proved to mean a split of the text into one
  piece per token; braces are proved to distribute over the rest of the pattern.
 */
module Glob {
  import opened Bytes

  const STAR: Byte := 42       // *
  const SLASH: Byte := 47      // /
  const DOT: Byte := 46        // .
  const QUESTION: Byte := 63   // ?
  const OPEN: Byte := 123      // {
  const CLOSE: Byte := 125     // }
  const COMMA: Byte := 44      // ,
  const ESCAPE: Byte := 92     // \

  // ---------------------------------------------------------------- braces

  /** Where the scan started inside a brace at `depth` stops: at the closing brace, or at the end. */
  function BraceEnd(s: seq<Byte>, depth: nat): (end: nat)
    ensures end <= |s|
    ensures end < |s| ==> s[end] == CLOSE
  {
    if s == [] then 0
    else if s[0] == OPEN then 1 + BraceEnd(s[1..], depth + 1)
    else if s[0] == CLOSE then (if depth <= 1 then 0 else 1 + BraceEnd(s[1..], depth - 1))
    else 1 + BraceEnd(s[1..], depth)
  }

  /** How many more braces `s` opens than it closes. */
  function Excess(s: seq<Byte>): int {
    var opening: int := multiset(s)[OPEN];
    opening - multiset(s)[CLOSE]
  }

  lemma ExcessConcat(a: seq<Byte>, b: seq<Byte>)
    ensures Excess(a + b) == Excess(a) + Excess(b)
  {}

  lemma ExcessOne(c: Byte)
    ensures Excess([c]) == if c == OPEN then 1 else if c == CLOSE then -1 else 0
  {}

  /** The end is the first place up to which the braces closed outnumber those opened by `depth`. */
  predicate FirstClosing(s: seq<Byte>, depth: nat, end: nat) {
    && end <= |s|
    && (forall n :: 0 <= n <= end ==> Excess(s[..n]) + depth > 0)
    && (end < |s| ==> Excess(s[..end + 1]) + depth == 0)
  }

  lemma FirstThenRest(s: seq<Byte>, n: nat)
    requires 0 < n <= |s|
    ensures Excess(s[..n]) == Excess([s[0]]) + Excess(s[1..][..n - 1])
  {
    assert s[..n] == [s[0]] + s[1..][..n - 1];
    ExcessConcat([s[0]], s[1..][..n - 1]);
  }

  lemma FirstClosingStep(s: seq<Byte>, depth: nat, inner: nat, end: nat)
    requires s != [] && depth > 0 && inner == depth + Excess([s[0]]) && FirstClosing(s[1..], inner, end)
    ensures FirstClosing(s, depth, end + 1)
  {
    forall n | 0 <= n <= end + 1 ensures Excess(s[..n]) + depth > 0 {
      if n > 0 {
        FirstThenRest(s, n);
      }
    }
    if end + 1 < |s| {
      FirstThenRest(s, end + 2);
    }
  }

  lemma {:induction false} BraceEndIsFirstClosing(s: seq<Byte>, depth: nat)
    requires depth > 0
    ensures FirstClosing(s, depth, BraceEnd(s, depth))
    decreases |s|
  {
    if s == [] || (s[0] == CLOSE && depth == 1) {
      ClosesAtOnce(s, depth);
    } else {
      ExcessOne(s[0]);
      var inner := depth + Excess([s[0]]);
      BraceEndIsFirstClosing(s[1..], inner);
      FirstClosingStep(s, depth, inner, BraceEnd(s[1..], inner));
    }
  }

  lemma ClosesAtOnce(s: seq<Byte>, depth: nat)
    requires depth > 0 && (s == [] || (s[0] == CLOSE && depth == 1))
    ensures FirstClosing(s, depth, 0)
  {
    if s != [] {
      assert s[..1] == [s[0]];
      ExcessOne(s[0]);
    }
  }

  lemma FirstIsUnique(s: seq<Byte>, depth: nat, end1: nat, end2: nat)
    requires FirstClosing(s, depth, end1) && FirstClosing(s, depth, end2)
    ensures end1 == end2
  {}

  /** As many braces are opened as closed, and nowhere have more been closed. */
  predicate Balanced(body: seq<Byte>) {
    Excess(body) == 0 && forall n :: 0 <= n <= |body| ==> Excess(body[..n]) >= 0
  }

  /** The brace after a balanced body is the one that closes it, and no other is. */
  lemma ClosesBalanced(s: seq<Byte>, end: nat)
    requires end < |s|
    ensures BraceEnd(s, 1) == end <==> s[end] == CLOSE && Balanced(s[..end])
  {
    BraceEndIsFirstClosing(s, 1);
    assert s[..end + 1] == s[..end] + [s[end]];
    ExcessConcat(s[..end], [s[end]]);
    ExcessOne(s[end]);
    assert forall n :: 0 <= n <= end ==> s[..end][..n] == s[..n];
    if BraceEnd(s, 1) == end {
      forall n | 0 <= n <= end ensures Excess(s[..end][..n]) >= 0 {
        assert Excess(s[..n]) + 1 > 0;
      }
    }
    if s[end] == CLOSE && Balanced(s[..end]) {
      forall n | 0 <= n <= end ensures Excess(s[..n]) + 1 > 0 {
        assert Excess(s[..end][..n]) >= 0;
      }
      assert s[..end][..end] == s[..end];
      FirstIsUnique(s, 1, end, BraceEnd(s, 1));
    }
  }

  /** The commas at depth zero cut `s` into its alternatives; `buf` is the one being read. */
  function SplitFrom(s: seq<Byte>, depth: nat, buf: seq<Byte>): (alts: seq<seq<Byte>>)
    ensures |alts| > 0
    ensures forall k :: 0 <= k < |alts| ==> |alts[k]| <= |buf| + |s|
    decreases |s|
  {
    if s == [] then [buf]
    else if s[0] == OPEN then SplitFrom(s[1..], depth + 1, buf + [s[0]])
    else if s[0] == CLOSE then SplitFrom(s[1..], if depth > 0 then depth - 1 else 0, buf + [s[0]])
    else if s[0] == COMMA && depth == 0 then [buf] + SplitFrom(s[1..], depth, [])
    else SplitFrom(s[1..], depth, buf + [s[0]])
  }

  function SplitAlts(s: seq<Byte>): seq<seq<Byte>> { SplitFrom(s, 0, []) }

  function Join(parts: seq<seq<Byte>>): seq<Byte>
    requires |parts| > 0
  {
    if |parts| == 1 then parts[0] else parts[0] + [COMMA] + Join(parts[1..])
  }

  /** Joining the alternatives with commas gives the body back. */
  lemma {:induction false} SplitJoins(s: seq<Byte>, depth: nat, buf: seq<Byte>)
    ensures Join(SplitFrom(s, depth, buf)) == buf + s
    decreases |s|
  {
    if s == [] {
      assert buf + s == buf;
    } else {
      assert (buf + [s[0]]) + s[1..] == buf + s;
      if s[0] == OPEN {
        SplitJoins(s[1..], depth + 1, buf + [s[0]]);
      } else if s[0] == CLOSE {
        SplitJoins(s[1..], if depth > 0 then depth - 1 else 0, buf + [s[0]]);
      } else if s[0] == COMMA && depth == 0 {
        var rest := SplitFrom(s[1..], depth, []);
        SplitJoins(s[1..], depth, []);
        assert ([buf] + rest)[1..] == rest;
        assert [] + s[1..] == s[1..];
      } else {
        SplitJoins(s[1..], depth, buf + [s[0]]);
      }
    }
  }

  /** Brace depth after `s`, as the splitter counts it. */
  function DepthAfter(s: seq<Byte>, depth: nat): nat {
    if s == [] then depth
    else if s[0] == OPEN then DepthAfter(s[1..], depth + 1)
    else if s[0] == CLOSE then DepthAfter(s[1..], if depth > 0 then depth - 1 else 0)
    else DepthAfter(s[1..], depth)
  }

  /** No comma of `s` stands at depth zero. */
  predicate NoTopComma(s: seq<Byte>, depth: nat) {
    if s == [] then true
    else if s[0] == OPEN then NoTopComma(s[1..], depth + 1)
    else if s[0] == CLOSE then NoTopComma(s[1..], if depth > 0 then depth - 1 else 0)
    else !(s[0] == COMMA && depth == 0) && NoTopComma(s[1..], depth)
  }

  lemma {:induction false} TopCommaSnoc(s: seq<Byte>, c: Byte, depth: nat)
    ensures DepthAfter(s + [c], depth) == DepthAfter([c], DepthAfter(s, depth))
    ensures NoTopComma(s + [c], depth) <==> NoTopComma(s, depth) && NoTopComma([c], DepthAfter(s, depth))
  {
    if s == [] {
      assert s + [c] == [c];
    } else {
      assert (s + [c])[1..] == s[1..] + [c];
      var inner := if s[0] == OPEN then depth + 1 else if s[0] == CLOSE && depth > 0 then depth - 1 else depth;
      TopCommaSnoc(s[1..], c, inner);
    }
  }

  /** The cut is complete: no alternative can be cut further. */
  lemma {:induction false} SplitIsComplete(s: seq<Byte>, depth: nat, buf: seq<Byte>)
    requires NoTopComma(buf, 0) && DepthAfter(buf, 0) == depth
    ensures forall k :: 0 <= k < |SplitFrom(s, depth, buf)| ==> NoTopComma(SplitFrom(s, depth, buf)[k], 0)
    decreases |s|
  {
    if s != [] {
      TopCommaSnoc(buf, s[0], 0);
      if s[0] == OPEN {
        SplitIsComplete(s[1..], depth + 1, buf + [s[0]]);
      } else if s[0] == CLOSE {
        SplitIsComplete(s[1..], if depth > 0 then depth - 1 else 0, buf + [s[0]]);
      } else if s[0] == COMMA && depth == 0 {
        SplitIsComplete(s[1..], depth, []);
      } else {
        SplitIsComplete(s[1..], depth, buf + [s[0]]);
      }
    }
  }

  /** A comma outside all braces. */
  predicate OuterComma(s: seq<Byte>, i: nat) { i < |s| && s[i] == COMMA && Excess(s[..i]) == 0 }

  predicate NoOuterComma(s: seq<Byte>) { forall i :: 0 <= i < |s| ==> !OuterComma(s, i) }

  predicate Uncut(s: seq<Byte>) { Balanced(s) && NoOuterComma(s) }

  lemma BalancedParts(a: seq<Byte>, b: seq<Byte>)
    requires Balanced(a + b) && Excess(a) == 0
    ensures Balanced(a) && Balanced(b)
  {
    ExcessConcat(a, b);
    forall n | 0 <= n <= |a| ensures Excess(a[..n]) >= 0 {
      assert (a + b)[..n] == a[..n];
    }
    forall n | 0 <= n <= |b| ensures Excess(b[..n]) >= 0 {
      assert (a + b)[..|a| + n] == a + b[..n];
      ExcessConcat(a, b[..n]);
    }
  }

  lemma OuterCommaSnoc(s: seq<Byte>, c: Byte)
    requires NoOuterComma(s) && (c == COMMA ==> Excess(s) != 0)
    ensures NoOuterComma(s + [c])
  {
    forall i | 0 <= i < |s + [c]| ensures !OuterComma(s + [c], i) {
      assert (s + [c])[..i] == s[..i];
      assert s[..|s|] == s;
      assert i < |s| ==> !OuterComma(s, i);
    }
  }

  lemma CutHere(s: seq<Byte>, buf: seq<Byte>)
    requires s != [] && s[0] == COMMA && Balanced(buf + s) && Excess(buf) == 0
    ensures Balanced(buf) && Balanced([] + s[1..])
  {
    BalancedParts(buf, s);
    assert [s[0]] + s[1..] == s && [] + s[1..] == s[1..];
    ExcessOne(s[0]);
    BalancedParts([s[0]], s[1..]);
  }

  lemma ReadOn(s: seq<Byte>, buf: seq<Byte>)
    requires s != [] && Balanced(buf + s) && NoOuterComma(buf) && (s[0] == COMMA ==> Excess(buf) != 0)
    ensures Balanced(buf + [s[0]] + s[1..]) && NoOuterComma(buf + [s[0]])
    ensures Excess(buf + [s[0]]) == Excess(buf) + (if s[0] == OPEN then 1 else if s[0] == CLOSE then -1 else 0)
    ensures Excess(buf + [s[0]]) >= 0
  {
    assert buf + [s[0]] + s[1..] == buf + s;
    assert (buf + s)[..|buf| + 1] == buf + [s[0]];
    ExcessConcat(buf, [s[0]]);
    ExcessOne(s[0]);
    OuterCommaSnoc(buf, s[0]);
  }

  predicate AllUncut(alts: seq<seq<Byte>>) { forall k :: 0 <= k < |alts| ==> Uncut(alts[k]) }

  lemma {:induction false} SplitFromUncut(s: seq<Byte>, depth: nat, buf: seq<Byte>)
    requires Balanced(buf + s) && Excess(buf) == depth && NoOuterComma(buf)
    ensures AllUncut(SplitFrom(s, depth, buf))
    decreases |s|
  {
    if s == [] {
      assert buf + s == buf;
    } else if s[0] == COMMA && depth == 0 {
      CutHere(s, buf);
      SplitFromUncut(s[1..], 0, []);
    } else {
      ReadOn(s, buf);
      SplitFromUncut(s[1..], Excess(buf + [s[0]]), buf + [s[0]]);
    }
  }

  /**
    A balanced body is cut exactly at its commas outside inner braces: its alternatives are
    balanced, have no such comma left, and joined by commas they are the body.
   */
  lemma AlternativesAre(body: seq<Byte>)
    requires Balanced(body)
    ensures AllUncut(SplitAlts(body))
    ensures Join(SplitAlts(body)) == body
  {
    assert [] + body == body;
    SplitFromUncut(body, 0, []);
    SplitJoins(body, 0, []);
  }

  // ---------------------------------------------------------------- the matcher

  predicate SlashIn(t: seq<Byte>) { SLASH in t }

  /** `at_seg` where `**` hands over at `end`. */
  predicate AfterSlash(t: seq<Byte>, end: nat)
    requires end <= |t|
  {
    end == 0 || t[end - 1] == SLASH
  }

  /** The length of a `**` token: a slash right after it is swallowed. */
  function GlobStarLength(p: seq<Byte>): (n: nat)
    requires |p| >= 2
    ensures 2 <= n <= |p|
  {
    if |p| > 2 && p[2] == SLASH then 3 else 2
  }

  /** A `*` at `ti` may take the text up to `end`. */
  predicate StarTakes(t: seq<Byte>, ti: nat, end: nat, dot: bool, atSeg: bool)
    requires ti <= end <= |t|
  {
    && !SlashIn(t[ti..end])
    && (end == ti ==> !SlashIn(t[ti..]))
    && !(!dot && atSeg && end > ti && t[ti] == DOT)
  }

  /** Does pattern `p` accept the text from `ti` on? */
  predicate Accepts(p: seq<Byte>, t: seq<Byte>, ti: nat, dot: bool, atSeg: bool)
    requires ti <= |t|
    decreases |p|
  {
    if p == [] then ti == |t|
    else if p[0] == STAR && |p| > 1 && p[1] == STAR then
      exists end :: ti <= end <= |t| && Accepts(p[GlobStarLength(p)..], t, end, dot, AfterSlash(t, end))
    else if p[0] == STAR then
      exists end :: ti <= end <= |t| && StarTakes(t, ti, end, dot, atSeg) && Accepts(p[1..], t, end, dot, false)
    else if p[0] == QUESTION then
      ti < |t| && t[ti] != SLASH && !(!dot && atSeg && t[ti] == DOT) && Accepts(p[1..], t, ti + 1, dot, false)
    else if p[0] == OPEN then
      var end := 1 + BraceEnd(p[1..], 1);
      end < |p| &&
      var alts := SplitAlts(p[1..end]);
      exists k :: 0 <= k < |alts| && Accepts(alts[k] + p[end + 1..], t, ti, dot, atSeg)
    else if p[0] == ESCAPE && |p| > 1 then
      ti < |t| && t[ti] == p[1] && Accepts(p[2..], t, ti + 1, dot, t[ti] == SLASH)
    else
      ti < |t| && t[ti] == p[0] && Accepts(p[1..], t, ti + 1, dot, p[0] == SLASH)
  }

  /** Allowing leading dots only adds matches, for every pattern. */
  lemma {:induction false} DotIsMonotone(p: seq<Byte>, t: seq<Byte>, ti: nat, atSeg: bool)
    requires ti <= |t| && Accepts(p, t, ti, false, atSeg)
    ensures Accepts(p, t, ti, true, atSeg)
    decreases |p|
  {
    if p == [] {
    } else if p[0] == STAR && |p| > 1 && p[1] == STAR {
      var rest := p[GlobStarLength(p)..];
      var end :| ti <= end <= |t| && Accepts(rest, t, end, false, AfterSlash(t, end));
      DotIsMonotone(rest, t, end, AfterSlash(t, end));
    } else if p[0] == STAR {
      var end :| ti <= end <= |t| && StarTakes(t, ti, end, false, atSeg) && Accepts(p[1..], t, end, false, false);
      DotIsMonotone(p[1..], t, end, false);
      assert StarTakes(t, ti, end, true, atSeg);
    } else if p[0] == QUESTION {
      DotIsMonotone(p[1..], t, ti + 1, false);
    } else if p[0] == OPEN {
      var end := 1 + BraceEnd(p[1..], 1);
      var alts := SplitAlts(p[1..end]);
      var k :| 0 <= k < |alts| && Accepts(alts[k] + p[end + 1..], t, ti, false, atSeg);
      DotIsMonotone(alts[k] + p[end + 1..], t, ti, atSeg);
    } else if p[0] == ESCAPE && |p| > 1 {
      DotIsMonotone(p[2..], t, ti + 1, t[ti] == SLASH);
    } else {
      DotIsMonotone(p[1..], t, ti + 1, p[0] == SLASH);
    }
  }

  // ---------------------------------------------------------------- braces distribute

  /** A prefix without braces that ends at a token boundary whatever follows: no `{`, and no trailing
      `*` (which a following `*` or `/` would change) or `\` (which would escape what follows). */
  predicate PlainPrefix(p: seq<Byte>) {
    if p == [] then true
    else if p[0] == STAR && |p| > 1 && p[1] == STAR then |p| > 2 && PlainPrefix(p[GlobStarLength(p)..])
    else if p[0] == STAR then |p| > 1 && PlainPrefix(p[1..])
    else if p[0] == OPEN then false
    else if p[0] == ESCAPE then |p| > 1 && PlainPrefix(p[2..])
    else PlainPrefix(p[1..])
  }

  /** The tokens of `p`, which holds no brace, are read the same when `x` follows. */
  predicate Clean(p: seq<Byte>, x: seq<Byte>) {
    if p == [] then true
    else if p[0] == STAR && |p| > 1 && p[1] == STAR then
      (|p| > 2 || x == [] || x[0] != SLASH) && Clean(p[GlobStarLength(p)..], x)
    else if p[0] == STAR then (|p| > 1 || x == [] || x[0] != STAR) && Clean(p[1..], x)
    else if p[0] == OPEN then false
    else if p[0] == ESCAPE then |p| > 1 && Clean(p[2..], x)
    else Clean(p[1..], x)
  }

  lemma {:induction false} PlainIsClean(p: seq<Byte>, x: seq<Byte>)
    requires PlainPrefix(p)
    ensures Clean(p, x)
    decreases |p|
  {
    if p != [] {
      PlainIsClean(p[TokenLength(p)..], x);
    }
  }

  /** The length of the first token of a pattern without braces. */
  function TokenLength(p: seq<Byte>): (n: nat)
    requires p != []
    ensures 0 < n <= |p|
  {
    if p[0] == STAR && |p| > 1 && p[1] == STAR then GlobStarLength(p)
    else if p[0] == ESCAPE && |p| > 1 then 2
    else 1
  }

  /** In particular: no `{` at all and a last byte that is neither `*` nor `\`. */
  lemma {:induction false} PlainIfSo(p: seq<Byte>)
    requires OPEN !in p && (p != [] ==> p[|p| - 1] != STAR && p[|p| - 1] != ESCAPE)
    ensures PlainPrefix(p)
    decreases |p|
  {
    if p != [] {
      PlainIfSo(p[TokenLength(p)..]);
    }
  }

  ghost predicate AnyAccepts(pre: seq<Byte>, tails: seq<seq<Byte>>, t: seq<Byte>, ti: nat, dot: bool, atSeg: bool)
    requires ti <= |t|
  {
    exists k :: 0 <= k < |tails| && Accepts(pre + tails[k], t, ti, dot, atSeg)
  }

  /** On the text `t`, `rest` accepts whatever one of `tails` accepts. */
  ghost predicate SameOn(rest: seq<Byte>, tails: seq<seq<Byte>>, t: seq<Byte>, dot: bool) {
    forall ti: nat, atSeg {:trigger Accepts(rest, t, ti, dot, atSeg)} :: ti <= |t|
      ==> (Accepts(rest, t, ti, dot, atSeg) <==> AnyAccepts([], tails, t, ti, dot, atSeg))
  }

  lemma DropConcat(a: seq<Byte>, b: seq<Byte>, n: nat)
    requires n <= |a|
    ensures (a + b)[n..] == a[n..] + b
  {}

  /** The first token of a prefix is read the same when `x` follows. */
  lemma TokenIsLocal(pre: seq<Byte>, x: seq<Byte>)
    requires Clean(pre, x) && pre != []
    ensures var p := pre + x;
      && p[0] == pre[0] && (p[0] == STAR ==> ((|p| > 1 && p[1] == STAR) <==> (|pre| > 1 && pre[1] == STAR)))
      && TokenLength(p) == TokenLength(pre) && p[TokenLength(p)..] == pre[TokenLength(pre)..] + x
      && (|pre| > 1 ==> p[1] == pre[1])
  {
    DropConcat(pre, x, TokenLength(pre));
    if |pre| > 2 {
      assert (pre + x)[2] == pre[2];
    }
  }

  ghost predicate CleanBeforeAll(pre: seq<Byte>, rest: seq<Byte>, tails: seq<seq<Byte>>) {
    Clean(pre, rest) && forall k :: 0 <= k < |tails| ==> Clean(pre, tails[k])
  }

  /** What holds of the tails holds behind any prefix read the same before all of them. */
  lemma {:induction false} PrefixLifts(pre: seq<Byte>, rest: seq<Byte>, tails: seq<seq<Byte>>,
                                       t: seq<Byte>, ti: nat, dot: bool, atSeg: bool)
    requires CleanBeforeAll(pre, rest, tails) && ti <= |t| && SameOn(rest, tails, t, dot)
    ensures Accepts(pre + rest, t, ti, dot, atSeg) <==> AnyAccepts(pre, tails, t, ti, dot, atSeg)
    decreases |pre|
  {
    if pre == [] {
      assert pre + rest == rest;
    } else if pre[0] == STAR && |pre| > 1 && pre[1] == STAR {
      GlobStarLifts(pre, rest, tails, t, ti, dot, atSeg);
    } else if pre[0] == STAR {
      StarLifts(pre, rest, tails, t, ti, dot, atSeg);
    } else {
      OneLifts(pre, rest, tails, t, ti, dot, atSeg);
    }
  }

  lemma {:induction false} GlobStarLifts(pre: seq<Byte>, rest: seq<Byte>, tails: seq<seq<Byte>>,
                                         t: seq<Byte>, ti: nat, dot: bool, atSeg: bool)
    requires CleanBeforeAll(pre, rest, tails) && ti <= |t| && SameOn(rest, tails, t, dot)
    requires |pre| > 1 && pre[0] == STAR && pre[1] == STAR
    ensures Accepts(pre + rest, t, ti, dot, atSeg) <==> AnyAccepts(pre, tails, t, ti, dot, atSeg)
    decreases |pre|, 0
  {
    var next := pre[GlobStarLength(pre)..];
    TokenIsLocal(pre, rest);
    forall end | ti <= end <= |t|
      ensures Accepts(next + rest, t, end, dot, AfterSlash(t, end))
         <==> AnyAccepts(next, tails, t, end, dot, AfterSlash(t, end))
    {
      PrefixLifts(next, rest, tails, t, end, dot, AfterSlash(t, end));
    }
    forall k | 0 <= k < |tails|
      ensures Accepts(pre + tails[k], t, ti, dot, atSeg)
         <==> exists end :: ti <= end <= |t| && Accepts(next + tails[k], t, end, dot, AfterSlash(t, end))
    {
      TokenIsLocal(pre, tails[k]);
    }
  }

  lemma {:induction false} StarLifts(pre: seq<Byte>, rest: seq<Byte>, tails: seq<seq<Byte>>,
                                     t: seq<Byte>, ti: nat, dot: bool, atSeg: bool)
    requires CleanBeforeAll(pre, rest, tails) && ti <= |t| && SameOn(rest, tails, t, dot)
    requires pre != [] && pre[0] == STAR && !(|pre| > 1 && pre[1] == STAR)
    ensures Accepts(pre + rest, t, ti, dot, atSeg) <==> AnyAccepts(pre, tails, t, ti, dot, atSeg)
    decreases |pre|, 0
  {
    var next := pre[1..];
    TokenIsLocal(pre, rest);
    forall end | ti <= end <= |t|
      ensures Accepts(next + rest, t, end, dot, false) <==> AnyAccepts(next, tails, t, end, dot, false)
    {
      PrefixLifts(next, rest, tails, t, end, dot, false);
    }
    forall k | 0 <= k < |tails|
      ensures Accepts(pre + tails[k], t, ti, dot, atSeg)
         <==> exists end :: ti <= end <= |t| && StarTakes(t, ti, end, dot, atSeg)
                            && Accepts(next + tails[k], t, end, dot, false)
    {
      TokenIsLocal(pre, tails[k]);
    }
  }

  lemma {:induction false} OneLifts(pre: seq<Byte>, rest: seq<Byte>, tails: seq<seq<Byte>>,
                                    t: seq<Byte>, ti: nat, dot: bool, atSeg: bool)
    requires CleanBeforeAll(pre, rest, tails) && ti <= |t| && SameOn(rest, tails, t, dot)
    requires pre != [] && pre[0] != STAR
    ensures Accepts(pre + rest, t, ti, dot, atSeg) <==> AnyAccepts(pre, tails, t, ti, dot, atSeg)
    decreases |pre|, 0
  {
    var n := TokenLength(pre);
    OneTokenRead(pre, rest, t, ti, dot, atSeg);
    forall k | 0 <= k < |tails|
      ensures Accepts(pre + tails[k], t, ti, dot, atSeg)
         <==> OneTaken(pre, t, ti, dot, atSeg) && Accepts(pre[n..] + tails[k], t, ti + 1, dot, OneSeg(pre, t, ti))
    {
      OneTokenRead(pre, tails[k], t, ti, dot, atSeg);
    }
    if ti < |t| {
      PrefixLifts(pre[n..], rest, tails, t, ti + 1, dot, OneSeg(pre, t, ti));
    }
  }

  /** A literal, an escape or `?` at the front takes the byte at `ti`. */
  predicate OneTaken(pre: seq<Byte>, t: seq<Byte>, ti: nat, dot: bool, atSeg: bool)
    requires pre != [] && (pre[0] == ESCAPE ==> |pre| > 1)
  {
    ti < |t| &&
    if pre[0] == QUESTION then t[ti] != SLASH && !(!dot && atSeg && t[ti] == DOT)
    else t[ti] == if pre[0] == ESCAPE then pre[1] else pre[0]
  }

  /** ... and hands on this `at_seg`. */
  predicate OneSeg(pre: seq<Byte>, t: seq<Byte>, ti: nat)
    requires pre != []
  {
    pre[0] != QUESTION && ti < |t| && t[ti] == SLASH
  }

  lemma OneTokenRead(pre: seq<Byte>, x: seq<Byte>, t: seq<Byte>, ti: nat, dot: bool, atSeg: bool)
    requires Clean(pre, x) && pre != [] && pre[0] != STAR && ti <= |t|
    ensures Accepts(pre + x, t, ti, dot, atSeg)
      <==> OneTaken(pre, t, ti, dot, atSeg) && Accepts(pre[TokenLength(pre)..] + x, t, ti + 1, dot, OneSeg(pre, t, ti))
  {
    TokenIsLocal(pre, x);
  }

  function WithTail(alts: seq<seq<Byte>>, post: seq<Byte>): (tails: seq<seq<Byte>>)
    ensures |tails| == |alts| && forall k :: 0 <= k < |alts| ==> tails[k] == alts[k] + post
  {
    seq(|alts|, k requires 0 <= k < |alts| => alts[k] + post)
  }

  lemma BraceMeansAlternatives(body: seq<Byte>, post: seq<Byte>, t: seq<Byte>, dot: bool)
    requires Balanced(body)
    ensures SameOn([OPEN] + body + [CLOSE] + post, WithTail(SplitAlts(body), post), t, dot)
  {
    var p := [OPEN] + body + [CLOSE] + post;
    assert p[1..] == body + [CLOSE] + post && p[1..][..|body|] == body;
    ClosesBalanced(p[1..], |body|);
    var end := 1 + BraceEnd(p[1..], 1);
    assert end == 1 + |body| && p[1..end] == body && p[end + 1..] == post;
    var tails := WithTail(SplitAlts(body), post);
    assert forall k :: 0 <= k < |tails| ==> [] + tails[k] == tails[k];
  }

  /** `pre{body}post` accepts a text exactly if `pre alt post` does for one of the alternatives of `body`. */
  lemma BracesDistribute(pre: seq<Byte>, body: seq<Byte>, post: seq<Byte>, t: seq<Byte>, dot: bool)
    requires PlainPrefix(pre) && Balanced(body)
    ensures Accepts(pre + ([OPEN] + body + [CLOSE] + post), t, 0, dot, true)
       <==> AnyAccepts(pre, WithTail(SplitAlts(body), post), t, 0, dot, true)
  {
    var rest, tails := [OPEN] + body + [CLOSE] + post, WithTail(SplitAlts(body), post);
    BraceMeansAlternatives(body, post, t, dot);
    PlainIsClean(pre, rest);
    forall k | 0 <= k < |tails| ensures Clean(pre, tails[k]) { PlainIsClean(pre, tails[k]); }
    PrefixLifts(pre, rest, tails, t, 0, dot, true);
  }

  /** A brace that nothing closes accepts nothing, behind any plain prefix. */
  lemma UnclosedAcceptsNothing(pre: seq<Byte>, rest: seq<Byte>, t: seq<Byte>, dot: bool)
    requires PlainPrefix(pre) && forall n :: 0 <= n <= |rest| ==> Excess(rest[..n]) >= 0
    ensures !Accepts(pre + ([OPEN] + rest), t, 0, dot, true)
  {
    var p := [OPEN] + rest;
    assert p[1..] == rest;
    BraceEndIsFirstClosing(rest, 1);
    assert SameOn(p, [], t, dot);
    PlainIsClean(pre, p);
    PrefixLifts(pre, p, [], t, 0, dot, true);
  }

  lemma OneAlternative(a: Byte)
    requires a != OPEN && a != CLOSE && a != COMMA
    ensures SplitAlts([a]) == [[a]] && Balanced([a])
  {
    assert [a][1..] == [] && [] + [a] == [a];
    assert SplitFrom([], 0, [a]) == [[a]];
    NoBraceIsBalanced([a]);
  }

  lemma NoBraceIsBalanced(body: seq<Byte>)
    requires OPEN !in body && CLOSE !in body
    ensures Balanced(body)
  {
    forall n | 0 <= n <= |body| ensures Excess(body[..n]) == 0 {
      assert OPEN !in body[..n] && CLOSE !in body[..n];
    }
    assert body[..|body|] == body;
  }

  /** Behind a `*` braces do not distribute: `*{*}` rejects "/", which `**` accepts. */
  lemma StarBeforeBrace()
    ensures !PlainPrefix([STAR]) && Balanced([STAR])
    ensures !Accepts([STAR] + ([OPEN] + [STAR] + [CLOSE] + []), [SLASH], 0, true, true)
    ensures AnyAccepts([STAR], WithTail(SplitAlts([STAR]), []), [SLASH], 0, true, true)
  {
    var t, p := [SLASH], [STAR, OPEN, STAR, CLOSE];
    assert [STAR] + ([OPEN] + [STAR] + [CLOSE] + []) == p;
    forall end | 0 <= end <= 1
      ensures !StarTakes(t, 0, end, true, true)
    {
      assert SlashIn(t[0..]) && t[0..1] == t;
    }
    var alts := SplitAlts([STAR]);
    OneAlternative(STAR);
    assert [STAR] + WithTail(alts, [])[0] == [STAR, STAR];
    assert Accepts([STAR, STAR][GlobStarLength([STAR, STAR])..], t, 1, true, AfterSlash(t, 1));
  }

  /** Nor behind a `\`: `\{a}` accepts "{a}", which `\a` rejects. */
  lemma EscapeBeforeBrace(a: Byte)
    requires a != OPEN && a != CLOSE && a != COMMA && a != STAR && a != QUESTION && a != ESCAPE
    ensures !PlainPrefix([ESCAPE]) && Balanced([a])
    ensures Accepts([ESCAPE] + ([OPEN] + [a] + [CLOSE] + []), [OPEN, a, CLOSE], 0, true, true)
    ensures !AnyAccepts([ESCAPE], WithTail(SplitAlts([a]), []), [OPEN, a, CLOSE], 0, true, true)
  {
    var t, p := [OPEN, a, CLOSE], [ESCAPE, OPEN, a, CLOSE];
    assert [ESCAPE] + ([OPEN] + [a] + [CLOSE] + []) == p;
    assert p[2..] == [a, CLOSE] && p[2..][1..] == [CLOSE] && p[2..][1..][1..] == [];
    assert Accepts([CLOSE], t, 2, true, false);
    var alts := SplitAlts([a]);
    OneAlternative(a);
    assert [ESCAPE] + WithTail(alts, [])[0] == [ESCAPE, a];
  }

  // ---------------------------------------------------------------- what a pattern without braces means

  datatype Token = Lit(c: Byte) | AnyOne | AnyRun | AnyPath

  /** No `{` is reached as a token. */
  predicate BraceFree(p: seq<Byte>) {
    if p == [] then true
    else if p[0] == STAR && |p| > 1 && p[1] == STAR then BraceFree(p[GlobStarLength(p)..])
    else if p[0] == OPEN then false
    else if p[0] == ESCAPE && |p| > 1 then BraceFree(p[2..])
    else BraceFree(p[1..])
  }

  function Tokens(p: seq<Byte>): seq<Token>
    requires BraceFree(p)
  {
    if p == [] then []
    else if p[0] == STAR && |p| > 1 && p[1] == STAR then [AnyPath] + Tokens(p[GlobStarLength(p)..])
    else if p[0] == STAR then [AnyRun] + Tokens(p[1..])
    else if p[0] == QUESTION then [AnyOne] + Tokens(p[1..])
    else if p[0] == ESCAPE && |p| > 1 then [Lit(p[1])] + Tokens(p[2..])
    else [Lit(p[0])] + Tokens(p[1..])
  }

  /**
    `token` may stand for `piece`, where `ahead` is the text from the piece on. Without `dot`, a
    `*` or `?` at the start of a segment may not begin with a dot.
   */
  predicate Stands(token: Token, piece: seq<Byte>, ahead: seq<Byte>, dot: bool, atSeg: bool) {
    match token
    case Lit(c) => piece == [c]
    case AnyOne => |piece| == 1 && piece[0] != SLASH && (piece[0] == DOT ==> dot || !atSeg)
    case AnyRun =>
      && !SlashIn(piece) && (piece == [] ==> !SlashIn(ahead))
      && (piece != [] && piece[0] == DOT ==> dot || !atSeg)
    case AnyPath => true
  }

  /** Does the matcher take a segment to begin after `token`, with `before` the text up to there? */
  predicate SegAfter(token: Token, before: seq<Byte>) {
    match token
    case Lit(c) => c == SLASH
    case AnyOne => false
    case AnyRun => false
    case AnyPath => before == [] || before[|before| - 1] == SLASH
  }

  /** One piece of text per token, the first beginning after `before`. */
  predicate Splits(tokens: seq<Token>, pieces: seq<seq<Byte>>, dot: bool, atSeg: bool, before: seq<Byte>) {
    if tokens == [] || pieces == [] then tokens == [] && pieces == [] else
      && Stands(tokens[0], pieces[0], Flatten(pieces), dot, atSeg)
      && Splits(tokens[1..], pieces[1..], dot, SegAfter(tokens[0], before + pieces[0]), before + pieces[0])
  }

  /** The first token of a nonempty pattern, and the pattern that remains. */
  function FirstToken(p: seq<Byte>): (r: (Token, seq<Byte>))
    requires BraceFree(p) && p != []
    ensures BraceFree(r.1) && |r.1| < |p| && Tokens(p) == [r.0] + Tokens(r.1)
  {
    if p[0] == STAR && |p| > 1 && p[1] == STAR then (AnyPath, p[GlobStarLength(p)..])
    else if p[0] == STAR then (AnyRun, p[1..])
    else if p[0] == QUESTION then (AnyOne, p[1..])
    else if p[0] == ESCAPE && |p| > 1 then (Lit(p[1]), p[2..])
    else (Lit(p[0]), p[1..])
  }

  /** A round of the matcher takes a piece for the first token ... */
  lemma AcceptsTakes(p: seq<Byte>, t: seq<Byte>, ti: nat, dot: bool, atSeg: bool) returns (end: nat)
    requires BraceFree(p) && p != [] && ti <= |t| && Accepts(p, t, ti, dot, atSeg)
    ensures ti <= end <= |t| && Stands(FirstToken(p).0, t[ti..end], t[ti..], dot, atSeg)
    ensures Accepts(FirstToken(p).1, t, end, dot, SegAfter(FirstToken(p).0, t[..end]))
  {
    if p[0] == STAR && |p| > 1 && p[1] == STAR {
      end := PathTaken(p, t, ti, dot, atSeg);
    } else if p[0] == STAR {
      end := RunTaken(p, t, ti, dot, atSeg);
    } else {
      end := ti + 1;
      OneByteTaken(p, t, ti, dot, atSeg);
    }
  }

  lemma PathTaken(p: seq<Byte>, t: seq<Byte>, ti: nat, dot: bool, atSeg: bool) returns (end: nat)
    requires BraceFree(p) && |p| > 1 && p[0] == STAR && p[1] == STAR
    requires ti <= |t| && Accepts(p, t, ti, dot, atSeg)
    ensures ti <= end <= |t| && Accepts(p[GlobStarLength(p)..], t, end, dot, SegAfter(AnyPath, t[..end]))
  {
    end :| ti <= end <= |t| && Accepts(p[GlobStarLength(p)..], t, end, dot, AfterSlash(t, end));
    assert SegAfter(AnyPath, t[..end]) == AfterSlash(t, end);
  }

  lemma RunTaken(p: seq<Byte>, t: seq<Byte>, ti: nat, dot: bool, atSeg: bool) returns (end: nat)
    requires BraceFree(p) && p != [] && p[0] == STAR && !(|p| > 1 && p[1] == STAR)
    requires ti <= |t| && Accepts(p, t, ti, dot, atSeg)
    ensures ti <= end <= |t| && Stands(AnyRun, t[ti..end], t[ti..], dot, atSeg) && Accepts(p[1..], t, end, dot, false)
  {
    end :| ti <= end <= |t| && StarTakes(t, ti, end, dot, atSeg) && Accepts(p[1..], t, end, dot, false);
  }

  lemma OneByteTaken(p: seq<Byte>, t: seq<Byte>, ti: nat, dot: bool, atSeg: bool)
    requires BraceFree(p) && p != [] && p[0] != STAR && ti <= |t| && Accepts(p, t, ti, dot, atSeg)
    ensures ti < |t| && Stands(FirstToken(p).0, t[ti..ti + 1], t[ti..], dot, atSeg)
    ensures Accepts(FirstToken(p).1, t, ti + 1, dot, SegAfter(FirstToken(p).0, t[..ti + 1]))
  {
    assert t[ti..ti + 1] == [t[ti]];
  }

  /** ... and any piece the token may stand for can be taken. */
  lemma TakesAccepts(p: seq<Byte>, t: seq<Byte>, ti: nat, end: nat, dot: bool, atSeg: bool)
    requires BraceFree(p) && p != [] && ti <= end <= |t|
    requires Stands(FirstToken(p).0, t[ti..end], t[ti..], dot, atSeg)
    requires Accepts(FirstToken(p).1, t, end, dot, SegAfter(FirstToken(p).0, t[..end]))
    ensures Accepts(p, t, ti, dot, atSeg)
  {
    if p[0] == STAR && |p| > 1 && p[1] == STAR {
      assert SegAfter(AnyPath, t[..end]) == AfterSlash(t, end);
    } else if p[0] == STAR {
      assert end > ti ==> t[ti..end][0] == t[ti];
      assert StarTakes(t, ti, end, dot, atSeg);
    } else {
      assert |t[ti..end]| == 1 && t[ti..end][0] == t[ti];
    }
  }

  /**
    A pattern without braces accepts a text exactly if the text splits into pieces, one per token,
    each as its token and, without `dot`, its place in a segment say.
   */
  lemma AcceptsIffSplits(p: seq<Byte>, t: seq<Byte>, dot: bool)
    requires BraceFree(p)
    ensures Accepts(p, t, 0, dot, true)
       <==> exists pieces: seq<seq<Byte>> :: Splits(Tokens(p), pieces, dot, true, []) && Flatten(pieces) == t
  {
    assert t[0..] == t && t[..0] == [];
    if Accepts(p, t, 0, dot, true) {
      var pieces := SplitOf(p, t, 0, dot, true);
    }
    if pieces: seq<seq<Byte>> :| Splits(Tokens(p), pieces, dot, true, []) && Flatten(pieces) == t {
      AcceptsSplit(p, t, 0, pieces, dot, true);
    }
  }

  lemma {:induction false} SplitOf(p: seq<Byte>, t: seq<Byte>, ti: nat, dot: bool, atSeg: bool)
    returns (pieces: seq<seq<Byte>>)
    requires BraceFree(p) && ti <= |t| && Accepts(p, t, ti, dot, atSeg)
    ensures Splits(Tokens(p), pieces, dot, atSeg, t[..ti]) && Flatten(pieces) == t[ti..]
    decreases |p|
  {
    if p == [] {
      pieces := [];
    } else {
      var (token, rest) := FirstToken(p);
      var end := AcceptsTakes(p, t, ti, dot, atSeg);
      var later := SplitOf(rest, t, end, dot, SegAfter(token, t[..end]));
      pieces := [t[ti..end]] + later;
      assert t[ti..] == t[ti..end] + t[end..];
      assert t[..ti] + t[ti..end] == t[..end];
      assert pieces[1..] == later && ([token] + Tokens(rest))[1..] == Tokens(rest);
    }
  }

  lemma {:induction false} AcceptsSplit(p: seq<Byte>, t: seq<Byte>, ti: nat, pieces: seq<seq<Byte>>,
                                        dot: bool, atSeg: bool)
    requires BraceFree(p) && ti <= |t| && Splits(Tokens(p), pieces, dot, atSeg, t[..ti]) && Flatten(pieces) == t[ti..]
    ensures Accepts(p, t, ti, dot, atSeg)
    decreases |p|
  {
    if p != [] {
      var (token, rest) := FirstToken(p);
      var end := ti + |pieces[0]|;
      assert t[ti..] == pieces[0] + Flatten(pieces[1..]);
      assert t[ti..end] == t[ti..][..|pieces[0]|] == pieces[0];
      assert t[end..] == t[ti..][|pieces[0]|..] == Flatten(pieces[1..]);
      assert t[..ti] + pieces[0] == t[..end];
      assert ([token] + Tokens(rest))[1..] == Tokens(rest);
      AcceptsSplit(rest, t, end, pieces[1..], dot, SegAfter(token, t[..end]));
      TakesAccepts(p, t, ti, end, dot, atSeg);
    }
  }

  function Slashes(t: seq<Byte>): nat {
    if t == [] then 0 else (if t[0] == SLASH then 1 else 0) + Slashes(t[1..])
  }

  lemma {:induction false} SlashesConcat(a: seq<Byte>, b: seq<Byte>)
    ensures Slashes(a + b) == Slashes(a) + Slashes(b)
  {
    if a == [] {
      assert a + b == b;
    } else {
      assert (a + b)[1..] == a[1..] + b;
      SlashesConcat(a[1..], b);
    }
  }

  lemma {:induction false} NoSlashes(t: seq<Byte>)
    requires !SlashIn(t)
    ensures Slashes(t) == 0
  {
    if t != [] {
      NoSlashes(t[1..]);
    }
  }

  function SlashTokens(tokens: seq<Token>): nat {
    if tokens == [] then 0 else (if tokens[0] == Lit(SLASH) then 1 else 0) + SlashTokens(tokens[1..])
  }

  /** Every literal slash takes one slash of the text, and without `**` nothing else takes any. */
  lemma {:induction false} SplitSlashes(tokens: seq<Token>, pieces: seq<seq<Byte>>,
                                        dot: bool, atSeg: bool, before: seq<Byte>)
    requires Splits(tokens, pieces, dot, atSeg, before)
    ensures Slashes(Flatten(pieces)) >= SlashTokens(tokens)
    ensures AnyPath !in tokens ==> Slashes(Flatten(pieces)) == SlashTokens(tokens)
    decreases |tokens|
  {
    if tokens != [] {
      SplitSlashes(tokens[1..], pieces[1..], dot, SegAfter(tokens[0], before + pieces[0]), before + pieces[0]);
      SlashesConcat(pieces[0], Flatten(pieces[1..]));
      if tokens[0].AnyOne? || tokens[0].AnyRun? {
        NoSlashes(pieces[0]);
      }
    }
  }

  /** Without `**` an accepted text has as many slashes as the pattern: `*` and `?` never cross one. */
  lemma SlashesAreLiteral(p: seq<Byte>, t: seq<Byte>, dot: bool)
    requires BraceFree(p) && Accepts(p, t, 0, dot, true)
    ensures Slashes(t) >= SlashTokens(Tokens(p))
    ensures AnyPath !in Tokens(p) ==> Slashes(t) == SlashTokens(Tokens(p))
  {
    AcceptsIffSplits(p, t, dot);
    var pieces: seq<seq<Byte>> :| Splits(Tokens(p), pieces, dot, true, []) && Flatten(pieces) == t;
    SplitSlashes(Tokens(p), pieces, dot, true, []);
  }

  // ---------------------------------------------------------------- exactly which prefixes braces distribute over

  /** Whatever brace and text follow, the brace means its alternatives. */
  ghost predicate Distributes(pre: seq<Byte>) {
    forall body, post, t, dot :: Balanced(body)
      ==> (Accepts(pre + ([OPEN] + body + [CLOSE] + post), t, 0, dot, true)
           <==> AnyAccepts(pre, WithTail(SplitAlts(body), post), t, 0, dot, true))
  }

  /** The end of a prefix that braces do not distribute over. */
  predicate Dangles(end: seq<Byte>) { end == [STAR] || end == [STAR, STAR] || end == [ESCAPE] }

  /** A prefix without braces is plain, or its last token is a `*`, a `**` or a `\` that what follows may change. */
  lemma {:induction false} PlainUpToEnd(pre: seq<Byte>) returns (q: seq<Byte>, end: seq<Byte>)
    requires BraceFree(pre) && !PlainPrefix(pre)
    ensures Clean(q, end) && Dangles(end) && pre == q + end
    decreases |pre|
  {
    if Dangles(pre) {
      q, end := [], pre;
    } else {
      var n := TokenLength(pre);
      var q';
      q', end := PlainUpToEnd(pre[n..]);
      q := pre[..n] + q';
      assert pre == pre[..n] + pre[n..] == q + end;
      assert q[n..] == q';
      assert TokenLength(q) == n;
    }
  }

  /** Only the first byte of what follows matters. */
  lemma {:induction false} CleanByFirst(q: seq<Byte>, x: seq<Byte>, y: seq<Byte>)
    requires Clean(q, x) && x != [] && y != [] && x[0] == y[0]
    ensures Clean(q, y)
    decreases |q|
  {
    if q != [] {
      CleanByFirst(q[TokenLength(q)..], x, y);
    }
  }

  /** A text for each token: `**` takes nothing, `*` and `?` a letter. */
  function Sample(token: Token): seq<Byte> {
    match token
    case Lit(c) => [c]
    case AnyOne => [LETTER]
    case AnyRun => [LETTER]
    case AnyPath => []
  }

  function Samples(tokens: seq<Token>): (pieces: seq<seq<Byte>>)
    ensures |pieces| == |tokens|
  {
    if tokens == [] then [] else [Sample(tokens[0])] + Samples(tokens[1..])
  }

  lemma {:induction false} SamplesSplit(tokens: seq<Token>, atSeg: bool, before: seq<Byte>)
    ensures Splits(tokens, Samples(tokens), true, atSeg, before)
    ensures Slashes(Flatten(Samples(tokens))) == SlashTokens(tokens)
    decreases |tokens|
  {
    if tokens != [] {
      var piece := Sample(tokens[0]);
      SamplesSplit(tokens[1..], SegAfter(tokens[0], before + piece), before + piece);
      assert Samples(tokens)[1..] == Samples(tokens[1..]);
      SlashesConcat(piece, Flatten(Samples(tokens[1..])));
    }
  }

  lemma {:induction false} SamplesConcat(a: seq<Token>, b: seq<Token>)
    ensures Samples(a + b) == Samples(a) + Samples(b)
  {
    if a == [] {
      assert a + b == b;
    } else {
      assert (a + b)[1..] == a[1..] + b;
      SamplesConcat(a[1..], b);
    }
  }

  lemma {:induction false} FlattenConcat(a: seq<seq<Byte>>, b: seq<seq<Byte>>)
    ensures Flatten(a + b) == Flatten(a) + Flatten(b)
  {
    if a == [] {
      assert a + b == b;
    } else {
      assert (a + b)[1..] == a[1..] + b;
      FlattenConcat(a[1..], b);
      Assoc(a[0], Flatten(a[1..]), Flatten(b));
    }
  }

  lemma {:induction false} SlashTokensConcat(a: seq<Token>, b: seq<Token>)
    ensures SlashTokens(a + b) == SlashTokens(a) + SlashTokens(b)
  {
    if a == [] {
      assert a + b == b;
    } else {
      assert (a + b)[1..] == a[1..] + b;
      SlashTokensConcat(a[1..], b);
    }
  }

  /** Behind a prefix read the same before it, the tokens of a pattern are its own. */
  lemma {:induction false} TokensConcat(q: seq<Byte>, x: seq<Byte>)
    requires Clean(q, x) && BraceFree(x)
    ensures BraceFree(q) && BraceFree(q + x) && Tokens(q + x) == Tokens(q) + Tokens(x)
    decreases |q|
  {
    if q == [] {
      assert q + x == x;
    } else {
      TokenIsLocal(q, x);
      TokensConcat(q[TokenLength(q)..], x);
      FirstTokenIsLocal(q, x);
    }
  }

  lemma FirstTokenIsLocal(q: seq<Byte>, x: seq<Byte>)
    requires Clean(q, x) && q != [] && BraceFree(x)
    requires BraceFree(q[TokenLength(q)..]) && BraceFree(q[TokenLength(q)..] + x)
    requires Tokens(q[TokenLength(q)..] + x) == Tokens(q[TokenLength(q)..]) + Tokens(x)
    ensures BraceFree(q) && BraceFree(q + x) && Tokens(q + x) == Tokens(q) + Tokens(x)
  {
    TokenIsLocal(q, x);
    assert FirstToken(q).0 == FirstToken(q + x).0;
    Assoc([FirstToken(q).0], Tokens(q[TokenLength(q)..]), Tokens(x));
  }

  /** The pattern `q` followed by `x` accepts its sample. */
  lemma SampleAccepted(q: seq<Byte>, x: seq<Byte>)
    requires Clean(q, x) && BraceFree(x)
    ensures BraceFree(q)
    ensures Accepts(q + x, Flatten(Samples(Tokens(q))) + Flatten(Samples(Tokens(x))), 0, true, true)
  {
    TokensConcat(q, x);
    SamplesSplit(Tokens(q + x), true, []);
    SamplesConcat(Tokens(q), Tokens(x));
    FlattenConcat(Samples(Tokens(q)), Samples(Tokens(x)));
    AcceptsIffSplits(q + x, Flatten(Samples(Tokens(q + x))), true);
  }

  const LETTER: Byte := 120    // x

  /** The text of the counterexamples for `*` and `**`: a sample of the prefix, and a letter. */
  function Short(q: seq<Byte>): seq<Byte>
    requires BraceFree(q)
  {
    Flatten(Samples(Tokens(q))) + [LETTER]
  }

  lemma ShortTokens()
    ensures BraceFree([STAR, STAR, SLASH, LETTER])
    ensures Flatten(Samples(Tokens([STAR, STAR, SLASH, LETTER]))) == [LETTER]
  {
    var x := [STAR, STAR, SLASH, LETTER];
    assert GlobStarLength(x) == 3 && x[3..] == [LETTER] && [LETTER][1..] == [];
    assert BraceFree([]) && BraceFree([LETTER]);
    assert Tokens([LETTER]) == [Lit(LETTER)];
    assert Tokens(x) == [AnyPath] + [Lit(LETTER)] == [AnyPath, Lit(LETTER)];
    assert [AnyPath, Lit(LETTER)][1..] == [Lit(LETTER)] && [Lit(LETTER)][1..] == [];
    assert Samples([]) == [] && Samples([Lit(LETTER)]) == [[LETTER]];
    assert Samples(Tokens(x)) == [[], [LETTER]];
    FlattenPair([], [LETTER]);
  }

  /** `**` and `/x` at the end of a pattern: a slash need not be there. */
  lemma ShortAccepted(q: seq<Byte>)
    requires Clean(q, [STAR])
    ensures BraceFree(q) && Accepts(q + [STAR, STAR, SLASH, LETTER], Short(q), 0, true, true)
  {
    ShortTokens();
    CleanByFirst(q, [STAR], [STAR, STAR, SLASH, LETTER]);
    SampleAccepted(q, [STAR, STAR, SLASH, LETTER]);
  }

  lemma FlattenPair(a: seq<Byte>, b: seq<Byte>)
    ensures Flatten([a, b]) == a + b
  {
    assert [a, b][1..] == [b] && [b][1..] == [];
    assert Flatten([b]) == b;
  }

  /** What `rest` accepts of `t` ends in a slash and `x`. */
  ghost predicate NeedsSlash(rest: seq<Byte>, t: seq<Byte>) {
    forall ti: nat, atSeg {:trigger Accepts(rest, t, ti, true, atSeg)} ::
      (ti <= |t| && Accepts(rest, t, ti, true, atSeg)
       ==> Accepts([STAR, STAR, ESCAPE, SLASH, LETTER], t, ti, true, atSeg))
  }

  /** What needs a slash and `x` at its end rejects the short text, behind any prefix that may stand before a `*`. */
  lemma ShortRejected(q: seq<Byte>, rest: seq<Byte>)
    requires Clean(q, [STAR]) && BraceFree(q) && rest != [] && rest[0] == STAR
    requires NeedsSlash(rest, Short(q))
    ensures !Accepts(q + rest, Short(q), 0, true, true)
  {
    var t, weaker := Short(q), [STAR, STAR, ESCAPE, SLASH, LETTER];
    var tails := [weaker, rest];
    assert forall k :: 0 <= k < 2 ==> [] + tails[k] == tails[k];
    assert SameOn(weaker, tails, t, true) by {
      forall ti: nat, atSeg | ti <= |t|
        ensures Accepts(weaker, t, ti, true, atSeg) <==> AnyAccepts([], tails, t, ti, true, atSeg)
      {
        assert [] + tails[0] == weaker && [] + tails[1] == rest;
      }
    }
    CleanByFirst(q, [STAR], weaker);
    CleanByFirst(q, [STAR], rest);
    PrefixLifts(q, weaker, tails, t, 0, true, true);
    if Accepts(q + rest, t, 0, true, true) {
      assert q + tails[1] == q + rest;
      TooFewSlashes(q);
    }
  }

  lemma EscapedSlashTokens()
    ensures BraceFree([STAR, STAR, ESCAPE, SLASH, LETTER])
    ensures SlashTokens(Tokens([STAR, STAR, ESCAPE, SLASH, LETTER])) == 1
  {
    var x, y := [STAR, STAR, ESCAPE, SLASH, LETTER], [ESCAPE, SLASH, LETTER];
    assert GlobStarLength(x) == 2 && x[2..] == y && y[2..] == [LETTER] && [LETTER][1..] == [];
    assert BraceFree([]) && BraceFree([LETTER]) && BraceFree(y);
    assert Tokens([LETTER]) == [Lit(LETTER)];
    assert Tokens(y) == [Lit(SLASH)] + [Lit(LETTER)] == [Lit(SLASH), Lit(LETTER)];
    assert Tokens(x)[1..] == Tokens(y) && Tokens(y)[1..] == [Lit(LETTER)] && [Lit(LETTER)][1..] == [];
    assert SlashTokens([]) == 0 && SlashTokens([Lit(LETTER)]) == 0;
    assert SlashTokens(Tokens(y)) == SlashTokens([Lit(SLASH), Lit(LETTER)]) == 1 + SlashTokens([Lit(LETTER)]);
  }

  lemma TooFewSlashes(q: seq<Byte>)
    requires Clean(q, [STAR]) && BraceFree(q)
    ensures !Accepts(q + [STAR, STAR, ESCAPE, SLASH, LETTER], Short(q), 0, true, true)
  {
    var x := [STAR, STAR, ESCAPE, SLASH, LETTER];
    EscapedSlashTokens();
    CleanByFirst(q, [STAR], x);
    TokensConcat(q, x);
    SlashTokensConcat(Tokens(q), Tokens(x));
    SamplesSplit(Tokens(q), true, []);
    SlashesConcat(Flatten(Samples(Tokens(q))), [LETTER]);
    assert [LETTER][1..] == [] && Slashes([LETTER]) == 0;
    if Accepts(q + x, Short(q), 0, true, true) {
      SlashesAreLiteral(q + x, Short(q), true);
    }
  }

  lemma SlashThenLetter(t: seq<Byte>, e: nat, a: bool, b: bool)
    requires e <= |t| && Accepts([SLASH, LETTER], t, e, true, a)
    ensures Accepts([ESCAPE, SLASH, LETTER], t, e, true, b)
  {
    assert [SLASH, LETTER][1..] == [LETTER] && [ESCAPE, SLASH, LETTER][2..] == [LETTER];
  }

  lemma StarStarEscaped(t: seq<Byte>, ti: nat, e: nat, atSeg: bool, a: bool)
    requires ti <= e <= |t| && Accepts([SLASH, LETTER], t, e, true, a)
    ensures Accepts([STAR, STAR, ESCAPE, SLASH, LETTER], t, ti, true, atSeg)
  {
    SlashThenLetter(t, e, a, AfterSlash(t, e));
    assert [STAR, STAR, ESCAPE, SLASH, LETTER][2..] == [ESCAPE, SLASH, LETTER];
  }

  /** `{*}/x` and `{/x}` mean `*` and nothing before the slash. */
  lemma OneAlternativeBrace(body: seq<Byte>, post: seq<Byte>, t: seq<Byte>, e: nat, atSeg: bool)
    requires Balanced(body) && SplitAlts(body) == [body] && e <= |t|
    ensures Accepts([OPEN] + body + [CLOSE] + post, t, e, true, atSeg) <==> Accepts(body + post, t, e, true, atSeg)
  {
    BraceMeansAlternatives(body, post, t, true);
    var tails := WithTail(SplitAlts(body), post);
    assert [] + tails[0] == body + post;
    assert AnyAccepts([], tails, t, e, true, atSeg) <==> Accepts([] + tails[0], t, e, true, atSeg);
  }

  lemma StarBraceNeedsSlash(t: seq<Byte>, ti: nat, atSeg: bool)
    requires ti <= |t| && Accepts([STAR, OPEN, STAR, CLOSE, SLASH, LETTER], t, ti, true, atSeg)
    ensures Accepts([STAR, STAR, ESCAPE, SLASH, LETTER], t, ti, true, atSeg)
  {
    var brace := [OPEN, STAR, CLOSE, SLASH, LETTER];
    assert [STAR, OPEN, STAR, CLOSE, SLASH, LETTER][1..] == brace;
    var end :| ti <= end <= |t| && StarTakes(t, ti, end, true, atSeg) && Accepts(brace, t, end, true, false);
    OneAlternative(STAR);
    OneAlternativeBrace([STAR], [SLASH, LETTER], t, end, false);
    assert [OPEN] + [STAR] + [CLOSE] + [SLASH, LETTER] == brace;
    var p := [STAR] + [SLASH, LETTER];
    assert p[1..] == [SLASH, LETTER];
    var e :| end <= e <= |t| && StarTakes(t, end, e, true, false) && Accepts(p[1..], t, e, true, false);
    StarStarEscaped(t, ti, e, atSeg, false);
  }

  lemma SlashLetterBody()
    ensures Balanced([SLASH, LETTER]) && SplitAlts([SLASH, LETTER]) == [[SLASH, LETTER]]
  {
    var s := [SLASH, LETTER];
    assert s[1..] == [LETTER] && [LETTER][1..] == [];
    assert [] + [SLASH] == [SLASH] && [SLASH] + [LETTER] == s;
    assert SplitFrom([], 0, s) == [s];
    assert SplitFrom([LETTER], 0, [SLASH]) == [s];
    NoBraceIsBalanced(s);
  }

  lemma PathBraceNeedsSlash(t: seq<Byte>, ti: nat, atSeg: bool)
    requires ti <= |t| && Accepts([STAR, STAR, OPEN, SLASH, LETTER, CLOSE], t, ti, true, atSeg)
    ensures Accepts([STAR, STAR, ESCAPE, SLASH, LETTER], t, ti, true, atSeg)
  {
    var brace := [OPEN, SLASH, LETTER, CLOSE];
    assert [STAR, STAR, OPEN, SLASH, LETTER, CLOSE][2..] == brace;
    var end :| ti <= end <= |t| && Accepts(brace, t, end, true, AfterSlash(t, end));
    SlashLetterBody();
    OneAlternativeBrace([SLASH, LETTER], [], t, end, AfterSlash(t, end));
    assert [OPEN] + [SLASH, LETTER] + [CLOSE] + [] == brace;
    assert [SLASH, LETTER] + [] == [SLASH, LETTER];
    StarStarEscaped(t, ti, end, atSeg, AfterSlash(t, end));
  }

  /** Behind a `*`: the brace `{*}` and `/x` after it need a slash, `**` and `/x` do not. */
  lemma StarDangles(q: seq<Byte>)
    requires Clean(q, [STAR])
    ensures !Distributes(q + [STAR])
  {
    ShortAccepted(q);
    var t, post := Short(q), [SLASH, LETTER];
    OneAlternative(STAR);
    var rest, tails := [STAR, OPEN, STAR, CLOSE, SLASH, LETTER], WithTail(SplitAlts([STAR]), post);
    forall ti: nat, atSeg | ti <= |t| && Accepts(rest, t, ti, true, atSeg)
      ensures Accepts([STAR, STAR, ESCAPE, SLASH, LETTER], t, ti, true, atSeg)
    {
      StarBraceNeedsSlash(t, ti, atSeg);
    }
    ShortRejected(q, rest);
    assert (q + [STAR]) + ([OPEN] + [STAR] + [CLOSE] + post) == q + rest;
    assert (q + [STAR]) + tails[0] == q + [STAR, STAR, SLASH, LETTER];
    assert AnyAccepts(q + [STAR], tails, t, 0, true, true);
  }

  /** Behind a `**`: the brace `{/x}` needs its slash, `**` swallows that of `/x`. */
  lemma PathDangles(q: seq<Byte>)
    requires Clean(q, [STAR])
    ensures !Distributes(q + [STAR, STAR])
  {
    ShortAccepted(q);
    var t, body := Short(q), [SLASH, LETTER];
    SlashLetterBody();
    var rest, tails := [STAR, STAR, OPEN, SLASH, LETTER, CLOSE], WithTail(SplitAlts(body), []);
    forall ti: nat, atSeg | ti <= |t| && Accepts(rest, t, ti, true, atSeg)
      ensures Accepts([STAR, STAR, ESCAPE, SLASH, LETTER], t, ti, true, atSeg)
    {
      PathBraceNeedsSlash(t, ti, atSeg);
    }
    ShortRejected(q, rest);
    assert (q + [STAR, STAR]) + ([OPEN] + body + [CLOSE] + []) == q + rest;
    assert (q + [STAR, STAR]) + tails[0] == q + [STAR, STAR, SLASH, LETTER];
    assert AnyAccepts(q + [STAR, STAR], tails, t, 0, true, true);
  }

  lemma {:induction false} EndsInLiteral(tokens: seq<Token>, pieces: seq<seq<Byte>>, c: Byte,
                                         dot: bool, atSeg: bool, before: seq<Byte>)
    requires Splits(tokens, pieces, dot, atSeg, before) && tokens != [] && tokens[|tokens| - 1] == Lit(c)
    ensures Flatten(pieces) != [] && Flatten(pieces)[|Flatten(pieces)| - 1] == c
    decreases |tokens|
  {
    if |tokens| == 1 {
      assert Flatten(pieces[1..]) == [];
      assert Flatten(pieces) == [c];
    } else {
      EndsInLiteral(tokens[1..], pieces[1..], c, dot, SegAfter(tokens[0], before + pieces[0]), before + pieces[0]);
    }
  }

  /** Behind a `\`: the brace is literal text, while its alternative is escaped. */
  lemma EscapeDangles(q: seq<Byte>)
    requires Clean(q, [ESCAPE])
    ensures !Distributes(q + [ESCAPE])
  {
    var literal, lone := [ESCAPE, OPEN, LETTER, CLOSE], [ESCAPE, LETTER];
    EscapedTokens();
    CleanByFirst(q, [ESCAPE], literal);
    CleanByFirst(q, [ESCAPE], lone);
    SampleAccepted(q, literal);
    TokensConcat(q, lone);
    OneAlternative(LETTER);
    var t, tails := Flatten(Samples(Tokens(q))) + [OPEN, LETTER, CLOSE], WithTail(SplitAlts([LETTER]), []);
    assert (q + [ESCAPE]) + ([OPEN] + [LETTER] + [CLOSE] + []) == q + literal;
    assert (q + [ESCAPE]) + tails[0] == q + lone;
    assert t[|t| - 1] == CLOSE;
    if Accepts(q + lone, t, 0, true, true) {
      LastByteIs(q + lone, t, LETTER);
    }
  }

  lemma LastByteIs(p: seq<Byte>, t: seq<Byte>, c: Byte)
    requires BraceFree(p) && Tokens(p) != [] && Tokens(p)[|Tokens(p)| - 1] == Lit(c) && Accepts(p, t, 0, true, true)
    ensures t != [] && t[|t| - 1] == c
  {
    AcceptsIffSplits(p, t, true);
    var pieces: seq<seq<Byte>> :| Splits(Tokens(p), pieces, true, true, []) && Flatten(pieces) == t;
    EndsInLiteral(Tokens(p), pieces, c, true, true, []);
  }

  lemma EscapedTokens()
    ensures BraceFree([ESCAPE, OPEN, LETTER, CLOSE]) && BraceFree([ESCAPE, LETTER])
    ensures Flatten(Samples(Tokens([ESCAPE, OPEN, LETTER, CLOSE]))) == [OPEN, LETTER, CLOSE]
    ensures Tokens([ESCAPE, LETTER]) == [Lit(LETTER)]
  {
    var p := [ESCAPE, OPEN, LETTER, CLOSE];
    assert p[2..] == [LETTER, CLOSE] && [LETTER, CLOSE][1..] == [CLOSE] && [CLOSE][1..] == [];
    assert BraceFree([]) && BraceFree([CLOSE]) && BraceFree([LETTER, CLOSE]) && BraceFree(p);
    assert Tokens([CLOSE]) == [Lit(CLOSE)];
    assert Tokens([LETTER, CLOSE]) == [Lit(LETTER), Lit(CLOSE)];
    assert Tokens(p) == [Lit(OPEN), Lit(LETTER), Lit(CLOSE)];
    assert Tokens(p)[1..] == [Lit(LETTER), Lit(CLOSE)] && [Lit(LETTER), Lit(CLOSE)][1..] == [Lit(CLOSE)];
    assert Samples([Lit(CLOSE)]) == [[CLOSE]];
    assert Samples([Lit(LETTER), Lit(CLOSE)]) == [[LETTER], [CLOSE]];
    assert Samples(Tokens(p)) == [[OPEN], [LETTER], [CLOSE]];
    FlattenPair([LETTER], [CLOSE]);
    assert [[OPEN], [LETTER], [CLOSE]][1..] == [[LETTER], [CLOSE]];
    assert [ESCAPE, LETTER][2..] == [];
  }

  /**
    Braces distribute over a brace-free prefix, whatever follows, if and only if it is plain:
    its last token is not a `*`, a `**` without its slash, or a lone backslash.
   */
  lemma DistributesIff(pre: seq<Byte>)
    requires BraceFree(pre)
    ensures Distributes(pre) <==> PlainPrefix(pre)
  {
    if PlainPrefix(pre) {
      forall body, post, t, dot | Balanced(body)
        ensures Accepts(pre + ([OPEN] + body + [CLOSE] + post), t, 0, dot, true)
           <==> AnyAccepts(pre, WithTail(SplitAlts(body), post), t, 0, dot, true)
      {
        BracesDistribute(pre, body, post, t, dot);
      }
    } else {
      var q, end := PlainUpToEnd(pre);
      CleanByFirst(q, end, [end[0]]);
      if end == [STAR] {
        StarDangles(q);
      } else if end == [STAR, STAR] {
        PathDangles(q);
      } else {
        EscapeDangles(q);
      }
    }
  }

  // ---------------------------------------------------------------- the code

  /** The loop of `split_brace_alts`. */
  method SplitBraceAlts(s: seq<Byte>) returns (out: seq<seq<Byte>>)
    ensures out == SplitAlts(s)
  {
    out := [];
    var depth: nat, buf: seq<Byte> := 0, [];
    ghost var goal, todo := SplitAlts(s), SplitAlts(s);
    assert s[0..] == s;
    for i := 0 to |s|
      invariant todo == SplitFrom(s[i..], depth, buf) && goal == out + todo
    {
      DropDrop(s, i, 1);
      var b := s[i];
      if b == OPEN {
        depth := depth + 1;
        buf := buf + [b];
      } else if b == CLOSE {
        depth := if depth > 0 then depth - 1 else 0;
        buf := buf + [b];
      } else if b == COMMA && depth == 0 {
        Produce(goal, out, todo, [buf], SplitFrom(s[i + 1..], depth, []));
        out := out + [buf];
        buf := [];
      } else {
        buf := buf + [b];
      }
      todo := SplitFrom(s[i + 1..], depth, buf);
    }
    out := out + [buf];
  }

  /** The scan for the brace that closes the one at `pi`. */
  method ScanBrace(p: seq<Byte>, pi: nat) returns (end: nat)
    requires pi < |p|
    ensures end == pi + 1 + BraceEnd(p[pi + 1..], 1)
  {
    end := pi + 1;
    var depth := 1;
    while end < |p| && depth > 0
      invariant pi + 1 <= end <= |p|
      invariant depth > 0 ==> end + BraceEnd(p[end..], depth) == pi + 1 + BraceEnd(p[pi + 1..], 1)
      invariant depth == 0 ==> end == pi + 1 + BraceEnd(p[pi + 1..], 1)
      decreases |p| - end, depth
    {
      assert p[end..][1..] == p[end + 1..];
      if p[end] == OPEN {
        depth := depth + 1;
      } else if p[end] == CLOSE {
        depth := depth - 1;
      }
      if depth > 0 {
        end := end + 1;
      }
    }
  }

  method Matches(pattern: seq<Byte>, text: seq<Byte>, dot: bool) returns (b: bool)
    ensures b == Accepts(pattern, text, 0, dot, true)
  {
    assert pattern[0..] == pattern;
    b := MatchesImpl(pattern, text, 0, 0, dot, true);
  }

  method MatchesImpl(p: seq<Byte>, t: seq<Byte>, pi: nat, ti: nat, dot: bool, atSeg: bool) returns (b: bool)
    requires pi <= |p| && ti <= |t|
    ensures b == Accepts(p[pi..], t, ti, dot, atSeg)
    decreases |p| - pi, 1
  {
    if pi == |p| {
      return ti == |t|;
    }
    var c := p[pi];
    if c == STAR && pi + 1 < |p| && p[pi + 1] == STAR {
      b := MatchGlobStar(p, t, pi, ti, dot, atSeg);
    } else if c == STAR {
      b := MatchStar(p, t, pi, ti, dot, atSeg);
    } else if c == QUESTION {
      DropDrop(p, pi, 1);
      if ti >= |t| || t[ti] == SLASH {
        return false;
      }
      if !dot && atSeg && t[ti] == DOT {
        return false;
      }
      b := MatchesImpl(p, t, pi + 1, ti + 1, dot, false);
    } else if c == OPEN {
      b := MatchBrace(p, t, pi, ti, dot, atSeg);
    } else if c == ESCAPE && pi + 1 < |p| {
      DropDrop(p, pi, 2);
      if ti < |t| && t[ti] == p[pi + 1] {
        b := MatchesImpl(p, t, pi + 2, ti + 1, dot, t[ti] == SLASH);
      } else {
        b := false;
      }
    } else {
      DropDrop(p, pi, 1);
      if ti < |t| && t[ti] == c {
        b := MatchesImpl(p, t, pi + 1, ti + 1, dot, c == SLASH);
      } else {
        b := false;
      }
    }
  }

  method MatchGlobStar(p: seq<Byte>, t: seq<Byte>, pi: nat, ti: nat, dot: bool, atSeg: bool) returns (b: bool)
    requires pi + 1 < |p| && p[pi] == STAR && p[pi + 1] == STAR && ti <= |t|
    ensures b == Accepts(p[pi..], t, ti, dot, atSeg)
    decreases |p| - pi, 0
  {
    var np := pi + 2;
    if np < |p| && p[np] == SLASH {
      np := np + 1;
    }
    ghost var here, rest := p[pi..], p[np..];
    assert GlobStarLength(here) == np - pi && here[np - pi..] == rest;
    var end := ti;
    while end <= |t|
      invariant ti <= end <= |t| + 1
      invariant forall e :: ti <= e < end ==> !Accepts(rest, t, e, dot, AfterSlash(t, e))
    {
      var accepted := MatchesImpl(p, t, np, end, dot, end == 0 || t[end - 1] == SLASH);
      if accepted {
        assert Accepts(here[GlobStarLength(here)..], t, end, dot, AfterSlash(t, end));
        return true;
      }
      end := end + 1;
    }
    return false;
  }

  method MatchStar(p: seq<Byte>, t: seq<Byte>, pi: nat, ti: nat, dot: bool, atSeg: bool) returns (b: bool)
    requires pi < |p| && p[pi] == STAR && !(pi + 1 < |p| && p[pi + 1] == STAR) && ti <= |t|
    ensures b == Accepts(p[pi..], t, ti, dot, atSeg)
    decreases |p| - pi, 0
  {
    ghost var rest := p[pi + 1..];
    assert p[pi..][1..] == rest;
    var end := ti;
    while end <= |t|
      invariant ti <= end <= |t| + 1
      invariant forall e :: ti <= e < end && e <= |t| && StarTakes(t, ti, e, dot, atSeg)
                            ==> !Accepts(rest, t, e, dot, false)
    {
      if end == ti && SlashIn(t[end..]) {
        end := end + 1;
        continue;
      }
      if SlashIn(t[ti..end]) {
        forall e | end <= e <= |t|
          ensures !StarTakes(t, ti, e, dot, atSeg)
        {
          assert t[ti..end] == t[ti..e][..end - ti];
        }
        return false;
      }
      if !dot && atSeg && end > ti && t[ti] == DOT {
        end := end + 1;
        continue;
      }
      var accepted := MatchesImpl(p, t, pi + 1, end, dot, false);
      if accepted {
        return true;
      }
      end := end + 1;
    }
    return false;
  }

  method MatchBrace(p: seq<Byte>, t: seq<Byte>, pi: nat, ti: nat, dot: bool, atSeg: bool) returns (b: bool)
    requires pi < |p| && p[pi] == OPEN && ti <= |t|
    ensures b == Accepts(p[pi..], t, ti, dot, atSeg)
    decreases |p| - pi, 0
  {
    var end := ScanBrace(p, pi);
    ghost var here := p[pi..];
    assert here[1..] == p[pi + 1..];
    if end >= |p| {
      return false;
    }
    assert here[1..end - pi] == p[pi + 1..end] && here[end - pi + 1..] == p[end + 1..];
    var alts := SplitBraceAlts(p[pi + 1..end]);
    var post := p[end + 1..];
    for k := 0 to |alts|
      invariant forall j :: 0 <= j < k ==> !Accepts(alts[j] + post, t, ti, dot, atSeg)
    {
      var combined := alts[k] + post;
      assert combined[0..] == combined;
      var accepted := MatchesImpl(combined, t, 0, ti, dot, atSeg);
      if accepted {
        return true;
      }
    }
    return false;
  }
}
