/** Completing the parameters inside a stub line: the rewritten line is read back as intended, parenthesis,
commas and all. */
module StubLine {
  import opened Seqs
  import opened Wrappers
  import opened StubText
  import opened StubOptional

  lemma {:induction false} StubValid()
    ensures STUB.Valid() && PARENS.Valid()
  {
  }

  // Splitting a joined list

  /** A list of stripped parameters none of which has a comma outside brackets; all but the last close theirs. */
  predicate Listed(ps: seq<string>) {
    && (forall i :: 0 <= i < |ps| ==> Stripped(ps[i]) && NoCut(STUB, ps[i]))
    && (forall i :: 0 <= i < |ps| - 1 ==> Depth(STUB, ps[i]) == 0)
  }

  lemma {:induction false} ListedIs(ps: seq<string>)
    requires forall i :: 0 <= i < |ps| ==> Stripped(ps[i]) && NoCut(STUB, ps[i]) && Depth(STUB, ps[i]) == 0
    ensures Listed(ps)
  {
    hide Stripped;
    hide NoCut;
    hide Depth;
  }

  lemma {:induction false} StripPart(p: string)
    ensures Stripped(Strip(p)) && Depth(STUB, Strip(p)) == Depth(STUB, p) && (NoCut(STUB, p) ==> NoCut(STUB, Strip(p)))
  {
    StubValid();
    var _, _ := StripIs(p);
    StripKeeps(STUB, p);
  }

  lemma {:induction false} StripAllListed(parts: seq<string>)
    requires AllWhole(STUB, parts)
    ensures Listed(StripAll(parts)) && forall i :: 0 <= i < |parts| ==> Depth(STUB, StripAll(parts)[i]) == 0
  {
    hide *;
    var stripped := StripAll(parts);
    forall i | 0 <= i < |parts|
      ensures Stripped(stripped[i]) && NoCut(STUB, stripped[i]) && Depth(STUB, stripped[i]) == 0
    {
      WholePart(parts, i);
      StripPart(parts[i]);
    }
    ListedIs(stripped);
  }

  lemma {:induction false} WholePart(parts: seq<string>, i: nat)
    requires AllWhole(STUB, parts) && i < |parts|
    ensures NoCut(STUB, parts[i]) && Depth(STUB, parts[i]) == 0
  {
    assert Whole(STUB, parts[i]);
    hide NoCut;
    hide Depth;
  }

  lemma {:induction false} SplitListed(s: string)
    ensures Listed(SplitParams(s))
  {
    hide *;
    var p := Split(STUB, s);
    StubValid();
    SplitCutsOutside(STUB, s);
    StripAllListed(p.parts);
    StripPart(p.tail);
    SplitParamsIs(s);
    if Strip(p.tail) == [] {
      Unit(StripAll(p.parts));
    } else {
      ListedPush(StripAll(p.parts), Strip(p.tail));
    }
  }

  /** The parameters as they stand between the commas of a joined list. */
  function Spaced(ps: seq<string>): (r: seq<string>)
    ensures |r| == |ps| && forall i :: 0 <= i < |ps| ==> r[i] == if i == 0 then ps[0] else " " + ps[i]
  {
    if ps == [] then []
    else Spaced(ps[..|ps| - 1]) + [if |ps| == 1 then ps[0] else " " + ps[|ps| - 1]]
  }

  lemma {:induction false} JoinIsGlue(ps: seq<string>)
    requires ps != []
    ensures Join(ps, ", ") == Unsplit(Pieces(Spaced(ps)[..|ps| - 1], Spaced(ps)[|ps| - 1]))
  {
    var n := |ps| - 1;
    if n == 0 {
      assert Spaced(ps)[..0] == [] && Glue([]) == [];
      assert Join(ps, ", ") == ps[0];
    } else {
      var before, p := ps[..n], ps[n];
      var sp := Spaced(before);
      assert ps == before + [p] && sp == sp[..n - 1] + [sp[n - 1]];
      assert Spaced(ps)[..n] == sp && Spaced(ps)[n] == " " + p;
      hide *;
      JoinIsGlue(before);
      JoinPush(before, p, ", ");
      UnsplitIs(Pieces(sp[..n - 1], sp[n - 1]));
      UnsplitIs(Pieces(sp, " " + p));
      GluePush(sp[..n - 1], sp[n - 1]);
      CommaSpace(Glue(sp[..n - 1]) + sp[n - 1], p);
    }
  }

  lemma {:induction false} CommaSpace(x: string, p: string)
    ensures x + ", " + p == x + "," + (" " + p)
  {
  }

  lemma {:induction false} SpaceBefore(p: string)
    ensures Depth(STUB, " " + p) == Depth(STUB, p)
    ensures NoCut(STUB, p) ==> NoCut(STUB, " " + p)
  {
    StubValid();
    SpaceDepth(STUB, " ");
    DepthAppend(STUB, " ", p);
    if NoCut(STUB, p) {
      forall i | 0 <= i < |" " + p| && (" " + p)[i] == ',' ensures Depth(STUB, (" " + p)[..i]) != 0 {
        assert (" " + p)[..i] == " " + p[..i - 1];
        DepthAppend(STUB, " ", p[..i - 1]);
      }
    }
  }

  lemma {:induction false} SplitParamsIs(s: string)
    ensures var p := Split(STUB, s);
            SplitParams(s) == StripAll(p.parts) + if Strip(p.tail) == [] then [] else [Strip(p.tail)]
  {
  }

  lemma {:induction false} SpacedFacts(ps: seq<string>)
    requires Listed(ps) && ps != []
    ensures var n, sp := |ps| - 1, Spaced(ps);
            AllWhole(STUB, sp[..n]) && NoCut(STUB, sp[n]) && StripAll(sp[..n]) == ps[..n] && Strip(sp[n]) == ps[n]
  {
    hide Strip;
    var sp := Spaced(ps);
    forall i | 0 <= i < |ps|
      ensures NoCut(STUB, sp[i]) && Depth(STUB, sp[i]) == Depth(STUB, ps[i]) && Strip(sp[i]) == ps[i]
    {
      SpaceBefore(ps[i]);
      StripStripped(ps[i]);
    }
  }

  /** Joining a list and splitting it again gives the list. */
  lemma {:induction false} SplitJoined(ps: seq<string>)
    requires Listed(ps) && ps != [] && ps[|ps| - 1] != []
    ensures SplitParams(Join(ps, ", ")) == ps
  {
    hide *;
    var n := |ps| - 1;
    var sp := Spaced(ps);
    StubValid();
    SpacedFacts(ps);
    JoinIsGlue(ps);
    SplitFindsParts(STUB, Pieces(sp[..n], sp[n]));
    SplitParamsIs(Join(ps, ", "));
    LastSplit(ps);
  }

  lemma {:induction false} ListedSplit(before: seq<string>, p: string)
    requires Listed(before + [p])
    ensures Listed(before) && Stripped(p) && NoCut(STUB, p)
    ensures forall i :: 0 <= i < |before| ==> Depth(STUB, before[i]) == 0
  {
    hide Stripped;
    hide NoCut;
    hide Depth;
    var ps := before + [p];
    assert ps[|before|] == p && forall i :: 0 <= i < |before| ==> before[i] == ps[i];
  }

  /** Completing keeps a list a list. */
  lemma {:induction false} AddDefaultsListed(ps: seq<string>)
    requires Listed(ps)
    ensures Listed(AddDefaults(ps))
  {
    if ps != [] {
      var before, p := ps[..|ps| - 1], ps[|ps| - 1];
      assert ps == before + [p];
      assert IsOptional(p) ==> ':' in p;
      hide *;
      ListedSplit(before, p);
      AddDefaultsListed(before);
      AddDefaultsPush(before, p);
      AddDefaultsDepth(before);
      if HasDefault(p) {
        ListedPush(AddDefaults(before), p);
      } else if IsOptional(p) {
        CompletedListed(p);
        ListedPush(AddDefaults(before), p + ELLIPSIS);
      }
    }
  }

  lemma {:induction false} CompletedListed(p: string)
    requires Stripped(p) && NoCut(STUB, p) && ':' in p
    ensures Stripped(p + ELLIPSIS) && NoCut(STUB, p + ELLIPSIS) && Depth(STUB, p + ELLIPSIS) == Depth(STUB, p)
  {
    var q := p + ELLIPSIS;
    EllipsisText();
    assert ELLIPSIS[..|ELLIPSIS|] == ELLIPSIS;
    DepthAppend(STUB, p, ELLIPSIS);
    assert p != [] && q[0] == p[0] && q[|q| - 1] == '.';
    forall i | 0 <= i < |q| && q[i] == ',' ensures Depth(STUB, q[..i]) != 0 {
      assert i < |p|;
      assert q[..i] == p[..i];
    }
  }

  lemma {:induction false} ListedPush(ps: seq<string>, p: string)
    requires Listed(ps) && Stripped(p) && NoCut(STUB, p)
    requires forall i :: 0 <= i < |ps| ==> Depth(STUB, ps[i]) == 0
    ensures Listed(ps + [p])
  {
    hide Stripped;
    hide NoCut;
    hide Depth;
  }

  lemma {:induction false} EllipsisDepth(p: string)
    ensures Depth(STUB, p + ELLIPSIS) == Depth(STUB, p)
  {
    EllipsisText();
    WholePrefix(ELLIPSIS);
    DepthAppend(STUB, p, ELLIPSIS);
  }

  lemma {:induction false} AddDefaultsDepth(ps: seq<string>)
    ensures forall i :: 0 <= i < |ps| ==> Depth(STUB, AddDefaults(ps)[i]) == Depth(STUB, ps[i])
  {
    if ps != [] {
      hide *;
      var before, p := ps[..|ps| - 1], ps[|ps| - 1];
      LastSplit(ps);
      AddDefaultsDepth(before);
      AddDefaultsPush(before, p);
      EllipsisDepth(p);
    }
  }

  lemma {:induction false} AddDefaultsLast(ps: seq<string>)
    requires AddDefaults(ps) != ps
    ensures ps != [] && AddDefaults(ps)[|ps| - 1] != []
  {
    assert ps == [] ==> AddDefaults(ps) == [];
    var p := ps[|ps| - 1];
    assert HasDefault(p) ==> p != [];
    hide *;
    LastSplit(ps);
    AddDefaultsPush(ps[..|ps| - 1], p);
  }

  lemma {:induction false} AddDefaultsOnly(ps: seq<string>)
    ensures OnlyAll(AddDefaults(ps)) == OnlyAll(ps)
  {
    if ps == [] {
      assert AddDefaults(ps) == [];
    } else {
      hide *;
      var before, p := ps[..|ps| - 1], ps[|ps| - 1];
      LastSplit(ps);
      AddDefaultsOnly(before);
      AddDefaultsPush(before, p);
      OnlyAppend(p, ELLIPSIS);
      OnlyEllipsis();
      Unit(Only(p));
      OnlyAllPush(AddDefaults(before), p);
      OnlyAllPush(AddDefaults(before), p + ELLIPSIS);
      OnlyAllPush(before, p);
    }
  }

  // Parentheses

  /** The parentheses of a text. */
  function Only(s: string): string {
    if s == [] then []
    else
      var before, c := Only(s[..|s| - 1]), s[|s| - 1];
      if PARENS.Delta(c) == 0 then before else before + [c]
  }

  lemma {:induction false} OnlyAppend(x: string, y: string)
    ensures Only(x + y) == Only(x) + Only(y)
  {
    if y == [] {
      assert x + y == x;
    } else {
      assert (x + y)[..|x + y| - 1] == x + y[..|y| - 1];
      OnlyAppend(x, y[..|y| - 1]);
    }
  }

  lemma {:induction false} OnlyNone(s: string)
    requires forall i :: 0 <= i < |s| ==> PARENS.Delta(s[i]) == 0
    ensures Only(s) == []
  {
    if s != [] {
      OnlyNone(s[..|s| - 1]);
    }
  }

  lemma {:induction false} OnlyEllipsis()
    ensures Only(ELLIPSIS) == [] && Only(", ") == [] && Only(",") == []
  {
    OnlyNone(ELLIPSIS);
    OnlyNone(", ");
    OnlyNone(",");
  }

  function OnlyAll(ps: seq<string>): string {
    if ps == [] then [] else OnlyAll(ps[..|ps| - 1]) + Only(ps[|ps| - 1])
  }

  lemma {:induction false} OnlyAllPush(ps: seq<string>, p: string)
    ensures OnlyAll(ps + [p]) == OnlyAll(ps) + Only(p)
  {
    assert (ps + [p])[..|ps|] == ps;
  }

  lemma {:induction false} OnlyStrip(s: string)
    ensures Only(Strip(s)) == Only(s)
  {
    var front, back := StripIs(s);
    OnlyAppend(front, Strip(s));
    OnlyAppend(front + Strip(s), back);
    OnlyNone(front);
    OnlyNone(back);
  }

  lemma {:induction false} OnlyGlue(parts: seq<string>)
    ensures Only(Glue(parts)) == OnlyAll(parts) == OnlyAll(StripAll(parts))
  {
    if parts != [] {
      var before, p := parts[..|parts| - 1], parts[|parts| - 1];
      OnlyGlue(before);
      OnlyEllipsis();
      OnlyAppend(Glue(before), p);
      OnlyAppend(Glue(before) + p, ",");
      OnlyStrip(p);
      assert StripAll(parts) == StripAll(before) + [Strip(p)];
      OnlyAllPush(StripAll(before), Strip(p));
    }
  }

  /** Splitting, stripping and joining leave the parentheses alone. */
  lemma {:induction false} OnlyOfParams(s: string)
    ensures OnlyAll(SplitParams(s)) == Only(s)
  {
    StubValid();
    var p := Split(STUB, s);
    SplitIsLossless(STUB, s);
    OnlyAppend(Glue(p.parts), p.tail);
    OnlyGlue(p.parts);
    OnlyStrip(p.tail);
    if Strip(p.tail) == [] {
      assert SplitParams(s) == StripAll(p.parts);
    } else {
      OnlyAllPush(StripAll(p.parts), Strip(p.tail));
    }
  }

  lemma {:induction false} OnlyOfJoin(ps: seq<string>)
    ensures Only(Join(ps, ", ")) == OnlyAll(ps)
  {
    OnlyEllipsis();
    if |ps| == 1 {
      assert ps[..0] == [] && OnlyAll(ps[..0]) == [];
    } else if ps != [] {
      var before, p := ps[..|ps| - 1], ps[|ps| - 1];
      assert ps == before + [p];
      hide *;
      JoinPush(before, p, ", ");
      OnlyAllPush(before, p);
      OnlyOfJoin(before);
      OnlyAppend(Join(before, ", "), ", ");
      OnlyAppend(Join(before, ", ") + ", ", p);
    }
  }

  /** The lowest depth that a text reaches, at most 0. */
  function Low(s: string): (d: int)
    ensures d <= 0 && d <= Depth(PARENS, s)
  {
    if s == [] then 0
    else
      var before, now := Low(s[..|s| - 1]), Depth(PARENS, s);
      if now < before then now else before
  }

  lemma {:induction false} LowOnly(s: string)
    ensures Low(Only(s)) == Low(s) && Depth(PARENS, Only(s)) == Depth(PARENS, s)
  {
    if s == [] {
      assert Only(s) == [];
    } else {
      var before, c := s[..|s| - 1], s[|s| - 1];
      assert s == before + [c];
      assert Only(s) == if PARENS.Delta(c) == 0 then Only(before) else Only(before) + [c];
      hide *;
      LowOnly(before);
      LowPush(before, c);
      LowPush(Only(before), c);
    }
  }

  lemma {:induction false} LowPush(s: string, c: char)
    ensures Depth(PARENS, s + [c]) == Depth(PARENS, s) + PARENS.Delta(c)
    ensures Low(s + [c]) == if Depth(PARENS, s + [c]) < Low(s) then Depth(PARENS, s + [c]) else Low(s)
  {
    assert (s + [c])[..|s|] == s;
  }

  lemma {:induction false} LowBounds(s: string, k: nat)
    requires k <= |s|
    ensures Low(s) <= Depth(PARENS, s[..k])
  {
    if k == |s| {
      assert s[..k] == s;
    } else {
      LowBounds(s[..|s| - 1], k);
      assert s[..|s| - 1][..k] == s[..k];
    }
  }

  lemma {:induction false} LowReached(s: string)
    requires forall k :: 0 <= k <= |s| ==> Depth(PARENS, s[..k]) >= 0
    ensures Low(s) == 0
  {
    if s != [] {
      var before := s[..|s| - 1];
      assert forall k :: 0 <= k <= |before| ==> before[..k] == s[..k];
      LowReached(before);
      assert s[..|s|] == s;
    }
  }

  /** Parentheses close what they open, in order. */
  predicate Nested(s: string) {
    Low(s) == 0 && Depth(PARENS, s) == 0
  }

  /** A line with `inner` in the parentheses that open at `start`. */
  predicate Encloses(line: string, start: nat, inner: string) {
    && start + 1 + |inner| < |line|
    && line[start] == '(' && line[start + 1..start + 1 + |inner|] == inner && line[start + 1 + |inner|] == ')'
  }

  lemma {:induction false} DepthInside(line: string, start: nat, inner: string, k: nat)
    requires Encloses(line, start, inner) && k <= |inner|
    ensures Depth(PARENS, line[start..start + 1 + k]) == 1 + Depth(PARENS, inner[..k])
  {
    assert line[start..start + 1 + k] == "(" + inner[..k];
    DepthAppend(PARENS, "(", inner[..k]);
    DepthPush(PARENS, [], '(');
    assert [] + ['('] == "(" && Depth(PARENS, []) == 0;
  }

  /** The matching parenthesis of a nested text is the one after it. */
  lemma {:induction false} MatchFinds(line: string, start: nat, inner: string, i: nat)
    requires Encloses(line, start, inner) && Nested(inner) && start <= i <= start + 1 + |inner|
    ensures MatchFrom(line, start, i) == start + 1 + |inner|
    decreases |line| - i
  {
    var end := start + 1 + |inner|;
    if i == end {
      DepthInside(line, start, inner, |inner|);
      WholePrefix(inner);
      SlicePush(line, start, end);
      DepthPush(PARENS, line[start..end], ')');
    } else {
      if i > start {
        DepthInside(line, start, inner, i - start);
        LowBounds(inner, i - start);
      }
      MatchFinds(line, start, inner, i + 1);
    }
  }

  lemma {:induction false} MatchFirst(line: string, start: nat, i: nat, j: nat)
    requires start <= i <= j < |line| && MatchFrom(line, start, i) > j
    ensures !(line[j] == ')' && Depth(PARENS, line[start..j + 1]) == 0)
    decreases |line| - i
  {
    if i < j {
      MatchFirst(line, start, i + 1, j);
    }
  }

  lemma {:induction false} MatchIs(line: string, start: nat, i: nat)
    requires start <= i <= |line| && MatchFrom(line, start, i) >= 0
    ensures var end := MatchFrom(line, start, i);
            line[end] == ')' && Depth(PARENS, line[start..end + 1]) == 0
    decreases |line| - i
  {
    if !(line[i] == ')' && Depth(PARENS, line[start..i + 1]) == 0) {
      MatchIs(line, start, i + 1);
    }
  }

  lemma {:induction false} DepthBeforeMatch(line: string, start: nat, k: nat)
    requires start < |line| && line[start] == '('
    requires start < k <= MatchFrom(line, start, start)
    ensures Depth(PARENS, line[start..k]) >= 1
  {
    if k == start + 1 {
      assert line[start..k] == [] + ['('];
      DepthPush(PARENS, [], '(');
      assert Depth(PARENS, []) == 0;
    } else {
      DepthBeforeMatch(line, start, k - 1);
      MatchFirst(line, start, start, k - 1);
      SlicePush(line, start, k - 1);
      DepthPush(PARENS, line[start..k - 1], line[k - 1]);
    }
  }

  /** What the matching parenthesis encloses is nested. */
  lemma {:induction false} MatchEncloses(line: string, start: nat)
    requires start < |line| && line[start] == '(' && MatchFrom(line, start, start) > start
    ensures var inner := line[start + 1..MatchFrom(line, start, start)];
            Encloses(line, start, inner) && Nested(inner)
  {
    var end := MatchFrom(line, start, start);
    var inner := line[start + 1..end];
    MatchIs(line, start, start);
    assert Encloses(line, start, inner);
    hide *;
    InsideNonNegative(line, start, inner);
    LowReached(inner);
    WholeDepth(line, start, inner, end);
    NestedIs(inner);
  }

  lemma {:induction false} NestedIs(s: string)
    ensures Nested(s) <==> Low(s) == 0 && Depth(PARENS, s) == 0
  {
  }

  lemma {:induction false} InsideNonNegative(line: string, start: nat, inner: string)
    requires Encloses(line, start, inner) && line[start] == '(' && MatchFrom(line, start, start) == start + 1 + |inner|
    ensures forall k :: 0 <= k <= |inner| ==> Depth(PARENS, inner[..k]) >= 0
  {
    hide *;
    forall k | 0 <= k <= |inner| ensures Depth(PARENS, inner[..k]) >= 0 {
      DepthInside(line, start, inner, k);
      DepthBeforeMatch(line, start, start + 1 + k);
    }
  }

  lemma {:induction false} WholeDepth(line: string, start: nat, inner: string, end: nat)
    requires Encloses(line, start, inner) && end == start + 1 + |inner| < |line| && line[end] == ')'
    requires Depth(PARENS, line[start..end + 1]) == 0
    ensures Depth(PARENS, inner) == 0
  {
    hide *;
    DepthInside(line, start, inner, |inner|);
    WholePrefix(inner);
    SlicePush(line, start, end);
    CloseDepth(line[start..end], inner);
  }

  lemma {:induction false} CloseDepth(outer: string, inner: string)
    requires Depth(PARENS, outer) == 1 + Depth(PARENS, inner) && Depth(PARENS, outer + [')']) == 0
    ensures Depth(PARENS, inner) == 0
  {
    DepthPush(PARENS, outer, ')');
    hide Depth;
  }

  // Lines

  /** The text between the first parenthesis of a line and the one that matches it. */
  function InnerOf(line: string): Option<string> {
    var start := IndexOf(line, '(');
    if start == |line| || MatchFrom(line, start, start) <= start then None
    else Some(line[start + 1..MatchFrom(line, start, start)])
  }

  /** The parameters of a stub line. */
  function ParamsOf(line: string): seq<string> {
    var inner := InnerOf(line);
    if inner.Some? then SplitParams(inner.value) else []
  }

  /** A line with the text in its parentheses replaced. */
  function WithInner(line: string, inner: string): string
    requires InnerOf(line).Some?
  {
    var start := IndexOf(line, '(');
    line[..start + 1] + inner + line[MatchFrom(line, start, start)..]
  }

  lemma {:induction false} ReplacedEncloses(line: string, start: nat, end: nat, inner: string)
    requires start < end < |line| && line[start] == '(' && line[end] == ')'
    ensures Encloses(line[..start + 1] + inner + line[end..], start, inner)
  {
    var r := line[..start + 1] + inner + line[end..];
    assert r[start + 1..start + 1 + |inner|] == inner;
  }

  lemma {:induction false} ReplacedFirst(line: string, start: nat, rest: string)
    requires start < |line| && IndexOf(line, '(') == start
    ensures IndexOf(line[..start + 1] + rest, '(') == start
  {
    FirstAt(line[..start + 1] + rest, start, '(');
  }

  /** Replacing the text in the parentheses of a line by another nested one. */
  lemma {:induction false} ReplaceInner(line: string, inner: string)
    requires InnerOf(line).Some? && Nested(inner)
    ensures InnerOf(WithInner(line, inner)) == Some(inner)
  {
    var start := IndexOf(line, '(');
    var end := MatchFrom(line, start, start);
    var r := WithInner(line, inner);
    assert start < end < |line| && line[start] == '(' && r == line[..start + 1] + inner + line[end..];
    hide *;
    MatchIs(line, start, start);
    ReplacedFirst(line, start, inner + line[end..]);
    ReplacedEncloses(line, start, end, inner);
    Associates(line[..start + 1], inner, line[end..]);
    MatchFinds(r, start, inner, start);
    InnerIs(r, start, inner);
  }


  lemma {:induction false} InnerIs(r: string, start: nat, inner: string)
    requires Encloses(r, start, inner) && IndexOf(r, '(') == start && MatchFrom(r, start, start) == start + 1 + |inner|
    ensures InnerOf(r) == Some(inner)
  {
  }

  lemma {:induction false} FirstAt(s: string, i: nat, c: char)
    requires i < |s| && s[i] == c && forall j :: 0 <= j < i ==> s[j] != c
    ensures IndexOf(s, c) == i
  {
  }

  lemma {:induction false} JoinedNested(inner: string, params: seq<string>)
    requires Nested(inner) && OnlyAll(params) == Only(inner)
    ensures Nested(Join(params, ", "))
  {
    LowOnly(inner);
    OnlyOfJoin(params);
    LowOnly(Join(params, ", "));
  }

  lemma {:induction false} FixLineIs(line: string)
    ensures AddDefaults(ParamsOf(line)) == ParamsOf(line) ==> FixLine(line) == line
    ensures AddDefaults(ParamsOf(line)) != ParamsOf(line) ==>
      InnerOf(line).Some? && ParamsOf(line) == SplitParams(InnerOf(line).value)
      && FixLine(line) == WithInner(line, Join(AddDefaults(ParamsOf(line)), ", "))
  {
    hide *;
    NoParams(line);
    if InnerOf(line).Some? {
      var start := IndexOf(line, '(');
      InnerAt(line);
      BetweenIs(line, start, MatchFrom(line, start, start), InnerOf(line).value);
    }
  }

  lemma {:induction false} NoParams(line: string)
    ensures InnerOf(line).None? ==> FixLine(line) == line && AddDefaults(ParamsOf(line)) == ParamsOf(line)
  {
    assert AddDefaults([]) == [];
    hide AddDefaults;
    hide MatchFrom;
    hide IndexOf;
    hide FixBetween;
  }

  lemma {:induction false} InnerAt(line: string)
    requires InnerOf(line).Some?
    ensures var start := IndexOf(line, '(');
            var end := MatchFrom(line, start, start);
            && start < end <= |line|
            && InnerOf(line).value == line[start + 1..end]
            && FixLine(line) == FixBetween(line, start, end)
            && ParamsOf(line) == SplitParams(InnerOf(line).value)
            && forall inner :: WithInner(line, inner) == line[..start + 1] + inner + line[end..]
  {
    hide MatchFrom;
    hide IndexOf;
    hide FixBetween;
    hide SplitParams;
  }

  lemma {:induction false} BetweenIs(line: string, start: nat, end: nat, inner: string)
    requires start < end <= |line| && inner == line[start + 1..end]
    ensures var params := SplitParams(inner);
            FixBetween(line, start, end)
            == if AddDefaults(params) == params then line
               else line[..start + 1] + Join(AddDefaults(params), ", ") + line[end..]
  {
    hide SplitParams;
    hide AddDefaults;
    hide Join;
  }

  lemma {:induction false} InnerNested(line: string)
    requires InnerOf(line).Some?
    ensures Nested(InnerOf(line).value)
  {
    MatchEncloses(line, IndexOf(line, '('));
  }

  lemma {:induction false} ParamsOfInner(line: string)
    ensures InnerOf(line).Some? ==> ParamsOf(line) == SplitParams(InnerOf(line).value)
  {
  }

  /** Completing a line completes its parameters and changes nothing else about them. */
  lemma {:induction false} FixKeepsParameters(line: string)
    ensures ParamsOf(FixLine(line)) == AddDefaults(ParamsOf(line))
    ensures FixLine(line) == line <==> AddDefaults(ParamsOf(line)) == ParamsOf(line)
  {
    hide *;
    FixLineIs(line);
    var params := ParamsOf(line);
    var added := AddDefaults(params);
    if added != params {
      var inner := InnerOf(line).value;
      InnerNested(line);
      OnlyOfParams(inner);
      AddDefaultsLast(params);
      AddDefaultsOnly(params);
      JoinedNested(inner, added);
      ReplaceInner(line, Join(added, ", "));
      SplitListed(inner);
      AddDefaultsListed(params);
      SplitJoined(added);
      ParamsOfInner(FixLine(line));
    }
  }

  /** Completing a line twice is completing it once exactly when every parameter that it completes closes its own
  brackets and has its colon before any `=`. */
  lemma {:induction false} FixIdempotentIff(line: string)
    ensures FixLine(FixLine(line)) == FixLine(line) <==> AllClosed(ParamsOf(line))
  {
    FixKeepsParameters(line);
    FixKeepsParameters(FixLine(line));
    AddDefaultsTwiceIff(ParamsOf(line));
  }

  /** Completing a line with a legal signature leaves it legal exactly if the closed ones among the parameters that it
  completes come last; in particular if all of them are closed. */
  lemma {:induction false} FixKeepsLegalIff(line: string)
    requires Legal(ParamsOf(line))
    ensures Legal(ParamsOf(FixLine(line))) <==> ClosedLast(ParamsOf(line))
    ensures AllClosed(ParamsOf(line)) ==> Legal(ParamsOf(FixLine(line)))
  {
    FixKeepsParameters(line);
    AddDefaultsLegalIff(ParamsOf(line));
    hide ParamsOf;
    hide FixLine;
    hide Legal;
    hide Closed;
  }

  lemma {:induction false} ParensAt(line: string) returns (start: nat, end: nat)
    requires FixLine(line) != line
    ensures start < end < |line| && line[start] == '(' && line[end] == ')' && '(' !in line[..start]
    ensures FixLine(line)
         == line[..start + 1] + Join(AddDefaults(SplitParams(line[start + 1..end])), ", ") + line[end..]
  {
    start := IndexOf(line, '(');
    hide Depth;
    hide SplitParams;
    hide AddDefaults;
    hide Join;
    hide IndexOf;
    assert '(' !in line[..start];
    end := MatchFrom(line, start, start);
    MatchIs(line, start, start);
    hide MatchFrom;
  }

  /** Only the text in the parentheses changes: the line is `front(inner)back` around its first parenthesis, and so is
  the rewritten one, with another text in them. */
  lemma {:induction false} FixKeepsRest(line: string)
    returns (front: string, inner: string, inner': string, back: string)
    ensures FixLine(line) != line ==>
              && line == front + "(" + inner + ")" + back && FixLine(line) == front + "(" + inner' + ")" + back
              && '(' !in front
  {
    front, inner, inner', back := [], [], [], [];
    if FixLine(line) != line {
      var start, end := ParensAt(line);
      front, inner, back := line[..start], line[start + 1..end], line[end + 1..];
      inner' := Join(AddDefaults(SplitParams(inner)), ", ");
      hide *;
      CutParens(line, start, end, inner');
    }
  }

  lemma {:induction false} CutParens(line: string, start: nat, end: nat, inner: string)
    requires start < end < |line| && line[start] == '(' && line[end] == ')'
    ensures line == line[..start] + "(" + line[start + 1..end] + ")" + line[end + 1..]
    ensures line[..start + 1] + inner + line[end..] == line[..start] + "(" + inner + ")" + line[end + 1..]
  {
    assert line[..start + 1] == line[..start] + "(" && line[end..] == ")" + line[end + 1..];
  }
}
