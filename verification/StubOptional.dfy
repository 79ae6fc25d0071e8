/** Adding `= ...` to the trailing Optional parameters of a stub line. */
module StubOptional {
  import opened Wrappers
  import opened StubText

  // Reading a parameter

  predicate OccursAt(s: string, i: nat, sub: string) {
    i + |sub| <= |s| && s[i..i + |sub|] == sub
  }

  predicate Contains(s: string, sub: string) {
    exists i :: 0 <= i <= |s| && OccursAt(s, i, sub)
  }

  /** The annotation: between the first colon and the next `=`. */
  function TypePart(param: string): string {
    var colon := IndexOf(param, ':');
    if colon == |param| then [] else Annotation(param[colon + 1..])
  }

  function Annotation(rest: string): string {
    Strip(rest[..IndexOf(rest, '=')])
  }

  /** A bar outside brackets at position `i`, with `None` soon after it. */
  predicate NoneAt(t: string, i: nat)
    requires i < |t|
  {
    t[i] == '|' && Depth(STUB, t[..i]) == 0
    && Contains(Strip(t[i + 1..if i + 7 <= |t| then i + 7 else |t|]), "None")
  }

  /** A union with `None` outside brackets. */
  predicate UnionWithNone(t: string) {
    exists i :: 0 <= i < |t| && NoneAt(t, i)
  }

  predicate IsOptional(param: string) {
    ':' in param && (Contains(TypePart(param), "Optional[") || UnionWithNone(TypePart(param)))
  }

  /** A colon comes before the first `=`. */
  predicate ColonFirst(param: string) {
    ':' in param[..IndexOf(param, '=')]
  }

  /** An `=` outside brackets at position `i`. */
  predicate EqualsAt(param: string, i: nat)
    requires i < |param|
  {
    param[i] == '=' && Depth(STUB, param[..i]) == 0
  }

  predicate HasDefault(param: string) {
    ColonFirst(param) && exists i :: 0 <= i < |param| && EqualsAt(param, i)
  }

  // Rewriting a parameter list

  const ELLIPSIS := " = ..."

  /** From the right: skip defaults, complete Optional parameters, stop at the first other one. */
  function AddDefaults(params: seq<string>): (r: seq<string>)
    ensures |r| == |params|
  {
    if params == [] then []
    else
      var before, p := params[..|params| - 1], params[|params| - 1];
      if HasDefault(p) then AddDefaults(before) + [p]
      else if IsOptional(p) then AddDefaults(before) + [p + ELLIPSIS]
      else params
  }

  function SplitParams(s: string): seq<string> {
    var p := Split(STUB, s);
    StripAll(p.parts) + if Strip(p.tail) == [] then [] else [Strip(p.tail)]
  }

  function StripAll(parts: seq<string>): (r: seq<string>)
    ensures |r| == |parts| && forall i :: 0 <= i < |parts| ==> r[i] == Strip(parts[i])
  {
    if parts == [] then [] else StripAll(parts[..|parts| - 1]) + [Strip(parts[|parts| - 1])]
  }

  // Rewriting a line

  const PARENS := Brackets({'('}, {')'})

  /** The position of the parenthesis that closes the one at `start`, looking from `i` on; -1 if there is none. */
  function MatchFrom(line: string, start: nat, i: nat): (r: int)
    requires start <= i <= |line|
    ensures r == -1 || i <= r < |line|
    decreases |line| - i
  {
    if i == |line| then -1
    else if line[i] == ')' && Depth(PARENS, line[start..i + 1]) == 0 then i
    else MatchFrom(line, start, i + 1)
  }

  /** A line with the parameters in its parentheses at `start` and `end` completed. */
  function FixBetween(line: string, start: nat, end: nat): string
    requires start < end <= |line|
  {
    var params := SplitParams(line[start + 1..end]);
    if AddDefaults(params) == params then line
    else line[..start + 1] + Join(AddDefaults(params), ", ") + line[end..]
  }

  function FixLine(line: string): string {
    var start := IndexOf(line, '(');
    if start == |line| || MatchFrom(line, start, start) <= start then line
    else FixBetween(line, start, MatchFrom(line, start, start))
  }

  // What one parameter gains

  lemma {:induction false} IndexOfAppend(s: string, t: string, c: char)
    ensures IndexOf(s + t, c) == if IndexOf(s, c) < |s| then IndexOf(s, c) else |s| + IndexOf(t, c)
  {
    if s == [] {
      assert s + t == t;
    } else if s[0] != c {
      assert (s + t)[1..] == s[1..] + t;
      IndexOfAppend(s[1..], t, c);
    }
  }

  lemma {:induction false} EllipsisText()
    ensures IndexOf(ELLIPSIS, '=') == 1 && ELLIPSIS[1] == '='
    ensures forall i :: 0 <= i <= |ELLIPSIS| ==> Depth(STUB, ELLIPSIS[..i]) == 0
    ensures forall i :: 0 <= i < |ELLIPSIS| && i != 1 ==> ELLIPSIS[i] != '='
  {
    assert IndexOf(ELLIPSIS[1..], '=') == 0;
    forall i | 0 <= i <= |ELLIPSIS| ensures Depth(STUB, ELLIPSIS[..i]) == 0 {
      NoBracketDepth(ELLIPSIS[..i]);
    }
  }

  lemma {:induction false} NoBracketDepth(s: string)
    requires forall c <- s :: STUB.Delta(c) == 0
    ensures Depth(STUB, s) == 0
  {
    if s != [] {
      assert s[|s| - 1] in s;
      NoBracketDepth(s[..|s| - 1]);
    }
  }

  /** A completed parameter is recognised as having a default exactly when its own brackets close and its name is
  followed by a colon before any `=`. */
  lemma {:induction false} CompletedHasDefault(p: string)
    requires IsOptional(p) && !HasDefault(p)
    ensures HasDefault(p + ELLIPSIS) <==> Depth(STUB, p) == 0 && (ColonFirst(p) || '=' !in p)
  {
    CompletedEquals(p);
    CompletedColon(p);
    hide IsOptional;
    hide ColonFirst;
    hide Depth;
  }

  lemma {:induction false} CompletedColon(p: string)
    requires ':' in p
    ensures ColonFirst(p + ELLIPSIS) <==> ColonFirst(p) || '=' !in p
  {
    var q := p + ELLIPSIS;
    EllipsisText();
    IndexOfAppend(p, ELLIPSIS, '=');
    var eq := IndexOf(p, '=');
    if eq < |p| {
      assert q[..eq] == p[..eq] && p[eq] in p;
    } else {
      assert p[..eq] == p && q[..|p| + 1] == p + [' '];
    }
  }

  lemma {:induction false} EqualsBefore(p: string, i: nat)
    requires i < |p|
    ensures EqualsAt(p + ELLIPSIS, i) == EqualsAt(p, i)
  {
    hide Depth;
    assert (p + ELLIPSIS)[..i] == p[..i];
  }

  lemma {:induction false} EqualsAfter(p: string, i: nat)
    requires |p| <= i < |p + ELLIPSIS|
    ensures EqualsAt(p + ELLIPSIS, i) == (i == |p| + 1 && Depth(STUB, p) == 0)
  {
    EllipsisText();
    DepthAppend(STUB, p, ELLIPSIS[..i - |p|]);
    hide Depth;
    assert (p + ELLIPSIS)[..i] == p + ELLIPSIS[..i - |p|];
    assert (p + ELLIPSIS)[i] == ELLIPSIS[i - |p|];
  }

  /** The only `=` outside brackets that completing can add is the new one. */
  lemma {:induction false} CompletedEquals(p: string)
    ensures (exists i :: 0 <= i < |p + ELLIPSIS| && EqualsAt(p + ELLIPSIS, i))
        <==> Depth(STUB, p) == 0 || exists i :: 0 <= i < |p| && EqualsAt(p, i)
  {
    var q := p + ELLIPSIS;
    assert |p| + 1 < |q|;
    hide *;
    forall i | 0 <= i < |p| ensures EqualsAt(q, i) == EqualsAt(p, i) {
      EqualsBefore(p, i);
    }
    forall i | |p| <= i < |q| ensures EqualsAt(q, i) == (i == |p| + 1 && Depth(STUB, p) == 0) {
      EqualsAfter(p, i);
    }
    if Depth(STUB, p) == 0 {
      assert EqualsAt(q, |p| + 1);
    }
  }

  lemma {:induction false} CompletedOptional(p: string)
    requires IsOptional(p)
    ensures IsOptional(p + ELLIPSIS)
  {
    CompletedType(p);
  }

  /** Completing a parameter leaves its annotation alone. */
  lemma {:induction false} CompletedType(p: string)
    requires ':' in p
    ensures ':' in p + ELLIPSIS && TypePart(p + ELLIPSIS) == TypePart(p)
  {
    hide *;
    AfterColon(p);
    TypePartIs(p);
    TypePartIs(p + ELLIPSIS);
    AnnotationEnd(p[IndexOf(p, ':') + 1..]);
  }

  lemma {:induction false} TypePartIs(p: string)
    requires ':' in p
    ensures IndexOf(p, ':') < |p| && TypePart(p) == Annotation(p[IndexOf(p, ':') + 1..])
  {
    hide Annotation;
  }

  lemma {:induction false} AfterColon(p: string)
    requires ':' in p
    ensures ':' in p + ELLIPSIS && IndexOf(p + ELLIPSIS, ':') == IndexOf(p, ':') < |p|
    ensures (p + ELLIPSIS)[IndexOf(p + ELLIPSIS, ':') + 1..] == p[IndexOf(p, ':') + 1..] + ELLIPSIS
  {
    IndexOfAppend(p, ELLIPSIS, ':');
    assert (p + ELLIPSIS)[IndexOf(p, ':')] == ':';
  }

  /** Where an annotation ends does not depend on what completing adds, but for white space. */
  lemma {:induction false} AnnotationEnd(rest: string)
    ensures Annotation(rest + ELLIPSIS) == Annotation(rest)
  {
    hide Strip;
    EllipsisText();
    IndexOfAppend(rest, ELLIPSIS, '=');
    var eq := IndexOf(rest, '=');
    if eq == |rest| {
      assert (rest + ELLIPSIS)[..|rest| + 1] == rest + " " && rest[..eq] == rest;
      StripTrailing(rest);
    } else {
      assert (rest + ELLIPSIS)[..eq] == rest[..eq];
    }
  }

  // What a parameter list gains

  /** A parameter that keeps its brackets to itself and is of the form `name: type`. */
  predicate Closed(p: string) {
    Depth(STUB, p) == 0 && (ColonFirst(p) || '=' !in p)
  }

  /** Every completed parameter is closed. */
  predicate AllClosed(params: seq<string>) {
    forall i :: 0 <= i < |params| && AddDefaults(params)[i] != params[i] ==> Closed(params[i])
  }

  lemma {:induction false} AddDefaultsPush(before: seq<string>, p: string)
    ensures AddDefaults(before + [p])
         == if HasDefault(p) then AddDefaults(before) + [p]
            else if IsOptional(p) then AddDefaults(before) + [p + ELLIPSIS]
            else before + [p]
  {
    assert (before + [p])[..|before|] == before;
  }

  lemma {:induction false} AllClosedPush(before: seq<string>, p: string)
    ensures AllClosed(before + [p])
        <==> if HasDefault(p) then AllClosed(before) else IsOptional(p) ==> AllClosed(before) && Closed(p)
  {
    var params := before + [p];
    AddDefaultsPush(before, p);
    assert forall i :: 0 <= i < |before| ==> params[i] == before[i];
    assert |p + ELLIPSIS| > |p|;
    hide HasDefault;
    hide IsOptional;
    hide Closed;
    hide AddDefaults;
    if !HasDefault(p) && IsOptional(p) {
      assert AddDefaults(params)[|before|] != params[|before|];
    }
  }

  /** Completing a list twice is completing it once exactly when every completed parameter is closed. */
  lemma {:induction false} AddDefaultsTwiceIff(params: seq<string>)
    ensures AddDefaults(AddDefaults(params)) == AddDefaults(params) <==> AllClosed(params)
  {
    if params != [] {
      var before, p := params[..|params| - 1], params[|params| - 1];
      assert params == before + [p];
      AddDefaultsTwiceIff(before);
      var q := p + ELLIPSIS;
      if IsOptional(p) && !HasDefault(p) {
        CompletedHasDefault(p);
        CompletedOptional(p);
        assert HasDefault(q) == Closed(p);
      }
      hide *;
      AddDefaultsPush(before, p);
      AllClosedPush(before, p);
      AddDefaultsPush(AddDefaults(before), p);
      AddDefaultsPush(AddDefaults(before), q);
      PushEqual(AddDefaults(AddDefaults(before)), AddDefaults(before), p);
      PushEqual(AddDefaults(AddDefaults(before)), AddDefaults(before), q);
      Longer(q);
    } else {
      assert AddDefaults(params) == [];
    }
  }

  lemma {:induction false} PushEqual(a: seq<string>, b: seq<string>, p: string)
    ensures a + [p] == b + [p] <==> a == b
    ensures forall q :: q != p ==> a + [q] != b + [p]
  {
    if a + [p] == b + [p] {
      assert a == (a + [p])[..|a|] && b == (b + [p])[..|b|] && |a + [p]| == |a| + 1 && |b + [p]| == |b| + 1;
    }
    forall q | q != p ensures a + [q] != b + [p] {
      assert (a + [q])[|a + [q]| - 1] == q && (b + [p])[|b + [p]| - 1] == p;
    }
  }

  lemma {:induction false} Longer(q: string)
    ensures q + ELLIPSIS != q
  {
    assert |q + ELLIPSIS| > |q|;
  }

  /** No required parameter after one with a default. */
  predicate Legal(params: seq<string>) {
    forall i, j :: 0 <= i < j < |params| && HasDefault(params[i]) ==> HasDefault(params[j])
  }

  /** Completing a list changes this parameter. */
  predicate Completed(params: seq<string>, i: nat)
    requires i < |params|
  {
    AddDefaults(params)[i] != params[i]
  }

  lemma {:induction false} CompletedPush(before: seq<string>, p: string)
    ensures var n, params := |before|, before + [p];
            && (Completed(params, n) <==> IsOptional(p) && !HasDefault(p))
            && (Completed(params, n) ==> AddDefaults(params)[n] == p + ELLIPSIS)
            && (forall i :: 0 <= i < n ==>
                  && (Completed(params, i) <==> (HasDefault(p) || IsOptional(p)) && Completed(before, i))
                  && (Completed(params, i) ==> AddDefaults(params)[i] == AddDefaults(before)[i]))
  {
    AddDefaultsPush(before, p);
    Longer(p);
    hide HasDefault;
    hide IsOptional;
    hide AddDefaults;
  }

  lemma {:induction false} CompletedIs(params: seq<string>, i: nat)
    requires i < |params|
    ensures Completed(params, i) ==>
              && IsOptional(params[i]) && !HasDefault(params[i]) && AddDefaults(params)[i] == params[i] + ELLIPSIS
              && (forall j :: i < j < |params| ==> HasDefault(params[j]) || Completed(params, j))
  {
    hide *;
    var before, p := params[..|params| - 1], params[|params| - 1];
    var n := |before|;
    assert params == before + [p];
    CompletedPush(before, p);
    if i < n {
      CompletedIs(before, i);
      assert params[i] == before[i];
      forall j | i < j < |params| && Completed(params, i) ensures HasDefault(params[j]) || Completed(params, j) {
        assert j < n ==> params[j] == before[j];
      }
    }
  }

  /** After completing, a parameter has a default if it had one or was completed and is closed. */
  lemma {:induction false} DefaultAfter(params: seq<string>, i: nat)
    requires i < |params|
    ensures HasDefault(AddDefaults(params)[i]) <==> HasDefault(params[i]) || (Completed(params, i) && Closed(params[i]))
  {
    CompletedIs(params, i);
    if Completed(params, i) {
      CompletedHasDefault(params[i]);
    }
    hide HasDefault;
    hide IsOptional;
  }

  /** Among the completed parameters no closed one comes before one that is not. */
  ghost predicate ClosedLast(params: seq<string>) {
    forall i, j :: 0 <= i < j < |params| && Completed(params, i) && Completed(params, j) && Closed(params[i]) ==>
      Closed(params[j])
  }

  /** Completing a legal list leaves it legal exactly if the closed ones among the completed parameters come last. */
  lemma {:induction false} AddDefaultsLegalIff(params: seq<string>)
    requires Legal(params)
    ensures Legal(AddDefaults(params)) <==> ClosedLast(params)
  {
    var r := AddDefaults(params);
    forall i | 0 <= i < |params|
      ensures HasDefault(r[i]) <==> HasDefault(params[i]) || (Completed(params, i) && Closed(params[i]))
      ensures Completed(params, i) ==> !HasDefault(params[i])
      ensures forall j :: i < j < |params| && Completed(params, i) ==> HasDefault(params[j]) || Completed(params, j)
    {
      DefaultAfter(params, i);
      CompletedIs(params, i);
    }
    hide HasDefault;
    hide Completed;
    hide Closed;
    hide AddDefaults;
  }
}
