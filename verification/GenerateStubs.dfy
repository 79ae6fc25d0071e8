/** The character loops of the stub generator that complete Optional parameters. */
module GenerateStubs {
  import opened Seqs
  import opened StubText
  import SA = StubAnnotations
  import SO = StubOptional

  /** The closing parenthesis that matches the one at `start`, or -1. */
  method FindMatchingParen(line: string, start: nat) returns (r: int)
    requires start <= |line|
    ensures r == SO.MatchFrom(line, start, start)
  {
    var depth := 0;
    var i := start;
    assert Depth(SO.PARENS, []) == 0 && line[start..start] == [];
    while i < |line|
      invariant start <= i <= |line|
      invariant depth == Depth(SO.PARENS, line[start..i])
      invariant SO.MatchFrom(line, start, start) == SO.MatchFrom(line, start, i)
    {
      SlicePush(line, start, i);
      DepthPush(SO.PARENS, line[start..i], line[i]);
      if line[i] == '(' {
        depth := depth + 1;
      } else if line[i] == ')' {
        depth := depth - 1;
        if depth == 0 {
          return i;
        }
      }
      i := i + 1;
    }
    r := -1;
  }

  /** The state of the splitting loop after `i` characters. */
  ghost predicate SplitSoFar(s: string, i: nat, parts: seq<string>, depth: int, start: nat) {
    && start <= i <= |s|
    && depth == Depth(STUB, s[..i])
    && parts == SO.StripAll(Split(STUB, s[..i]).parts)
    && s[start..i] == Split(STUB, s[..i]).tail
  }

  lemma {:induction false} SplitNone(s: string)
    ensures SplitSoFar(s, 0, [], 0, 0)
  {
    assert s[..0] == [];
  }

  lemma {:induction false} SplitNext(s: string, i: nat, parts: seq<string>, depth: int, start: nat)
    requires SplitSoFar(s, i, parts, depth, start) && i < |s|
    ensures if s[i] == ',' && depth == 0 then SplitSoFar(s, i + 1, parts + [Strip(s[start..i])], depth, i + 1)
            else SplitSoFar(s, i + 1, parts, depth + STUB.Delta(s[i]), start)
  {
    SplitIs(s, i, parts, depth, start);
    StubDelta(',');
    hide *;
    PrefixPush(s, i);
    SlicePush(s, start, i);
    SplitPush(STUB, s[..i], s[i]);
    StripAllPush(Split(STUB, s[..i]).parts, s[start..i]);
    SplitIs(s, i + 1, parts, depth + STUB.Delta(s[i]), start);
    SplitIs(s, i + 1, parts + [Strip(s[start..i])], depth, i + 1);
    assert s[i + 1..i + 1] == [];
  }

  lemma {:induction false} SplitIs(s: string, i: nat, parts: seq<string>, depth: int, start: nat)
    ensures SplitSoFar(s, i, parts, depth, start) <==>
              && start <= i <= |s|
              && depth == Depth(STUB, s[..i])
              && parts == SO.StripAll(Split(STUB, s[..i]).parts)
              && s[start..i] == Split(STUB, s[..i]).tail
  {
    hide Split;
    hide Depth;
    hide SO.StripAll;
  }

  lemma {:induction false} SplitDone(s: string, parts: seq<string>, depth: int, start: nat)
    requires SplitSoFar(s, |s|, parts, depth, start)
    ensures SO.SplitParams(s) == if Strip(s[start..]) == [] then parts else parts + [Strip(s[start..])]
  {
    WholePrefix(s);
    assert s[start..] == s[start..|s|];
    SplitParamsEnd(s);
  }

  /** Split a parameter list at the commas outside brackets and strip the parts. */
  method SplitParams(s: string) returns (parts: seq<string>)
    ensures parts == SO.SplitParams(s)
  {
    hide *;
    parts := [];
    var depth := 0;
    var start := 0;
    var i := 0;
    SplitNone(s);
    while i < |s|
      invariant 0 <= start <= i <= |s|
      invariant SplitSoFar(s, i, parts, depth, start)
    {
      var c := s[i];
      SplitNext(s, i, parts, depth, start);
      StubDelta(c);
      if c == '(' || c == '[' {
        depth := depth + 1;
      } else if c == ')' || c == ']' {
        depth := depth - 1;
      } else if c == ',' && depth == 0 {
        parts := parts + [Strip(s[start..i])];
        start := i + 1;
      }
      i := i + 1;
    }
    SplitDone(s, parts, depth, start);
    var tail := Strip(s[start..]);
    if tail != "" {
      parts := parts + [tail];
    }
  }

  lemma {:induction false} StubDelta(c: char)
    ensures STUB.Delta(c) == if c == '(' || c == '[' then 1 else if c == ')' || c == ']' then -1 else 0
  {
  }

  lemma {:induction false} SplitParamsEnd(s: string)
    ensures var p := Split(STUB, s);
            SO.SplitParams(s)
            == if Strip(p.tail) == [] then SO.StripAll(p.parts) else SO.StripAll(p.parts) + [Strip(p.tail)]
  {
    assert SO.StripAll(Split(STUB, s).parts) + [] == SO.StripAll(Split(STUB, s).parts);
  }

  lemma {:induction false} StripAllPush(parts: seq<string>, p: string)
    ensures SO.StripAll(parts + [p]) == SO.StripAll(parts) + [Strip(p)]
  {
    assert (parts + [p])[..|parts|] == parts;
  }

  /** Whether a parameter has a default outside brackets, after its annotation. */
  method HasDefault(param: string) returns (r: bool)
    ensures r == SO.HasDefault(param)
  {
    hide *;
    var depth := 0;
    var i := 0;
    NoDepth(param);
    ColonIs(param);
    while i < |param|
      invariant 0 <= i <= |param|
      invariant depth == Depth(STUB, param[..i])
      invariant SO.ColonFirst(param) ==> forall j :: 0 <= j < i ==> !SO.EqualsAt(param, j)
    {
      var c := param[i];
      PrefixPush(param, i);
      DepthPush(STUB, param[..i], c);
      StubDelta(c);
      EqualsIs(param, i);
      if c == '(' || c == '[' {
        depth := depth + 1;
      } else if c == ')' || c == ']' {
        depth := depth - 1;
      } else if c == '=' && depth == 0 && ':' in param[..IndexOf(param, '=')] {
        DefaultFound(param, i);
        return true;
      }
      i := i + 1;
    }
    DefaultAbsent(param);
    r := false;
  }

  lemma {:induction false} NoDepth(s: string)
    ensures Depth(STUB, s[..0]) == 0
  {
  }

  lemma {:induction false} ColonIs(param: string)
    ensures SO.ColonFirst(param) <==> ':' in param[..IndexOf(param, '=')]
  {
  }

  lemma {:induction false} EqualsIs(param: string, i: nat)
    requires i < |param|
    ensures SO.EqualsAt(param, i) <==> param[i] == '=' && Depth(STUB, param[..i]) == 0
  {
  }

  lemma {:induction false} DefaultFound(param: string, i: nat)
    requires i < |param| && SO.ColonFirst(param) && SO.EqualsAt(param, i)
    ensures SO.HasDefault(param)
  {
  }

  lemma {:induction false} DefaultAbsent(param: string)
    requires SO.ColonFirst(param) ==> forall j :: 0 <= j < |param| ==> !SO.EqualsAt(param, j)
    ensures !SO.HasDefault(param)
  {
  }

  /** Whether an annotation is a union with `None` outside brackets. */
  method UnionWithNone(t: string) returns (r: bool)
    ensures r == SO.UnionWithNone(t)
  {
    hide *;
    var depth := 0;
    var i := 0;
    NoDepth(t);
    while i < |t|
      invariant 0 <= i <= |t|
      invariant depth == Depth(STUB, t[..i])
      invariant forall j :: 0 <= j < i ==> !SO.NoneAt(t, j)
    {
      var c := t[i];
      PrefixPush(t, i);
      DepthPush(STUB, t[..i], c);
      StubDelta(c);
      NoneAtIs(t, i);
      if c == '(' || c == '[' {
        depth := depth + 1;
      } else if c == ')' || c == ']' {
        depth := depth - 1;
      } else if c == '|' && depth == 0 {
        var next := Strip(t[i + 1..if i + 7 <= |t| then i + 7 else |t|]);
        if SO.Contains(next, "None") {
          UnionFound(t, i);
          return true;
        }
      }
      i := i + 1;
    }
    UnionAbsent(t);
    r := false;
  }

  lemma {:induction false} NoneAtIs(t: string, i: nat)
    requires i < |t|
    ensures SO.NoneAt(t, i) <==>
              t[i] == '|' && Depth(STUB, t[..i]) == 0
              && SO.Contains(Strip(t[i + 1..if i + 7 <= |t| then i + 7 else |t|]), "None")
  {
  }

  lemma {:induction false} UnionFound(t: string, i: nat)
    requires i < |t| && SO.NoneAt(t, i)
    ensures SO.UnionWithNone(t)
  {
  }

  lemma {:induction false} UnionAbsent(t: string)
    requires forall j :: 0 <= j < |t| ==> !SO.NoneAt(t, j)
    ensures !SO.UnionWithNone(t)
  {
  }

  method IsOptionalParam(param: string) returns (r: bool)
    ensures r == SO.IsOptional(param)
    ensures r <==> SA.Annotated(param)
  {
    SA.AnnotatedIff(param);
    hide SA.Annotated;
    var colon := IndexOf(param, ':');
    if colon == |param| {
      assert ':' !in param;
      return false;
    }
    assert param[colon] in param;
    var rest := param[colon + 1..];
    var t := Strip(rest[..IndexOf(rest, '=')]);
    assert t == SO.TypePart(param);
    if SO.Contains(t, "Optional[") {
      return true;
    }
    r := UnionWithNone(t);
  }

  /** One parameter: unchanged if it has a default, completed if it is Optional, a stop otherwise. */
  method CompleteOne(p: string) returns (q: string, stop: bool)
    ensures stop == (!SO.HasDefault(p) && !SO.IsOptional(p))
    ensures q == if !SO.HasDefault(p) && SO.IsOptional(p) then p + SO.ELLIPSIS else p
  {
    hide *;
    var has := HasDefault(p);
    if has {
      return p, false;
    }
    var optional := IsOptionalParam(p);
    if optional {
      return p + SO.ELLIPSIS, false;
    }
    return p, true;
  }

  /** Complete a parameter list in place, from the right. */
  method CompleteParams(original: seq<string>) returns (params: seq<string>, changed: bool)
    ensures params == SO.AddDefaults(original)
    ensures changed == (params != original)
  {
    params := original;
    changed := false;
    var i := |params|;
    ghost var done: seq<string> := [];
    assert original[..i] == original && SO.AddDefaults([]) == [];
    hide *;
    while i > 0
      invariant 0 <= i <= |original| == i + |done|
      invariant params == original[..i] + done
      invariant SO.AddDefaults(original) == SO.AddDefaults(original[..i]) + done
      invariant changed == (done != original[i..])
    {
      var p := params[i - 1];
      var q, stop := CompleteOne(p);
      StepSlices(original, i, q, done);
      StepDefaults(original, i, p, q, done);
      if stop {
        Unchanged(original, i, done);
        return;
      }
      params := params[i - 1 := q];
      changed := changed || q != p;
      done := [q] + done;
      i := i - 1;
    }
    assert original[..0] == [] && original[0..] == original && [] + done == done;
  }

  lemma {:induction false} StepDefaults(original: seq<string>, i: nat, p: string, q: string, done: seq<string>)
    requires 0 < i <= |original| && p == original[i - 1]
    requires q == if !SO.HasDefault(p) && SO.IsOptional(p) then p + SO.ELLIPSIS else p
    ensures if SO.HasDefault(p) || SO.IsOptional(p)
            then SO.AddDefaults(original[..i]) + done == SO.AddDefaults(original[..i - 1]) + ([q] + done)
            else SO.AddDefaults(original[..i]) == original[..i]
  {
    hide *;
    var before := original[..i - 1];
    assert original[..i] == before + [p];
    SO.AddDefaultsPush(before, p);
    Shift(SO.AddDefaults(before), q, done);
  }

  lemma {:induction false} StepSlices(original: seq<string>, i: nat, q: string, done: seq<string>)
    requires 0 < i <= |original| == i + |done|
    ensures (original[..i] + done)[i - 1] == original[i - 1]
    ensures (original[..i] + done)[i - 1 := q] == original[..i - 1] + ([q] + done)
    ensures [q] + done == original[i - 1..] <==> q == original[i - 1] && done == original[i..]
  {
    assert original[i - 1..] == [original[i - 1]] + original[i..];
    HeadDiffers(original[i - 1], q, original[i..], done);
  }

  lemma {:induction false} Shift(a: seq<string>, q: string, done: seq<string>)
    ensures a + [q] + done == a + ([q] + done)
  {
  }

  lemma {:induction false} HeadDiffers(p: string, q: string, rest: seq<string>, done: seq<string>)
    ensures [q] + done == [p] + rest <==> q == p && done == rest
  {
    assert ([q] + done)[0] == q && ([p] + rest)[0] == p;
    assert ([q] + done)[1..] == done && ([p] + rest)[1..] == rest;
  }

  lemma {:induction false} Unchanged(original: seq<string>, i: nat, done: seq<string>)
    requires i <= |original| && |done| == |original| - i
    ensures original[..i] + done == original <==> done == original[i..]
  {
    assert (original[..i] + done)[i..] == done;
    assert original[..i] + original[i..] == original;
  }

  /** Add `= ...` to the trailing Optional parameters of a line. */
  method FixOptionalDefaultsInLine(line: string) returns (r: string)
    ensures r == SO.FixLine(line)
  {
    hide *;
    FixLineIs(line);
    var start := IndexOf(line, '(');
    if start == |line| {
      return line;
    }
    var end := FindMatchingParen(line, start);
    if end < 0 {
      return line;
    }
    MatchAfter(line, start);
    r := FixBetween(line, start, end);
  }

  lemma {:induction false} FixLineIs(line: string)
    ensures var start := IndexOf(line, '(');
            SO.FixLine(line)
            == if start == |line| || SO.MatchFrom(line, start, start) <= start then line
               else SO.FixBetween(line, start, SO.MatchFrom(line, start, start))
  {
    hide SO.FixBetween;
    hide SO.MatchFrom;
    hide IndexOf;
  }

  /** Complete the parameters between two parentheses. */
  method FixBetween(line: string, start: nat, end: nat) returns (r: string)
    requires start < end <= |line|
    ensures r == SO.FixBetween(line, start, end)
  {
    hide SO.SplitParams;
    hide SO.AddDefaults;
    hide Join;
    var params := SplitParams(line[start + 1..end]);
    var added, changed := CompleteParams(params);
    if !changed {
      return line;
    }
    r := line[..start + 1] + Join(added, ", ") + line[end..];
  }

  lemma {:induction false} MatchAfter(line: string, start: nat)
    requires start < |line| && line[start] == '('
    ensures SO.MatchFrom(line, start, start) != start
  {
  }
}
