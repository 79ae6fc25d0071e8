/** A stub line that is completed differently the second time, and whose signature is no longer legal after the
first: its last parameter leaves a bracket open. */
module StubUnclosed {
  import opened Wrappers
  import opened StubText
  import opened StubOptional
  import opened StubLine

  const CLOSED := "Optional[int]"
  const UNCLOSED := "Optional[int"

  /** The parameter `c` of this type. */
  function Param(c: char, ty: string): string {
    [c] + (": " + ty)
  }

  /** `def f(a: Optional[int], b: Optional[int): ...` */
  const LINE := "def f(" + Join([Param('a', CLOSED), Param('b', UNCLOSED)], ", ") + "): ..."

  // Its parameters

  predicate OptionalType(ty: string) {
    && |ty| >= 9 && ty[..9] == "Optional[" && Stripped(ty)
    && forall c <- ty :: c != '=' && c != ',' && c != '(' && c != ')'
  }

  predicate Name(c: char) {
    c == 'a' || c == 'b'
  }

  lemma {:induction false} TypesAre()
    ensures OptionalType(CLOSED) && OptionalType(UNCLOSED)
  {
  }

  lemma {:induction false} ParamText(c: char, ty: string)
    requires Name(c) && OptionalType(ty)
    ensures var p := Param(c, ty);
            && (forall x <- p :: x != '=' && x != ',' && x != '(' && x != ')')
            && Stripped(p) && p != [] && p[1] == ':' && p[2..] == " " + ty
  {
    var p := Param(c, ty);
    assert p[|p| - 1] == ty[|ty| - 1];
    assert forall x <- p :: x == c || x == ':' || x == ' ' || x in ty;
  }

  lemma {:induction false} NoEquals(rest: string)
    requires '=' !in rest
    ensures Annotation(rest) == Strip(rest)
  {
    hide Strip;
    assert IndexOf(rest, '=') == |rest| && rest[..|rest|] == rest;
  }

  lemma {:induction false} ColonSecond(p: string)
    requires |p| >= 2 && p[0] != ':' && p[1] == ':'
    ensures ':' in p && IndexOf(p, ':') == 1
  {
  }

  lemma {:induction false} ParamType(c: char, ty: string)
    requires Name(c) && OptionalType(ty)
    ensures TypePart(Param(c, ty)) == ty
  {
    var p, rest := Param(c, ty), " " + ty;
    assert '=' !in rest by { assert forall x <- rest :: x == ' ' || x in ty; }
    assert p[0] == c && p[1] == ':' && p[2..] == rest && Stripped(ty);
    hide *;
    ColonSecond(p) by { assert c != ':' by { NameIs(c); } }
    TypePartIs(p);
    NoEquals(rest);
    StripStripped(ty);
  }

  lemma {:induction false} NameIs(c: char)
    requires Name(c)
    ensures c != ':'
  {
  }

  lemma {:induction false} ParamOptional(c: char, ty: string)
    requires Name(c) && OptionalType(ty)
    ensures var p := Param(c, ty); IsOptional(p) && !HasDefault(p) && (Closed(p) <==> Depth(STUB, p) == 0)
  {
    var p := Param(c, ty);
    ParamText(c, ty);
    ParamType(c, ty);
    hide Param;
    hide TypePart;
    hide Depth;
    assert ':' in p && OccursAt(ty, 0, "Optional[");
    assert forall i :: 0 <= i < |p| ==> p[i] in p;
  }

  lemma {:induction false} ParamListed(c: char, ty: string)
    requires Name(c) && OptionalType(ty)
    ensures var p := Param(c, ty); Stripped(p) && NoCut(STUB, p) && Depth(STUB, p) == Depth(STUB, ty)
  {
    var p := Param(c, ty);
    ParamText(c, ty);
    assert p == [c] + ": " + ty;
    NoBracketDepth([c] + ": ");
    DepthAppend(STUB, [c] + ": ", ty);
    hide Depth;
    assert forall i :: 0 <= i < |p| ==> p[i] in p;
  }

  lemma {:induction false} TypeDepths()
    ensures Depth(STUB, CLOSED) == 0 && Depth(STUB, UNCLOSED) == 1
  {
    assert UNCLOSED == "Optional" + "[" + "int" && CLOSED == UNCLOSED + "]";
    NoBracketDepth("Optional");
    NoBracketDepth("int");
    assert Depth(STUB, "[") == 1 && Depth(STUB, "]") == -1 by {
      assert "["[..0] == [] && "]"[..0] == [] && Depth(STUB, []) == 0;
    }
    DepthAppend(STUB, "Optional", "[");
    DepthAppend(STUB, "Optional" + "[", "int");
    DepthAppend(STUB, UNCLOSED, "]");
    hide Depth;
  }

  // A list that ends in an open parameter

  lemma {:induction false} UnclosedNotAll(params: seq<string>, i: nat)
    requires i < |params| && Completed(params, i) && !Closed(params[i])
    ensures !AllClosed(params)
  {
    hide AddDefaults;
    hide Closed;
  }

  lemma {:induction false} PairCompleted(p: string, q: string)
    requires IsOptional(p) && !HasDefault(p) && IsOptional(q) && !HasDefault(q)
    ensures Completed([p, q], 0) && Completed([p, q], 1)
  {
    hide *;
    assert [p] + [q] == [p, q] && [] + [p] == [p];
    CompletedPush([p], q);
    CompletedPush([], p);
  }

  lemma {:induction false} PairOpen(p: string, q: string)
    requires !HasDefault(p) && !HasDefault(q) && Closed(p) && !Closed(q)
    requires Completed([p, q], 0) && Completed([p, q], 1)
    ensures Legal([p, q]) && !ClosedLast([p, q]) && !AllClosed([p, q])
  {
    hide HasDefault;
    hide Closed;
    hide Completed;
    hide AllClosed;
    var params := [p, q];
    assert params[0] == p && params[1] == q;
    UnclosedNotAll(params, 1);
  }

  lemma {:induction false} PairListed(p: string, q: string)
    requires Stripped(p) && NoCut(STUB, p) && Depth(STUB, p) == 0 && Stripped(q) && NoCut(STUB, q)
    ensures Listed([p, q])
  {
    hide Stripped;
    hide NoCut;
    hide Depth;
  }

  // The line

  predicate NoParens(s: string) {
    forall i :: 0 <= i < |s| ==> s[i] != '(' && s[i] != ')'
  }

  lemma {:induction false} NoParensNested(s: string)
    requires NoParens(s)
    ensures Nested(s)
  {
    if s != [] {
      NoParensNested(s[..|s| - 1]);
    }
  }

  lemma {:induction false} PairPlain(p: string, q: string)
    requires NoParens(p) && NoParens(q)
    ensures Nested(Join([p, q], ", "))
  {
    assert [p] + [q] == [p, q] && Join([p], ", ") == p;
    JoinPush([p], q, ", ");
    assert NoParens(p + ", " + q);
    hide *;
    NoParensNested(p + ", " + q);
  }

  /** The text in the parentheses of a definition. */
  lemma {:induction false} DefInner(inner: string)
    requires Nested(inner)
    ensures InnerOf("def f(" + inner + "): ...") == Some(inner)
  {
    var line := "def f(" + inner + "): ...";
    assert Encloses(line, 5, inner) && forall j :: 0 <= j < 5 ==> line[j] != '(';
    assert 5 < |line| && line[5] == '(';
    hide *;
    FirstAt(line, 5, '(');
    MatchFinds(line, 5, inner, 5);
    InnerIs(line, 5, inner);
  }

  lemma {:induction false} PairParams(line: string, p: string, q: string)
    requires Listed([p, q]) && q != [] && InnerOf(line) == Some(Join([p, q], ", "))
    ensures ParamsOf(line) == [p, q]
  {
    hide Listed;
    hide InnerOf;
    hide SplitParams;
    hide Join;
    SplitJoined([p, q]);
  }

  lemma {:induction false} UnclosedPair(line: string, p: string, q: string)
    requires ParamsOf(line) == [p, q] && IsOptional(p) && !HasDefault(p) && IsOptional(q) && !HasDefault(q)
    requires Closed(p) && !Closed(q)
    ensures FixLine(FixLine(line)) != FixLine(line)
    ensures Legal(ParamsOf(line)) && !Legal(ParamsOf(FixLine(line)))
  {
    hide *;
    PairCompleted(p, q);
    PairOpen(p, q);
    FixIdempotentIff(line);
    FixKeepsLegalIff(line);
  }

  lemma {:induction false} ParamFacts(c: char, ty: string)
    requires Name(c) && OptionalType(ty)
    ensures var p := Param(c, ty);
            && IsOptional(p) && !HasDefault(p) && (Closed(p) <==> Depth(STUB, ty) == 0)
            && Stripped(p) && NoCut(STUB, p) && Depth(STUB, p) == Depth(STUB, ty) && NoParens(p) && p != []
  {
    var p := Param(c, ty);
    ParamText(c, ty);
    assert NoParens(p) by { assert forall i :: 0 <= i < |p| ==> p[i] in p; }
    hide *;
    ParamOptional(c, ty);
    ParamListed(c, ty);
  }

  /** Completing this line twice differs from completing it once, and its legal signature does not stay legal. */
  lemma {:induction false} UnclosedLine()
    ensures FixLine(FixLine(LINE)) != FixLine(LINE)
    ensures Legal(ParamsOf(LINE)) && !Legal(ParamsOf(FixLine(LINE)))
  {
    var p, q := Param('a', CLOSED), Param('b', UNCLOSED);
    assert LINE == "def f(" + Join([p, q], ", ") + "): ..." && Name('a') && Name('b') by {
      hide Join;
      hide Param;
    }
    hide *;
    TypesAre();
    TypeDepths();
    ParamFacts('a', CLOSED);
    ParamFacts('b', UNCLOSED);
    PairListed(p, q);
    PairPlain(p, q);
    DefInner(Join([p, q], ", "));
    PairParams(LINE, p, q);
    UnclosedPair(LINE, p, q);
  }
}
