/** Rewriting the methods of a class in a generated stub.

A class body is cut into method blocks and other lines. Blocks are renamed, duplicates and suppressed methods
are left out, and missing static methods are added at the end. */
module StubClasses {
  import opened Seqs
  import opened Wrappers

  /** A stub line: whether it is a decorator or starts a method, how it ends, its indentation, and the name it
  defines. */
  datatype Line = Line(
    raw: string,
    decorator: bool,
    def: bool,
    blank: bool,
    endsColon: bool,
    endsDots: bool,
    indent: nat,
    name: Option<string>)
  {
    predicate EndsSignature() {
      endsColon || endsDots
    }

    /** Decorators and definitions are indented like methods, and a blank line is none of these. */
    predicate Valid() {
      (decorator || def ==> !blank && indent == METHOD_INDENT) && (EndsSignature() ==> !blank)
    }
  }

  const BLANK := Line("", false, false, true, false, false, 0, None)
  const METHOD_INDENT := 4

  datatype Fixup = Fixup(
    renames: map<string, string>,
    suppressed: set<string>,
    injected: seq<(string, seq<Line>)>,               // sorted by name
    rewrite: (string, seq<Line>) -> seq<Line>)
  {
    function Resolved(name: string): string {
      if name in renames then renames[name] else name
    }
  }

  // Cutting a body into blocks

  function SkipDecorators(lines: seq<Line>, i: nat): (r: nat)
    requires i <= |lines|
    ensures i <= r <= |lines| && (forall k :: i <= k < r ==> lines[k].decorator)
            && (r < |lines| ==> !lines[r].decorator)
    decreases |lines| - i
  {
    if i < |lines| && lines[i].decorator then SkipDecorators(lines, i + 1) else i
  }

  /** The end of the signature whose lines so far end before `i`. */
  function SignatureEnd(lines: seq<Line>, i: nat): (r: nat)
    requires 0 < i <= |lines|
    ensures i <= r <= |lines|
    ensures r == |lines| || lines[r - 1].EndsSignature()
    ensures forall k :: i - 1 <= k < r - 1 ==> !lines[k].EndsSignature()
    decreases |lines| - i
  {
    if i < |lines| && !lines[i - 1].EndsSignature() then SignatureEnd(lines, i + 1) else i
  }

  /** The end of the body that starts at `i`: blank lines and deeper lines belong to it. */
  function BodyEnd(lines: seq<Line>, i: nat): (r: nat)
    requires i <= |lines|
    ensures i <= r <= |lines| && forall k :: i <= k < r ==> lines[k].blank || lines[k].indent > METHOD_INDENT
    ensures r < |lines| ==> !lines[r].blank && lines[r].indent <= METHOD_INDENT
    decreases |lines| - i
  {
    if i < |lines| && (lines[i].blank || lines[i].indent > METHOD_INDENT) then BodyEnd(lines, i + 1) else i
  }

  datatype Parsed = NoBlock | Block(name: string, end: nat)

  /** The method block that starts at `i`, if there is one. */
  function ParseBlock(lines: seq<Line>, i: nat): (p: Parsed)
    requires i < |lines|
    ensures p.Block? ==> i < p.end <= |lines|
  {
    var d := SkipDecorators(lines, i);
    if lines[i].blank || d == |lines| || !lines[d].def || lines[d].name.None? then NoBlock
    else
      var sig := SignatureEnd(lines, d + 1);
      Block(lines[d].name.value, if lines[sig - 1].endsDots then sig else BodyEnd(lines, sig))
  }

  datatype Segment = Plain(line: Line) | Method(name: string, block: seq<Line>)

  function Segments(lines: seq<Line>, i: nat): seq<Segment>
    requires i <= |lines|
    decreases |lines| - i
  {
    if i == |lines| then []
    else
      var p := ParseBlock(lines, i);
      if p.NoBlock? then [Plain(lines[i])] + Segments(lines, i + 1)
      else [Method(p.name, lines[i..p.end])] + Segments(lines, p.end)
  }

  function Text(s: Segment): seq<Line> {
    if s.Plain? then [s.line] else s.block
  }

  function Flatten(segments: seq<Segment>): seq<Line> {
    if segments == [] then [] else Text(segments[0]) + Flatten(segments[1..])
  }

  /** A method block: decorators from `i` up to `d`, a definition, a signature up to the first line that ends one or the
  end of the body, and unless that ends in dots all lines that are blank or indented by more than four. */
  ghost predicate BlockAt(lines: seq<Line>, i: nat, d: nat, sig: nat, name: string, end: nat) {
    && i <= d < sig <= end <= |lines| && !lines[i].blank
    && (forall k :: i <= k < d ==> lines[k].decorator)
    && !lines[d].decorator && lines[d].def && lines[d].name == Some(name)
    && (forall k :: d <= k < sig - 1 ==> !lines[k].endsColon && !lines[k].endsDots)
    && (sig == |lines| || lines[sig - 1].endsColon || lines[sig - 1].endsDots)
    && if lines[sig - 1].endsDots then end == sig
       else
         && (forall k :: sig <= k < end ==> lines[k].blank || lines[k].indent > 4)
         && (end < |lines| ==> !lines[end].blank && lines[end].indent <= 4)
  }

  lemma {:induction false} ParsesBlock(lines: seq<Line>, i: nat)
    requires i < |lines|
    ensures var p := ParseBlock(lines, i);
            if p.Block? then exists d, sig :: BlockAt(lines, i, d, sig, p.name, p.end)
            else
              || lines[i].blank
              || exists d :: i <= d <= |lines| && (forall k :: i <= k < d ==> lines[k].decorator)
                             && (d == |lines| || (!lines[d].decorator && (!lines[d].def || lines[d].name.None?)))
  {
    var d := SkipDecorators(lines, i);
    var p := ParseBlock(lines, i);
    if p.Block? {
      var sig := SignatureEnd(lines, d + 1);
      hide SkipDecorators;
      hide SignatureEnd;
      hide BodyEnd;
      assert BlockAt(lines, i, d, sig, p.name, p.end);
    }
  }

  /** Cutting terminates and consumes every line of the body exactly once. */
  lemma {:induction false} SegmentsAreLossless(lines: seq<Line>, i: nat)
    requires i <= |lines|
    ensures Flatten(Segments(lines, i)) == lines[i..]
    decreases |lines| - i
  {
    if i < |lines| {
      var p := ParseBlock(lines, i);
      var end := if p.NoBlock? then i + 1 else p.end;
      SegmentsAreLossless(lines, end);
      assert lines[i..] == lines[i..end] + lines[end..];
      var segments := Segments(lines, i);
      assert segments[1..] == Segments(lines, end);
      assert Text(segments[0]) == lines[i..end];
    }
  }

  // Which methods are kept

  /** The names used up by a segment: its own and the one it is renamed to. */
  function NamesOf(fixup: Fixup, s: Segment): set<string> {
    if s.Plain? then {} else {s.name, fixup.Resolved(s.name)}
  }

  function Seen(fixup: Fixup, segments: seq<Segment>): set<string> {
    if segments == [] then {} else Seen(fixup, segments[..|segments| - 1]) + NamesOf(fixup, segments[|segments| - 1])
  }

  /** A block is kept if no earlier one used its names and neither of them is suppressed. */
  predicate Kept(fixup: Fixup, before: seq<Segment>, s: Segment) {
    s.Method? && NamesOf(fixup, s) !! Seen(fixup, before) && NamesOf(fixup, s) !! fixup.suppressed
  }

  /** The rewritten lines of the segments. */
  function Emitted(fixup: Fixup, segments: seq<Segment>): seq<Line> {
    if segments == [] then []
    else
      var before, s := segments[..|segments| - 1], segments[|segments| - 1];
      if s.Plain? then Emitted(fixup, before) + [s.line]
      else if Kept(fixup, before, s) then Emitted(fixup, before) + fixup.rewrite(s.name, s.block)
      else Emitted(fixup, before)
  }

  /** The resolved names of the methods among them. */
  function EmittedNames(fixup: Fixup, segments: seq<Segment>): seq<string> {
    if segments == [] then []
    else
      var before, s := segments[..|segments| - 1], segments[|segments| - 1];
      if Kept(fixup, before, s) then EmittedNames(fixup, before) + [fixup.Resolved(s.name)]
      else EmittedNames(fixup, before)
  }

  /** The injected methods whose names are not used. */
  function Missing(fixup: Fixup, seen: set<string>, n: nat): seq<(string, seq<Line>)>
    requires n <= |fixup.injected|
  {
    if n == 0 then []
    else
      var before, m := Missing(fixup, seen, n - 1), fixup.injected[n - 1];
      if m.0 in seen then before else before + [m]
  }

  function Names(ms: seq<(string, seq<Line>)>): (r: seq<string>)
    ensures |r| == |ms| && forall i :: 0 <= i < |ms| ==> r[i] == ms[i].0
  {
    if ms == [] then [] else Names(ms[..|ms| - 1]) + [ms[|ms| - 1].0]
  }

  ghost predicate Distinct(names: seq<string>) {
    forall i, j :: 0 <= i < j < |names| ==> names[i] != names[j]
  }

  lemma {:induction false} EmittedAreSeen(fixup: Fixup, segments: seq<Segment>)
    ensures forall name <- EmittedNames(fixup, segments) :: name in Seen(fixup, segments) && name !in fixup.suppressed
    ensures Distinct(EmittedNames(fixup, segments))
  {
    if segments != [] {
      var before, s := segments[..|segments| - 1], segments[|segments| - 1];
      EmittedAreSeen(fixup, before);
      if Kept(fixup, before, s) {
        DistinctPush(EmittedNames(fixup, before), fixup.Resolved(s.name));
      }
    }
  }

  lemma {:induction false} DistinctPush(names: seq<string>, name: string)
    requires Distinct(names) && name !in names
    ensures Distinct(names + [name])
  {
    var r := names + [name];
    forall i, j | 0 <= i < j < |r| ensures r[i] != r[j] {
      assert names[i] in names;
    }
  }

  /** One of the first `n` injected methods has this name. */
  ghost predicate InjectedAs(fixup: Fixup, n: nat, name: string)
    requires n <= |fixup.injected|
  {
    exists i :: 0 <= i < n && fixup.injected[i].0 == name
  }

  lemma {:induction false} MissingNames(fixup: Fixup, seen: set<string>, n: nat)
    requires n <= |fixup.injected| && Distinct(Names(fixup.injected))
    ensures Distinct(Names(Missing(fixup, seen, n)))
    ensures forall name :: name in Names(Missing(fixup, seen, n)) <==> name !in seen && InjectedAs(fixup, n, name)
  {
    if n > 0 {
      var before, m := Missing(fixup, seen, n - 1), fixup.injected[n - 1];
      assert Missing(fixup, seen, n) == if m.0 in seen then before else before + [m];
      hide *;
      MissingNames(fixup, seen, n - 1);
      InjectedNext(fixup, n);
      if m.0 !in seen {
        NamesPush(before, m);
        DistinctPush(Names(before), m.0);
      }
    } else {
      assert Missing(fixup, seen, n) == [];
    }
  }

  lemma {:induction false} InjectedNext(fixup: Fixup, n: nat)
    requires 0 < n <= |fixup.injected| && Distinct(Names(fixup.injected))
    ensures forall name ::
              InjectedAs(fixup, n, name) <==> InjectedAs(fixup, n - 1, name) || name == fixup.injected[n - 1].0
    ensures !InjectedAs(fixup, n - 1, fixup.injected[n - 1].0)
  {
    assert forall i :: 0 <= i < n - 1 ==> Names(fixup.injected)[i] != Names(fixup.injected)[n - 1];
  }

  lemma {:induction false} NamesPush(ms: seq<(string, seq<Line>)>, m: (string, seq<Line>))
    ensures Names(ms + [m]) == Names(ms) + [m.0]
  {
    assert (ms + [m])[..|ms|] == ms;
  }

  /** The methods of a rewritten class. */
  function ResultNames(fixup: Fixup, body: seq<Line>): seq<string> {
    var segments := Segments(body, 0);
    EmittedNames(fixup, segments) + Names(Missing(fixup, Seen(fixup, segments), |fixup.injected|))
  }

  /** A rewritten class has no two methods of the same name, injected ones included, none of its own methods is
  suppressed, and every injected method is there under its own or an earlier definition. */
  lemma {:induction false} ResultNamesDistinct(fixup: Fixup, body: seq<Line>)
    requires Distinct(Names(fixup.injected))
    ensures Distinct(ResultNames(fixup, body))
    ensures forall name <- EmittedNames(fixup, Segments(body, 0)) :: name !in fixup.suppressed
    ensures forall i :: 0 <= i < |fixup.injected| ==>
              fixup.injected[i].0 in ResultNames(fixup, body) || fixup.injected[i].0 in Seen(fixup, Segments(body, 0))
  {
    var segments := Segments(body, 0);
    var seen := Seen(fixup, segments);
    var own, more := EmittedNames(fixup, segments), Names(Missing(fixup, seen, |fixup.injected|));
    EmittedAreSeen(fixup, segments);
    MissingNames(fixup, seen, |fixup.injected|);
    forall i, j | 0 <= i < j < |own + more| ensures (own + more)[i] != (own + more)[j] {
      if i < |own| <= j {
        assert own[i] in own && more[j - |own|] in more;
      }
    }
    forall i | 0 <= i < |fixup.injected| && fixup.injected[i].0 !in seen ensures fixup.injected[i].0 in own + more {
      assert InjectedAs(fixup, |fixup.injected|, fixup.injected[i].0);
    }
  }

  // Which methods are lost

  /** The method is the first of its resolved name, which is not suppressed. */
  ghost predicate Wanted(fixup: Fixup, before: seq<Segment>, s: Segment) {
    && s.Method? && fixup.Resolved(s.name) !in fixup.suppressed
    && forall b <- before :: b.Method? ==> fixup.Resolved(b.name) != fixup.Resolved(s.name)
  }

  /** No earlier method is renamed to its old name, none has its new name and another one itself, and its old name
  is not suppressed. */
  ghost predicate Unchained(fixup: Fixup, before: seq<Segment>, s: Segment)
    requires s.Method?
  {
    && (forall b <- before :: b.Method? && b.name != s.name ==> fixup.Resolved(b.name) != s.name)
    && (forall b <- before :: b.Method? && b.name == fixup.Resolved(s.name) ==> fixup.Resolved(b.name) == b.name)
    && s.name !in fixup.suppressed
  }

  lemma {:induction false} SeenIs(fixup: Fixup, segments: seq<Segment>)
    ensures forall name :: name in Seen(fixup, segments) <==>
              exists b <- segments :: b.Method? && (name == b.name || name == fixup.Resolved(b.name))
  {
    if segments != [] {
      var before, s := segments[..|segments| - 1], segments[|segments| - 1];
      SeenIs(fixup, before);
      assert forall b :: b in segments <==> b in before || b == s;
    }
  }

  /** Only wanted methods are kept, and those exactly if they are in no chain of renames. */
  lemma {:induction false} KeptIff(fixup: Fixup, before: seq<Segment>, s: Segment)
    requires s.Method?
    ensures Kept(fixup, before, s) <==> Wanted(fixup, before, s) && Unchained(fixup, before, s)
  {
    SeenIs(fixup, before);
    hide Seen;
  }

  /** The method at `i` is kept under this name. */
  ghost predicate KeptAs(fixup: Fixup, segments: seq<Segment>, i: nat, name: string) {
    i < |segments| && Kept(fixup, segments[..i], segments[i]) && fixup.Resolved(segments[i].name) == name
  }

  lemma {:induction false} EmittedIff(fixup: Fixup, segments: seq<Segment>, name: string)
    ensures name in EmittedNames(fixup, segments) <==> exists i :: KeptAs(fixup, segments, i, name)
  {
    if segments != [] {
      var n := |segments| - 1;
      EmittedIff(fixup, segments[..n], name);
      hide Kept;
      assert forall i :: 0 <= i < n ==> segments[..n][..i] == segments[..i] && segments[..n][i] == segments[i];
      forall i: nat | i < n ensures KeptAs(fixup, segments, i, name) == KeptAs(fixup, segments[..n], i, name) {
      }
      assert KeptAs(fixup, segments, n, name) ==> name in EmittedNames(fixup, segments);
    }
  }

  /** A class ends up without a method that it should have, under any definition, exactly when that method is in a
  chain of renames. */
  lemma {:induction false} LostIff(fixup: Fixup, body: seq<Line>, i: nat)
    requires var segments := Segments(body, 0); i < |segments| && Wanted(fixup, segments[..i], segments[i])
    requires Distinct(Names(fixup.injected))
    ensures var segments := Segments(body, 0);
            fixup.Resolved(segments[i].name) in ResultNames(fixup, body) <==>
              Unchained(fixup, segments[..i], segments[i])
  {
    hide Segments;
    var segments := Segments(body, 0);
    var name := fixup.Resolved(segments[i].name);
    var seen := Seen(fixup, segments);
    var own, more := EmittedNames(fixup, segments), Names(Missing(fixup, seen, |fixup.injected|));
    assert ResultNames(fixup, body) == own + more;
    assert name in seen by {
      SeenIs(fixup, segments);
      assert segments[i] in segments;
    }
    assert KeptAs(fixup, segments, i, name) == Kept(fixup, segments[..i], segments[i]);
    hide *;
    OnlyFirst(fixup, segments, i);
    EmittedIff(fixup, segments, name);
    KeptIff(fixup, segments[..i], segments[i]);
    MissingNames(fixup, seen, |fixup.injected|);
  }

  lemma {:induction false} OnlyFirst(fixup: Fixup, segments: seq<Segment>, i: nat)
    requires i < |segments| && Wanted(fixup, segments[..i], segments[i])
    ensures forall j :: KeptAs(fixup, segments, j, fixup.Resolved(segments[i].name)) ==> j == i
  {
    assert forall j :: 0 <= j < i ==> segments[..i][j] in segments[..i];
    assert forall j :: i < j < |segments| ==> segments[..j][i] in segments[..j];
    forall j: nat | j < |segments|
      ensures Kept(fixup, segments[..j], segments[j]) ==> Wanted(fixup, segments[..j], segments[j])
    {
      if segments[j].Method? {
        KeptIff(fixup, segments[..j], segments[j]);
      }
    }
    hide Kept;
  }

  /** A method on one line. */
  function OneLiner(name: string): Line {
    Line("    def " + name + "(self): ...", false, true, false, false, true, METHOD_INDENT, Some(name))
  }

  /** Such a chain: with `a` renamed to `b`, and `b` to `c`, the class that defines `a` and `b` ends up without `c`. */
  lemma {:induction false} RenamedChainLosesMethod(fixup: Fixup, a: string, b: string, c: string)
    requires a in fixup.renames && fixup.renames[a] == b && b in fixup.renames && fixup.renames[b] == c
    requires a != b && b != c && c !in fixup.suppressed
    requires Distinct(Names(fixup.injected))
    ensures c !in ResultNames(fixup, [OneLiner(a), OneLiner(b)])
  {
    var body := [OneLiner(a), OneLiner(b)];
    var segments := [Method(a, [OneLiner(a)]), Method(b, [OneLiner(b)])];
    assert Segments(body, 0) == segments by {
      assert ParseBlock(body, 0) == Block(a, 1) && ParseBlock(body, 1) == Block(b, 2);
      assert body[0..1] == [OneLiner(a)] && body[1..2] == [OneLiner(b)];
      assert Segments(body, 2) == [];
    }
    hide Segments;
    assert segments[..1] == [Method(a, [OneLiner(a)])];
    assert Method(a, [OneLiner(a)]) in segments[..1];
    LostIff(fixup, body, 1);
  }

  // The loops

  /** How many lines remain without trailing blank lines. */
  function BodyLength(lines: seq<Line>): (n: nat)
    ensures n <= |lines| && (forall i :: n <= i < |lines| ==> lines[i].blank) && (n > 0 ==> !lines[n - 1].blank)
  {
    if lines == [] || !lines[|lines| - 1].blank then |lines| else BodyLength(lines[..|lines| - 1])
  }

  /** The injected methods, separated by blank lines. */
  function Injected(ms: seq<(string, seq<Line>)>): seq<Line> {
    if ms == [] then []
    else if |ms| == 1 then ms[0].1
    else Injected(ms[..|ms| - 1]) + [BLANK] + ms[|ms| - 1].1
  }

  /** Injected methods go before the blank lines at the end of a class. */
  function Assemble(lines: seq<Line>, ms: seq<(string, seq<Line>)>): seq<Line> {
    if ms == [] then lines
    else
      var n := BodyLength(lines);
      lines[..n] + (if n > 0 then [BLANK] else []) + Injected(ms) + lines[n..]
  }

  /** Some methods, each after a blank line. */
  function Separated(ms: seq<(string, seq<Line>)>): seq<Line> {
    if ms == [] then [] else [BLANK] + ms[0].1 + Separated(ms[1..])
  }

  lemma {:induction false} SeparatedPush(ms: seq<(string, seq<Line>)>, m: (string, seq<Line>))
    ensures Separated(ms + [m]) == Separated(ms) + [BLANK] + m.1
  {
    if ms == [] {
      assert (ms + [m])[1..] == [];
    } else {
      assert (ms + [m])[1..] == ms[1..] + [m];
      SeparatedPush(ms[1..], m);
    }
  }

  lemma {:induction false} InjectedIsSeparated(ms: seq<(string, seq<Line>)>)
    requires ms != []
    ensures [BLANK] + Injected(ms) == Separated(ms)
  {
    var before, m := ms[..|ms| - 1], ms[|ms| - 1];
    assert ms == before + [m];
    SeparatedPush(before, m);
    if before != [] {
      InjectedIsSeparated(before);
    }
  }

  /** Missing methods go in after the last line that is not blank, each after a blank line, and every other line
  stays. */
  lemma {:induction false} AssembleInserts(lines: seq<Line>, ms: seq<(string, seq<Line>)>) returns (n: nat)
    requires lines != [] && !lines[0].blank
    ensures 0 < n <= |lines| && !lines[n - 1].blank && (forall i :: n <= i < |lines| ==> lines[i].blank)
    ensures Assemble(lines, ms) == lines[..n] + Separated(ms) + lines[n..]
  {
    n := BodyLength(lines);
    if ms == [] {
      assert lines == lines[..n] + [] + lines[n..];
    } else {
      InjectedIsSeparated(ms);
      assert Assemble(lines, ms) == lines[..n] + [BLANK] + Injected(ms) + lines[n..];
      hide Separated;
      hide Injected;
    }
  }

  method ApplyClassBlockFixups(header: Line, body: seq<Line>, fixup: Fixup) returns (result: seq<Line>)
    ensures var segments := Segments(body, 0);
            result == Assemble([header] + Emitted(fixup, segments),
                               Missing(fixup, Seen(fixup, segments), |fixup.injected|))
  {
    hide *;
    var lines, seen := EmitBody(header, body, fixup);
    result := Inject(lines, fixup, seen);
  }

  /** The lines and names after the segments `done`, which reach up to line `i`. */
  ghost predicate EmittedSoFar(header: Line, body: seq<Line>, fixup: Fixup, i: nat, lines: seq<Line>, seen: set<string>,
                               done: seq<Segment>)
  {
    && i <= |body|
    && Segments(body, 0) == done + Segments(body, i)
    && lines == [header] + Emitted(fixup, done)
    && seen == Seen(fixup, done)
  }

  lemma {:induction false} EmitNone(header: Line, body: seq<Line>, fixup: Fixup)
    ensures EmittedSoFar(header, body, fixup, 0, [header], {}, [])
  {
  }

  lemma {:induction false} EmitPlain(header: Line, body: seq<Line>, fixup: Fixup, i: nat, lines: seq<Line>,
                                     seen: set<string>, done: seq<Segment>)
    requires EmittedSoFar(header, body, fixup, i, lines, seen, done) && i < |body| && ParseBlock(body, i).NoBlock?
    ensures EmittedSoFar(header, body, fixup, i + 1, lines + [body[i]], seen, done + [Plain(body[i])])
  {
    hide Segments;
    hide Emitted;
    hide Seen;
    hide ParseBlock;
    SegmentStep(body, i);
    PlainPush(fixup, done, body[i]);
    Associates(done, [Plain(body[i])], Segments(body, i + 1));
    Associates([header], Emitted(fixup, done), [body[i]]);
  }

  lemma {:induction false} EmitBlock(header: Line, body: seq<Line>, fixup: Fixup, i: nat, lines: seq<Line>,
                                     seen: set<string>, done: seq<Segment>, lines': seq<Line>, seen': set<string>)
    requires EmittedSoFar(header, body, fixup, i, lines, seen, done) && i < |body| && ParseBlock(body, i).Block?
    requires var p := ParseBlock(body, i);
             var s := Method(p.name, body[i..p.end]);
             lines' == [header] + Emitted(fixup, done + [s]) && seen' == Seen(fixup, done + [s])
    ensures var p := ParseBlock(body, i);
            EmittedSoFar(header, body, fixup, p.end, lines', seen', done + [Method(p.name, body[i..p.end])])
  {
    hide Segments;
    hide Emitted;
    hide Seen;
    hide ParseBlock;
    SegmentStep(body, i);
    var p := ParseBlock(body, i);
    Associates(done, [Method(p.name, body[i..p.end])], Segments(body, p.end));
  }

  lemma {:induction false} EmitDone(header: Line, body: seq<Line>, fixup: Fixup, lines: seq<Line>, seen: set<string>,
                                    done: seq<Segment>)
    requires EmittedSoFar(header, body, fixup, |body|, lines, seen, done)
    ensures lines == [header] + Emitted(fixup, Segments(body, 0)) && seen == Seen(fixup, Segments(body, 0))
  {
    assert Segments(body, |body|) == [];
    hide *;
    Unit(done);
  }

  lemma {:induction false} EmittedNow(header: Line, body: seq<Line>, fixup: Fixup, i: nat, lines: seq<Line>,
                                      seen: set<string>, done: seq<Segment>)
    requires EmittedSoFar(header, body, fixup, i, lines, seen, done)
    ensures lines == [header] + Emitted(fixup, done) && seen == Seen(fixup, done)
  {
  }

  /** Rewrite, drop or copy each segment of a class body. */
  method EmitBody(header: Line, body: seq<Line>, fixup: Fixup) returns (result: seq<Line>, seen: set<string>)
    ensures result == [header] + Emitted(fixup, Segments(body, 0))
    ensures seen == Seen(fixup, Segments(body, 0))
  {
    hide *;
    result, seen := [header], {};
    var i := 0;
    ghost var done: seq<Segment> := [];
    EmitNone(header, body, fixup);
    while i < |body|
      invariant 0 <= i <= |body|
      invariant EmittedSoFar(header, body, fixup, i, result, seen, done)
    {
      var p := ParseBlock(body, i);
      if p.NoBlock? {
        EmitPlain(header, body, fixup, i, result, seen, done);
        done := done + [Plain(body[i])];
        result := result + [body[i]];
        i := i + 1;
      } else {
        EmittedNow(header, body, fixup, i, result, seen, done);
        var lines', seen' := EmitMethod(result, seen, p.name, body[i..p.end], fixup, header, done);
        EmitBlock(header, body, fixup, i, result, seen, done, lines', seen');
        done := done + [Method(p.name, body[i..p.end])];
        result, seen := lines', seen';
        i := p.end;
      }
    }
    EmitDone(header, body, fixup, result, seen, done);
  }

  /** One method block: rewritten, unless one of its names was seen before or is suppressed. */
  method EmitMethod(lines: seq<Line>, seen: set<string>, name: string, block: seq<Line>, fixup: Fixup,
                    ghost header: Line, ghost done: seq<Segment>)
    returns (result: seq<Line>, seen': set<string>)
    requires lines == [header] + Emitted(fixup, done) && seen == Seen(fixup, done)
    ensures result == [header] + Emitted(fixup, done + [Method(name, block)])
    ensures seen' == Seen(fixup, done + [Method(name, block)])
  {
    hide *;
    EmitPush(fixup, done, Method(name, block));
    KeptIs(fixup, done, name, block);
    var resolved := fixup.Resolved(name);
    var duplicate := name in seen || resolved in seen;
    seen' := seen + {name, resolved};
    var suppressed := name in fixup.suppressed || resolved in fixup.suppressed;
    if !duplicate && !suppressed {
      Associates([header], Emitted(fixup, done), fixup.rewrite(name, block));
      result := lines + fixup.rewrite(name, block);
    } else {
      result := lines;
    }
  }

  lemma {:induction false} PlainPush(fixup: Fixup, done: seq<Segment>, line: Line)
    ensures Seen(fixup, done + [Plain(line)]) == Seen(fixup, done)
    ensures Emitted(fixup, done + [Plain(line)]) == Emitted(fixup, done) + [line]
  {
    EmitPush(fixup, done, Plain(line));
  }

  lemma {:induction false} KeptIs(fixup: Fixup, done: seq<Segment>, name: string, block: seq<Line>)
    ensures NamesOf(fixup, Method(name, block)) == {name, fixup.Resolved(name)}
    ensures Kept(fixup, done, Method(name, block)) <==>
              && !(name in Seen(fixup, done) || fixup.Resolved(name) in Seen(fixup, done))
              && !(name in fixup.suppressed || fixup.Resolved(name) in fixup.suppressed)
  {
    hide Seen;
  }

  lemma {:induction false} SegmentStep(body: seq<Line>, i: nat)
    requires i < |body|
    ensures var p := ParseBlock(body, i);
            Segments(body, i)
            == if p.NoBlock? then [Plain(body[i])] + Segments(body, i + 1)
               else [Method(p.name, body[i..p.end])] + Segments(body, p.end)
  {
  }

  lemma {:induction false} EmitPush(fixup: Fixup, done: seq<Segment>, s: Segment)
    ensures Seen(fixup, done + [s]) == Seen(fixup, done) + NamesOf(fixup, s)
    ensures Emitted(fixup, done + [s])
         == if s.Plain? then Emitted(fixup, done) + [s.line]
            else if Kept(fixup, done, s) then Emitted(fixup, done) + fixup.rewrite(s.name, s.block)
            else Emitted(fixup, done)
  {
    assert (done + [s])[..|done|] == done;
  }

  /** Add the missing methods before the trailing blank lines. */
  method Inject(lines: seq<Line>, fixup: Fixup, seen: set<string>) returns (result: seq<Line>)
    ensures result == Assemble(lines, Missing(fixup, seen, |fixup.injected|))
  {
    result := lines;
    var missing := Missing(fixup, seen, |fixup.injected|);
    if missing == [] {
      return;
    }
    var trailing;
    result, trailing := PopBlankLines(lines);
    if result != [] {
      result := result + [BLANK];
    }
    result := AppendMethods(result, missing);
    result := result + trailing;
  }

  method PopBlankLines(lines: seq<Line>) returns (result: seq<Line>, trailing: seq<Line>)
    ensures result == lines[..BodyLength(lines)] && trailing == lines[BodyLength(lines)..]
  {
    result, trailing := lines, [];
    while result != [] && result[|result| - 1].blank
      invariant |result| <= |lines| && result == lines[..|result|] && trailing == lines[|result|..]
      invariant BodyLength(result) == BodyLength(lines)
      decreases |result|
    {
      trailing := [result[|result| - 1]] + trailing;
      result := result[..|result| - 1];
    }
  }

  method AppendMethods(base: seq<Line>, missing: seq<(string, seq<Line>)>) returns (result: seq<Line>)
    requires missing != []
    ensures result == base + Injected(missing)
  {
    result := base + missing[0].1;
    var i := 1;
    assert missing[..1] == [missing[0]];
    while i < |missing|
      invariant 1 <= i <= |missing|
      invariant result == base + Injected(missing[..i])
    {
      InjectedPush(missing[..i], missing[i]);
      assert missing[..i + 1] == missing[..i] + [missing[i]];
      ghost var before := Injected(missing[..i]);
      hide Injected;
      result := result + [BLANK] + missing[i].1;
      assert result == base + (before + [BLANK] + missing[i].1);
      i := i + 1;
    }
    assert missing[..i] == missing;
  }

  lemma {:induction false} InjectedPush(ms: seq<(string, seq<Line>)>, m: (string, seq<Line>))
    requires ms != []
    ensures Injected(ms + [m]) == Injected(ms) + [BLANK] + m.1
  {
    assert (ms + [m])[..|ms|] == ms;
  }

  /** Split a method block into decorators, signature lines and the rest; the three parts make up the block. */
  method SplitMethodBlock(block: seq<Line>) returns (decorators: seq<Line>, signature: seq<Line>, remainder: seq<Line>)
    ensures decorators + signature + remainder == block
    ensures forall line <- decorators :: line.decorator
    ensures signature == [] ==> remainder == []
    ensures signature != [] ==> !signature[0].decorator
    ensures forall i :: 0 <= i < |signature| - 1 ==> !signature[i].EndsSignature()
    ensures remainder != [] ==> signature[|signature| - 1].EndsSignature()
  {
    decorators := [];
    var start := 0;
    while start < |block| && block[start].decorator
      invariant 0 <= start <= |block|
      invariant decorators == block[..start] && forall line <- decorators :: line.decorator
    {
      decorators := decorators + [block[start]];
      start := start + 1;
    }
    signature := [];
    var end := start;
    while end < |block|
      invariant start <= end <= |block|
      invariant signature == block[start..end]
      invariant forall i :: 0 <= i < |signature| ==> !signature[i].EndsSignature()
    {
      signature := signature + [block[end]];
      end := end + 1;
      if signature[|signature| - 1].EndsSignature() {
        break;
      }
    }
    remainder := block[end..];
  }
}
