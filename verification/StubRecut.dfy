/** The methods of a rewritten class, read off its lines: cutting the result into blocks again finds exactly the
names that were meant to be there. */
module StubRecut {
  import opened Wrappers
  import opened StubClasses

  /** The names of the methods among some segments. */
  function MethodNames(segments: seq<Segment>): seq<string> {
    if segments == [] then []
    else if segments[0].Plain? then MethodNames(segments[1..])
    else [segments[0].name] + MethodNames(segments[1..])
  }

  lemma {:induction false} MethodNamesAppend(a: seq<Segment>, b: seq<Segment>)
    ensures MethodNames(a + b) == MethodNames(a) + MethodNames(b)
  {
    if a == [] {
      assert a + b == b;
    } else {
      assert (a + b)[1..] == a[1..] + b;
      MethodNamesAppend(a[1..], b);
    }
  }

  lemma {:induction false} FlattenAppend(a: seq<Segment>, b: seq<Segment>)
    ensures Flatten(a + b) == Flatten(a) + Flatten(b)
  {
    if a == [] {
      assert a + b == b;
    } else {
      assert (a + b)[1..] == a[1..] + b;
      FlattenAppend(a[1..], b);
    }
  }

  /** The lines are one method block of this name whose signature ends. */
  predicate OneBlock(block: seq<Line>, name: string) {
    && block != [] && (forall line <- block :: line.Valid())
    && ParseBlock(block, 0) == Block(name, |block|)
    && block[SignatureEnd(block, SkipDecorators(block, 0) + 1) - 1].EndsSignature()
  }

  /** Pieces that are found again in the text they make up: what is not a method does not turn into one. */
  ghost predicate Recuttable(pieces: seq<Segment>) {
    forall i :: 0 <= i < |pieces| ==> PieceOk(pieces, i)
  }

  predicate PieceOk(pieces: seq<Segment>, i: nat)
    requires i < |pieces|
  {
    match pieces[i]
    case Method(name, block) => OneBlock(block, name)
    case Plain(line) =>
      && line.Valid()
      && (line.def ==> line.name.None? || line.decorator)
      && (line.decorator && i + 1 < |pieces| ==> pieces[i + 1].Plain?)
  }

  lemma {:induction false} RecuttableRest(pieces: seq<Segment>)
    requires Recuttable(pieces) && pieces != []
    ensures Recuttable(pieces[1..])
  {
    forall i | 0 <= i < |pieces| - 1 ensures PieceOk(pieces[1..], i) {
      assert PieceOk(pieces, i + 1);
    }
  }

  // A block in its context

  /** The lines from `i` on start with `block`. */
  predicate At(lines: seq<Line>, i: nat, block: seq<Line>) {
    i + |block| <= |lines| && forall k :: 0 <= k < |block| ==> lines[i + k] == block[k]
  }

  lemma {:induction false} SkipAt(lines: seq<Line>, i: nat, block: seq<Line>, k: nat)
    requires At(lines, i, block) && k <= |block| && SkipDecorators(block, k) < |block|
    ensures SkipDecorators(lines, i + k) == i + SkipDecorators(block, k)
    decreases |block| - k
  {
    if block[k].decorator {
      SkipAt(lines, i, block, k + 1);
    }
  }

  lemma {:induction false} SignatureAt(lines: seq<Line>, i: nat, block: seq<Line>, k: nat)
    requires At(lines, i, block) && 0 < k <= |block| && block[SignatureEnd(block, k) - 1].EndsSignature()
    ensures SignatureEnd(lines, i + k) == i + SignatureEnd(block, k)
    decreases |block| - k
  {
    assert lines[i + k - 1] == block[k - 1];
    if k < |block| && !block[k - 1].EndsSignature() {
      SignatureAt(lines, i, block, k + 1);
    }
  }

  lemma {:induction false} BodyAt(lines: seq<Line>, i: nat, block: seq<Line>, k: nat)
    requires At(lines, i, block) && k <= |block| && BodyEnd(block, k) == |block|
    ensures BodyEnd(lines, i + k) == BodyEnd(lines, i + |block|)
    decreases |block| - k
  {
    if k < |block| {
      assert lines[i + k] == block[k];
      BodyAt(lines, i, block, k + 1);
    }
  }

  /** Where the parts of a block are. */
  ghost predicate BlockParts(block: seq<Line>, name: string, d: nat, sig: nat) {
    && d < sig <= |block| && !block[0].blank
    && d == SkipDecorators(block, 0) && block[d].def && block[d].name == Some(name)
    && sig == SignatureEnd(block, d + 1) && block[sig - 1].EndsSignature()
    && if block[sig - 1].endsDots then sig == |block| else BodyEnd(block, sig) == |block|
  }

  lemma {:induction false} OneBlockParts(block: seq<Line>, name: string)
    requires block != []
    ensures OneBlock(block, name) <==>
              (forall line <- block :: line.Valid())
              && exists d, sig :: BlockParts(block, name, d, sig)
  {
    var d := SkipDecorators(block, 0);
    if d < |block| {
      var sig := SignatureEnd(block, d + 1);
      hide SkipDecorators;
      hide SignatureEnd;
      hide BodyEnd;
      assert OneBlock(block, name) ==> BlockParts(block, name, d, sig);
    }
  }

  lemma {:induction false} ParseIs(lines: seq<Line>, i: nat, name: string, d: nat, sig: nat)
    requires i <= d < sig <= |lines| && !lines[i].blank && SkipDecorators(lines, i) == d
    requires lines[d].def && lines[d].name == Some(name) && SignatureEnd(lines, d + 1) == sig
    ensures ParseBlock(lines, i) == Block(name, if lines[sig - 1].endsDots then sig else BodyEnd(lines, sig))
  {
    hide SkipDecorators;
    hide SignatureEnd;
    hide BodyEnd;
  }

  lemma {:induction false} PartsIn(lines: seq<Line>, i: nat, block: seq<Line>, name: string, d: nat, sig: nat)
    requires At(lines, i, block) && BlockParts(block, name, d, sig)
    ensures i + d < i + sig <= i + |block| <= |lines| && !lines[i].blank && lines[i + d].def
            && lines[i + d].name == Some(name)
    ensures lines[i + sig - 1].endsDots ==> sig == |block|
    ensures !lines[i + sig - 1].endsDots ==> BodyEnd(block, sig) == |block|
  {
    hide SkipDecorators;
    hide SignatureEnd;
    hide BodyEnd;
    assert lines[i + 0] == block[0] && lines[i + d] == block[d] && lines[i + (sig - 1)] == block[sig - 1];
  }

  lemma {:induction false} PartsEnds(lines: seq<Line>, i: nat, block: seq<Line>, name: string, d: nat, sig: nat)
    requires At(lines, i, block) && BlockParts(block, name, d, sig) && i + d < i + sig <= |lines|
    ensures SkipDecorators(lines, i) == i + d && SignatureEnd(lines, i + d + 1) == i + sig
  {
    hide At;
    hide SkipDecorators;
    hide SignatureEnd;
    hide BodyEnd;
    SkipAt(lines, i, block, 0);
    SignatureAt(lines, i, block, d + 1);
  }

  lemma {:induction false} PartsParse(lines: seq<Line>, i: nat, block: seq<Line>, name: string, d: nat, sig: nat)
    requires At(lines, i, block) && BlockParts(block, name, d, sig)
    ensures i < |lines| && i + |block| <= |lines|
    ensures ParseBlock(lines, i) == Block(name, i + |block|)
            || ParseBlock(lines, i) == Block(name, BodyEnd(lines, i + |block|))
  {
    hide *;
    PartsIn(lines, i, block, name, d, sig);
    PartsEnds(lines, i, block, name, d, sig);
    ParseIs(lines, i, name, i + d, i + sig);
    if !lines[i + sig - 1].endsDots {
      BodyAt(lines, i, block, sig);
    }
  }

  /** A block is parsed in any context; what follows may be drawn into its body. */
  lemma {:induction false} BlockParses(lines: seq<Line>, i: nat, block: seq<Line>, name: string)
    requires At(lines, i, block) && OneBlock(block, name)
    ensures i < |lines|
    ensures var p := ParseBlock(lines, i);
            p == Block(name, i + |block|) || p == Block(name, BodyEnd(lines, i + |block|))
  {
    assert block != [];
    hide *;
    OneBlockParts(block, name);
    var d, sig :| BlockParts(block, name, d, sig);
    PartsParse(lines, i, block, name, d, sig);
  }

  // Cutting again

  lemma {:induction false} TextAt(lines: seq<Line>, i: nat, pieces: seq<Segment>)
    requires i <= |lines| && lines[i..] == Flatten(pieces) && pieces != []
    ensures var text := Text(pieces[0]);
            At(lines, i, text) && lines[i + |text|..] == Flatten(pieces[1..])
  {
    var text := Text(pieces[0]);
    assert Flatten(pieces) == text + Flatten(pieces[1..]);
    assert |lines[i..]| == |text| + |Flatten(pieces[1..])|;
    forall k | 0 <= k < |text| ensures lines[i + k] == text[k] {
      assert lines[i..][k] == lines[i + k];
    }
    assert lines[i + |text|..] == lines[i..][|text|..];
  }

  /** A decorator that decorates nothing still does not. */
  lemma {:induction false} DanglingDecorator(lines: seq<Line>, i: nat, pieces: seq<Segment>)
    requires i <= |lines| && lines[i..] == Flatten(pieces) && Recuttable(pieces) && (pieces != [] ==> pieces[0].Plain?)
    ensures var d := SkipDecorators(lines, i); d < |lines| ==> !lines[d].def || lines[d].name.None?
    decreases |pieces|
  {
    if pieces != [] {
      TextAt(lines, i, pieces);
      assert PieceOk(pieces, 0);
      var line := pieces[0].line;
      assert lines[i + 0] == line;
      if line.decorator {
        RecuttableRest(pieces);
        DanglingDecorator(lines, i + 1, pieces[1..]);
      }
    }
  }

  lemma {:induction false} PlainParses(lines: seq<Line>, i: nat, pieces: seq<Segment>)
    requires i <= |lines| && lines[i..] == Flatten(pieces) && Recuttable(pieces) && pieces != [] && pieces[0].Plain?
    ensures i < |lines| && lines[i + 1..] == Flatten(pieces[1..])
    ensures ParseBlock(lines, i) == NoBlock
  {
    TextAt(lines, i, pieces);
    DanglingDecorator(lines, i, pieces);
  }

  lemma {:induction false} MethodAt(lines: seq<Line>, i: nat, pieces: seq<Segment>)
    requires i <= |lines| && lines[i..] == Flatten(pieces) && pieces != [] && pieces[0].Method? && PieceOk(pieces, 0)
    ensures var block := pieces[0].block;
            && OneBlock(block, pieces[0].name) && block != [] && i + |block| <= |lines|
            && At(lines, i, block) && lines[i + |block|..] == Flatten(pieces[1..])
  {
    TextAt(lines, i, pieces);
    assert OneBlock(pieces[0].block, pieces[0].name);
    hide ParseBlock;
    hide Flatten;
  }

  lemma {:induction false} FirstPiece(pieces: seq<Segment>)
    requires Recuttable(pieces) && pieces != []
    ensures PieceOk(pieces, 0)
  {
    hide PieceOk;
  }

  lemma {:induction false} MethodParses(lines: seq<Line>, i: nat, pieces: seq<Segment>)
    requires i <= |lines| && lines[i..] == Flatten(pieces) && Recuttable(pieces) && pieces != [] && pieces[0].Method?
    ensures var k := i + |pieces[0].block|;
            && i < k <= |lines| && lines[k..] == Flatten(pieces[1..])
            && (ParseBlock(lines, i) == Block(pieces[0].name, k)
               || ParseBlock(lines, i) == Block(pieces[0].name, BodyEnd(lines, k)))
  {
    hide *;
    FirstPiece(pieces);
    MethodAt(lines, i, pieces);
    BlockParses(lines, i, pieces[0].block, pieces[0].name);
  }

  lemma {:induction false} NamesOfPieces(pieces: seq<Segment>)
    requires pieces != []
    ensures MethodNames(pieces) == if pieces[0].Plain? then MethodNames(pieces[1..])
            else [pieces[0].name] + MethodNames(pieces[1..])
  {
  }

  lemma {:induction false} RecutNothing(lines: seq<Line>, i: nat)
    requires i <= |lines| && lines[i..] == Flatten([])
    ensures MethodNames(Segments(lines, i)) == MethodNames([])
  {
    assert i == |lines|;
  }

  lemma {:induction false} Recut(lines: seq<Line>, i: nat, pieces: seq<Segment>)
    requires i <= |lines| && lines[i..] == Flatten(pieces) && Recuttable(pieces)
    ensures MethodNames(Segments(lines, i)) == MethodNames(pieces)
    decreases |pieces|, 0
  {
    hide *;
    if pieces == [] {
      RecutNothing(lines, i);
    } else {
      RecuttableRest(pieces);
      NamesOfPieces(pieces);
      if pieces[0].Plain? {
        PlainParses(lines, i, pieces);
        NamesOfCut(lines, i);
        Recut(lines, i + 1, pieces[1..]);
      } else {
        var k := i + |pieces[0].block|;
        MethodParses(lines, i, pieces);
        NamesOfCut(lines, i);
        Recut(lines, k, pieces[1..]);
        RecutBody(lines, k, pieces[1..]);
      }
    }
  }

  lemma {:induction false} NamesOfCut(lines: seq<Line>, i: nat)
    requires i < |lines|
    ensures var p := ParseBlock(lines, i);
            MethodNames(Segments(lines, i))
            == if p.NoBlock? then MethodNames(Segments(lines, i + 1))
               else [p.name] + MethodNames(Segments(lines, p.end))
  {
    hide ParseBlock;
    var p := ParseBlock(lines, i);
    var segments := Segments(lines, i);
    assert segments[1..] == if p.NoBlock? then Segments(lines, i + 1) else Segments(lines, p.end);
  }

  /** No method is drawn into the body of the one before. */
  lemma {:induction false} RecutBody(lines: seq<Line>, i: nat, pieces: seq<Segment>)
    requires i <= |lines| && lines[i..] == Flatten(pieces) && Recuttable(pieces)
    ensures MethodNames(Segments(lines, BodyEnd(lines, i))) == MethodNames(pieces)
    decreases |pieces|, 1
  {
    if pieces == [] {
      Recut(lines, i, pieces);
    } else {
      TextAt(lines, i, pieces);
      assert PieceOk(pieces, 0);
      if pieces[0].Plain? && (lines[i].blank || lines[i].indent > METHOD_INDENT) {
        RecuttableRest(pieces);
        RecutBody(lines, i + 1, pieces[1..]);
      } else {
        BlockStart(lines, i, pieces[0]);
        Recut(lines, i, pieces);
      }
    }
  }

  lemma {:induction false} BlockStart(lines: seq<Line>, i: nat, s: Segment)
    requires i < |lines|
    requires if s.Plain? then !(lines[i].blank || lines[i].indent > METHOD_INDENT)
             else At(lines, i, s.block) && OneBlock(s.block, s.name)
    ensures BodyEnd(lines, i) == i
  {
    if s.Method? {
      var d := SkipDecorators(s.block, 0);
      assert lines[i + 0] == s.block[0] && s.block[0] in s.block;
    }
  }

  // The pieces of a rewritten class

  /** What is left of the segments: other lines, and the kept methods under their resolved names. */
  function EmittedPieces(fixup: Fixup, segments: seq<Segment>): seq<Segment> {
    if segments == [] then []
    else
      var before, s := segments[..|segments| - 1], segments[|segments| - 1];
      if s.Plain? then EmittedPieces(fixup, before) + [s]
      else if Kept(fixup, before, s)
      then EmittedPieces(fixup, before) + [Method(fixup.Resolved(s.name), fixup.rewrite(s.name, s.block))]
      else EmittedPieces(fixup, before)
  }

  lemma {:induction false} FlattenUnit(s: Segment)
    ensures Flatten([s]) == Text(s)
    ensures MethodNames([s]) == if s.Plain? then [] else [s.name]
  {
    assert [s][1..] == [];
    assert Text(s) + [] == Text(s);
  }

  lemma {:induction false} EmittedText(fixup: Fixup, segments: seq<Segment>)
    ensures Flatten(EmittedPieces(fixup, segments)) == Emitted(fixup, segments)
    ensures MethodNames(EmittedPieces(fixup, segments)) == EmittedNames(fixup, segments)
  {
    if segments != [] {
      var before, s := segments[..|segments| - 1], segments[|segments| - 1];
      var pieces := EmittedPieces(fixup, before);
      EmittedText(fixup, before);
      var s' := if s.Plain? then s else Method(fixup.Resolved(s.name), fixup.rewrite(s.name, s.block));
      FlattenAppend(pieces, [s']);
      MethodNamesAppend(pieces, [s']);
      FlattenUnit(s');
      hide Kept;
      hide Flatten;
      hide MethodNames;
    }
  }

  /** A dangling decorator is not directly before a method. */
  ghost predicate Dangling(segments: seq<Segment>) {
    forall i :: 0 <= i < |segments| - 1 && segments[i].Plain? && segments[i].line.decorator ==> segments[i + 1].Plain?
  }

  ghost predicate PlainsOk(segments: seq<Segment>) {
    forall s <- segments :: s.Plain? ==> s.line.Valid() && (s.line.def ==> s.line.name.None? || s.line.decorator)
  }

  lemma {:induction false} SegmentsOk(lines: seq<Line>, i: nat)
    requires i <= |lines| && forall line <- lines :: line.Valid()
    ensures Dangling(Segments(lines, i)) && PlainsOk(Segments(lines, i))
    decreases |lines| - i
  {
    if i < |lines| {
      var p := ParseBlock(lines, i);
      var end := if p.NoBlock? then i + 1 else p.end;
      assert lines[i] in lines && lines[i].Valid();
      assert p.NoBlock? && lines[i].def ==> lines[i].name.None? || lines[i].decorator;
      hide *;
      SegmentsOk(lines, end);
      SegmentStep(lines, i);
      if p.NoBlock? {
        if lines[i].decorator && i + 1 < |lines| {
          StaysPlain(lines, i);
          SegmentStep(lines, i + 1);
        }
        if i + 1 == |lines| {
          SegmentsEnd(lines);
        }
        SegmentPush(Plain(lines[i]), Segments(lines, end));
      } else {
        SegmentPush(Method(p.name, lines[i..p.end]), Segments(lines, end));
      }
    } else {
      SegmentsEnd(lines);
    }
  }

  lemma {:induction false} SegmentsEnd(lines: seq<Line>)
    ensures Segments(lines, |lines|) == [] && Dangling([]) && PlainsOk([])
  {
  }

  lemma {:induction false} SegmentPush(s: Segment, rest: seq<Segment>)
    requires Dangling(rest) && PlainsOk(rest)
    requires s.Plain? ==> s.line.Valid() && (s.line.def ==> s.line.name.None? || s.line.decorator)
    requires s.Plain? && s.line.decorator && rest != [] ==> rest[0].Plain?
    ensures Dangling([s] + rest) && PlainsOk([s] + rest)
  {
  }

  lemma {:induction false} StaysPlain(lines: seq<Line>, i: nat)
    requires i + 1 < |lines| && lines[i].decorator && lines[i].Valid() && ParseBlock(lines, i).NoBlock?
    ensures ParseBlock(lines, i + 1).NoBlock?
  {
    assert SkipDecorators(lines, i) == SkipDecorators(lines, i + 1);
  }

  /** Rewriting a method that is kept gives one block of its resolved name. */
  ghost predicate Rewrites(fixup: Fixup, segments: seq<Segment>) {
    forall i :: 0 <= i < |segments| && Kept(fixup, segments[..i], segments[i]) ==>
      OneBlock(fixup.rewrite(segments[i].name, segments[i].block), fixup.Resolved(segments[i].name))
  }

  lemma {:induction false} PrefixOk(fixup: Fixup, segments: seq<Segment>, n: nat)
    requires n <= |segments| && Dangling(segments) && PlainsOk(segments) && Rewrites(fixup, segments)
    ensures Dangling(segments[..n]) && PlainsOk(segments[..n]) && Rewrites(fixup, segments[..n])
  {
    hide Kept;
    hide OneBlock;
    forall i | 0 <= i < n ensures segments[..n][..i] == segments[..i] && segments[..n][i] == segments[i] {
    }
    assert forall s <- segments[..n] :: s in segments;
  }

  /** The last piece is a dangling decorator. */
  predicate EndsDangling(pieces: seq<Segment>) {
    pieces != [] && pieces[|pieces| - 1].Plain? && pieces[|pieces| - 1].line.decorator
  }

  lemma {:induction false} RecuttableAppend(a: seq<Segment>, b: seq<Segment>)
    requires Recuttable(a) && Recuttable(b) && (EndsDangling(a) && b != [] ==> b[0].Plain?)
    ensures Recuttable(a + b)
  {
    forall i | 0 <= i < |a + b| ensures PieceOk(a + b, i) {
      if i < |a| {
        assert PieceOk(a, i);
      } else {
        assert PieceOk(b, i - |a|);
      }
    }
  }

  lemma {:induction false} RecuttableUnit(s: Segment)
    requires if s.Plain? then s.line.Valid() && (s.line.def ==> s.line.name.None? || s.line.decorator)
             else OneBlock(s.block, s.name)
    ensures Recuttable([s])
  {
    assert PieceOk([s], 0);
  }

  lemma {:induction false} EmittedRecuttable(fixup: Fixup, segments: seq<Segment>)
    requires Dangling(segments) && PlainsOk(segments) && Rewrites(fixup, segments)
    ensures var pieces := EmittedPieces(fixup, segments);
            Recuttable(pieces) && (EndsDangling(pieces) ==> EndsDangling(segments))
  {
    if segments != [] {
      var n := |segments| - 1;
      var before, s := segments[..n], segments[n];
      var pieces := EmittedPieces(fixup, before);
      PrefixOk(fixup, segments, n);
      EmittedRecuttable(fixup, before);
      assert EndsDangling(before) ==> s.Plain? by {
        assert EndsDangling(before) ==> segments[n - 1] == before[n - 1];
      }
      assert s in segments;
      var s' := if s.Plain? then s else Method(fixup.Resolved(s.name), fixup.rewrite(s.name, s.block));
      assert EmittedPieces(fixup, segments) == if s.Plain? || Kept(fixup, before, s) then pieces + [s'] else pieces;
      assert Kept(fixup, before, s) ==> s.Method? && OneBlock(fixup.rewrite(s.name, s.block), fixup.Resolved(s.name));
      hide OneBlock;
      hide Kept;
      hide EmittedPieces;
      hide Recuttable;
      if s.Plain? || Kept(fixup, before, s) {
        RecuttableUnit(s');
        RecuttableAppend(pieces, [s']);
      }
    }
  }

  // Trailing blank lines

  lemma {:induction false} BodyLengthAppend(a: seq<Line>, b: seq<Line>)
    ensures BodyLength(a + b) == if BodyLength(b) > 0 then |a| + BodyLength(b) else BodyLength(a)
  {
    if b == [] {
      assert a + b == a;
    } else if b[|b| - 1].blank {
      assert (a + b)[..|a + b| - 1] == a + b[..|b| - 1];
      BodyLengthAppend(a, b[..|b| - 1]);
    }
  }

  lemma {:induction false} SkipPrefix(block: seq<Line>, n: nat, k: nat)
    requires k <= n <= |block| && SkipDecorators(block, k) < n
    ensures SkipDecorators(block[..n], k) == SkipDecorators(block, k)
    decreases n - k
  {
    if block[k].decorator {
      SkipPrefix(block, n, k + 1);
    }
  }

  lemma {:induction false} SignaturePrefix(block: seq<Line>, n: nat, k: nat)
    requires 0 < k <= n <= |block| && SignatureEnd(block, k) <= n && block[SignatureEnd(block, k) - 1].EndsSignature()
    ensures SignatureEnd(block[..n], k) == SignatureEnd(block, k)
    decreases n - k
  {
    if k < |block| && !block[k - 1].EndsSignature() {
      SignaturePrefix(block, n, k + 1);
    }
  }

  lemma {:induction false} BodyPrefix(block: seq<Line>, n: nat, k: nat)
    requires k <= n <= |block| && BodyEnd(block, k) == |block|
    ensures BodyEnd(block[..n], k) == n
    decreases n - k
  {
    if k < n {
      BodyPrefix(block, n, k + 1);
    }
  }

  lemma {:induction false} TrimParts(block: seq<Line>, name: string, d: nat, sig: nat, n: nat)
    requires BlockParts(block, name, d, sig) && sig <= n <= |block|
    ensures BlockParts(block[..n], name, d, sig)
  {
    SkipPrefix(block, n, 0);
    SignaturePrefix(block, n, d + 1);
    if !block[sig - 1].endsDots {
      BodyPrefix(block, n, sig);
    }
  }

  /** A block stays one without the blank lines at its end. */
  lemma {:induction false} TrimBlock(block: seq<Line>, name: string)
    requires OneBlock(block, name)
    ensures BodyLength(block) > 0 && OneBlock(block[..BodyLength(block)], name)
  {
    var n := BodyLength(block);
    OneBlockParts(block, name);
    var d, sig :| BlockParts(block, name, d, sig);
    assert block[sig - 1] in block && block[sig - 1].Valid() && !block[sig - 1].blank;
    assert sig <= n;
    assert forall line <- block[..n] :: line in block;
    hide OneBlock;
    TrimParts(block, name, d, sig, n);
    hide BlockParts;
    OneBlockParts(block[..n], name);
  }

  function Trimmed(pieces: seq<Segment>): seq<Segment> {
    if pieces == [] then []
    else
      var before, s := pieces[..|pieces| - 1], pieces[|pieces| - 1];
      if s.Method? then before + [Method(s.name, s.block[..BodyLength(s.block)])]
      else if s.line.blank then Trimmed(before)
      else pieces
  }

  lemma {:induction false} RecuttablePrefix(pieces: seq<Segment>, n: nat)
    requires Recuttable(pieces) && n <= |pieces|
    ensures Recuttable(pieces[..n])
  {
    forall i | 0 <= i < n ensures PieceOk(pieces[..n], i) {
      assert PieceOk(pieces, i);
    }
  }

  /** `r` are the pieces without the blank lines at their end. */
  ghost predicate IsTrimmed(pieces: seq<Segment>, r: seq<Segment>) {
    && Recuttable(r) && MethodNames(r) == MethodNames(pieces)
    && Flatten(r) == Flatten(pieces)[..BodyLength(Flatten(pieces))]
  }

  lemma {:induction false} PrefixOfSum<T>(a: seq<T>, b: seq<T>, n: nat)
    requires n <= |b|
    ensures (a + b)[..|a| + n] == a + b[..n]
    ensures n == 0 ==> forall k | 0 <= k <= |a| :: (a + b)[..k] == a[..k]
  {
  }

  lemma {:induction false} TrimmedFrom(pieces: seq<Segment>, r: seq<Segment>)
    requires Recuttable(r) && MethodNames(r) == MethodNames(pieces)
    requires Flatten(r) == Flatten(pieces)[..BodyLength(Flatten(pieces))]
    ensures IsTrimmed(pieces, r)
  {
    hide Recuttable;
    hide MethodNames;
    hide Flatten;
    hide BodyLength;
  }

  lemma {:induction false} SameNames(before: seq<Segment>, s: Segment, s': Segment)
    requires s.Method? && s'.Method? && s.name == s'.name
    ensures MethodNames(before + [s]) == MethodNames(before + [s'])
  {
    hide *;
    MethodNamesAppend(before, [s]);
    MethodNamesAppend(before, [s']);
    FlattenUnit(s);
    FlattenUnit(s');
  }

  lemma {:induction false} FlattenMethod(before: seq<Segment>, name: string, block: seq<Line>)
    ensures Flatten(before + [Method(name, block)]) == Flatten(before) + block
  {
    FlattenAppend(before, [Method(name, block)]);
    FlattenUnit(Method(name, block));
    hide Flatten;
  }

  lemma {:induction false} TrimText(before: seq<Segment>, name: string, block: seq<Line>)
    requires BodyLength(block) > 0
    ensures var text := Flatten(before + [Method(name, block)]);
            Flatten(before + [Method(name, block[..BodyLength(block)])]) == text[..BodyLength(text)]
  {
    hide *;
    var n := BodyLength(block);
    FlattenMethod(before, name, block);
    FlattenMethod(before, name, block[..n]);
    BodyLengthAppend(Flatten(before), block);
    PrefixOfSum(Flatten(before), block, n);
  }

  lemma {:induction false} TrimMethod(before: seq<Segment>, s: Segment)
    requires Recuttable(before) && Recuttable([s]) && s.Method? && !EndsDangling(before)
    ensures IsTrimmed(before + [s], before + [Method(s.name, s.block[..BodyLength(s.block)])])
  {
    var s' := Method(s.name, s.block[..BodyLength(s.block)]);
    assert OneBlock(s.block, s.name) by { assert PieceOk([s], 0); }
    hide *;
    TrimBlock(s.block, s.name);
    RecuttableUnit(s');
    RecuttableAppend(before, [s']);
    SameNames(before, s, s');
    TrimText(before, s.name, s.block);
    TrimmedFrom(before + [s], before + [s']);
  }

  lemma {:induction false} TrimPlain(before: seq<Segment>, line: Line, r: seq<Segment>)
    requires Recuttable(before + [Plain(line)])
             && if line.blank then IsTrimmed(before, r) else r == before + [Plain(line)]
    ensures IsTrimmed(before + [Plain(line)], r)
  {
    var s := Plain(line);
    FlattenAppend(before, [s]);
    MethodNamesAppend(before, [s]);
    FlattenUnit(s);
    BodyLengthAppend(Flatten(before), [line]);
    assert BodyLength([line]) == if line.blank then 0 else 1 by {
      assert [line][..0] == [];
    }
    PrefixOfSum(Flatten(before), [line], BodyLength([line]));
    hide Flatten;
    hide MethodNames;
    hide BodyLength;
    hide Recuttable;
  }

  lemma {:induction false} TrimmedIs(pieces: seq<Segment>)
    requires Recuttable(pieces)
    ensures IsTrimmed(pieces, Trimmed(pieces))
  {
    if pieces == [] {
      assert Flatten(pieces) == [];
    } else {
      var n := |pieces| - 1;
      var before, s := pieces[..n], pieces[n];
      assert pieces == before + [s];
      assert !s.Plain? ==> !EndsDangling(before) by {
        assert n > 0 ==> PieceOk(pieces, n - 1);
      }
      assert Recuttable([s]) by {
        assert PieceOk(pieces, n);
        assert PieceOk([s], 0);
      }
      RecuttablePrefix(pieces, n);
      assert Trimmed(pieces) == if s.Method? then before + [Method(s.name, s.block[..BodyLength(s.block)])]
                                else if s.line.blank then Trimmed(before) else pieces;
      hide *;
      if s.Method? {
        TrimMethod(before, s);
      } else {
        TrimmedIs(before);
        TrimPlain(before, s.line, Trimmed(pieces));
      }
    }
  }

  // Injected methods

  ghost predicate InjectsBlocks(ms: seq<(string, seq<Line>)>) {
    forall m <- ms :: OneBlock(m.1, m.0)
  }

  function InjectedPieces(ms: seq<(string, seq<Line>)>): seq<Segment> {
    if ms == [] then []
    else
      var before, m := ms[..|ms| - 1], ms[|ms| - 1];
      InjectedPieces(before) + (if before == [] then [] else [Plain(BLANK)]) + [Method(m.0, m.1)]
  }

  lemma {:induction false} InjectedNone()
    ensures InjectedPieces([]) == [] && Flatten([]) == Injected([]) && MethodNames([]) == Names([])
    ensures Recuttable([]) && !EndsDangling([])
  {
  }

  lemma {:induction false} InjectedText(ms: seq<(string, seq<Line>)>)
    requires ms != []
    ensures var before, m := ms[..|ms| - 1], ms[|ms| - 1];
            Injected(ms) == Injected(before) + (if before == [] then [] else [BLANK]) + m.1
  {
    if |ms| == 1 {
      assert Injected(ms[..0]) == [];
    }
  }

  lemma {:induction false} GapsAre(none: bool)
    ensures var gap := if none then [] else [Plain(BLANK)];
            && Recuttable(gap) && Flatten(gap) == (if none then [] else [BLANK]) && MethodNames(gap) == []
            && !EndsDangling(gap) && (gap != [] ==> gap[0].Plain?)
  {
    FlattenUnit(Plain(BLANK));
    RecuttableUnit(Plain(BLANK));
  }

  lemma {:induction false} InjectsRest(ms: seq<(string, seq<Line>)>)
    requires ms != [] && InjectsBlocks(ms)
    ensures InjectsBlocks(ms[..|ms| - 1]) && OneBlock(ms[|ms| - 1].1, ms[|ms| - 1].0)
  {
    hide OneBlock;
    assert ms[|ms| - 1] in ms;
  }

  lemma {:induction false} InjectedLast(ms: seq<(string, seq<Line>)>)
    requires ms != [] && OneBlock(ms[|ms| - 1].1, ms[|ms| - 1].0)
    requires var before := ms[..|ms| - 1];
             var pieces := InjectedPieces(before);
             && Flatten(pieces) == Injected(before) && MethodNames(pieces) == Names(before)
             && Recuttable(pieces) && !EndsDangling(pieces)
    ensures var pieces := InjectedPieces(ms);
            && Flatten(pieces) == Injected(ms) && MethodNames(pieces) == Names(ms)
            && Recuttable(pieces) && !EndsDangling(pieces)
  {
    var before, m := ms[..|ms| - 1], ms[|ms| - 1];
    var gap, s := if before == [] then [] else [Plain(BLANK)], Method(m.0, m.1);
    assert InjectedPieces(ms) == InjectedPieces(before) + gap + [s] && Names(ms) == Names(before) + [m.0];
    assert !EndsDangling(InjectedPieces(before) + gap + [s]) && Text(s) == m.1;
    hide *;
    InjectedText(ms);
    GapsAre(before == []);
    RecuttableUnit(s);
    FlattenUnit(s);
    Join3(InjectedPieces(before), gap, [s]);
  }

  lemma {:induction false} InjectedIs(ms: seq<(string, seq<Line>)>)
    requires InjectsBlocks(ms)
    ensures var pieces := InjectedPieces(ms);
            && Flatten(pieces) == Injected(ms) && MethodNames(pieces) == Names(ms)
            && Recuttable(pieces) && !EndsDangling(pieces)
  {
    if ms == [] {
      InjectedNone();
    } else {
      var before, m := ms[..|ms| - 1], ms[|ms| - 1];
      InjectsRest(ms);
      hide *;
      InjectedIs(before);
      InjectedLast(ms);
    }
  }

  /** Three parts put together; the first two do not end in a dangling decorator unless what follows is plain. */
  lemma {:induction false} Join3(a: seq<Segment>, b: seq<Segment>, c: seq<Segment>)
    requires Recuttable(a) && Recuttable(b) && Recuttable(c)
    requires (EndsDangling(a) && b != [] ==> b[0].Plain?) && (b == [] ==> !EndsDangling(a)) && !EndsDangling(b)
    ensures Recuttable(a + b + c)
    ensures Flatten(a + b + c) == Flatten(a) + Flatten(b) + Flatten(c)
    ensures MethodNames(a + b + c) == MethodNames(a) + MethodNames(b) + MethodNames(c)
  {
    assert EndsDangling(a + b) <==> if b == [] then EndsDangling(a) else EndsDangling(b);
    hide *;
    RecuttableAppend(a, b);
    RecuttableAppend(a + b, c);
    FlattenAppend(a, b);
    FlattenAppend(a + b, c);
    MethodNamesAppend(a, b);
    MethodNamesAppend(a + b, c);
  }

  /** Lines that are all blank. */
  function Blanks(lines: seq<Line>): seq<Segment> {
    if lines == [] then [] else [Plain(lines[0])] + Blanks(lines[1..])
  }

  lemma {:induction false} BlanksAre(lines: seq<Line>)
    requires forall line <- lines :: line.Valid() && line.blank
    ensures Flatten(Blanks(lines)) == lines && MethodNames(Blanks(lines)) == [] && Recuttable(Blanks(lines))
  {
    if lines == [] {
      assert Flatten([]) == [];
    } else {
      var s, rest := Plain(lines[0]), Blanks(lines[1..]);
      BlanksAre(lines[1..]);
      assert Blanks(lines) == [s] + rest && ([s] + rest)[1..] == rest;
      assert lines[0] in lines;
      RecuttableUnit(s);
      RecuttableAppend([s], rest);
      assert lines == [lines[0]] + lines[1..];
    }
  }

  // The whole class

  lemma {:induction false} FlattenValid(pieces: seq<Segment>)
    requires Recuttable(pieces)
    ensures forall line <- Flatten(pieces) :: line.Valid()
  {
    if pieces != [] {
      assert PieceOk(pieces, 0);
      RecuttableRest(pieces);
      FlattenValid(pieces[1..]);
      hide Recuttable;
      assert forall line <- Text(pieces[0]) :: line.Valid();
    }
  }

  lemma {:induction false} MissingInjects(fixup: Fixup, seen: set<string>, n: nat)
    requires n <= |fixup.injected| && InjectsBlocks(fixup.injected)
    ensures InjectsBlocks(Missing(fixup, seen, n))
  {
    if n > 0 {
      MissingInjects(fixup, seen, n - 1);
      assert fixup.injected[n - 1] in fixup.injected;
    }
  }

  lemma {:induction false} AssembleBody(header: Line, e: seq<Line>, ms: seq<(string, seq<Line>)>)
    requires !header.blank
    ensures var r, m := Assemble([header] + e, ms), BodyLength(e);
            && r != [] && r[0] == header
            && r[1..] == if ms == [] then e else e[..m] + [BLANK] + Injected(ms) + e[m..]
  {
    var lines, m := [header] + e, BodyLength(e);
    BodyLengthAppend([header], e);
    assert BodyLength([header]) == 1;
    AssembleIs(lines, ms);
    hide *;
    Unheaded(header, e, m, Injected(ms));
  }

  lemma {:induction false} AssembleIs(lines: seq<Line>, ms: seq<(string, seq<Line>)>)
    requires BodyLength(lines) > 0
    ensures var n := BodyLength(lines);
            Assemble(lines, ms) == if ms == [] then lines else lines[..n] + [BLANK] + Injected(ms) + lines[n..]
  {
    hide Injected;
    hide BodyLength;
  }

  lemma {:induction false} Unheaded(header: Line, e: seq<Line>, m: nat, more: seq<Line>)
    requires m <= |e|
    ensures var lines := [header] + e;
            && lines[0] == header && lines[1..] == e
            && (lines[..1 + m] + [BLANK] + more + lines[1 + m..])[0] == header
            && (lines[..1 + m] + [BLANK] + more + lines[1 + m..])[1..] == e[..m] + [BLANK] + more + e[m..]
  {
    var lines := [header] + e;
    assert lines[..1 + m] == [header] + e[..m] && lines[1 + m..] == e[m..];
  }

  lemma {:induction false} RecutAssembled(pieces: seq<Segment>, ms: seq<(string, seq<Line>)>)
    requires Recuttable(pieces) && InjectsBlocks(ms)
    ensures var e := Flatten(pieces);
            var m := BodyLength(e);
            MethodNames(Segments(e[..m] + [BLANK] + Injected(ms) + e[m..], 0)) == MethodNames(pieces) + Names(ms)
  {
    hide *;
    var e := Flatten(pieces);
    var m := BodyLength(e);
    TrimmedFacts(pieces);
    GapIs();
    InjectedIs(ms);
    TrailingIs(pieces);
    var text := e[..m] + [BLANK] + Injected(ms) + e[m..];
    assert text[0..] == text;
    RecutParts(text, Trimmed(pieces), [Plain(BLANK)], InjectedPieces(ms), Blanks(e[m..]));
  }

  lemma {:induction false} TrimmedFacts(pieces: seq<Segment>)
    requires Recuttable(pieces)
    ensures Recuttable(Trimmed(pieces)) && MethodNames(Trimmed(pieces)) == MethodNames(pieces)
    ensures Flatten(Trimmed(pieces)) == Flatten(pieces)[..BodyLength(Flatten(pieces))]
  {
    TrimmedIs(pieces);
    hide Recuttable;
    hide MethodNames;
    hide Flatten;
    hide BodyLength;
    hide Trimmed;
  }

  lemma {:induction false} GapIs()
    ensures var gap := [Plain(BLANK)];
            Recuttable(gap) && Flatten(gap) == [BLANK] && MethodNames(gap) == [] && !EndsDangling(gap)
  {
    FlattenUnit(Plain(BLANK));
    RecuttableUnit(Plain(BLANK));
  }

  lemma {:induction false} TrailingIs(pieces: seq<Segment>)
    requires Recuttable(pieces)
    ensures var e := Flatten(pieces);
            var back := e[BodyLength(e)..];
            Flatten(Blanks(back)) == back && MethodNames(Blanks(back)) == [] && Recuttable(Blanks(back))
  {
    var e := Flatten(pieces);
    FlattenValid(pieces);
    assert forall line <- e[BodyLength(e)..] :: line in e && line.blank;
    hide *;
    BlanksAre(e[BodyLength(e)..]);
  }

  lemma {:induction false} RecutParts(text: seq<Line>, a: seq<Segment>, b: seq<Segment>, c: seq<Segment>,
                                      d: seq<Segment>)
    requires Recuttable(a) && Recuttable(b) && Recuttable(c) && Recuttable(d)
    requires b != [] && b[0].Plain? && !EndsDangling(b) && !EndsDangling(c)
    requires text == Flatten(a) + Flatten(b) + Flatten(c) + Flatten(d) && text[0..] == text
    ensures MethodNames(Segments(text, 0)) == MethodNames(a) + MethodNames(b) + MethodNames(c) + MethodNames(d)
  {
    assert EndsDangling(a + b + c) ==> EndsDangling(b) || EndsDangling(c);
    hide *;
    Join3(a, b, c);
    RecuttableAppend(a + b + c, d);
    FlattenAppend(a + b + c, d);
    MethodNamesAppend(a + b + c, d);
    Recut(text, 0, a + b + c + d);
  }

  /** Cutting a rewritten class again finds exactly the methods in `ResultNames`, in that order, if rewriting and
  injecting give blocks of the names they are for. */
  lemma {:induction false} ResultIsRecut(header: Line, body: seq<Line>, fixup: Fixup, result: seq<Line>)
    requires !header.blank && (forall line <- body :: line.Valid())
    requires Rewrites(fixup, Segments(body, 0)) && InjectsBlocks(fixup.injected)
    requires var segments := Segments(body, 0);
             result == Assemble([header] + Emitted(fixup, segments),
                                Missing(fixup, Seen(fixup, segments), |fixup.injected|))
    ensures result != [] && result[0] == header
    ensures MethodNames(Segments(result[1..], 0)) == ResultNames(fixup, body)
  {
    var segments := Segments(body, 0);
    var pieces := EmittedPieces(fixup, segments);
    var ms := Missing(fixup, Seen(fixup, segments), |fixup.injected|);
    assert ResultNames(fixup, body) == EmittedNames(fixup, segments) + Names(ms);
    assert ms == [] ==> Names(ms) == [];
    assert result[1..][0..] == result[1..];
    hide *;
    SegmentsOk(body, 0);
    EmittedRecuttable(fixup, segments);
    EmittedText(fixup, segments);
    MissingInjects(fixup, Seen(fixup, segments), |fixup.injected|);
    AssembleBody(header, Emitted(fixup, segments), ms);
    if ms == [] {
      Recut(result[1..], 0, pieces);
    } else {
      RecutAssembled(pieces, ms);
    }
  }
}
