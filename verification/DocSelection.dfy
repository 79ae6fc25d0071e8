/** Which doc goes above which function, in terms of the collected docs and the lines of the file. */
module DocSelection {
  import opened Seqs
  import opened Wrappers
  import opened DocLines
  import opened DocRewrite
  import opened DocIdempotence

  // The rewritten file, chunk by chunk

  /** What the parser carries into chunk `i`. */
  function CoreAt(core: Core, chunks: seq<Chunk>, i: nat): Core
    requires i <= |chunks|
    decreases i
  {
    if i == 0 || !chunks[0].code.kind.Code? then core
    else CoreAt(AfterCode(core, chunks[0].header, chunks[0].code), chunks[1..], i - 1)
  }

  lemma {:induction false} RewrittenAt(env: Env, core: Core, chunks: seq<Chunk>, i: nat)
    requires (forall c <- chunks :: ChunkOk(c)) && i < |chunks|
    ensures var r := RewriteChunks(env, core, chunks);
            |r| == |chunks| && r[i] == RewriteChunk(env, CoreAt(core, chunks, i), chunks[i])
    decreases |chunks|
  {
    var c, rest := chunks[0], chunks[1..];
    assert ChunkOk(c) && forall x <- rest :: x in chunks;
    var next := AfterCode(core, c.header, c.code);
    var more := RewriteChunks(env, next, rest);
    assert RewriteChunks(env, core, chunks) == [RewriteChunk(env, core, c)] + more;
    if i > 0 {
      RewrittenAt(env, next, rest, i - 1);
      assert CoreAt(core, chunks, i) == CoreAt(next, rest, i - 1);
    } else if rest == [] {
      assert more == [];
    } else {
      RewrittenAt(env, next, rest, 0);
    }
    hide RewriteChunk;
    hide AfterCode;
    hide ChunkOk;
  }

  lemma {:induction false} FileRewritten(env: Env, lines: seq<Line>)
    ensures ChunksOf(Rewrite(env, lines)).chunks == RewriteChunks(env, CORE, ChunksOf(lines).chunks)
    ensures ChunksOf(Rewrite(env, lines)).tail == ChunksOf(lines).tail
    ensures forall c <- ChunksOf(lines).chunks :: ChunkOk(c)
  {
    var file := ChunksOf(lines);
    FlattenChunks(lines);
    SecondRunChunks(env, CORE, CORE, file.chunks);
    var once := File(RewriteChunks(env, CORE, file.chunks), file.tail);
    assert FileOk(once) && Rewrite(env, lines) == Flatten(once.chunks) + once.tail;
    hide *;
    ChunksFlatten(once);
  }

  // The doc above a function

  /** Function `py_<n>` is that of chunk `i`; it was read with this `impl` type, with or without the `#[pymethods]`
  flag. */
  predicate FunctionAt(lines: seq<Line>, i: nat, n: string, implType: Option<string>, inPymethods: bool) {
    var chunks := ChunksOf(lines).chunks;
    && i < |chunks| && chunks[i].code.kind.Code? && chunks[i].code.kind.fn == Some("py_" + n)
    && var after := AfterCode(CoreAt(CORE, chunks, i), chunks[i].header, chunks[i].code);
    after.implType == implType && after.inPymethods == inPymethods
  }

  /** The text of a doc comment line. */
  function CommentText(indent: string, text: string): string {
    indent + if text == "" then "///" else "/// " + text
  }

  /** The header of chunk `i` has its doc lines replaced by the transform of `source`, or is left alone if that is
  empty. */
  ghost predicate Gets(env: Env, lines: seq<Line>, i: nat, source: seq<string>) {
    var chunks, now := ChunksOf(lines).chunks, ChunksOf(Rewrite(env, lines)).chunks;
    && i < |chunks| && |now| == |chunks| && chunks[i].code.kind.Code? && now[i].code == chunks[i].code
    && var h, code := chunks[i].header, chunks[i].code.kind;
    var texts := Transform(env, source, !code.returnsResult);
    if source == [] || texts == [] then now[i].header == h
    else
      exists docs :: Comments(docs, code.indent, texts) && now[i].header == h[..DocLo(h)] + docs + h[DocHi(h)..]
  }

  predicate Comments(docs: seq<Line>, indent: string, texts: seq<string>) {
    && |docs| == |texts|
    && forall k :: 0 <= k < |docs| ==> docs[k].kind.Doc? && docs[k].raw == CommentText(indent, texts[k])
  }

  lemma {:induction false} FormatComments(texts: seq<string>, indent: string)
    ensures Comments(Format(texts, indent), indent, texts)
  {
    var docs := Format(texts, indent);
    assert forall k :: 0 <= k < |docs| ==> docs[k] == DocLine(texts[k], indent);
    hide Format;
  }

  lemma {:induction false} RewriteByKey(env: Env, core: Core, c: Chunk, key: Key)
    requires c.code.kind.Code? && KeyOf(core, c.header, c.code) == Some(key)
    ensures var r, h, source := RewriteChunk(env, core, c), c.header, SourceDoc(env, key);
            var texts := Transform(env, source, !c.code.kind.returnsResult);
            && r.code == c.code
            && if source == [] || texts == [] then r.header == h
               else
                 exists docs ::
                   Comments(docs, c.code.kind.indent, texts) && r.header == h[..DocLo(h)] + docs + h[DocHi(h)..]
  {
    hide KeyOf;
    hide SourceDoc;
    hide Transform;
    hide DocLo;
    hide DocHi;
    hide Comments;
    hide Format;
    var texts := Transform(env, SourceDoc(env, key), !c.code.kind.returnsResult);
    FormatComments(texts, c.code.kind.indent);
  }

  /** The key of a function decides what it gets. */
  lemma {:induction false} GetsByKey(env: Env, lines: seq<Line>, i: nat, key: Key)
    requires var chunks := ChunksOf(lines).chunks;
             && i < |chunks| && chunks[i].code.kind.Code?
             && KeyOf(CoreAt(CORE, chunks, i), chunks[i].header, chunks[i].code) == Some(key)
    ensures Gets(env, lines, i, SourceDoc(env, key))
  {
    var chunks, now := ChunksOf(lines).chunks, ChunksOf(Rewrite(env, lines)).chunks;
    hide ChunksOf;
    hide Rewrite;
    hide CoreAt;
    hide KeyOf;
    hide RewriteChunk;
    FileRewritten(env, lines);
    RewrittenAt(env, CORE, chunks, i);
    hide RewriteChunks;
    var c, source := chunks[i], SourceDoc(env, key);
    RewriteByKey(env, CoreAt(CORE, chunks, i), c, key);
    hide SourceDoc;
    hide Transform;
    hide Comments;
    hide DocLo;
    hide DocHi;
  }

  lemma {:induction false} PyName(n: string)
    ensures Target("py_" + n) == n
  {
    assert ("py_" + n)[..3] == "py_" && ("py_" + n)[3..] == n;
  }


  /** A method of an `impl` of type `T` that is not a constructor gets the doc of that method of `T`, if there is
  one. */
  lemma {:induction false} MethodGets(env: Env, lines: seq<Line>, i: nat, n: string, T: string, inPymethods: bool)
    requires FunctionAt(lines, i, n, Some(T), inPymethods) && !HasNew(ChunksOf(lines).chunks[i].header)
    ensures (Some(T), n) in env.docs ==> Gets(env, lines, i, env.docs[(Some(T), n)])
    ensures (Some(T), n) !in env.docs ==> Gets(env, lines, i, [])
  {
    PyName(n);
    hide Gets;
    hide ChunksOf;
    hide Target;
    GetsByKey(env, lines, i, Key("py_" + n, Some(T), false, inPymethods));
  }

  /** A constructor of an `impl` of type `T` gets the doc of `T`, or else that of its `new`. */
  lemma {:induction false} ConstructorGets(env: Env, lines: seq<Line>, i: nat, n: string, T: string, inPymethods: bool)
    requires FunctionAt(lines, i, n, Some(T), inPymethods) && HasNew(ChunksOf(lines).chunks[i].header)
    ensures (None, T) in env.docs && env.docs[(None, T)] != [] ==> Gets(env, lines, i, env.docs[(None, T)])
    ensures !((None, T) in env.docs && env.docs[(None, T)] != []) && (Some(T), "new") in env.docs ==>
              Gets(env, lines, i, env.docs[(Some(T), "new")])
    ensures !((None, T) in env.docs && env.docs[(None, T)] != []) && (Some(T), "new") !in env.docs ==>
              Gets(env, lines, i, [])
  {
    hide Gets;
    hide ChunksOf;
    hide Target;
    GetsByKey(env, lines, i, Key("py_" + n, Some(T), true, inPymethods));
  }

  /** A function outside any `impl` gets the doc of the function of that name, if there is one; and none if it follows
  `#[pymethods]` without an `impl`. */
  lemma {:induction false} FunctionGets(env: Env, lines: seq<Line>, i: nat, n: string, inPymethods: bool)
    requires FunctionAt(lines, i, n, None, inPymethods)
    ensures !inPymethods && (None, n) in env.docs ==> Gets(env, lines, i, env.docs[(None, n)])
    ensures inPymethods || (None, n) !in env.docs ==> Gets(env, lines, i, [])
  {
    PyName(n);
    hide Gets;
    hide ChunksOf;
    hide Target;
    GetsByKey(env, lines, i, Key("py_" + n, None, HasNew(ChunksOf(lines).chunks[i].header), inPymethods));
  }

  /** What is no such function is left alone, and so are the lines after the last code line. */
  lemma {:induction false} OthersKept(env: Env, lines: seq<Line>, i: nat)
    requires var chunks := ChunksOf(lines).chunks;
             i < |chunks| && chunks[i].code.kind.Code? && chunks[i].code.kind.fn.None?
    ensures var chunks, now := ChunksOf(lines).chunks, ChunksOf(Rewrite(env, lines)).chunks;
            |now| == |chunks| && now[i] == chunks[i]
    ensures ChunksOf(Rewrite(env, lines)).tail == ChunksOf(lines).tail
  {
    FileRewritten(env, lines);
    RewrittenAt(env, CORE, ChunksOf(lines).chunks, i);
    hide ChunksOf;
    hide Rewrite;
    hide RewriteChunks;
    hide CoreAt;
  }

  /** A function without a doc gets it above its attributes. */
  lemma {:induction false} NewDocFirst(h: seq<Line>, docs: seq<Line>)
    requires FirstDoc(h).None?
    ensures h[..DocLo(h)] + docs + h[DocHi(h)..] == docs + h
  {
    assert h[..0] == [] && h[0..] == h;
  }

  // The `impl` block a function is in

  /** The braces that the code lines of the first `n` chunks open and do not close. */
  function Braces(chunks: seq<Chunk>, n: nat): int
    requires n <= |chunks|
  {
    if n == 0 then 0
    else Braces(chunks, n - 1) + if chunks[n - 1].code.kind.Code? then chunks[n - 1].code.kind.braces else 0
  }

  lemma {:induction false} CoreNext(core: Core, chunks: seq<Chunk>, i: nat)
    requires i < |chunks| && forall c <- chunks :: c.code.kind.Code?
    ensures CoreAt(core, chunks, i + 1) == AfterCode(CoreAt(core, chunks, i), chunks[i].header, chunks[i].code)
    decreases i
  {
    assert chunks[0] in chunks && forall c <- chunks[1..] :: c in chunks;
    hide AfterCode;
    if i > 0 {
      CoreNext(AfterCode(core, chunks[0].header, chunks[0].code), chunks[1..], i - 1);
    }
  }

  /** The chunks start with the `impl` line of type `T` under a `#[pymethods]` attribute, and no other follows up to
  `i`. */
  ghost predicate Opens(core: Core, chunks: seq<Chunk>, T: string, i: nat) {
    && i < |chunks| && (forall c <- chunks :: c.code.kind.Code?)
    && (core.inPymethods || HasPymethods(chunks[0].header)) && chunks[0].code.kind.impl == Some(T)
    && (forall j :: 0 < j <= i ==> chunks[j].code.kind.impl.None?)
    && (forall j :: 0 < j <= i ==> Braces(chunks, j) > 0)
  }

  lemma {:induction false} InsideImpl(core: Core, chunks: seq<Chunk>, T: string, i: nat)
    requires Opens(core, chunks, T, i)
    ensures var r := CoreAt(core, chunks, i + 1);
            if Braces(chunks, i + 1) > 0 then r == Core(Some(T), true, core.depth + Braces(chunks, i + 1), core.depth)
            else r.implType == None && !r.inPymethods
    decreases i
  {
    CoreNext(core, chunks, i);
    assert chunks[i] in chunks;
    hide HasPymethods;
    if i > 0 {
      InsideImpl(core, chunks, T, i - 1);
      hide CoreAt;
    } else {
      assert CoreAt(core, chunks, 0) == core && Braces(chunks, 0) == 0;
    }
  }

  /** A function reads the type of the `impl` block that is open around it: from the `impl` line on, as long as more
  braces are open than closed, and no longer. */
  lemma {:induction false} ImplInForce(core: Core, chunks: seq<Chunk>, T: string, i: nat)
    requires Opens(core, chunks, T, i)
    ensures var after := AfterCode(CoreAt(core, chunks, i), chunks[i].header, chunks[i].code);
            if Braces(chunks, i + 1) > 0 then after.implType == Some(T) && after.inPymethods
            else after.implType == None && !after.inPymethods
  {
    CoreNext(core, chunks, i);
    InsideImpl(core, chunks, T, i);
    hide CoreAt;
    hide AfterCode;
    hide Braces;
  }

  /** Without `#[pymethods]` there is no `impl` block to be in. */
  lemma {:induction false} NoImpl(chunks: seq<Chunk>, i: nat)
    requires i <= |chunks| && (forall c <- chunks :: c.code.kind.Code?)
    requires forall j :: 0 <= j < i ==> !HasPymethods(chunks[j].header)
    ensures CoreAt(CORE, chunks, i).implType == None && !CoreAt(CORE, chunks, i).inPymethods
  {
    hide HasPymethods;
    if i > 0 {
      NoImpl(chunks, i - 1);
      CoreNext(CORE, chunks, i - 1);
      hide CoreAt;
    } else {
      assert CoreAt(CORE, chunks, 0) == CORE;
    }
  }

  // The lines of a doc

  /** Line `i` is in a section headed Panics, or in one headed Errors if those are stripped. */
  ghost predicate Hidden(env: Env, lines: seq<string>, i: nat, stripErrors: bool)
    requires i < |lines|
  {
    exists j :: HeadOf(env, lines, j, i) &&
      (env.section(lines[j]) == Some("Panics") || (stripErrors && env.section(lines[j]) == Some("Errors")))
  }

  /** Line `j` heads the section of line `i`. */
  ghost predicate HeadOf(env: Env, lines: seq<string>, j: int, i: int)
    requires i < |lines|
  {
    0 <= j <= i && env.section(lines[j]).Some? && forall k :: j < k <= i ==> env.section(lines[k]).None?
  }

  lemma {:induction false} SectionHead(env: Env, lines: seq<string>, i: nat)
    requires i < |lines|
    ensures var x := SectionOf(env, lines, i + 1);
            if x.None? then forall k :: 0 <= k <= i ==> env.section(lines[k]).None?
            else exists j :: HeadOf(env, lines, j, i) && env.section(lines[j]) == x
  {
    if env.section(lines[i]).Some? {
      assert HeadOf(env, lines, i, i);
    } else if i > 0 {
      SectionHead(env, lines, i - 1);
      if SectionOf(env, lines, i).Some? {
        var j :| HeadOf(env, lines, j, i - 1) && env.section(lines[j]) == SectionOf(env, lines, i);
        assert HeadOf(env, lines, j, i);
      }
    }
  }

  lemma {:induction false} OneHead(env: Env, lines: seq<string>, i: nat, j: int, k: int)
    requires i < |lines| && HeadOf(env, lines, j, i) && HeadOf(env, lines, k, i)
    ensures j == k
  {
  }

  /** Line by line, the transform keeps exactly the lines that are not hidden, with their links rewritten. */
  lemma {:induction false} KeptLine(env: Env, lines: seq<string>, i: nat, stripErrors: bool)
    requires i < |lines|
    ensures Kept(env, lines, 0, stripErrors) == []
    ensures Kept(env, lines, i + 1, stripErrors)
         == Kept(env, lines, i, stripErrors) + if Hidden(env, lines, i, stripErrors) then [] else [env.relink(lines[i])]
  {
    SectionHead(env, lines, i);
    var x := SectionOf(env, lines, i + 1);
    hide SectionOf;
    if x.Some? {
      var j :| HeadOf(env, lines, j, i) && env.section(lines[j]) == x;
      assert Hidden(env, lines, i, stripErrors) <==> Dropped(x, stripErrors) by {
        forall k | HeadOf(env, lines, k, i) ensures k == j { OneHead(env, lines, i, k, j); }
      }
    } else {
      assert forall k :: !HeadOf(env, lines, k, i);
    }
  }

  lemma {:induction false} FrontTrimmed(lines: seq<string>) returns (a: nat)
    ensures a <= |lines| && TrimFront(lines) == lines[a..] && forall k :: 0 <= k < a ==> lines[k] == ""
  {
    if lines != [] && lines[0] == "" {
      var b := FrontTrimmed(lines[1..]);
      a := b + 1;
      assert forall k :: 0 < k < a ==> lines[k] == lines[1..][k - 1];
    } else {
      a := 0;
    }
  }

  lemma {:induction false} BackTrimmed(lines: seq<string>) returns (b: nat)
    ensures b <= |lines| && TrimBack(lines) == lines[..b] && forall k :: b <= k < |lines| ==> lines[k] == ""
  {
    if lines != [] && lines[|lines| - 1] == "" {
      b := BackTrimmed(lines[..|lines| - 1]);
    } else {
      b := |lines|;
    }
  }

  lemma {:induction false} EndsTrimmed(kept: seq<string>) returns (a: nat, b: nat)
    ensures var r := TrimBack(TrimFront(kept));
            && a <= b <= |kept| && r == kept[a..b]
            && (forall k :: 0 <= k < a || b <= k < |kept| ==> kept[k] == "")
            && (r != [] ==> r[0] != "" && r[|r| - 1] != "")
  {
    a := FrontTrimmed(kept);
    var front := TrimFront(kept);
    assert front != [] ==> front[0] != "";
    hide TrimFront;
    var n := BackTrimmed(front);
    hide TrimBack;
    b := a + n;
    SliceTwice(kept, a, n);
  }

  lemma {:induction false} SliceTwice(s: seq<string>, a: nat, n: nat)
    requires a + n <= |s|
    ensures s[a..][..n] == s[a..a + n] && (n > 0 ==> s[a..a + n][0] == s[a..][0])
    ensures forall k :: a + n <= k < |s| ==> s[k] == s[a..][k - a]
  {
  }

  /** Only blank lines at either end are left out of what is kept. */
  lemma {:induction false} TransformTrims(env: Env, lines: seq<string>, stripErrors: bool) returns (a: nat, b: nat)
    ensures var kept, r := Kept(env, lines, |lines|, stripErrors), Transform(env, lines, stripErrors);
            && a <= b <= |kept| && r == kept[a..b]
            && (forall k :: 0 <= k < a || b <= k < |kept| ==> kept[k] == "")
            && (r != [] ==> r[0] != "" && r[|r| - 1] != "")
  {
    var kept := Kept(env, lines, |lines|, stripErrors);
    assert Transform(env, lines, stripErrors) == TrimBack(TrimFront(kept));
    hide *;
    a, b := EndsTrimmed(kept);
  }
}
