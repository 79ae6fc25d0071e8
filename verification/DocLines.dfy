/** Rust source lines as the docstring generator sees them.

A file is a sequence of chunks: a header of doc comments and attributes, followed by the code line it
belongs to. Attributes may span lines, and everything inside one belongs to it. */
module DocLines {
  import opened Seqs
  import opened Wrappers

  datatype Kind =
    | Doc
    | Attr(isNew: bool, isPymethods: bool)
    | Code(indent: string, impl: Option<string>, braces: int, fn: Option<string>, returnsResult: bool)

  /** `closes` says that the stripped line ends in a bracket, which ends a multi-line attribute. */
  datatype Line = Line(raw: string, kind: Kind, closes: bool)

  // Headers are read from the left, starting outside any attribute

  /** Whether the line after `h` is inside a multi-line attribute. */
  predicate Ml(h: seq<Line>) {
    h != [] &&
    var line := h[|h| - 1];
    !line.closes && (Ml(h[..|h| - 1]) || line.kind.Attr?)
  }

  /** No line of `h` is a code line, unless it is inside an attribute. */
  predicate IsHeader(h: seq<Line>) {
    h == [] || (IsHeader(h[..|h| - 1]) && (Ml(h[..|h| - 1]) || !h[|h| - 1].kind.Code?))
  }

  /** The last line of `h` starts outside any attribute. */
  predicate Outside(h: seq<Line>) {
    h != [] && !Ml(h[..|h| - 1])
  }

  /** The first and the last doc comment line. */
  function FirstDoc(h: seq<Line>): (r: Option<nat>)
    ensures r.Some? ==> r.value < |h| && h[r.value].kind.Doc?
  {
    if h == [] then None
    else
      var before := FirstDoc(h[..|h| - 1]);
      if before.Some? then before
      else if Outside(h) && h[|h| - 1].kind.Doc? then Some(|h| - 1) else None
  }

  function LastDoc(h: seq<Line>): (r: Option<nat>)
    ensures r.Some? ==> r.value < |h| && h[r.value].kind.Doc?
  {
    if h == [] then None
    else if Outside(h) && h[|h| - 1].kind.Doc? then Some(|h| - 1)
    else LastDoc(h[..|h| - 1])
  }

  function FirstAttr(h: seq<Line>): (r: Option<nat>)
    ensures r.Some? ==> r.value < |h|
  {
    if h == [] then None
    else
      var before := FirstAttr(h[..|h| - 1]);
      if before.Some? then before
      else if Outside(h) && h[|h| - 1].kind.Attr? then Some(|h| - 1) else None
  }

  predicate HasNew(h: seq<Line>) {
    h != [] && (HasNew(h[..|h| - 1]) || (Outside(h) && h[|h| - 1].kind.Attr? && h[|h| - 1].kind.isNew))
  }

  predicate HasPymethods(h: seq<Line>) {
    h != [] && (HasPymethods(h[..|h| - 1]) || (Outside(h) && h[|h| - 1].kind.Attr? && h[|h| - 1].kind.isPymethods))
  }

  function Shift(k: nat, i: Option<nat>): Option<nat> {
    if i.Some? then Some(k + i.value) else None
  }

  function OrElse(a: Option<nat>, b: Option<nat>): Option<nat> {
    if a.Some? then a else b
  }

  lemma {:induction false} MlAppend(a: seq<Line>, b: seq<Line>)
    requires !Ml(a)
    ensures Ml(a + b) == Ml(b)
    ensures IsHeader(a + b) == (IsHeader(a) && IsHeader(b))
  {
    if b == [] {
      assert a + b == a;
    } else {
      assert (a + b)[..|a + b| - 1] == a + b[..|b| - 1];
      MlAppend(a, b[..|b| - 1]);
    }
  }

  lemma {:induction false} CutLast(a: seq<Line>, b: seq<Line>)
    requires b != []
    ensures (a + b)[..|a + b| - 1] == a + b[..|b| - 1] && (a + b)[|a + b| - 1] == b[|b| - 1]
  {
  }

  lemma {:induction false} OutsideAppend(a: seq<Line>, b: seq<Line>)
    requires !Ml(a) && b != []
    ensures Outside(a + b) == Outside(b)
  {
    CutLast(a, b);
    MlAppend(a, b[..|b| - 1]);
  }

  /** Cut outside an attribute, a header is read part by part. */
  lemma {:induction false} HeaderAppend(a: seq<Line>, b: seq<Line>)
    requires !Ml(a)
    ensures FirstDoc(a + b) == OrElse(FirstDoc(a), Shift(|a|, FirstDoc(b)))
    ensures LastDoc(a + b) == OrElse(Shift(|a|, LastDoc(b)), LastDoc(a))
  {
    if b == [] {
      assert a + b == a;
    } else {
      CutLast(a, b);
      OutsideAppend(a, b);
      hide Ml;
      hide Outside;
      HeaderAppend(a, b[..|b| - 1]);
      var before := a + b[..|b| - 1];
      assert FirstDoc(a + b) == if FirstDoc(before).Some? then FirstDoc(before)
                                else if Outside(b) && b[|b| - 1].kind.Doc? then Some(|a| + |b| - 1) else None;
      assert LastDoc(a + b) == if Outside(b) && b[|b| - 1].kind.Doc? then Some(|a| + |b| - 1) else LastDoc(before);
    }
  }

  lemma {:induction false} FlagsAppend(a: seq<Line>, b: seq<Line>)
    requires !Ml(a)
    ensures HasNew(a + b) == (HasNew(a) || HasNew(b))
    ensures HasPymethods(a + b) == (HasPymethods(a) || HasPymethods(b))
  {
    if b == [] {
      assert a + b == a;
    } else {
      CutLast(a, b);
      OutsideAppend(a, b);
      FlagsAppend(a, b[..|b| - 1]);
      hide Ml;
      hide Outside;
    }
  }

  predicate AllDocs(h: seq<Line>) {
    forall line <- h :: line.kind.Doc?
  }

  lemma {:induction false} DocsHeader(docs: seq<Line>)
    requires AllDocs(docs)
    ensures !Ml(docs) && IsHeader(docs) && !HasNew(docs) && !HasPymethods(docs)
    ensures FirstDoc(docs) == if docs == [] then None else Some(0)
    ensures LastDoc(docs) == if docs == [] then None else Some(|docs| - 1)
  {
    if docs != [] {
      assert docs[|docs| - 1] in docs;
      DocsHeader(docs[..|docs| - 1]);
    }
  }

  lemma {:induction false} NoDocs(h: seq<Line>)
    ensures FirstDoc(h) == None <==> LastDoc(h) == None
  {
    if h != [] {
      NoDocs(h[..|h| - 1]);
    }
  }

  /** Nothing documents what comes before the first doc line. */
  lemma {:induction false} BeforeFirst(h: seq<Line>)
    requires FirstDoc(h).Some?
    ensures var a := h[..FirstDoc(h).value]; !Ml(a) && FirstDoc(a) == None && LastDoc(a) == None
  {
    var h', f := h[..|h| - 1], FirstDoc(h).value;
    if FirstDoc(h').Some? {
      BeforeFirst(h');
      assert h[..f] == h'[..f];
    } else {
      NoDocs(h');
    }
  }

  /** Nor what comes after the last one. */
  lemma {:induction false} AfterLast(h: seq<Line>)
    requires LastDoc(h).Some?
    ensures var l := LastDoc(h).value;
            !Ml(h[..l + 1]) && FirstDoc(h[l + 1..]) == None && LastDoc(h[l + 1..]) == None
  {
    var h', l := h[..|h| - 1], LastDoc(h).value;
    if Outside(h) && h[|h| - 1].kind.Doc? {
      assert h[..l + 1] == h && h[l + 1..] == [];
    } else {
      assert LastDoc(h') == LastDoc(h);
      AfterLast(h');
      AfterLastStep(h, l);
    }
  }

  lemma {:induction false} AfterLastStep(h: seq<Line>, l: nat)
    requires l + 1 < |h| && !(Outside(h) && h[|h| - 1].kind.Doc?)
    requires var h' := h[..|h| - 1]; !Ml(h'[..l + 1]) && FirstDoc(h'[l + 1..]) == None && LastDoc(h'[l + 1..]) == None
    ensures !Ml(h[..l + 1]) && FirstDoc(h[l + 1..]) == None && LastDoc(h[l + 1..]) == None
  {
    var h', z, c := h[..|h| - 1], h[l + 1..], h[|h| - 1];
    var a, b := h'[..l + 1], h'[l + 1..];
    assert h[..l + 1] == a && z == b + [c] && z[..|b|] == b && h' == a + b;
    MlAppend(a, b);
    assert Outside(z) == Outside(h);
    hide Ml;
    hide Outside;
  }

  lemma {:induction false} FirstBeforeLast(h: seq<Line>)
    requires FirstDoc(h).Some?
    ensures LastDoc(h).Some? && FirstDoc(h).value <= LastDoc(h).value
  {
    NoDocs(h);
    if FirstDoc(h[..|h| - 1]).Some? {
      FirstBeforeLast(h[..|h| - 1]);
    }
  }

  /** A header without doc lines is empty or starts with an attribute. */
  lemma {:induction false} AttrFirst(h: seq<Line>)
    requires IsHeader(h) && FirstDoc(h) == None
    ensures FirstAttr(h) == if h == [] then None else Some(0)
  {
    if h != [] {
      AttrFirst(h[..|h| - 1]);
    }
  }

  // Files

  datatype Chunk = Chunk(header: seq<Line>, code: Line)

  datatype File = File(chunks: seq<Chunk>, tail: seq<Line>)

  /** The length of the header that starts with the first `k` lines. */
  function HeaderLen(lines: seq<Line>, k: nat): (n: nat)
    requires k <= |lines|
    ensures k <= n <= |lines|
    ensures n < |lines| ==> lines[n].kind.Code?
    decreases |lines| - k
  {
    if k == |lines| || (!Ml(lines[..k]) && lines[k].kind.Code?) then k else HeaderLen(lines, k + 1)
  }

  function ChunksOf(lines: seq<Line>): File
    decreases |lines|
  {
    var n := HeaderLen(lines, 0);
    if n == |lines| then File([], lines)
    else
      var rest := ChunksOf(lines[n + 1..]);
      File([Chunk(lines[..n], lines[n])] + rest.chunks, rest.tail)
  }

  function Flatten(chunks: seq<Chunk>): seq<Line> {
    if chunks == [] then [] else chunks[0].header + [chunks[0].code] + Flatten(chunks[1..])
  }

  predicate ChunkOk(c: Chunk) {
    c.code.kind.Code? && IsHeader(c.header) && !Ml(c.header)
  }

  predicate FileOk(file: File) {
    (forall c <- file.chunks :: ChunkOk(c)) && IsHeader(file.tail)
  }

  lemma {:induction false} HeaderLenIs(h: seq<Line>, rest: seq<Line>, k: nat)
    requires IsHeader(h) && k <= |h|
    requires rest == [] || (rest[0].kind.Code? && !Ml(h))
    ensures HeaderLen(h + rest, k) == |h|
    decreases |h| - k
  {
    assert (h + rest)[..k] == h[..k];
    if k == |h| {
      assert h[..k] == h;
    } else {
      HeaderPrefix(h, k);
      HeaderLenIs(h, rest, k + 1);
    }
  }

  lemma {:induction false} HeaderPrefix(h: seq<Line>, k: nat)
    requires IsHeader(h) && k < |h|
    ensures Ml(h[..k]) || !h[k].kind.Code?
  {
    if k < |h| - 1 {
      HeaderPrefix(h[..|h| - 1], k);
      assert h[..|h| - 1][..k] == h[..k];
    }
  }

  lemma {:induction false} HeaderLenIsHeader(lines: seq<Line>, k: nat)
    requires k <= |lines| && IsHeader(lines[..k])
    ensures var n := HeaderLen(lines, k);
            IsHeader(lines[..n]) && (n < |lines| ==> !Ml(lines[..n]))
    decreases |lines| - k
  {
    if k < |lines| && (Ml(lines[..k]) || !lines[k].kind.Code?) {
      assert lines[..k + 1][..k] == lines[..k];
      HeaderLenIsHeader(lines, k + 1);
    }
  }

  lemma {:induction false} Around(lines: seq<Line>, n: nat)
    requires n < |lines|
    ensures lines == lines[..n] + [lines[n]] + lines[n + 1..]
  {
  }

  lemma {:induction false} FlattenCons(c: Chunk, rest: File)
    ensures Flatten([c] + rest.chunks) + rest.tail == c.header + [c.code] + (Flatten(rest.chunks) + rest.tail)
    ensures ChunkOk(c) && FileOk(rest) ==> FileOk(File([c] + rest.chunks, rest.tail))
  {
    assert ([c] + rest.chunks)[1..] == rest.chunks;
  }

  /** Splitting a file into chunks loses nothing. */
  lemma {:induction false} FlattenChunks(lines: seq<Line>)
    ensures Flatten(ChunksOf(lines).chunks) + ChunksOf(lines).tail == lines
    ensures FileOk(ChunksOf(lines))
    decreases |lines|
  {
    var n := HeaderLen(lines, 0);
    HeaderLenIsHeader(lines, 0);
    if n == |lines| {
      assert lines[..n] == lines;
    } else {
      var c, rest := Chunk(lines[..n], lines[n]), ChunksOf(lines[n + 1..]);
      assert ChunksOf(lines) == File([c] + rest.chunks, rest.tail) && ChunkOk(c);
      hide *;
      FlattenChunks(lines[n + 1..]);
      FlattenCons(c, rest);
      Around(lines, n);
    }
  }

  /** Chunks are found again in the text they make up. */
  lemma {:induction false} ChunksFlatten(file: File)
    requires FileOk(file)
    ensures ChunksOf(Flatten(file.chunks) + file.tail) == file
    decreases |file.chunks|
  {
    var lines := Flatten(file.chunks) + file.tail;
    if file.chunks == [] {
      assert lines == file.tail + [];
      HeaderLenIs(file.tail, [], 0);
    } else {
      var c, rest := file.chunks[0], file.(chunks := file.chunks[1..]);
      var after := Flatten(rest.chunks) + file.tail;
      assert ChunkOk(c) && FileOk(rest);
      hide *;
      FirstSplit(file.chunks);
      FlattenCons(c, rest);
      Associates(c.header, [c.code], after);
      FirstChunk(c, after);
      ChunksFlatten(rest);
    }
  }

  lemma {:induction false} FirstSplit<T>(s: seq<T>)
    requires s != []
    ensures s == [s[0]] + s[1..]
  {
  }

  lemma {:induction false} FirstChunk(c: Chunk, after: seq<Line>)
    requires ChunkOk(c)
    ensures var rest := ChunksOf(after);
            ChunksOf(c.header + ([c.code] + after)) == File([c] + rest.chunks, rest.tail)
  {
    var lines := c.header + ([c.code] + after);
    HeaderLenIs(c.header, [c.code] + after, 0);
    assert lines[|c.header| + 1..] == after && lines[..|c.header|] == c.header;
  }
}
