/** Rewriting the doc comments of PyO3 wrapper functions.

Every `py_*` function of a file gets the doc comment of the Rust item it wraps. `Rewrite` says what
becomes of a file as a whole. */
module DocRewrite {
  import opened Wrappers
  import opened DocLines

  /** The collected source docs, keyed by enclosing type and item name, and the two regular expressions of the
  transformation: the section a line heads, and a line with its intra-doc links rewritten. */
  datatype Env = Env(
    docs: map<(Option<string>, string), seq<string>>,
    section: string -> Option<string>,
    relink: string -> string)
  {
    /** An empty line heads no section. */
    predicate Valid() {
      section("") == None
    }
  }

  // The transformation of a source doc

  const PANICS := "Panics"
  const ERRORS := "Errors"

  predicate Dropped(section: Option<string>, stripErrors: bool) {
    section == Some(PANICS) || (stripErrors && section == Some(ERRORS))
  }

  /** The section that the first `n` lines end in. */
  function SectionOf(env: Env, lines: seq<string>, n: nat): Option<string>
    requires n <= |lines|
  {
    if n == 0 then None
    else if env.section(lines[n - 1]).Some? then env.section(lines[n - 1])
    else SectionOf(env, lines, n - 1)
  }

  /** The lines, among the first `n`, that are in no dropped section. */
  function Kept(env: Env, lines: seq<string>, n: nat, stripErrors: bool): seq<string>
    requires n <= |lines|
  {
    if n == 0 then []
    else if Dropped(SectionOf(env, lines, n), stripErrors) then Kept(env, lines, n - 1, stripErrors)
    else Kept(env, lines, n - 1, stripErrors) + [env.relink(lines[n - 1])]
  }

  function TrimFront(lines: seq<string>): (r: seq<string>)
    ensures r == [] || r[0] != ""
  {
    if lines != [] && lines[0] == "" then TrimFront(lines[1..]) else lines
  }

  function TrimBack(lines: seq<string>): (r: seq<string>)
    ensures r == [] || r[|r| - 1] != ""
  {
    if lines != [] && lines[|lines| - 1] == "" then TrimBack(lines[..|lines| - 1]) else lines
  }

  function Transform(env: Env, lines: seq<string>, stripErrors: bool): seq<string> {
    TrimBack(TrimFront(Kept(env, lines, |lines|, stripErrors)))
  }

  predicate EndsInBracket(text: string) {
    if text == [] then false
    else if text[|text| - 1] == ' ' then EndsInBracket(text[..|text| - 1])
    else text[|text| - 1] == ']'
  }

  function DocLine(text: string, indent: string): Line {
    Line(indent + (if text == "" then "///" else "/// " + text), Doc, EndsInBracket(text))
  }

  function Format(lines: seq<string>, indent: string): (r: seq<Line>)
    ensures |r| == |lines| && AllDocs(r)
    ensures forall i :: 0 <= i < |lines| ==> r[i] == DocLine(lines[i], indent)
  {
    if lines == [] then [] else Format(lines[..|lines| - 1], indent) + [DocLine(lines[|lines| - 1], indent)]
  }

  // Which doc a function gets

  datatype Key = Key(fn: string, implType: Option<string>, isConstructor: bool, inPymethods: bool)

  /** What the parser carries from chunk to chunk. */
  datatype Core = Core(implType: Option<string>, inPymethods: bool, depth: int, pymethodsDepth: int)

  const CORE := Core(None, false, 0, 0)

  /** A code line opens or leaves the `impl` block of a `#[pymethods]` attribute. */
  function PassCode(core: Core, code: Line): Core
    requires code.kind.Code?
  {
    var c1 := if code.kind.impl.Some? && core.inPymethods
              then core.(implType := code.kind.impl, pymethodsDepth := core.depth) else core;
    var c2 := c1.(depth := c1.depth + code.kind.braces);
    if c2.implType.Some? && c2.depth <= c2.pymethodsDepth
    then c2.(implType := None, inPymethods := false) else c2
  }

  function AfterCode(core: Core, h: seq<Line>, code: Line): Core
    requires code.kind.Code?
  {
    PassCode(core.(inPymethods := core.inPymethods || HasPymethods(h)), code)
  }

  function KeyOf(core: Core, h: seq<Line>, code: Line): Option<Key>
    requires code.kind.Code?
  {
    var after := AfterCode(core, h, code);
    if code.kind.fn.Some?
    then Some(Key(code.kind.fn.value, after.implType, HasNew(h), after.inPymethods)) else None
  }

  function Lookup(env: Env, k: (Option<string>, string)): seq<string> {
    if k in env.docs then env.docs[k] else []
  }

  function Target(fn: string): string {
    if |fn| >= 3 && fn[..3] == "py_" then fn[3..] else fn
  }

  function SourceDoc(env: Env, key: Key): seq<string> {
    if key.isConstructor && key.implType.Some? then
      var doc := Lookup(env, (None, key.implType.value));
      if doc != [] then doc else Lookup(env, (key.implType, "new"))
    else if key.implType.Some? then Lookup(env, (key.implType, Target(key.fn)))
    else if key.inPymethods then []
    else Lookup(env, (None, Target(key.fn)))
  }

  /** The doc comment to write above a function, if any. */
  function NewDoc(env: Env, key: Key, code: Line): (r: Option<seq<Line>>)
    ensures r.Some? ==> r.value != [] && AllDocs(r.value)
  {
    var source := SourceDoc(env, key);
    if source == [] || !code.kind.Code? then None
    else
      var transformed := Transform(env, source, !code.kind.returnsResult);
      if transformed == [] then None else Some(Format(transformed, code.kind.indent))
  }

  // Rewriting a header and a file

  /** The range of the doc lines of a header: empty and at its start if it has none. */
  function DocLo(h: seq<Line>): (lo: nat)
    ensures lo <= |h|
  {
    if FirstDoc(h).Some? then FirstDoc(h).value else 0
  }

  function DocHi(h: seq<Line>): (hi: nat)
    ensures DocLo(h) <= hi <= |h|
  {
    if FirstDoc(h).Some? then FirstBeforeLast(h); LastDoc(h).value + 1 else 0
  }

  function Redoc(h: seq<Line>, docs: seq<Line>): seq<Line> {
    h[..DocLo(h)] + docs + h[DocHi(h)..]
  }

  predicate UpToDate(h: seq<Line>, docs: seq<Line>) {
    FirstDoc(h).Some? && h[DocLo(h)..DocHi(h)] == docs
  }

  function RewriteChunk(env: Env, core: Core, c: Chunk): Chunk {
    if !c.code.kind.Code? then c
    else
      var key := KeyOf(core, c.header, c.code);
      if key.None? || NewDoc(env, key.value, c.code).None? then c
      else c.(header := Redoc(c.header, NewDoc(env, key.value, c.code).value))
  }

  /** Whether rewriting a chunk counts as an update. */
  predicate Updated(env: Env, core: Core, c: Chunk)
    requires c.code.kind.Code?
  {
    var key := KeyOf(core, c.header, c.code);
    key.Some? && NewDoc(env, key.value, c.code).Some? && !UpToDate(c.header, NewDoc(env, key.value, c.code).value)
  }

  function RewriteChunks(env: Env, core: Core, chunks: seq<Chunk>): seq<Chunk>
    decreases |chunks|
  {
    if chunks == [] || !chunks[0].code.kind.Code? then chunks
    else
      var c := chunks[0];
      [RewriteChunk(env, core, c)] + RewriteChunks(env, AfterCode(core, c.header, c.code), chunks[1..])
  }

  function Updates(env: Env, core: Core, chunks: seq<Chunk>): nat
    decreases |chunks|
  {
    if chunks == [] || !chunks[0].code.kind.Code? then 0
    else
      var c := chunks[0];
      (if Updated(env, core, c) then 1 else 0) + Updates(env, AfterCode(core, c.header, c.code), chunks[1..])
  }

  /** The whole file with every doc range replaced at once. */
  function Rewrite(env: Env, lines: seq<Line>): seq<Line> {
    var file := ChunksOf(lines);
    Flatten(RewriteChunks(env, CORE, file.chunks)) + file.tail
  }

  function UpdatesOf(env: Env, lines: seq<Line>): nat {
    Updates(env, CORE, ChunksOf(lines).chunks)
  }

  // Headers around new docs

  lemma {:induction false} CutAt(h: seq<Line>, k: nat)
    requires k <= |h|
    ensures h == h[..k] + h[k..]
  {
  }

  /** A cut outside any attribute leaves two headers. */
  lemma {:induction false} CutHeader(h: seq<Line>, k: nat)
    requires k <= |h| && IsHeader(h) && !Ml(h) && !Ml(h[..k])
    ensures IsHeader(h[..k]) && IsHeader(h[k..]) && !Ml(h[k..])
  {
    hide *;
    CutAt(h, k);
    MlAppend(h[..k], h[k..]);
  }

  lemma {:induction false} PartsWithDocs(h: seq<Line>)
    requires IsHeader(h) && !Ml(h) && FirstDoc(h).Some? && LastDoc(h).Some?
    ensures var a, z := h[..DocLo(h)], h[DocHi(h)..];
            && !Ml(a) && IsHeader(a) && FirstDoc(a) == None && LastDoc(a) == None
            && !Ml(z) && IsHeader(z) && FirstDoc(z) == None && LastDoc(z) == None
            && !Ml(h[..DocHi(h)])
  {
    hide Ml;
    hide IsHeader;
    hide FirstDoc;
    hide LastDoc;
    assert DocLo(h) == FirstDoc(h).value && DocHi(h) == LastDoc(h).value + 1;
    hide DocLo;
    hide DocHi;
    BeforeFirst(h);
    AfterLast(h);
    CutHeader(h, DocLo(h));
    CutHeader(h, DocHi(h));
  }

  lemma {:induction false} PartsWithout(h: seq<Line>)
    requires IsHeader(h) && !Ml(h) && FirstDoc(h) == None && LastDoc(h) == None
    ensures var a, z := h[..DocLo(h)], h[DocHi(h)..];
            && !Ml(a) && IsHeader(a) && FirstDoc(a) == None && LastDoc(a) == None
            && !Ml(z) && IsHeader(z) && FirstDoc(z) == None && LastDoc(z) == None
            && !Ml(h[..DocHi(h)])
  {
    assert DocLo(h) == 0 && DocHi(h) == 0 && h[0..] == h && h[..0] == [];
    EmptyHeader();
    hide *;
  }

  lemma {:induction false} EmptyHeader()
    ensures !Ml([]) && IsHeader([]) && FirstDoc([]) == None && LastDoc([]) == None
  {
  }

  /** The three parts of a header around its doc lines. */
  lemma {:induction false} Parts(h: seq<Line>)
    requires IsHeader(h) && !Ml(h)
    ensures var a, z := h[..DocLo(h)], h[DocHi(h)..];
            && !Ml(a) && IsHeader(a) && FirstDoc(a) == None && LastDoc(a) == None
            && !Ml(z) && IsHeader(z) && FirstDoc(z) == None && LastDoc(z) == None
            && !Ml(h[..DocHi(h)])
  {
    hide *;
    NoDocs(h);
    if FirstDoc(h).Some? {
      PartsWithDocs(h);
    } else {
      PartsWithout(h);
    }
  }

  /** A rewritten header is a header whose doc lines are exactly the new ones. */
  lemma {:induction false} RedocHeader(h: seq<Line>, docs: seq<Line>)
    requires IsHeader(h) && !Ml(h) && docs != [] && AllDocs(docs)
    ensures var r := Redoc(h, docs);
            && IsHeader(r) && !Ml(r)
            && DocLo(r) == DocLo(h) && DocHi(r) == DocLo(h) + |docs|
            && UpToDate(r, docs) && Redoc(r, docs) == r
            && HasNew(r) == (HasNew(h[..DocLo(h)]) || HasNew(h[DocHi(h)..]))
            && HasPymethods(r) == (HasPymethods(h[..DocLo(h)]) || HasPymethods(h[DocHi(h)..]))
  {
    hide Ml;
    hide IsHeader;
    hide HasNew;
    hide HasPymethods;
    var a, z, r := h[..DocLo(h)], h[DocHi(h)..], Redoc(h, docs);
    Parts(h);
    DocsHeader(docs);
    MlAppend(a, docs);
    HeaderAppend(a, docs);
    FlagsAppend(a, docs);
    MlAppend(a + docs, z);
    HeaderAppend(a + docs, z);
    FlagsAppend(a + docs, z);
    assert r[..|a|] == a && r[|a|..|a| + |docs|] == docs && r[|a| + |docs|..] == z;
  }

  /** Rewriting the docs of this header loses no attribute that decides which doc it gets. */
  predicate FlagsKept(h: seq<Line>) {
    && HasNew(h) == (HasNew(h[..DocLo(h)]) || HasNew(h[DocHi(h)..]))
    && HasPymethods(h) == (HasPymethods(h[..DocLo(h)]) || HasPymethods(h[DocHi(h)..]))
  }

  /** The doc lines of the header are contiguous. */
  predicate Contiguous(h: seq<Line>) {
    AllDocs(h[DocLo(h)..DocHi(h)])
  }

  lemma {:induction false} ContiguousKeepsFlags(h: seq<Line>)
    requires IsHeader(h) && !Ml(h) && Contiguous(h)
    ensures FlagsKept(h)
  {
    var lo, hi := DocLo(h), DocHi(h);
    assert AllDocs(h[lo..hi]);
    assert !Ml(h[..lo]) && !Ml(h[..hi]) by { Parts(h); }
    hide HasNew;
    hide HasPymethods;
    hide IsHeader;
    hide Ml;
    hide DocLo;
    hide DocHi;
    DocsHeader(h[lo..hi]);
    CutTwice(h, lo, hi);
    FlagsAppend(h[..lo], h[lo..hi]);
    FlagsAppend(h[..hi], h[hi..]);
  }

  // What survives

  /** The lines of a header that are not doc lines. */
  function Others(h: seq<Line>): seq<Line> {
    if h == [] then []
    else if Outside(h) && h[|h| - 1].kind.Doc? then Others(h[..|h| - 1])
    else Others(h[..|h| - 1]) + [h[|h| - 1]]
  }

  lemma {:induction false} OthersAppend(a: seq<Line>, b: seq<Line>)
    requires !Ml(a)
    ensures Others(a + b) == Others(a) + Others(b)
  {
    if b == [] {
      assert a + b == a;
    } else {
      assert (a + b)[..|a + b| - 1] == a + b[..|b| - 1];
      MlAppend(a, b[..|b| - 1]);
      OthersAppend(a, b[..|b| - 1]);
    }
  }

  lemma {:induction false} OthersOfDocs(h: seq<Line>)
    ensures AllDocs(h) ==> Others(h) == []
    ensures Others(h) == [] ==> AllDocs(h)
  {
    if h != [] {
      var h' := h[..|h| - 1];
      OthersOfDocs(h');
      assert forall line <- h :: line in h' || line == h[|h| - 1];
      assert h[|h| - 1] in h;
      if AllDocs(h) {
        DocsHeader(h');
      }
    }
  }

  lemma {:induction false} CutTwice(h: seq<Line>, lo: nat, hi: nat)
    requires lo <= hi <= |h|
    ensures h[..lo] + h[lo..hi] == h[..hi] && h == h[..hi] + h[hi..]
  {
  }

  lemma {:induction false} OthersOfParts(h: seq<Line>)
    requires IsHeader(h) && !Ml(h)
    ensures Others(h) == Others(h[..DocLo(h)]) + Others(h[DocLo(h)..DocHi(h)]) + Others(h[DocHi(h)..])
  {
    var lo, hi := DocLo(h), DocHi(h);
    var a, m, z := h[..lo], h[lo..hi], h[hi..];
    assert !Ml(a) && !Ml(h[..hi]) by { Parts(h); }
    hide *;
    CutTwice(h, lo, hi);
    OthersAppend(h[..hi], z);
    OthersAppend(a, m);
  }

  lemma {:induction false} OthersOfRedoc(h: seq<Line>, docs: seq<Line>)
    requires IsHeader(h) && !Ml(h) && AllDocs(docs)
    ensures Others(Redoc(h, docs)) == Others(h[..DocLo(h)]) + Others(h[DocHi(h)..])
  {
    var a, z := h[..DocLo(h)], h[DocHi(h)..];
    assert Redoc(h, docs) == a + docs + z;
    assert !Ml(a) by { Parts(h); }
    hide *;
    OthersDropDocs(a, docs, z);
  }

  lemma {:induction false} OthersDropDocs(a: seq<Line>, docs: seq<Line>, z: seq<Line>)
    requires !Ml(a) && AllDocs(docs)
    ensures Others(a + docs + z) == Others(a) + Others(z)
  {
    hide *;
    DocsHeader(docs);
    OthersOfDocs(docs);
    MlAppend(a, docs);
    OthersAppend(a, docs);
    OthersAppend(a + docs, z);
  }

  /** The attributes of a rewritten header survive, in order, exactly when its doc lines were contiguous. */
  lemma {:induction false} AttributesSurviveIff(h: seq<Line>, docs: seq<Line>)
    requires IsHeader(h) && !Ml(h) && AllDocs(docs)
    ensures Others(Redoc(h, docs)) == Others(h) <==> Contiguous(h)
  {
    var m := h[DocLo(h)..DocHi(h)];
    assert Contiguous(h) == AllDocs(m);
    hide *;
    OthersOfParts(h);
    OthersOfRedoc(h, docs);
    OthersOfDocs(m);
    assert |Others(h)| == |Others(Redoc(h, docs))| + |Others(m)|;
  }
}
