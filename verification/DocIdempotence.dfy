/** What a second run of the docstring generator does to the output of the first. */
module DocIdempotence {
  import opened Wrappers
  import opened DocLines
  import opened DocRewrite
  import opened GenerateDocstrings

  /** A first run writes a doc above the function of this chunk. */
  predicate Rewritten(env: Env, core: Core, c: Chunk)
    requires c.code.kind.Code?
  {
    KeyOf(core, c.header, c.code).Some? && NewDoc(env, KeyOf(core, c.header, c.code).value, c.code).Some?
  }

  /** A header without the range of its doc lines. */
  function Bare(h: seq<Line>): seq<Line> {
    h[..DocLo(h)] + h[DocHi(h)..]
  }

  /** Whatever attributes the first run leaves to the header. */
  function Remains(env: Env, core: Core, c: Chunk): seq<Line>
    requires c.code.kind.Code?
  {
    if Rewritten(env, core, c) then Bare(c.header) else c.header
  }

  /** The doc that the remaining attributes select is absent, or it is the one just written, or it was there
  already. The first run is in the state `core`, the second in `core'`. */
  predicate ChunkSettles(env: Env, core: Core, core': Core, c: Chunk)
    requires c.code.kind.Code?
  {
    var key := KeyOf(core', Remains(env, core, c), c.code);
    key.None? ||
      var docs := NewDoc(env, key.value, c.code);
      docs.None? ||
        if Rewritten(env, core, c)
        then docs == NewDoc(env, KeyOf(core, c.header, c.code).value, c.code)
        else UpToDate(c.header, docs.value)
  }

  predicate Settles(env: Env, core: Core, core': Core, chunks: seq<Chunk>)
    decreases |chunks|
  {
    chunks == [] || !chunks[0].code.kind.Code? ||
      var c := chunks[0];
      && ChunkSettles(env, core, core', c)
      && Settles(env, AfterCode(core, c.header, c.code), AfterCode(core', Remains(env, core, c), c.code), chunks[1..])
  }

  // One chunk

  lemma {:induction false} BareFlags(h: seq<Line>)
    requires IsHeader(h) && !Ml(h)
    ensures HasNew(Bare(h)) == (HasNew(h[..DocLo(h)]) || HasNew(h[DocHi(h)..]))
    ensures HasPymethods(Bare(h)) == (HasPymethods(h[..DocLo(h)]) || HasPymethods(h[DocHi(h)..]))
  {
    var a, z := h[..DocLo(h)], h[DocHi(h)..];
    assert Bare(h) == a + z;
    assert !Ml(a) by { Parts(h); }
    hide *;
    FlagsAppend(a, z);
  }

  /** Only the flags of a header matter to what is read after it. */
  lemma {:induction false} SameFlags(core: Core, h: seq<Line>, h': seq<Line>, code: Line)
    requires HasNew(h) == HasNew(h') && HasPymethods(h) == HasPymethods(h') && code.kind.Code?
    ensures KeyOf(core, h, code) == KeyOf(core, h', code) && AfterCode(core, h, code) == AfterCode(core, h', code)
  {
    hide HasNew;
    hide HasPymethods;
  }

  /** What the second run makes of a header that the first has rewritten. */
  lemma {:induction false} SecondHeader(core: Core, h: seq<Line>, docs: seq<Line>, code: Line)
    requires IsHeader(h) && !Ml(h) && docs != [] && AllDocs(docs) && code.kind.Code?
    ensures var r := Redoc(h, docs);
            && IsHeader(r) && !Ml(r)
            && KeyOf(core, r, code) == KeyOf(core, Bare(h), code)
            && AfterCode(core, r, code) == AfterCode(core, Bare(h), code)
            && (forall other :: UpToDate(r, other) <==> other == docs)
  {
    hide HasNew;
    hide HasPymethods;
    hide IsHeader;
    hide Ml;
    hide KeyOf;
    hide AfterCode;
    hide Redoc;
    hide Bare;
    RedocHeader(h, docs);
    BareFlags(h);
    SameFlags(core, Redoc(h, docs), Bare(h), code);
  }

  lemma {:induction false} SecondRun(env: Env, core: Core, core': Core, c: Chunk)
    requires ChunkOk(c)
    ensures var r := RewriteChunk(env, core, c);
            && ChunkOk(r) && r.code == c.code
            && KeyOf(core', r.header, r.code) == KeyOf(core', Remains(env, core, c), c.code)
            && AfterCode(core', r.header, r.code) == AfterCode(core', Remains(env, core, c), c.code)
            && (Updated(env, core', r) <==> !ChunkSettles(env, core, core', c))
  {
    hide HasNew;
    hide HasPymethods;
    hide IsHeader;
    hide Ml;
    hide NewDoc;
    hide KeyOf;
    hide AfterCode;
    hide Redoc;
    hide UpToDate;
    hide Bare;
    if Rewritten(env, core, c) {
      SecondHeader(core', c.header, NewDoc(env, KeyOf(core, c.header, c.code).value, c.code).value, c.code);
    }
  }

  /** Writing a doc changes a header unless it is there already. */
  lemma {:induction false} RedocChanges(h: seq<Line>, docs: seq<Line>)
    requires docs != []
    ensures Redoc(h, docs) == h <==> UpToDate(h, docs)
  {
    var lo, hi := DocLo(h), DocHi(h);
    var r := Redoc(h, docs);
    assert h == h[..lo] + h[lo..hi] + h[hi..];
    if r == h {
      assert |docs| == hi - lo;
      assert r[lo..hi] == docs;
    }
  }

  lemma {:induction false} UpdateChanges(env: Env, core: Core, c: Chunk)
    requires c.code.kind.Code?
    ensures RewriteChunk(env, core, c) == c <==> !Updated(env, core, c)
  {
    if Rewritten(env, core, c) {
      RedocChanges(c.header, NewDoc(env, KeyOf(core, c.header, c.code).value, c.code).value);
    }
  }

  // Whole files

  lemma {:induction false} SecondRunChunks(env: Env, core: Core, core': Core, chunks: seq<Chunk>)
    requires forall c <- chunks :: ChunkOk(c)
    ensures var r := RewriteChunks(env, core, chunks);
            && (forall c <- r :: ChunkOk(c))
            && (Updates(env, core', r) == 0 <==> Settles(env, core, core', chunks))
            && (RewriteChunks(env, core', r) == r <==> Settles(env, core, core', chunks))
    decreases |chunks|
  {
    if chunks != [] {
      var c, rest := chunks[0], chunks[1..];
      assert ChunkOk(c);
      var next, next' := AfterCode(core, c.header, c.code), AfterCode(core', Remains(env, core, c), c.code);
      var first := RewriteChunk(env, core, c);
      var r := RewriteChunks(env, core, chunks);
      assert r == [first] + RewriteChunks(env, next, rest);
      assert r[1..] == RewriteChunks(env, next, rest);
      assert Settles(env, core, core', chunks) <==>
             ChunkSettles(env, core, core', c) && Settles(env, next, next', rest);
      SecondRun(env, core, core', c);
      UpdateChanges(env, core', first);
      SecondRunChunks(env, next, next', rest);
      assert RewriteChunks(env, core', r) == [RewriteChunk(env, core', first)] + RewriteChunks(env, next', r[1..]);
      assert Updates(env, core', r) == (if Updated(env, core', first) then 1 else 0) + Updates(env, next', r[1..]);
      hide *;
      ConsEqual(RewriteChunk(env, core', first), first, RewriteChunks(env, next', r[1..]), r[1..]);
    }
  }

  lemma {:induction false} ConsEqual(x: Chunk, y: Chunk, a: seq<Chunk>, b: seq<Chunk>)
    ensures [x] + a == [y] + b <==> x == y && a == b
  {
    if [x] + a == [y] + b {
      assert ([x] + a)[0] == x && ([x] + a)[1..] == a && ([y] + b)[1..] == b;
    }
  }

  /** A second run performs no update, and leaves the file as it is, if and only if for every function the
  attributes outside its doc range select no doc or the one that the first run leaves there. */
  lemma {:induction false} RewriteIdempotentIff(env: Env, lines: seq<Line>)
    ensures UpdatesOf(env, Rewrite(env, lines)) == 0 <==> Settles(env, CORE, CORE, ChunksOf(lines).chunks)
    ensures Rewrite(env, Rewrite(env, lines)) == Rewrite(env, lines) <==>
            Settles(env, CORE, CORE, ChunksOf(lines).chunks)
  {
    var file := ChunksOf(lines);
    var once := File(RewriteChunks(env, CORE, file.chunks), file.tail);
    var twice := File(RewriteChunks(env, CORE, once.chunks), file.tail);
    FlattenChunks(lines);
    SecondRunChunks(env, CORE, CORE, file.chunks);
    assert Rewrite(env, lines) == Flatten(once.chunks) + once.tail;
    ChunksFlatten(once);
    assert Rewrite(env, Rewrite(env, lines)) == Flatten(twice.chunks) + twice.tail;
    SecondRunChunks(env, CORE, CORE, once.chunks);
    ChunksFlatten(twice);
  }

  // No attribute that matters is lost

  /** No rewritten header has an attribute between two doc lines that decides which doc a function gets. */
  predicate KeepsFlags(env: Env, core: Core, chunks: seq<Chunk>)
    decreases |chunks|
  {
    chunks == [] || !chunks[0].code.kind.Code? ||
      var c := chunks[0];
      && (Rewritten(env, core, c) ==> FlagsKept(c.header))
      && KeepsFlags(env, AfterCode(core, c.header, c.code), chunks[1..])
  }

  function Keys(items: seq<Item>): seq<Key> {
    seq(|items|, i requires 0 <= i < |items| => items[i].key)
  }

  lemma {:induction false} KeysAppend(a: seq<Item>, b: seq<Item>)
    ensures Keys(a + b) == Keys(a) + Keys(b)
  {
  }

  lemma {:induction false} KeptFlags(env: Env, core: Core, c: Chunk)
    requires ChunkOk(c) && (Rewritten(env, core, c) ==> FlagsKept(c.header))
    ensures HasNew(Remains(env, core, c)) == HasNew(c.header)
            && HasPymethods(Remains(env, core, c)) == HasPymethods(c.header)
  {
    BareFlags(c.header);
    hide *;
  }

  lemma {:induction false} KeptChunk(env: Env, core: Core, c: Chunk, o: nat, o': nat)
    requires ChunkOk(c) && (Rewritten(env, core, c) ==> FlagsKept(c.header))
    ensures var first := RewriteChunk(env, core, c);
            && ChunkOk(first) && first.code == c.code
            && ChunkSettles(env, core, core, c)
            && AfterCode(core, Remains(env, core, c), c.code) == AfterCode(core, c.header, c.code)
            && AfterCode(core, first.header, first.code) == AfterCode(core, c.header, c.code)
            && Keys(ItemOf(core, first, o')) == Keys(ItemOf(core, c, o))
  {
    var first := RewriteChunk(env, core, c);
    hide HasNew;
    hide HasPymethods;
    hide IsHeader;
    hide Ml;
    hide NewDoc;
    hide KeyOf;
    hide AfterCode;
    hide RewriteChunk;
    hide FlagsKept;
    KeptFlags(env, core, c);
    SameFlags(core, Remains(env, core, c), c.header, c.code);
    SecondRun(env, core, core, c);
    KeysOfItem(core, c, o);
    KeysOfItem(core, first, o');
  }

  lemma {:induction false} KeysOfItem(core: Core, c: Chunk, o: nat)
    requires c.code.kind.Code?
    ensures var key := KeyOf(core, c.header, c.code); Keys(ItemOf(core, c, o)) == if key.Some? then [key.value] else []
  {
    hide KeyOf;
  }

  lemma {:induction false} KeptUnfold(env: Env, core: Core, chunks: seq<Chunk>)
    requires chunks != [] && ChunkOk(chunks[0]) && KeepsFlags(env, core, chunks)
    ensures var c, rest := chunks[0], chunks[1..];
            var next := AfterCode(core, c.header, c.code);
            && (Rewritten(env, core, c) ==> FlagsKept(c.header))
            && KeepsFlags(env, next, rest)
            && chunks == [c] + rest
            && RewriteChunks(env, core, chunks) == [RewriteChunk(env, core, c)] + RewriteChunks(env, next, rest)
            && (ChunkSettles(env, core, core, c)
                && Settles(env, next, AfterCode(core, Remains(env, core, c), c.code), rest)
                ==> Settles(env, core, core, chunks))
  {
    hide Rewritten;
    hide FlagsKept;
    hide ChunkSettles;
    hide Remains;
    hide AfterCode;
    hide RewriteChunk;
  }

  lemma {:induction false} KeptSettles(env: Env, core: Core, chunks: seq<Chunk>, o: nat, o': nat)
    requires (forall c <- chunks :: ChunkOk(c)) && KeepsFlags(env, core, chunks)
    ensures Settles(env, core, core, chunks)
    ensures Keys(ItemsAt(core, RewriteChunks(env, core, chunks), o')) == Keys(ItemsAt(core, chunks, o))
    decreases |chunks|
  {
    if chunks == [] {
      assert RewriteChunks(env, core, chunks) == [];
    } else {
      hide *;
      var c, rest := chunks[0], chunks[1..];
      assert c in chunks && forall x <- rest :: x in chunks;
      KeptUnfold(env, core, chunks);
      KeptChunk(env, core, c, o, o');
      var next := AfterCode(core, c.header, c.code);
      var first, more := RewriteChunk(env, core, c), RewriteChunks(env, next, rest);
      var k, k' := o + |c.header| + 1, o' + |first.header| + 1;
      KeptSettles(env, next, rest, k, k');
      ItemsStep(core, c, rest, o);
      ItemsStep(core, first, more, o');
      KeysAppend(ItemOf(core, c, o), ItemsAt(next, rest, k));
      KeysAppend(ItemOf(core, first, o'), ItemsAt(next, more, k'));
    }
  }

  /** Then a second run finds the same functions under the same keys and has nothing to do. */
  lemma {:induction false} RewriteIdempotent(env: Env, lines: seq<Line>)
    requires KeepsFlags(env, CORE, ChunksOf(lines).chunks)
    ensures Keys(ItemsOf(Rewrite(env, lines))) == Keys(ItemsOf(lines))
    ensures UpdatesOf(env, Rewrite(env, lines)) == 0
    ensures Rewrite(env, Rewrite(env, lines)) == Rewrite(env, lines)
  {
    var file := ChunksOf(lines);
    FlattenChunks(lines);
    KeptSettles(env, CORE, file.chunks, 0, 0);
    RewriteIdempotentIff(env, lines);
    SecondRunChunks(env, CORE, CORE, file.chunks);
    ChunksFlatten(File(RewriteChunks(env, CORE, file.chunks), file.tail));
  }

  predicate AllContiguous(env: Env, core: Core, chunks: seq<Chunk>)
    decreases |chunks|
  {
    chunks == [] || !chunks[0].code.kind.Code? ||
      var c := chunks[0];
      && (Rewritten(env, core, c) ==> Contiguous(c.header))
      && AllContiguous(env, AfterCode(core, c.header, c.code), chunks[1..])
  }

  lemma {:induction false} ContiguousKeeps(env: Env, core: Core, chunks: seq<Chunk>)
    requires (forall c <- chunks :: ChunkOk(c)) && AllContiguous(env, core, chunks)
    ensures KeepsFlags(env, core, chunks)
    decreases |chunks|
  {
    if chunks != [] {
      var c := chunks[0];
      assert ChunkOk(c);
      ContiguousKeeps(env, AfterCode(core, c.header, c.code), chunks[1..]);
      if Rewritten(env, core, c) {
        ContiguousKeepsFlags(c.header);
      }
    }
  }

  /** In particular when the doc lines of every rewritten function are contiguous. */
  lemma {:induction false} ContiguousIdempotent(env: Env, lines: seq<Line>)
    requires AllContiguous(env, CORE, ChunksOf(lines).chunks)
    ensures Keys(ItemsOf(Rewrite(env, lines))) == Keys(ItemsOf(lines))
    ensures UpdatesOf(env, Rewrite(env, lines)) == 0
    ensures Rewrite(env, Rewrite(env, lines)) == Rewrite(env, lines)
  {
    FlattenChunks(lines);
    ContiguousKeeps(env, CORE, ChunksOf(lines).chunks);
    RewriteIdempotent(env, lines);
  }

  // A constructor whose attribute stands between its doc lines

  const PYMETHODS := Line("#[pymethods]", Attr(false, true), true)
  const OLD_DOC := Line("/// Old.", Doc, false)
  const NEW := Line("#[new]", Attr(true, false), true)
  const PY_NEW := Line("fn py_new() -> Self {", Code("", None, 1, Some("py_new"), false), false)

  function ImplLine(name: string): Line {
    Line("impl " + name + " {", Code("", Some(name), 1, None, false), false)
  }

  function Interleaved(name: string): seq<Line> {
    [PYMETHODS, ImplLine(name), OLD_DOC, NEW, OLD_DOC, PY_NEW]
  }

  lemma {:induction false} InterleavedChunks(name: string)
    ensures ChunksOf(Interleaved(name)).chunks
         == [Chunk([PYMETHODS], ImplLine(name)), Chunk([OLD_DOC, NEW, OLD_DOC], PY_NEW)]
  {
    var c, d := Chunk([PYMETHODS], ImplLine(name)), Chunk([OLD_DOC, NEW, OLD_DOC], PY_NEW);
    var file := File([c, d], []);
    HeaderOfThree(d.header);
    AttrHeader(PYMETHODS);
    assert ChunkOk(c) && ChunkOk(d);
    assert file.chunks[1..] == [d] && [d][1..] == [];
    assert Flatten([d]) == d.header + [d.code];
    assert Flatten(file.chunks) + file.tail == Interleaved(name);
    ChunksFlatten(file);
  }

  lemma {:induction false} AttrHeader(line: Line)
    requires line.kind.Attr? && line.closes
    ensures IsHeader([line]) && !Ml([line])
    ensures HasPymethods([line]) == line.kind.isPymethods
  {
    var h := [line];
    assert h[..|h| - 1] == [] && h[|h| - 1] == line;
  }

  lemma {:induction false} FirstUnsettled(env: Env, core: Core, core': Core, chunks: seq<Chunk>)
    requires chunks != [] && chunks[0].code.kind.Code? && !ChunkSettles(env, core, core', chunks[0])
    ensures !Settles(env, core, core', chunks)
  {
    hide ChunkSettles;
    hide AfterCode;
    hide Remains;
  }

  lemma {:induction false} RestUnsettled(env: Env, core: Core, core': Core, chunks: seq<Chunk>)
    requires chunks != [] && chunks[0].code.kind.Code?
    requires var c := chunks[0];
             var next, next' := AfterCode(core, c.header, c.code), AfterCode(core', Remains(env, core, c), c.code);
             !Settles(env, next, next', chunks[1..])
    ensures !Settles(env, core, core', chunks)
  {
    hide ChunkSettles;
    hide AfterCode;
    hide Remains;
  }

  /** The first run deletes the `#[new]`, so that the second no longer takes the function for a constructor and
  writes a different doc. */
  lemma {:induction false} InterleavedConstructorChanges(env: Env, name: string, typeDoc: string, newDoc: string)
    requires Lookup(env, (None, name)) == [typeDoc] && Lookup(env, (Some(name), "new")) == [newDoc]
    requires typeDoc != newDoc && typeDoc != "" && newDoc != ""
    requires env.section(typeDoc) == None && env.section(newDoc) == None
    requires env.relink(typeDoc) == typeDoc && env.relink(newDoc) == newDoc
    ensures var once := Rewrite(env, Interleaved(name));
            UpdatesOf(env, once) > 0 && Rewrite(env, once) != once
  {
    var c, d := Chunk([PYMETHODS], ImplLine(name)), Chunk([OLD_DOC, NEW, OLD_DOC], PY_NEW);
    var core := Core(Some(name), true, 1, 0);
    assert [c, d][1..] == [d] && [d][1..] == [] && c.code.kind.Code? && d.code.kind.Code?;
    hide *;
    ImplSettles(env, name);
    ConstructorUnsettled(env, name, typeDoc, newDoc);
    FirstUnsettled(env, core, core, [d]);
    RestUnsettled(env, CORE, CORE, [c, d]);
    InterleavedChunks(name);
    RewriteIdempotentIff(env, Interleaved(name));
  }

  lemma {:induction false} ImplSettles(env: Env, name: string)
    ensures var c := Chunk([PYMETHODS], ImplLine(name));
            && Remains(env, CORE, c) == c.header
            && AfterCode(CORE, c.header, c.code) == Core(Some(name), true, 1, 0)
  {
    AttrHeader(PYMETHODS);
    hide HasPymethods;
  }

  lemma {:induction false} DocLinesDiffer(a: string, b: string)
    requires a != b && a != "" && b != ""
    ensures [DocLine(a, "")] != [DocLine(b, "")]
  {
    assert DocLine(a, "").raw[4..] == a && DocLine(b, "").raw[4..] == b;
    hide DocLine;
    assert [DocLine(a, "")][0] == DocLine(a, "") && [DocLine(b, "")][0] == DocLine(b, "");
  }

  lemma {:induction false} ConstructorHeader()
    ensures var h := [OLD_DOC, NEW, OLD_DOC]; HasNew(h) && Bare(h) == [] && !HasNew([]) && PY_NEW.kind.Code?
  {
    var h := [OLD_DOC, NEW, OLD_DOC];
    HeaderOfThree(h);
    assert !HasNew([]);
    hide HasNew;
    hide DocLo;
    hide DocHi;
  }

  /** The two runs read different keys, and those select different docs. */
  lemma {:induction false} UnsettledByKeys(env: Env, core: Core, c: Chunk, key: Key, key': Key)
    requires c.code.kind.Code? && KeyOf(core, c.header, c.code) == Some(key)
             && KeyOf(core, Bare(c.header), c.code) == Some(key')
    requires NewDoc(env, key, c.code).Some? && NewDoc(env, key', c.code).Some?
    requires NewDoc(env, key, c.code) != NewDoc(env, key', c.code)
    ensures !ChunkSettles(env, core, core, c)
  {
    hide NewDoc;
    hide KeyOf;
    hide Bare;
    hide UpToDate;
  }

  lemma {:induction false} ConstructorUnsettled(env: Env, name: string, typeDoc: string, newDoc: string)
    requires Lookup(env, (None, name)) == [typeDoc] && Lookup(env, (Some(name), "new")) == [newDoc]
    requires typeDoc != newDoc && typeDoc != "" && newDoc != ""
    requires env.section(typeDoc) == None && env.section(newDoc) == None
    requires env.relink(typeDoc) == typeDoc && env.relink(newDoc) == newDoc
    ensures var core := Core(Some(name), true, 1, 0);
            !ChunkSettles(env, core, core, Chunk([OLD_DOC, NEW, OLD_DOC], PY_NEW))
  {
    var core, d := Core(Some(name), true, 1, 0), Chunk([OLD_DOC, NEW, OLD_DOC], PY_NEW);
    var key, key' := Key("py_new", Some(name), true, true), Key("py_new", Some(name), false, true);
    ConstructorHeader();
    DocLinesDiffer(typeDoc, newDoc);
    ConstructorDocs(env, d.code, name, typeDoc, newDoc);
    ConstructorKey(core, d.header, d.code, name);
    ConstructorKey(core, [], d.code, name);
    hide *;
    UnsettledByKeys(env, core, d, key, key');
  }

  lemma {:induction false} ConstructorKey(core: Core, h: seq<Line>, code: Line, name: string)
    requires core == Core(Some(name), true, 1, 0) && code.kind == Code("", None, 1, Some("py_new"), false)
    ensures KeyOf(core, h, code) == Some(Key("py_new", Some(name), HasNew(h), true))
  {
    hide HasNew;
    hide HasPymethods;
  }

  lemma {:induction false} ConstructorDocs(env: Env, code: Line, name: string, typeDoc: string, newDoc: string)
    requires code.kind == Code("", None, 1, Some("py_new"), false)
    requires Lookup(env, (None, name)) == [typeDoc] && Lookup(env, (Some(name), "new")) == [newDoc]
    requires typeDoc != "" && newDoc != ""
    requires env.section(typeDoc) == None && env.section(newDoc) == None
    requires env.relink(typeDoc) == typeDoc && env.relink(newDoc) == newDoc
    ensures NewDoc(env, Key("py_new", Some(name), true, true), code) == Some([DocLine(typeDoc, "")])
    ensures NewDoc(env, Key("py_new", Some(name), false, true), code) == Some([DocLine(newDoc, "")])
  {
    assert Target("py_new") == "new";
    assert SourceDoc(env, Key("py_new", Some(name), true, true)) == [typeDoc];
    assert SourceDoc(env, Key("py_new", Some(name), false, true)) == [newDoc];
    hide *;
    PlainNewDoc(env, Key("py_new", Some(name), true, true), code, typeDoc);
    PlainNewDoc(env, Key("py_new", Some(name), false, true), code, newDoc);
  }

  lemma {:induction false} PlainNewDoc(env: Env, key: Key, code: Line, text: string)
    requires SourceDoc(env, key) == [text] && text != "" && env.section(text) == None && env.relink(text) == text
    requires code.kind.Code? && code.kind.indent == ""
    ensures NewDoc(env, key, code) == Some([DocLine(text, "")])
  {
    hide SourceDoc;
    hide Transform;
    PlainTransform(env, text);
    assert Format([text], "") == [DocLine(text, "")];
  }

  lemma {:induction false} HeaderOfThree(h: seq<Line>)
    requires |h| == 3 && h[0].kind.Doc? && h[1].kind == Attr(true, false) && h[1].closes && h[2].kind.Doc?
    ensures IsHeader(h) && !Ml(h) && HasNew(h) && !HasPymethods(h) && DocLo(h) == 0 && DocHi(h) == 3
  {
    var h1, h2 := h[..1], h[..2];
    assert h2[..1] == h1;
    DocsHeader(h1);
    assert IsHeader(h2) && !Ml(h2) && HasNew(h2) && !HasPymethods(h2) && FirstDoc(h2) == Some(0);
    assert LastDoc(h) == Some(2);
  }

  lemma {:induction false} PlainTransform(env: Env, text: string)
    requires env.section(text) == None && env.relink(text) == text && text != ""
    ensures forall stripErrors :: Transform(env, [text], stripErrors) == [text]
  {
    forall stripErrors ensures Transform(env, [text], stripErrors) == [text] {
      assert SectionOf(env, [text], 1) == None;
      assert Kept(env, [text], 0, stripErrors) == [];
      assert Kept(env, [text], 1, stripErrors) == [text];
    }
  }
}
