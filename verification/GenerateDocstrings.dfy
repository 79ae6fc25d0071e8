/** The docstring generator's loops: a line scanner with flags, and edits in place, from the last item to the
first, on positions taken from the unedited file. */
module GenerateDocstrings {
  import opened Seqs
  import opened Wrappers
  import opened DocLines
  import opened DocRewrite

  datatype Item = Item(key: Key, fnLine: nat, docStart: Option<nat>, docEnd: Option<nat>, insertLine: nat) {
    /** The range of lines an edit replaces. */
    function Lo(): nat {
      if docStart.Some? then docStart.value else insertLine
    }

    function Hi(): nat {
      if docStart.Some? && docEnd.Some? then docEnd.value + 1 else insertLine
    }
  }

  /** The items of the chunks that start at line `o`. */
  function ItemsAt(core: Core, chunks: seq<Chunk>, o: nat): seq<Item>
    decreases |chunks|
  {
    if chunks == [] || !chunks[0].code.kind.Code? then []
    else
      var c := chunks[0];
      ItemOf(core, c, o) + ItemsAt(AfterCode(core, c.header, c.code), chunks[1..], o + |c.header| + 1)
  }

  function ItemOf(core: Core, c: Chunk, o: nat): (r: seq<Item>)
    requires c.code.kind.Code?
    ensures |r| == if KeyOf(core, c.header, c.code).Some? then 1 else 0
  {
    var key := KeyOf(core, c.header, c.code);
    if key.None? then []
    else [Item(key.value, o + |c.header|, Shift(o, FirstDoc(c.header)), Shift(o, LastDoc(c.header)),
               o + DocLo(c.header))]
  }

  /** The items of a file. */
  function ItemsOf(lines: seq<Line>): seq<Item> {
    ItemsAt(CORE, ChunksOf(lines).chunks, 0)
  }

  lemma {:induction false} ItemRange(core: Core, c: Chunk, o: nat)
    requires c.code.kind.Code?
    ensures forall item <- ItemOf(core, c, o) ::
              item.Lo() == o + DocLo(c.header) && item.Hi() == o + DocHi(c.header) && item.fnLine == o + |c.header|
  {
    NoDocs(c.header);
  }

  /** Ranges are disjoint and in order, each above its own function line and below the previous one. */
  predicate Placed(items: seq<Item>, from: nat, n: nat) {
    items == [] ||
    (from <= items[0].Lo() <= items[0].Hi() <= items[0].fnLine < n && Placed(items[1..], items[0].fnLine + 1, n))
  }

  lemma {:induction false} PlacedFrom(items: seq<Item>, from: nat, from': nat, n: nat)
    requires Placed(items, from, n) && from' <= from
    ensures Placed(items, from', n)
  {
  }

  // Simultaneous replacement

  /** The lines that take the place of an item's range. */
  function Patch(env: Env, lines: seq<Line>, item: Item): seq<Line>
    requires item.Lo() <= item.Hi() <= item.fnLine < |lines|
  {
    var docs := NewDoc(env, item.key, lines[item.fnLine]);
    if docs.Some? then docs.value else lines[item.Lo()..item.Hi()]
  }

  /** The lines from `from` on, with every item's range replaced at once. */
  function Weave(env: Env, lines: seq<Line>, items: seq<Item>, from: nat): seq<Line>
    requires from <= |lines| && Placed(items, from, |lines|)
    decreases |items|
  {
    if items == [] then lines[from..]
    else
      PlacedFrom(items[1..], items[0].fnLine + 1, items[0].Hi(), |lines|);
      lines[from..items[0].Lo()] + Patch(env, lines, items[0]) + Weave(env, lines, items[1..], items[0].Hi())
  }

  /** Lines before the first item are copied. */
  lemma {:induction false} WeaveFrom(env: Env, lines: seq<Line>, items: seq<Item>, from: nat, from': nat)
    requires from <= from' <= |lines| && Placed(items, from', |lines|)
    ensures Placed(items, from, |lines|)
    ensures Weave(env, lines, items, from) == lines[from..from'] + Weave(env, lines, items, from')
  {
    PlacedFrom(items, from', from, |lines|);
    if items == [] {
      assert lines[from..] == lines[from..from'] + lines[from'..];
    } else {
      assert lines[from..items[0].Lo()] == lines[from..from'] + lines[from'..items[0].Lo()];
    }
  }

  lemma {:induction false} Slices(lines: seq<Line>, o: nat, h: seq<Line>, lo: nat, hi: nat)
    requires o + |h| <= |lines| && lines[o..o + |h|] == h && lo <= hi <= |h|
    ensures lines[o..o + lo] == h[..lo] && lines[o + lo..o + hi] == h[lo..hi] && lines[o + hi..o + |h|] == h[hi..]
    ensures h[..lo] + h[lo..hi] + h[hi..] == h
  {
    forall i | 0 <= i < |h| ensures lines[o + i] == h[i] {
      assert lines[o..o + |h|][i] == lines[o + i];
    }
    assert lines[o..o + lo] == h[..lo];
    assert lines[o + lo..o + hi] == h[lo..hi];
    assert lines[o + hi..o + |h|] == h[hi..];
  }

  /** What a patch puts into a header is what rewriting its chunk puts there. */
  lemma {:induction false} PatchIsRedoc(env: Env, core: Core, lines: seq<Line>, c: Chunk, o: nat, item: Item)
    requires c.code.kind.Code? && ItemOf(core, c, o) == [item]
    requires o + |c.header| < |lines| && lines[o..o + |c.header|] == c.header && lines[o + |c.header|] == c.code
    ensures item.Lo() == o + DocLo(c.header) && item.Hi() == o + DocHi(c.header) && item.fnLine == o + |c.header|
    ensures lines[o..item.Lo()] + Patch(env, lines, item) + lines[item.Hi()..item.fnLine]
         == RewriteChunk(env, core, c).header
  {
    hide *;
    ItemFacts(core, c, o, item);
    PatchIs(env, lines, item);
    RewriteHeader(env, core, c, item.key);
    PatchSlices(lines, o, c.header, DocLo(c.header), DocHi(c.header), NewDoc(env, item.key, c.code));
  }

  lemma {:induction false} PatchSlices(lines: seq<Line>, o: nat, h: seq<Line>, lo: nat, hi: nat,
                                       docs: Option<seq<Line>>)
    requires o + |h| <= |lines| && lines[o..o + |h|] == h && lo <= hi <= |h|
    ensures lines[o..o + lo] + (if docs.Some? then docs.value else lines[o + lo..o + hi]) + lines[o + hi..o + |h|]
         == if docs.Some? then h[..lo] + docs.value + h[hi..] else h
  {
    Slices(lines, o, h, lo, hi);
  }

  lemma {:induction false} ItemFacts(core: Core, c: Chunk, o: nat, item: Item)
    requires c.code.kind.Code? && ItemOf(core, c, o) == [item]
    ensures item.Lo() == o + DocLo(c.header) && item.Hi() == o + DocHi(c.header) && item.fnLine == o + |c.header|
    ensures KeyOf(core, c.header, c.code) == Some(item.key)
    ensures item.docStart.None? <==> FirstDoc(c.header).None?
  {
    ItemRange(core, c, o);
    assert item in ItemOf(core, c, o);
    hide KeyOf;
    hide FirstDoc;
    hide LastDoc;
    hide DocLo;
    hide DocHi;
  }

  lemma {:induction false} PatchIs(env: Env, lines: seq<Line>, item: Item)
    requires item.Lo() <= item.Hi() <= item.fnLine < |lines|
    ensures var docs := NewDoc(env, item.key, lines[item.fnLine]);
            Patch(env, lines, item) == if docs.Some? then docs.value else lines[item.Lo()..item.Hi()]
  {
  }

  lemma {:induction false} RewriteHeader(env: Env, core: Core, c: Chunk, key: Key)
    requires c.code.kind.Code? && KeyOf(core, c.header, c.code) == Some(key)
    ensures var docs, h := NewDoc(env, key, c.code), c.header;
            RewriteChunk(env, core, c).header
            == if docs.Some? then h[..DocLo(h)] + docs.value + h[DocHi(h)..] else h
  {
    hide NewDoc;
    hide KeyOf;
  }

  lemma {:induction false} WeaveIsRewrite(env: Env, core: Core, lines: seq<Line>, chunks: seq<Chunk>, tail: seq<Line>,
                                          o: nat)
    requires o <= |lines| && lines[o..] == Flatten(chunks) + tail
    requires forall c <- chunks :: ChunkOk(c)
    ensures Placed(ItemsAt(core, chunks, o), o, |lines|)
    ensures Weave(env, lines, ItemsAt(core, chunks, o), o) == Flatten(RewriteChunks(env, core, chunks)) + tail
    decreases |chunks|
  {
    hide Weave;
    hide RewriteChunk;
    hide ItemOf;
    hide AfterCode;
    if chunks == [] {
      assert ItemsAt(core, chunks, o) == [] && Flatten(chunks) == [] && lines[o..] == tail;
      WeaveNothing(env, lines, o);
    } else {
      var c, k := chunks[0], o + |chunks[0].header|;
      assert ChunkOk(c);
      UnfoldChunk(env, core, chunks, tail, o);
      hide *;
      SplitAt(lines, o, c, Flatten(chunks[1..]) + tail);
      WeaveIsRewrite(env, AfterCode(core, c.header, c.code), lines, chunks[1..], tail, k + 1);
      WeaveChunk(env, core, lines, c, o, ItemsAt(AfterCode(core, c.header, c.code), chunks[1..], k + 1));
    }
  }

  lemma {:induction false} WeaveNothing(env: Env, lines: seq<Line>, o: nat)
    requires o <= |lines|
    ensures Placed([], o, |lines|) && Weave(env, lines, [], o) == lines[o..]
  {
  }

  lemma {:induction false} UnfoldChunk(env: Env, core: Core, chunks: seq<Chunk>, tail: seq<Line>, o: nat)
    requires chunks != [] && ChunkOk(chunks[0])
    ensures var c, rest := chunks[0], chunks[1..];
            var core' := AfterCode(core, c.header, c.code);
            && c.code.kind.Code?
            && Flatten(chunks) + tail == c.header + [c.code] + (Flatten(rest) + tail)
            && ItemsAt(core, chunks, o) == ItemOf(core, c, o) + ItemsAt(core', rest, o + |c.header| + 1)
            && Flatten(RewriteChunks(env, core, chunks)) + tail
               == RewriteChunk(env, core, c).header + [c.code] + (Flatten(RewriteChunks(env, core', rest)) + tail)
  {
    var c, rest := chunks[0], chunks[1..];
    var core' := AfterCode(core, c.header, c.code);
    var r, more := RewriteChunk(env, core, c), RewriteChunks(env, core', rest);
    assert r.code == c.code by {
      hide NewDoc;
      hide KeyOf;
      hide Redoc;
    }
    hide RewriteChunk;
    hide AfterCode;
    hide ItemOf;
    assert c.code.kind.Code?;
    hide IsHeader;
    hide Ml;
    assert RewriteChunks(env, core, chunks) == [r] + more;
    assert ItemsAt(core, chunks, o) == ItemOf(core, c, o) + ItemsAt(core', rest, o + |c.header| + 1);
    assert chunks == [c] + rest;
    hide *;
    FlattenCons(c, File(rest, tail));
    FlattenCons(r, File(more, tail));
  }

  lemma {:induction false} SplitAt(lines: seq<Line>, o: nat, c: Chunk, after: seq<Line>)
    requires o <= |lines| && lines[o..] == c.header + [c.code] + after
    ensures var k := o + |c.header|;
            k < |lines| && lines[o..k] == c.header && lines[k] == c.code && lines[k + 1..] == after
  {
    var k := o + |c.header|;
    assert |lines[o..]| == |c.header| + 1 + |after|;
    assert lines[o..k] == lines[o..][..|c.header|];
    assert lines[k] == lines[o..][|c.header|];
    assert lines[k + 1..] == lines[o..][|c.header| + 1..];
  }

  lemma {:induction false} WeaveChunk(env: Env, core: Core, lines: seq<Line>, c: Chunk, o: nat, rest: seq<Item>)
    requires c.code.kind.Code? && o + |c.header| < |lines|
    requires lines[o..o + |c.header|] == c.header && lines[o + |c.header|] == c.code
    requires Placed(rest, o + |c.header| + 1, |lines|)
    ensures Placed(ItemOf(core, c, o) + rest, o, |lines|)
    ensures Weave(env, lines, ItemOf(core, c, o) + rest, o)
         == RewriteChunk(env, core, c).header + [c.code] + Weave(env, lines, rest, o + |c.header| + 1)
  {
    hide *;
    var own := ItemOf(core, c, o);
    if own == [] {
      assert own + rest == rest;
      WeavePlain(env, core, lines, c, o, rest);
    } else {
      assert own == [own[0]];
      WeaveOwn(env, core, lines, c, o, own[0], rest);
    }
  }

  lemma {:induction false} NoItem(env: Env, core: Core, c: Chunk, o: nat)
    requires c.code.kind.Code? && ItemOf(core, c, o) == []
    ensures RewriteChunk(env, core, c) == c
  {
  }

  lemma {:induction false} WeavePlain(env: Env, core: Core, lines: seq<Line>, c: Chunk, o: nat, rest: seq<Item>)
    requires c.code.kind.Code? && o + |c.header| < |lines| && ItemOf(core, c, o) == []
    requires lines[o..o + |c.header|] == c.header && lines[o + |c.header|] == c.code
    requires Placed(rest, o + |c.header| + 1, |lines|)
    ensures Placed(rest, o, |lines|)
    ensures Weave(env, lines, rest, o)
         == RewriteChunk(env, core, c).header + [c.code] + Weave(env, lines, rest, o + |c.header| + 1)
  {
    hide *;
    NoItem(env, core, c, o);
    WeaveFrom(env, lines, rest, o, o + |c.header| + 1);
    SlicePush(lines, o, o + |c.header|);
  }

  lemma {:induction false} WeaveOwn(env: Env, core: Core, lines: seq<Line>, c: Chunk, o: nat, item: Item,
                                    rest: seq<Item>)
    requires c.code.kind.Code? && o + |c.header| < |lines| && ItemOf(core, c, o) == [item]
    requires lines[o..o + |c.header|] == c.header && lines[o + |c.header|] == c.code
    requires Placed(rest, o + |c.header| + 1, |lines|)
    ensures Placed([item] + rest, o, |lines|)
    ensures Weave(env, lines, [item] + rest, o)
         == RewriteChunk(env, core, c).header + [c.code] + Weave(env, lines, rest, o + |c.header| + 1)
  {
    hide *;
    PatchIsRedoc(env, core, lines, c, o, item);
    WeaveItem(env, lines, item, rest, o);
    WovenIs(env, lines, item, rest, o, o + |c.header|, RewriteChunk(env, core, c).header, c.code);
  }

  lemma {:induction false} WovenIs(env: Env, lines: seq<Line>, item: Item, rest: seq<Item>, o: nat, k: nat,
                                   h: seq<Line>, code: Line)
    requires o <= item.Lo() <= item.Hi() <= item.fnLine < |lines| && item.fnLine == k && lines[k] == code
    requires Placed(rest, item.fnLine + 1, |lines|) && Placed(rest, k + 1, |lines|) && Placed([item] + rest, o, |lines|)
    requires lines[o..item.Lo()] + Patch(env, lines, item) + lines[item.Hi()..item.fnLine] == h
    requires Weave(env, lines, [item] + rest, o)
          == lines[o..item.Lo()] + Patch(env, lines, item)
           + (lines[item.Hi()..item.fnLine + 1] + Weave(env, lines, rest, item.fnLine + 1))
    ensures Weave(env, lines, [item] + rest, o) == h + [code] + Weave(env, lines, rest, k + 1)
  {
    hide *;
    SlicePush(lines, item.Hi(), item.fnLine);
    Reassociate(lines[o..item.Lo()], Patch(env, lines, item), lines[item.Hi()..item.fnLine], [code],
                Weave(env, lines, rest, item.fnLine + 1));
  }

  lemma {:induction false} Reassociate(a: seq<Line>, p: seq<Line>, b: seq<Line>, code: seq<Line>, w: seq<Line>)
    ensures a + p + ((b + code) + w) == a + p + b + code + w
  {
  }

  lemma {:induction false} WeaveItem(env: Env, lines: seq<Line>, item: Item, rest: seq<Item>, o: nat)
    requires o <= item.Lo() <= item.Hi() <= item.fnLine < |lines|
    requires Placed(rest, item.fnLine + 1, |lines|)
    ensures Placed([item] + rest, o, |lines|)
    ensures Weave(env, lines, [item] + rest, o)
         == lines[o..item.Lo()] + Patch(env, lines, item)
            + (lines[item.Hi()..item.fnLine + 1] + Weave(env, lines, rest, item.fnLine + 1))
  {
    assert ([item] + rest)[1..] == rest;
    WeaveFrom(env, lines, rest, item.Hi(), item.fnLine + 1);
  }

  /** Editing all ranges at once is rewriting the file. */
  lemma {:induction false} WeaveFile(env: Env, lines: seq<Line>)
    ensures Placed(ItemsOf(lines), 0, |lines|)
    ensures Weave(env, lines, ItemsOf(lines), 0) == Rewrite(env, lines)
  {
    var file := ChunksOf(lines);
    FlattenChunks(lines);
    assert lines[0..] == lines;
    WeaveIsRewrite(env, CORE, lines, file.chunks, file.tail, 0);
  }

  /** Whether an item's doc has to be written. */
  predicate Outdated(env: Env, lines: seq<Line>, item: Item)
    requires item.Lo() <= item.Hi() <= item.fnLine < |lines|
  {
    var docs := NewDoc(env, item.key, lines[item.fnLine]);
    docs.Some? && (item.docStart.None? || lines[item.Lo()..item.Hi()] != docs.value)
  }

  function CountOutdated(env: Env, lines: seq<Line>, items: seq<Item>, from: nat): nat
    requires Placed(items, from, |lines|)
    decreases |items|
  {
    if items == [] then 0
    else (if Outdated(env, lines, items[0]) then 1 else 0) + CountOutdated(env, lines, items[1..], items[0].fnLine + 1)
  }

  lemma {:induction false} OutdatedIsUpdates(env: Env, core: Core, lines: seq<Line>, chunks: seq<Chunk>,
                                             tail: seq<Line>, o: nat)
    requires o <= |lines| && lines[o..] == Flatten(chunks) + tail
    requires forall c <- chunks :: ChunkOk(c)
    requires Placed(ItemsAt(core, chunks, o), o, |lines|)
    ensures CountOutdated(env, lines, ItemsAt(core, chunks, o), o) == Updates(env, core, chunks)
    decreases |chunks|
  {
    hide *;
    if chunks == [] {
      NoChunks(env, core, lines, o);
    } else {
      var c, k := chunks[0], o + |chunks[0].header|;
      assert c in chunks && forall x <- chunks[1..] :: x in chunks;
      UpdatesStep(env, core, chunks);
      UnfoldChunk(env, core, chunks, tail, o);
      var core' := AfterCode(core, c.header, c.code);
      SplitAt(lines, o, c, Flatten(chunks[1..]) + tail);
      WeaveIsRewrite(env, core', lines, chunks[1..], tail, k + 1);
      OutdatedIsUpdates(env, core', lines, chunks[1..], tail, k + 1);
      OutdatedStep(env, core, lines, c, o, ItemsAt(core', chunks[1..], k + 1));
    }
  }

  lemma {:induction false} NoChunks(env: Env, core: Core, lines: seq<Line>, o: nat)
    ensures Placed(ItemsAt(core, [], o), o, |lines|)
    ensures CountOutdated(env, lines, ItemsAt(core, [], o), o) == Updates(env, core, [])
  {
    assert ItemsAt(core, [], o) == [];
  }

  lemma {:induction false} OutdatedStep(env: Env, core: Core, lines: seq<Line>, c: Chunk, o: nat, rest: seq<Item>)
    requires c.code.kind.Code? && o + |c.header| < |lines|
    requires lines[o..o + |c.header|] == c.header && lines[o + |c.header|] == c.code
    requires Placed(ItemOf(core, c, o) + rest, o, |lines|) && Placed(rest, o + |c.header| + 1, |lines|)
    ensures CountOutdated(env, lines, ItemOf(core, c, o) + rest, o)
         == (if Updated(env, core, c) then 1 else 0) + CountOutdated(env, lines, rest, o + |c.header| + 1)
  {
    hide *;
    var own := ItemOf(core, c, o);
    if own == [] {
      Unit(rest);
      NoItemNoUpdate(env, core, c, o);
      CountFrom(env, lines, rest, o, o + |c.header| + 1);
    } else {
      var item := own[0];
      assert own == [item];
      assert Placed([item] + rest, o, |lines|);
      OutdatedOne(env, core, lines, c, o, item, rest);
    }
  }

  lemma {:induction false} OutdatedOne(env: Env, core: Core, lines: seq<Line>, c: Chunk, o: nat, item: Item,
                                       rest: seq<Item>)
    requires c.code.kind.Code? && o + |c.header| < |lines| && ItemOf(core, c, o) == [item]
    requires lines[o..o + |c.header|] == c.header && lines[o + |c.header|] == c.code
    requires Placed([item] + rest, o, |lines|) && Placed(rest, o + |c.header| + 1, |lines|)
    ensures CountOutdated(env, lines, [item] + rest, o)
         == (if Updated(env, core, c) then 1 else 0) + CountOutdated(env, lines, rest, o + |c.header| + 1)
  {
    hide *;
    OutdatedIsUpdated(env, core, lines, c, o, item);
    ItemFacts(core, c, o, item);
    CountOne(env, lines, item, rest, o);
  }

  lemma {:induction false} UpdatesStep(env: Env, core: Core, chunks: seq<Chunk>)
    requires chunks != [] && ChunkOk(chunks[0])
    ensures var c := chunks[0];
            && c.code.kind.Code?
            && Updates(env, core, chunks)
               == (if Updated(env, core, c) then 1 else 0)
                  + Updates(env, AfterCode(core, c.header, c.code), chunks[1..])
  {
    hide Updated;
    hide AfterCode;
  }

  lemma {:induction false} CountFrom(env: Env, lines: seq<Line>, items: seq<Item>, from: nat, from': nat)
    requires Placed(items, from, |lines|) && Placed(items, from', |lines|)
    ensures CountOutdated(env, lines, items, from) == CountOutdated(env, lines, items, from')
  {
  }

  lemma {:induction false} CountOne(env: Env, lines: seq<Line>, item: Item, rest: seq<Item>, from: nat)
    requires Placed([item] + rest, from, |lines|) && Placed(rest, item.fnLine + 1, |lines|)
    requires item.Lo() <= item.Hi() <= item.fnLine < |lines|
    ensures CountOutdated(env, lines, [item] + rest, from)
         == (if Outdated(env, lines, item) then 1 else 0) + CountOutdated(env, lines, rest, item.fnLine + 1)
  {
    hide Outdated;
    assert ([item] + rest)[1..] == rest;
  }

  lemma {:induction false} NoItemNoUpdate(env: Env, core: Core, c: Chunk, o: nat)
    requires c.code.kind.Code? && ItemOf(core, c, o) == []
    ensures !Updated(env, core, c)
  {
  }

  lemma {:induction false} OutdatedIsUpdated(env: Env, core: Core, lines: seq<Line>, c: Chunk, o: nat, item: Item)
    requires c.code.kind.Code? && ItemOf(core, c, o) == [item]
    requires o + |c.header| < |lines| && lines[o..o + |c.header|] == c.header && lines[o + |c.header|] == c.code
    ensures item.Lo() <= item.Hi() <= item.fnLine < |lines|
    ensures Outdated(env, lines, item) == Updated(env, core, c)
  {
    hide *;
    ItemFacts(core, c, o, item);
    Slices(lines, o, c.header, DocLo(c.header), DocHi(c.header));
    OutdatedIs(env, lines, item);
    UpdatedIs(env, core, c, item.key);
  }

  lemma {:induction false} UpdatedIs(env: Env, core: Core, c: Chunk, key: Key)
    requires c.code.kind.Code? && KeyOf(core, c.header, c.code) == Some(key)
    ensures var docs, h := NewDoc(env, key, c.code), c.header;
            Updated(env, core, c) == (docs.Some? && !(FirstDoc(h).Some? && h[DocLo(h)..DocHi(h)] == docs.value))
  {
    hide NewDoc;
    hide KeyOf;
    hide DocLo;
    hide DocHi;
    hide FirstDoc;
  }

  lemma {:induction false} OutdatedFile(env: Env, lines: seq<Line>)
    requires Placed(ItemsOf(lines), 0, |lines|)
    ensures CountOutdated(env, lines, ItemsOf(lines), 0) == UpdatesOf(env, lines)
  {
    var file := ChunksOf(lines);
    FlattenChunks(lines);
    assert lines[0..] == lines;
    OutdatedIsUpdates(env, CORE, lines, file.chunks, file.tail, 0);
  }

  // The loops

  /** Copy the doc lines of a source item, without the sections that are dropped. */
  method TransformDoc(env: Env, lines: seq<string>, stripErrors: bool) returns (result: seq<string>)
    requires env.Valid()
    ensures result == Transform(env, lines, stripErrors)
  {
    result := [];
    var i := 0;
    var skip := false;
    while i < |lines|
      invariant 0 <= i <= |lines|
      invariant result == Kept(env, lines, i, stripErrors)
      invariant skip == Dropped(SectionOf(env, lines, i), stripErrors)
    {
      var section := env.section(lines[i]);
      if section.Some? && Dropped(section, stripErrors) {
        skip := true;
        i := i + 1;
        if i < |lines| && lines[i] == "" {
          i := i + 1;
        }
        continue;
      }
      if section.Some? {
        skip := false;
      }
      if !skip {
        result := result + [env.relink(lines[i])];
      }
      i := i + 1;
    }
    ghost var kept := result;
    while result != [] && result[0] == ""
      invariant TrimFront(result) == TrimFront(kept)
      decreases |result|
    {
      result := result[1..];
    }
    while result != [] && result[|result| - 1] == ""
      invariant TrimBack(result) == TrimBack(TrimFront(kept))
      decreases |result|
    {
      result := result[..|result| - 1];
    }
  }

  /** What the scanner remembers of the header that it is in. */
  datatype Scan = Scan(
    core: Core,
    docStart: Option<nat>,
    docEnd: Option<nat>,
    firstAttr: Option<nat>,
    hasNew: bool,
    inMl: bool)

  /** The scanner has read the header `h`, which starts at line `o`. */
  predicate Scanned(h: seq<Line>, o: nat, base: Core, scan: Scan) {
    && IsHeader(h)
    && scan.docStart == Shift(o, FirstDoc(h)) && scan.docEnd == Shift(o, LastDoc(h))
    && scan.firstAttr == Shift(o, FirstAttr(h))
    && scan.hasNew == HasNew(h) && scan.inMl == Ml(h)
    && scan.core == base.(inPymethods := base.inPymethods || HasPymethods(h))
  }

  lemma {:induction false} ScanStart(o: nat, base: Core)
    ensures Scanned([], o, base, Scan(base, None, None, None, false, false))
  {
  }

  lemma {:induction false} ScanMl(h: seq<Line>, o: nat, base: Core, scan: Scan, line: Line)
    requires Scanned(h, o, base, scan) && scan.inMl
    ensures Scanned(h + [line], o, base, scan.(inMl := !line.closes))
  {
    assert (h + [line])[..|h|] == h;
  }

  lemma {:induction false} ScanDoc(h: seq<Line>, o: nat, base: Core, scan: Scan, line: Line)
    requires Scanned(h, o, base, scan) && !scan.inMl && line.kind.Doc?
    ensures var i := o + |h|;
            Scanned(h + [line], o, base,
                    scan.(docStart := if scan.docStart.None? then Some(i) else scan.docStart, docEnd := Some(i)))
  {
    assert (h + [line])[..|h|] == h;
  }

  lemma {:induction false} ScanAttr(h: seq<Line>, o: nat, base: Core, scan: Scan, line: Line)
    requires Scanned(h, o, base, scan) && !scan.inMl && line.kind.Attr?
    ensures Scanned(h + [line], o, base,
                    scan.(firstAttr := if scan.firstAttr.None? then Some(o + |h|) else scan.firstAttr,
                          hasNew := scan.hasNew || line.kind.isNew,
                          core := scan.core.(inPymethods := scan.core.inPymethods || line.kind.isPymethods),
                          inMl := !line.closes))
  {
    assert (h + [line])[..|h|] == h;
  }

  /** The item that a code line outside an attribute makes, if any; a new doc for it goes before its attributes,
  that is to the start of its header. */
  lemma {:induction false} ScanItem(h: seq<Line>, o: nat, base: Core, scan: Scan, line: Line, core: Core)
    requires Scanned(h, o, base, scan) && line.kind.Code? && core == PassCode(scan.core, line)
    ensures core == AfterCode(base, h, line)
    ensures var i := o + |h|;
            var insert := if scan.docStart.Some? then scan.docStart.value
                          else if scan.firstAttr.Some? then scan.firstAttr.value else i;
            ItemOf(base, Chunk(h, line), o)
            == if line.kind.fn.None? then []
               else [Item(Key(line.kind.fn.value, core.implType, scan.hasNew, core.inPymethods), i, scan.docStart,
                          scan.docEnd, insert)]
  {
    hide PassCode;
    if FirstDoc(h) == None {
      AttrFirst(h);
    }
  }

  /** A code line outside an attribute ends a chunk. */
  lemma {:induction false} ScanCode(h: seq<Line>, o: nat, base: Core, scan: Scan, line: Line, after: seq<Line>)
    requires Scanned(h, o, base, scan) && !scan.inMl && line.kind.Code?
    ensures ItemsAt(base, ChunksOf(h + [line] + after).chunks, o)
         == ItemOf(base, Chunk(h, line), o) + ItemsAt(AfterCode(base, h, line), ChunksOf(after).chunks, o + |h| + 1)
  {
    assert ChunkOk(Chunk(h, line));
    hide *;
    FirstOf(h, line, after);
    ItemsStep(base, Chunk(h, line), ChunksOf(after).chunks, o);
  }

  lemma {:induction false} FirstOf(h: seq<Line>, line: Line, after: seq<Line>)
    requires ChunkOk(Chunk(h, line))
    ensures ChunksOf(h + [line] + after).chunks == [Chunk(h, line)] + ChunksOf(after).chunks
  {
    hide *;
    Associates(h, [line], after);
    FirstChunk(Chunk(h, line), after);
  }

  lemma {:induction false} ItemsStep(base: Core, c: Chunk, rest: seq<Chunk>, o: nat)
    requires c.code.kind.Code?
    ensures ItemsAt(base, [c] + rest, o)
         == ItemOf(base, c, o) + ItemsAt(AfterCode(base, c.header, c.code), rest, o + |c.header| + 1)
  {
    hide ItemOf;
    hide AfterCode;
    assert ([c] + rest)[1..] == rest;
  }

  lemma {:induction false} ScanEnd(h: seq<Line>, o: nat, base: Core, scan: Scan)
    requires Scanned(h, o, base, scan)
    ensures ItemsAt(base, ChunksOf(h).chunks, o) == []
  {
    HeaderLenIs(h, [], 0);
    assert h + [] == h;
  }

  lemma {:induction false} ScanFile(lines: seq<Line>)
    ensures ItemsOf(lines) == [] + ItemsAt(CORE, ChunksOf(lines[0..]).chunks, 0)
  {
    assert lines[0..] == lines;
  }

  /** Track the braces of the `impl` block of a `#[pymethods]` attribute. */
  method TrackBraces(core: Core, line: Line) returns (r: Core)
    requires line.kind.Code?
    ensures r == PassCode(core, line)
  {
    r := core;
    if line.kind.impl.Some? && r.inPymethods {
      r := r.(implType := line.kind.impl, pymethodsDepth := r.depth);
    }
    r := r.(depth := r.depth + line.kind.braces);
    if r.implType.Some? && r.depth <= r.pymethodsDepth {
      r := r.(implType := None, inPymethods := false);
    }
  }

  /** Find the `py_*` functions of a file and the ranges of their doc comments. */
  method ParseItems(lines: seq<Line>) returns (items: seq<Item>)
    ensures items == ItemsOf(lines)
  {
    hide *;
    items := [];
    var core := CORE;
    var docStart: Option<nat>, docEnd: Option<nat>, firstAttr: Option<nat> := None, None, None;
    var hasNew, inMl := false, false;
    ghost var o := 0;
    ghost var base := CORE;
    ScanFile(lines);
    ScanStart(0, CORE);
    assert lines[0..0] == [];
    var i := 0;
    while i < |lines|
      invariant 0 <= o <= i <= |lines|
      invariant Scanned(lines[o..i], o, base, Scan(core, docStart, docEnd, firstAttr, hasNew, inMl))
      invariant ItemsOf(lines) == items + ItemsAt(base, ChunksOf(lines[o..]).chunks, o)
    {
      var line := lines[i];
      ghost var h, scan := lines[o..i], Scan(core, docStart, docEnd, firstAttr, hasNew, inMl);
      assert lines[o..i + 1] == h + [line];
      if inMl {
        ScanMl(h, o, base, scan, line);
        if line.closes {
          inMl := false;
        }
      } else if line.kind.Doc? {
        ScanDoc(h, o, base, scan, line);
        if docStart.None? {
          docStart := Some(i);
        }
        docEnd := Some(i);
      } else if line.kind.Attr? {
        ScanAttr(h, o, base, scan, line);
        if firstAttr.None? {
          firstAttr := Some(i);
        }
        if line.kind.isNew {
          hasNew := true;
        }
        if line.kind.isPymethods {
          core := core.(inPymethods := true);
        }
        if !line.closes {
          inMl := true;
        }
      } else {
        core := TrackBraces(core, line);
        ScanItem(h, o, base, scan, line, core);
        assert lines[o..] == h + [line] + lines[i + 1..];
        ScanCode(h, o, base, scan, line, lines[i + 1..]);
        if line.kind.fn.Some? {
          var insert := if firstAttr.Some? then firstAttr.value else i;
          if docStart.Some? {
            insert := docStart.value;
          }
          var key := Key(line.kind.fn.value, core.implType, hasNew, core.inPymethods);
          items := items + [Item(key, i, docStart, docEnd, insert)];
        }
        docStart, docEnd, firstAttr := None, None, None;
        hasNew := false;
        o := i + 1;
        base := core;
        ScanStart(o, base);
        assert lines[o..i + 1] == [];
      }
      i := i + 1;
    }
    assert lines[o..i] == lines[o..];
    ScanEnd(lines[o..], o, base, Scan(core, docStart, docEnd, firstAttr, hasNew, inMl));
  }

  /** Where the part of the file that the first `k` items can touch ends. */
  function Cut(items: seq<Item>, k: nat): nat
    requires k <= |items|
  {
    if k == 0 then 0 else items[k - 1].fnLine + 1
  }

  lemma {:induction false} PlacedAt(items: seq<Item>, from: nat, n: nat, k: nat)
    requires Placed(items, from, n) && k <= |items|
    ensures k > 0 ==> Cut(items, k) <= n
    ensures Placed(items[k..], if k == 0 then from else Cut(items, k), n)
    ensures k < |items| ==>
      (if k == 0 then from else Cut(items, k)) <= items[k].Lo() <= items[k].Hi() <= items[k].fnLine < n
    decreases |items|
  {
    if k == 0 {
      assert items[0..] == items;
    } else {
      PlacedAt(items[1..], items[0].fnLine + 1, n, k - 1);
      assert items[1..][k - 1..] == items[k..];
    }
  }

  /** One edit in place, below everything that is still to be edited, extends the woven tail by one item. */
  lemma {:induction false} EditExtends(env: Env, lines: seq<Line>, items: seq<Item>, k: nat, file: seq<Line>)
    requires 0 < k <= |items| && Placed(items, 0, |lines|) && Cut(items, k) <= |lines|
    requires Placed(items[k..], Cut(items, k), |lines|)
    requires file == lines[..Cut(items, k)] + Weave(env, lines, items[k..], Cut(items, k))
    ensures var item, c := items[k - 1], Cut(items, k - 1);
            && c <= item.Lo() <= item.Hi() <= item.fnLine < |lines|
            && item.fnLine < |file| && file[item.fnLine] == lines[item.fnLine]
            && file[item.Lo()..item.Hi()] == lines[item.Lo()..item.Hi()]
            && Placed(items[k - 1..], c, |lines|)
            && file[..item.Lo()] + Patch(env, lines, item) + file[item.Hi()..]
               == lines[..c] + Weave(env, lines, items[k - 1..], c)
  {
    var item, c, c' := items[k - 1], Cut(items, k - 1), Cut(items, k);
    assert c' == item.fnLine + 1 && (k == 1 ==> c == 0);
    hide *;
    PlacedAt(items, 0, |lines|, k - 1);
    DropFirst(items, k - 1);
    WeaveItem(env, lines, item, items[k..], c);
    SpliceTail(lines, c, item.Lo(), item.Hi(), c', Patch(env, lines, item), Weave(env, lines, items[k..], c'), file);
  }

  lemma {:induction false} DropFirst(items: seq<Item>, k: nat)
    requires k < |items|
    ensures items[k..] == [items[k]] + items[k + 1..]
  {
  }

  /** Replacing a range of a file that is still as it was up to `e`. */
  lemma {:induction false} SpliceTail(lines: seq<Line>, c: nat, lo: nat, hi: nat, e: nat, p: seq<Line>,
                                      tail: seq<Line>, file: seq<Line>)
    requires c <= lo <= hi < e <= |lines| && file == lines[..e] + tail
    ensures file[e - 1] == lines[e - 1] && file[lo..hi] == lines[lo..hi]
    ensures file[..lo] + p + file[hi..] == lines[..c] + (lines[c..lo] + p + (lines[hi..e] + tail))
  {
    assert file[..lo] == lines[..c] + lines[c..lo];
    assert file[hi..] == lines[hi..e] + tail;
  }

  lemma {:induction false} CountSplit(env: Env, lines: seq<Line>, items: seq<Item>, from: nat, k: nat)
    requires Placed(items, from, |lines|) && k < |items|
    ensures Placed(items[k..], if k == 0 then from else Cut(items, k), |lines|)
    ensures Placed(items[k + 1..], Cut(items, k + 1), |lines|)
    ensures items[k].Lo() <= items[k].Hi() <= items[k].fnLine < |lines|
    ensures CountOutdated(env, lines, items[k..], if k == 0 then from else Cut(items, k))
         == (if Outdated(env, lines, items[k]) then 1 else 0)
            + CountOutdated(env, lines, items[k + 1..], Cut(items, k + 1))
  {
    PlacedAt(items, from, |lines|, k);
    PlacedAt(items, from, |lines|, k + 1);
    hide Outdated;
    assert items[k..][1..] == items[k + 1..];
  }

  lemma {:induction false} EditStart(env: Env, lines: seq<Line>, items: seq<Item>)
    requires items == ItemsOf(lines)
    ensures var n := |items|;
            && Placed(items, 0, |lines|) && Weave(env, lines, items, 0) == Rewrite(env, lines)
            && CountOutdated(env, lines, items, 0) == UpdatesOf(env, lines)
            && Cut(items, n) <= |lines| && Placed(items[n..], Cut(items, n), |lines|)
            && lines == lines[..Cut(items, n)] + Weave(env, lines, items[n..], Cut(items, n))
            && CountOutdated(env, lines, items[n..], Cut(items, n)) == 0
  {
    hide *;
    WeaveFile(env, lines);
    OutdatedFile(env, lines);
    PlacedAt(items, 0, |lines|, |items|);
    CutBound(items);
    EndOfEdits(env, lines, items, Cut(items, |items|));
  }

  lemma {:induction false} EndOfEdits(env: Env, lines: seq<Line>, items: seq<Item>, e: nat)
    requires e <= |lines| && Placed(items[|items|..], e, |lines|)
    ensures lines == lines[..e] + Weave(env, lines, items[|items|..], e)
    ensures CountOutdated(env, lines, items[|items|..], e) == 0
  {
    assert items[|items|..] == [];
    WeaveNothing(env, lines, e);
  }

  lemma {:induction false} CutBound(items: seq<Item>)
    ensures Cut(items, 0) == 0
  {
  }

  lemma {:induction false} EditEnd(env: Env, lines: seq<Line>, items: seq<Item>)
    requires Placed(items, 0, |lines|)
    ensures items[0..] == items && Cut(items, 0) == 0
  {
  }

  lemma {:induction false} NewDocIs(env: Env, key: Key, line: Line)
    ensures var source := SourceDoc(env, key);
            NewDoc(env, key, line)
            == if source == [] || !line.kind.Code? || Transform(env, source, !line.kind.returnsResult) == [] then None
               else Some(Format(Transform(env, source, !line.kind.returnsResult), line.kind.indent))
  {
  }

  lemma {:induction false} OutdatedIs(env: Env, lines: seq<Line>, item: Item)
    requires item.Lo() <= item.Hi() <= item.fnLine < |lines|
    ensures var docs := NewDoc(env, item.key, lines[item.fnLine]);
            Outdated(env, lines, item)
            == (docs.Some? && (item.docStart.None? || lines[item.Lo()..item.Hi()] != docs.value))
  {
  }

  /** Update the doc comments of one file in place, from the last item to the first. */
  method ProcessFile(env: Env, lines: seq<Line>) returns (file: seq<Line>, updates: nat)
    requires env.Valid()
    ensures file == Rewrite(env, lines)
    ensures updates == UpdatesOf(env, lines)
  {
    hide *;
    file := lines;
    var items := ParseItems(lines);
    updates := 0;
    EditStart(env, lines, items);
    EditEnd(env, lines, items);
    var k := |items|;
    while k > 0
      invariant 0 <= k <= |items|
      invariant Cut(items, k) <= |lines| && Placed(items[k..], Cut(items, k), |lines|)
      invariant file == lines[..Cut(items, k)] + Weave(env, lines, items[k..], Cut(items, k))
      invariant updates == CountOutdated(env, lines, items[k..], Cut(items, k))
    {
      var item := items[k - 1];
      EditExtends(env, lines, items, k, file);
      CountSplit(env, lines, items, 0, k - 1);
      k := k - 1;
      var docs := DocFor(env, item.key, file[item.fnLine]);
      PatchIs(env, lines, item);
      OutdatedIs(env, lines, item);
      if docs.Some? && !(item.docStart.Some? && file[item.Lo()..item.Hi()] == docs.value) {
        file := file[..item.Lo()] + docs.value + file[item.Hi()..];
        updates := updates + 1;
      } else {
        assert file[..item.Lo()] + file[item.Lo()..item.Hi()] + file[item.Hi()..] == file;
      }
    }
    assert lines[..0] == [];
  }

  /** The doc comment for an item whose function line is `line`. */
  method DocFor(env: Env, key: Key, line: Line) returns (docs: Option<seq<Line>>)
    requires env.Valid()
    ensures docs == NewDoc(env, key, line)
  {
    hide *;
    NewDocIs(env, key, line);
    var source := SourceDoc(env, key);
    if source == [] || !line.kind.Code? {
      return None;
    }
    var transformed := TransformDoc(env, source, !line.kind.returnsResult);
    if transformed == [] {
      return None;
    }
    docs := Some(Format(transformed, line.kind.indent));
  }
}
