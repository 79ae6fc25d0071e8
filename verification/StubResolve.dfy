/** Resolving a signature attribute gives back the parameters it was written from. */
module StubResolve {
  import opened Seqs
  import opened Wrappers
  import opened StubText
  import opened StubDefaults

  /** A parameter as it is written: its name, with blanks around it, and after an equals sign its default, again with
  blanks around it. */
  datatype Written = Written(left: string, name: string, right: string, default: Option<Padded>)

  datatype Padded = Padded(left: string, text: string, right: string)

  predicate Plain(p: Written) {
    && Blank(p.left) && Blank(p.right) && Stripped(p.name) && p.name != "" && p.name != "*" && '=' !in p.name
    && (p.default.Some? ==>
          Blank(p.default.value.left) && Stripped(p.default.value.text) && Blank(p.default.value.right))
  }

  function TextOf(p: Written): string {
    p.left + p.name + p.right
    + if p.default.None? then "" else "=" + (p.default.value.left + p.default.value.text + p.default.value.right)
  }

  function TextsOf(ps: seq<Written>): (r: seq<string>)
    ensures |r| == |ps| && forall i :: 0 <= i < |ps| ==> r[i] == TextOf(ps[i])
  {
    if ps == [] then [] else TextsOf(ps[..|ps| - 1]) + [TextOf(ps[|ps| - 1])]
  }

  function Meant(p: Written, translate: string -> Option<string>): Param {
    Param(p.name, if p.default.None? then None else translate(p.default.value.text))
  }

  function MeantAll(ps: seq<Written>, translate: string -> Option<string>): (r: seq<Param>)
    ensures |r| == |ps| && forall i :: 0 <= i < |ps| ==> r[i] == Meant(ps[i], translate)
  {
    if ps == [] then [] else MeantAll(ps[..|ps| - 1], translate) + [Meant(ps[|ps| - 1], translate)]
  }

  // One parameter

  lemma {:induction false} BlankNoEquals(s: string)
    requires Blank(s)
    ensures '=' !in s
  {
  }

  lemma {:induction false} BlankAppend(a: string, b: string)
    requires Blank(a) && Blank(b)
    ensures Blank(a + b)
  {
  }

  lemma {:induction false} StripPadded(a: string, s: string, b: string)
    requires Blank(a) && Blank(b) && Stripped(s)
    ensures Strip(a + s + b) == s
  {
    StripUnique(a + s + b, a, s, b);
  }

  lemma {:induction false} FirstEquals(front: string, back: string)
    requires '=' !in front
    ensures IndexOf(front + "=" + back, '=') == |front|
    ensures (front + "=" + back)[..|front|] == front && (front + "=" + back)[|front| + 1..] == back
  {
    var s := front + "=" + back;
    assert s[|front|] == '=' && forall j :: 0 <= j < |front| ==> s[j] == front[j];
  }

  /** What a text with an equals sign reads as. */
  lemma {:induction false} ResolveDefault(param: string, front: string, back: string,
                                          translate: string -> Option<string>)
    requires Strip(param) == front + "=" + back && '=' !in front && front != ""
    ensures ResolveOne(param, translate) == [Param(Strip(front), translate(Strip(back)))]
  {
    FirstEquals(front, back);
    hide Strip;
    hide IndexOf;
    assert (front + "=" + back)[|front|] == '=' && "*"[0] != '=' && |front + "=" + back| > 1;
  }

  lemma {:induction false} ResolveWithout(p: Written, translate: string -> Option<string>)
    requires Plain(p) && p.default.None?
    ensures ResolveOne(TextOf(p), translate) == [Meant(p, translate)]
  {
    assert TextOf(p) == p.left + p.name + p.right;
    StripPadded(p.left, p.name, p.right);
    assert IndexOf(p.name, '=') == |p.name|;
    hide Strip;
    hide IndexOf;
  }

  lemma {:induction false} ResolveWith(p: Written, translate: string -> Option<string>)
    requires Plain(p) && p.default.Some?
    ensures ResolveOne(TextOf(p), translate) == [Meant(p, translate)]
  {
    var d := p.default.value;
    var front := p.name + p.right;
    BlankNoEquals(p.right);
    assert '=' !in front && front != "" && front[0] == p.name[0];
    var back, after := if d.text == "" then "" else d.left + d.text, if d.text == "" then d.left + d.right else d.right;
    var core := front + "=" + back;
    BlankAppend(d.left, d.right);
    assert TextOf(p) == p.left + core + after;
    assert Stripped(core) by {
      assert core[0] == front[0] && core[|core| - 1] == if d.text == "" then '=' else d.text[|d.text| - 1];
    }
    assert front == "" + p.name + p.right && back == (if d.text == "" then "" else d.left) + d.text + "";
    hide Strip;
    StripPadded(p.left, core, after);
    StripPadded("", p.name, p.right);
    StripPadded(if d.text == "" then "" else d.left, d.text, "");
    ResolveDefault(TextOf(p), front, back, translate);
  }

  // A whole signature

  lemma {:induction false} ResolveTexts(ps: seq<Written>, translate: string -> Option<string>)
    requires forall p <- ps :: Plain(p)
    ensures Resolve(TextsOf(ps), translate) == MeantAll(ps, translate)
  {
    if ps != [] {
      var before, p := ps[..|ps| - 1], ps[|ps| - 1];
      assert p in ps && forall q <- before :: q in ps;
      assert TextsOf(ps) == TextsOf(before) + [TextOf(p)];
      assert MeantAll(ps, translate) == MeantAll(before, translate) + [Meant(p, translate)];
      hide *;
      ResolveTexts(before, translate);
      if p.default.None? { ResolveWithout(p, translate); } else { ResolveWith(p, translate); }
      ResolvePush(TextsOf(before), TextOf(p), translate);
    } else {
      assert TextsOf(ps) == [] && MeantAll(ps, translate) == [];
    }
  }

  lemma {:induction false} TextNotEmpty(p: Written)
    requires Plain(p)
    ensures TextOf(p) != ""
  {
  }

  /** Any parameters, written with any blanks and joined by commas, are resolved to their names and translated defaults,
  if each keeps its brackets and commas to itself. */
  lemma {:induction false} ResolveRoundTrip(ps: seq<Written>, translate: string -> Option<string>)
    requires forall p <- ps :: Plain(p) && Whole(SIGNATURE, TextOf(p))
    ensures Resolve(Parts(Split(SIGNATURE, Join(TextsOf(ps), ","))), translate) == MeantAll(ps, translate)
  {
    var texts := TextsOf(ps);
    if ps == [] {
      assert texts == [] && Join(texts, ",") == [] && Split(SIGNATURE, []) == Pieces([], []);
    } else {
      var n := |ps| - 1;
      var parts, tail := texts[..n], texts[n];
      assert texts == parts + [tail];
      forall i | 0 <= i < |texts| ensures Whole(SIGNATURE, texts[i]) {
        assert ps[i] in ps;
      }
      assert AllWhole(SIGNATURE, parts) && NoCut(SIGNATURE, tail) && tail == TextOf(ps[n]) && ps[n] in ps;
      TextNotEmpty(ps[n]);
      assert Parts(Pieces(parts, tail)) == texts;
      hide *;
      SignatureValid();
      JoinIsUnsplit(parts, tail);
      SplitFindsParts(SIGNATURE, Pieces(parts, tail));
    }
    hide *;
    ResolveTexts(ps, translate);
  }

  /** Empty parts and the star that separates keyword parameters are left out. */
  lemma {:induction false} ResolveSkips(before: seq<string>, left: string, right: string, star: bool,
                                        translate: string -> Option<string>)
    requires Blank(left) && Blank(right)
    ensures Resolve(before + [left + (if star then "*" else "") + right], translate) == Resolve(before, translate)
  {
    var text := if star then "*" else "";
    assert Stripped(text);
    StripPadded(left, text, right);
    hide Strip;
    hide IndexOf;
    ResolvePush(before, left + text + right, translate);
    hide Resolve;
    assert ResolveOne(left + text + right, translate) == [];
  }
}
