/** Splitting parameter lists at commas outside brackets. */
module StubText {

  /** A bracket alphabet. */
  datatype Brackets = Brackets(open: set<char>, close: set<char>) {
    function Delta(c: char): int {
      if c in open then 1 else if c in close then -1 else 0
    }

    /** Commas and white space are not brackets. */
    ghost predicate Valid() {
      forall c :: c == ',' || IsSpace(c) ==> Delta(c) == 0
    }
  }

  /** The brackets of a PyO3 signature attribute. */
  const SIGNATURE := Brackets({'(', '<', '['}, {')', '>', ']'})

  /** The brackets of a stub line. */
  const STUB := Brackets({'(', '['}, {')', ']'})

  predicate IsSpace(c: char) {
    c == ' ' || c == '\t' || c == '\n' || c == '\r'
  }

  /** The nesting depth after `s`. */
  function Depth(b: Brackets, s: string): int {
    if s == [] then 0 else Depth(b, s[..|s| - 1]) + b.Delta(s[|s| - 1])
  }

  lemma {:induction false} DepthAppend(b: Brackets, x: string, y: string)
    ensures Depth(b, x + y) == Depth(b, x) + Depth(b, y)
  {
    if y == [] {
      assert x + y == x;
    } else {
      assert (x + y)[..|x + y| - 1] == x + y[..|y| - 1];
      DepthAppend(b, x, y[..|y| - 1]);
    }
  }

  /** The position of the first `c`, or the length of `s`. */
  function IndexOf(s: string, c: char): (i: nat)
    ensures i <= |s| && (i < |s| ==> s[i] == c) && forall j :: 0 <= j < i ==> s[j] != c
  {
    if s == [] then 0 else if s[0] == c then 0 else 1 + IndexOf(s[1..], c)
  }

  // Splitting

  /** Completed parts, and what follows the last cut. */
  datatype Pieces = Pieces(parts: seq<string>, tail: string)

  function Split(b: Brackets, s: string): Pieces {
    if s == [] then Pieces([], [])
    else
      var before, c := Split(b, s[..|s| - 1]), s[|s| - 1];
      if c == ',' && Depth(b, s[..|s| - 1]) == 0 then Pieces(before.parts + [before.tail], [])
      else before.(tail := before.tail + [c])
  }

  /** The parts, each followed by a comma. */
  function Glue(parts: seq<string>): string {
    if parts == [] then [] else Glue(parts[..|parts| - 1]) + parts[|parts| - 1] + ","
  }

  function Unsplit(p: Pieces): string {
    Glue(p.parts) + p.tail
  }

  /** No comma of `s` is outside brackets. */
  predicate NoCut(b: Brackets, s: string) {
    forall i :: 0 <= i < |s| && s[i] == ',' ==> Depth(b, s[..i]) != 0
  }

  /** A part between two cuts: brackets close what they open. */
  predicate Whole(b: Brackets, s: string) {
    NoCut(b, s) && Depth(b, s) == 0
  }

  predicate AllWhole(b: Brackets, parts: seq<string>) {
    forall i :: 0 <= i < |parts| ==> Whole(b, parts[i])
  }

  lemma {:induction false} GlueDepth(b: Brackets, parts: seq<string>)
    requires b.Valid() && AllWhole(b, parts)
    ensures Depth(b, Glue(parts)) == 0
  {
    if parts != [] {
      var before, last := parts[..|parts| - 1], parts[|parts| - 1];
      GlueDepth(b, before);
      DepthAppend(b, Glue(before), last);
      DepthAppend(b, Glue(before) + last, ",");
      assert Depth(b, ",") == 0 by { assert ","[..0] == []; assert Depth(b, ","[..0]) == 0; }
    }
  }

  lemma {:induction false} SplitPush(b: Brackets, s: string, c: char)
    ensures Split(b, s + [c])
         == if c == ',' && Depth(b, s) == 0 then Pieces(Split(b, s).parts + [Split(b, s).tail], [])
            else Split(b, s).(tail := Split(b, s).tail + [c])
    ensures Depth(b, s + [c]) == Depth(b, s) + b.Delta(c)
  {
    assert (s + [c])[..|s|] == s;
  }

  lemma {:induction false} GluePush(parts: seq<string>, part: string)
    ensures Glue(parts + [part]) == Glue(parts) + part + ","
  {
    assert (parts + [part])[..|parts|] == parts;
  }

  lemma {:induction false} NoCutPush(b: Brackets, s: string, c: char)
    ensures NoCut(b, s + [c]) <==> NoCut(b, s) && !(c == ',' && Depth(b, s) == 0)
  {
    var r := s + [c];
    assert r[..|s|] == s && r[|s|] == c;
    assert forall i :: 0 <= i < |s| ==> r[..i] == s[..i] && r[i] == s[i];
  }

  lemma {:induction false} UnsplitIs(p: Pieces)
    ensures Unsplit(p) == Glue(p.parts) + p.tail
  {
  }

  lemma {:induction false} UnsplitPush(p: Pieces, c: char)
    ensures Unsplit(p.(tail := p.tail + [c])) == Unsplit(p) + [c]
  {
    hide Glue;
  }

  lemma {:induction false} UnsplitCut(p: Pieces)
    ensures Unsplit(Pieces(p.parts + [p.tail], [])) == Unsplit(p) + [',']
  {
    GluePush(p.parts, p.tail);
    hide Glue;
  }

  /** Splitting loses nothing. */
  lemma {:induction false} SplitIsLossless(b: Brackets, s: string)
    ensures Unsplit(Split(b, s)) == s
  {
    if s == [] {
      assert Glue([]) == [];
    } else {
      hide *;
      var s', c := s[..|s| - 1], s[|s| - 1];
      assert s == s' + [c];
      SplitIsLossless(b, s');
      SplitPush(b, s', c);
      UnsplitPush(Split(b, s'), c);
      UnsplitCut(Split(b, s'));
    }
  }

  lemma {:induction false} AllWholePush(b: Brackets, parts: seq<string>, p: string)
    requires AllWhole(b, parts) && NoCut(b, p) && Depth(b, p) == 0
    ensures AllWhole(b, parts + [p])
  {
    hide NoCut;
    hide Depth;
  }

  /** Splitting cuts exactly at the commas outside brackets: no part has one, and every part closes its brackets. */
  lemma {:induction false} SplitCutsOutside(b: Brackets, s: string)
    requires b.Valid()
    ensures AllWhole(b, Split(b, s).parts)
    ensures NoCut(b, Split(b, s).tail) && Depth(b, Split(b, s).tail) == Depth(b, s)
  {
    if s != [] {
      assert b.Delta(',') == 0 && Depth(b, []) == 0 && NoCut(b, []);
      hide *;
      var s', c := s[..|s| - 1], s[|s| - 1];
      assert s == s' + [c];
      var p := Split(b, s');
      SplitCutsOutside(b, s');
      SplitPush(b, s', c);
      if c == ',' && Depth(b, s') == 0 {
        AllWholePush(b, p.parts, p.tail);
      } else {
        NoCutPush(b, p.tail, c);
        DepthPush(b, p.tail, c);
      }
    }
  }

  lemma {:induction false} DepthPush(b: Brackets, s: string, c: char)
    ensures Depth(b, s + [c]) == Depth(b, s) + b.Delta(c)
  {
    assert (s + [c])[..|s|] == s;
  }

  lemma {:induction false} UnsplitDepth(b: Brackets, p: Pieces)
    requires b.Valid() && AllWhole(b, p.parts)
    ensures Depth(b, Unsplit(p)) == Depth(b, p.tail)
  {
    GlueDepth(b, p.parts);
    DepthAppend(b, Glue(p.parts), p.tail);
  }

  /** Splitting finds again the parts that a text is made of. */
  lemma {:induction false} SplitFindsParts(b: Brackets, p: Pieces)
    requires b.Valid() && AllWhole(b, p.parts) && NoCut(b, p.tail)
    ensures Split(b, Unsplit(p)) == p
    decreases |p.parts|, |p.tail|
  {
    if p.tail != [] {
      hide *;
      var c := p.tail[|p.tail| - 1];
      var p' := Pieces(p.parts, p.tail[..|p.tail| - 1]);
      assert p.tail == p'.tail + [c];
      NoCutPush(b, p'.tail, c);
      SplitFindsParts(b, p');
      UnsplitDepth(b, p');
      UnsplitPush(p', c);
      SplitPush(b, Unsplit(p'), c);
    } else if p.parts != [] {
      var p' := Pieces(p.parts[..|p.parts| - 1], p.parts[|p.parts| - 1]);
      assert Whole(b, p.parts[|p.parts| - 1]) && AllWhole(b, p'.parts);
      assert Depth(b, p'.tail) == 0 && NoCut(b, p'.tail);
      hide *;
      assert p.parts == p'.parts + [p'.tail];
      SplitFindsParts(b, p');
      UnsplitDepth(b, p');
      UnsplitCut(p');
      SplitPush(b, Unsplit(p'), ',');
    } else {
      assert Unsplit(p) == [];
    }
  }

  // Joining

  function Join(parts: seq<string>, sep: string): string {
    if parts == [] then []
    else if |parts| == 1 then parts[0]
    else Join(parts[..|parts| - 1], sep) + sep + parts[|parts| - 1]
  }

  lemma {:induction false} JoinPush(parts: seq<string>, last: string, sep: string)
    requires parts != []
    ensures Join(parts + [last], sep) == Join(parts, sep) + sep + last
  {
    assert (parts + [last])[..|parts|] == parts;
  }

  lemma {:induction false} JoinIsUnsplit(parts: seq<string>, last: string)
    ensures Join(parts + [last], ",") == Glue(parts) + last
  {
    assert (parts + [last])[..|parts|] == parts;
    if parts != [] {
      var parts', p := parts[..|parts| - 1], parts[|parts| - 1];
      JoinIsUnsplit(parts', p);
      assert parts == parts' + [p];
    } else {
      assert Glue(parts) == [];
    }
  }

  // White space

  /** How many characters to skip from position `i` on to reach one that is not white space. */
  function Lead(s: string, i: nat): (k: nat)
    requires i <= |s| && forall j :: 0 <= j < i ==> IsSpace(s[j])
    ensures i <= k <= |s| && (forall j :: 0 <= j < k ==> IsSpace(s[j])) && (k < |s| ==> !IsSpace(s[k]))
    decreases |s| - i
  {
    if i == |s| || !IsSpace(s[i]) then i else Lead(s, i + 1)
  }

  /** How many of the first `i` characters remain without trailing white space. */
  function Keep(s: string, i: nat): (k: nat)
    requires i <= |s| && forall j :: i <= j < |s| ==> IsSpace(s[j])
    ensures k <= i && (forall j :: k <= j < |s| ==> IsSpace(s[j])) && (k > 0 ==> !IsSpace(s[k - 1]))
  {
    if i == 0 || !IsSpace(s[i - 1]) then i else Keep(s, i - 1)
  }

  function LStrip(s: string): string {
    s[Lead(s, 0)..]
  }

  function RStrip(s: string): string {
    s[..Keep(s, |s|)]
  }

  function Strip(s: string): string {
    RStrip(LStrip(s))
  }

  predicate Stripped(s: string) {
    s == [] || (!IsSpace(s[0]) && !IsSpace(s[|s| - 1]))
  }

  predicate Blank(s: string) {
    forall i :: 0 <= i < |s| ==> IsSpace(s[i])
  }

  lemma {:induction false} Cut(s: string, k: nat, n: nat)
    requires k + n <= |s|
    ensures s == s[..k] + s[k..][..n] + s[k..][n..]
  {
    assert s == s[..k] + s[k..];
    assert s[k..] == s[k..][..n] + s[k..][n..];
  }

  /** Stripping takes white space from both ends. */
  lemma {:induction false} StripIs(s: string) returns (front: string, back: string)
    ensures s == front + Strip(s) + back && Stripped(Strip(s)) && Blank(front) && Blank(back)
  {
    var k := Lead(s, 0);
    var t := s[k..];
    var n := Keep(t, |t|);
    front, back := s[..k], t[n..];
    assert Strip(s) == t[..n];
    assert Blank(front) && Blank(back);
    assert Stripped(t[..n]) by { assert n > 0 ==> t[..n][0] == s[k] && t[..n][n - 1] == t[n - 1]; }
    hide *;
    Cut(s, k, n);
  }

  /** What is left is determined by any white space around it. */
  lemma {:induction false} StripUnique(s: string, front: string, t: string, back: string)
    requires s == front + t + back && Stripped(t) && Blank(front) && Blank(back)
    ensures Strip(s) == t
  {
    var k := Lead(s, 0);
    var u := s[k..];
    var n := Keep(u, |u|);
    assert forall i :: 0 <= i < |front| ==> s[i] == front[i];
    assert forall i :: 0 <= i < |t| ==> s[|front| + i] == t[i];
    assert forall i :: 0 <= i < |back| ==> s[|front| + |t| + i] == back[i];
    if t == [] {
      assert k == |s|;
    } else {
      assert s[|front|] == t[0];
      assert k == |front|;
      assert u == t + back;
      assert u[|t| - 1] == t[|t| - 1];
      assert forall i :: |t| <= i < |u| ==> u[i] == back[i - |t|];
      assert n == |t|;
    }
  }

  lemma {:induction false} StripStripped(s: string)
    requires Stripped(s)
    ensures Strip(s) == s && Strip(" " + s) == s
  {
    assert s == [] + s + [];
    StripUnique(s, [], s, []);
    assert " " + s == " " + s + [];
    StripUnique(" " + s, " ", s, []);
  }

  lemma {:induction false} StripTrailing(s: string)
    ensures Strip(s + " ") == Strip(s)
  {
    var front, back := StripIs(s);
    assert s + " " == front + Strip(s) + (back + " ");
    StripUnique(s + " ", front, Strip(s), back + " ");
  }

  lemma {:induction false} SpaceDepth(b: Brackets, s: string)
    requires b.Valid() && Blank(s)
    ensures Depth(b, s) == 0
  {
    if s != [] {
      SpaceDepth(b, s[..|s| - 1]);
    }
  }

  /** Stripping changes neither the depth nor the cuts. */
  lemma {:induction false} StripKeeps(b: Brackets, s: string)
    requires b.Valid()
    ensures Depth(b, Strip(s)) == Depth(b, s)
    ensures NoCut(b, s) ==> NoCut(b, Strip(s))
  {
    var front, back := StripIs(s);
    SpaceDepth(b, front);
    SpaceDepth(b, back);
    hide *;
    DepthAppend(b, front, Strip(s));
    DepthAppend(b, front + Strip(s), back);
    if NoCut(b, s) {
      NoCutPart(b, s, front, Strip(s), back);
    }
  }

  lemma {:induction false} NoCutPart(b: Brackets, s: string, front: string, t: string, back: string)
    requires s == front + t + back && Depth(b, front) == 0 && NoCut(b, s)
    ensures NoCut(b, t)
  {
    forall i | 0 <= i < |t| && t[i] == ',' ensures Depth(b, t[..i]) != 0 {
      assert s[|front| + i] == ',' && s[..|front| + i] == front + t[..i];
      assert Depth(b, s[..|front| + i]) != 0;
      DepthAppend(b, front, t[..i]);
    }
  }
}
