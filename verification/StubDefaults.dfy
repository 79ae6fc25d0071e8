/** Defaults taken from a PyO3 signature attribute: which of them may be written into a stub. */
module StubDefaults {
  import opened Seqs
  import opened Wrappers
  import opened StubText

  /** A parameter and its default in Python syntax, if it has one that can be translated. */
  datatype Param = Param(name: string, default: Option<string>)

  lemma {:induction false} SignatureValid()
    ensures SIGNATURE.Valid()
  {
  }

  function Parts(p: Pieces): seq<string> {
    if p.tail == [] then p.parts else p.parts + [p.tail]
  }

  /** Split a parameter list at the commas outside brackets. */
  method SplitSignatureParams(s: string) returns (params: seq<string>)
    ensures params == Parts(Split(SIGNATURE, s))
  {
    params := [];
    var depth := 0;
    var current := "";
    var i := 0;
    while i < |s|
      invariant 0 <= i <= |s|
      invariant depth == Depth(SIGNATURE, s[..i])
      invariant Split(SIGNATURE, s[..i]) == Pieces(params, current)
    {
      var c := s[i];
      assert s[..i + 1] == s[..i] + [c];
      SplitPush(SIGNATURE, s[..i], c);
      if c in {'(', '<', '['} {
        depth := depth + 1;
        current := current + [c];
      } else if c in {')', '>', ']'} {
        depth := depth - 1;
        current := current + [c];
      } else if c == ',' && depth == 0 {
        params := params + [current];
        current := "";
      } else {
        current := current + [c];
      }
      i := i + 1;
    }
    assert s[..i] == s;
    if current != "" {
      params := params + [current];
    }
  }

  /** Joining the parts of a signature again restores it, up to one trailing comma outside brackets; the parts have
  no comma outside brackets themselves, and all but the last close the brackets they open. */
  lemma {:induction false} SplitSignatureRoundTrip(s: string)
    ensures var parts := Parts(Split(SIGNATURE, s));
            && s == Join(parts, ",") + (if parts != [] && Split(SIGNATURE, s).tail == [] then "," else "")
            && (forall i :: 0 <= i < |parts| ==> NoCut(SIGNATURE, parts[i]))
            && (forall i :: 0 <= i < |parts| - 1 ==> Depth(SIGNATURE, parts[i]) == 0)
  {
    hide *;
    SignatureValid();
    SplitIsLossless(SIGNATURE, s);
    SplitCutsOutside(SIGNATURE, s);
    JoinParts(Split(SIGNATURE, s));
    PartsWhole(Split(SIGNATURE, s));
  }

  lemma {:induction false} PartsWhole(p: Pieces)
    requires AllWhole(SIGNATURE, p.parts) && NoCut(SIGNATURE, p.tail)
    ensures forall i :: 0 <= i < |Parts(p)| ==> NoCut(SIGNATURE, Parts(p)[i])
    ensures forall i :: 0 <= i < |Parts(p)| - 1 ==> Depth(SIGNATURE, Parts(p)[i]) == 0
  {
    hide NoCut;
    hide Depth;
    forall i | 0 <= i < |p.parts| ensures NoCut(SIGNATURE, p.parts[i]) && Depth(SIGNATURE, p.parts[i]) == 0 {
      assert Whole(SIGNATURE, p.parts[i]);
    }
  }

  lemma {:induction false} JoinParts(p: Pieces)
    ensures Unsplit(p) == Join(Parts(p), ",") + (if Parts(p) != [] && p.tail == [] then "," else "")
  {
    if p.tail != [] {
      JoinIsUnsplit(p.parts, p.tail);
    } else if p.parts != [] {
      var parts', last := p.parts[..|p.parts| - 1], p.parts[|p.parts| - 1];
      assert p.parts == parts' + [last];
      JoinIsUnsplit(parts', last);
    }
  }

  // Resolving parameters

  /** One raw parameter; nothing for an empty one or the `*` separator. */
  function ResolveOne(raw: string, translate: string -> Option<string>): seq<Param> {
    var param := Strip(raw);
    if param == "" || param == "*" then []
    else
      var eq := IndexOf(param, '=');
      if eq == |param| then [Param(param, None)]
      else [Param(Strip(param[..eq]), translate(Strip(param[eq + 1..])))]
  }

  function Resolve(parts: seq<string>, translate: string -> Option<string>): seq<Param> {
    if parts == [] then [] else Resolve(parts[..|parts| - 1], translate) + ResolveOne(parts[|parts| - 1], translate)
  }

  lemma {:induction false} ResolvePush(parts: seq<string>, part: string, translate: string -> Option<string>)
    ensures Resolve(parts + [part], translate) == Resolve(parts, translate) + ResolveOne(part, translate)
  {
    assert (parts + [part])[..|parts|] == parts;
  }

  method ResolveParam(raw: string, translate: string -> Option<string>) returns (params: seq<Param>)
    ensures params == ResolveOne(raw, translate)
  {
    hide Strip;
    hide IndexOf;
    var param := Strip(raw);
    if param == "" || param == "*" {
      return [];
    }
    var eq := IndexOf(param, '=');
    if eq == |param| {
      return [Param(param, None)];
    }
    return [Param(Strip(param[..eq]), translate(Strip(param[eq + 1..])))];
  }

  method ResolveSignatureParams(s: string, translate: string -> Option<string>) returns (params: seq<Param>)
    ensures params == Resolve(Parts(Split(SIGNATURE, s)), translate)
  {
    var parts := SplitSignatureParams(s);
    params := [];
    var i := 0;
    ResolveNone(parts, translate);
    hide *;
    while i < |parts|
      invariant 0 <= i <= |parts|
      invariant params == Resolve(parts[..i], translate)
    {
      PrefixPush(parts, i);
      ResolvePush(parts[..i], parts[i], translate);
      var found := ResolveParam(parts[i], translate);
      params := params + found;
      i := i + 1;
    }
    WholePrefix(parts);
  }

  lemma {:induction false} ResolveNone(parts: seq<string>, translate: string -> Option<string>)
    ensures Resolve(parts[..0], translate) == []
  {
  }

  // Which defaults are safe

  /** Where the longest suffix of parameters with defaults starts. */
  function SafeFrom(params: seq<Param>): (k: nat)
    ensures k <= |params|
    ensures forall i :: k <= i < |params| ==> params[i].default.Some?
    ensures k > 0 ==> params[k - 1].default.None?
  {
    if params == [] then 0
    else if params[|params| - 1].default.None? then |params|
    else SafeFrom(params[..|params| - 1])
  }

  predicate Distinct(params: seq<Param>) {
    forall i, j :: 0 <= i < j < |params| ==> params[i].name != params[j].name
  }

  /** Walk from the right and keep defaults until a required parameter: the result holds exactly the defaults of
  the longest suffix of parameters that have one, so that no required parameter follows a default. */
  method FilterSafeDefaults(params: seq<Param>) returns (safe: Option<map<string, string>>)
    ensures safe.None? <==> SafeFrom(params) == |params|
    ensures safe.Some? ==> forall name :: name in safe.value <==>
              exists i :: SafeFrom(params) <= i < |params| && params[i].name == name
    ensures safe.Some? && Distinct(params) ==> forall i :: SafeFrom(params) <= i < |params| ==>
              params[i].name in safe.value && Some(safe.value[params[i].name]) == params[i].default
    ensures safe.Some? && Distinct(params) ==> forall i, j :: 0 <= i < j < |params| && params[i].name in safe.value ==>
              params[j].name in safe.value
  {
    var found: map<string, string> := map[];
    var sawRequired := false;
    var n := |params|;
    ghost var k := SafeFrom(params);
    while n > 0
      invariant 0 <= n <= |params|
      invariant sawRequired == (n < k)
      invariant forall name :: name in found <==> exists i :: k <= i < |params| && n <= i && params[i].name == name
      invariant Distinct(params) ==> forall i :: k <= i < |params| && n <= i ==>
                  params[i].name in found && Some(found[params[i].name]) == params[i].default
    {
      n := n - 1;
      var p := params[n];
      SafeFromIs(params, n);
      if p.default.Some? && !sawRequired {
        found := found[p.name := p.default.value];
      } else if p.default.None? {
        sawRequired := true;
      }
    }
    safe := if found == map[] then None else Some(found);
    if k < |params| {
      assert params[k].name in found;
    }
  }

  lemma {:induction false} SafeFromIs(params: seq<Param>, n: nat)
    requires n < |params|
    ensures n >= SafeFrom(params) ==> params[n].default.Some?
    ensures n + 1 == SafeFrom(params) ==> params[n].default.None?
  {
  }
}
