/** Which parameters are completed, in terms of their text. */
module StubAnnotations {
  import opened Wrappers
  import opened StubText
  import opened StubOptional
  import opened StubLine

  /** The characters of `t` from `k` on are those of `sub`. */
  predicate Reads(t: string, k: nat, sub: string) {
    k + |sub| <= |t| && forall j :: 0 <= j < |sub| ==> t[k + j] == sub[j]
  }

  /** The text contains `Optional[`, or a bar outside brackets with `None` within the next six characters. */
  ghost predicate OptionalAnnotation(t: string) {
    || (exists k: nat :: Reads(t, k, "Optional["))
    || (exists i :: 0 <= i < |t| && NoneSoon(t, i))
  }

  ghost predicate NoneSoon(t: string, i: nat)
    requires i < |t|
  {
    && t[i] == '|' && Depth(STUB, t[..i]) == 0
    && exists k: nat :: i + 1 <= k && k + 4 <= i + 7 && Reads(t, k, "None")
  }

  /** A name, a colon, an annotation of that kind and perhaps an equals sign with what follows it. */
  ghost predicate Annotated(p: string) {
    exists name, annotation, rest :: AnnotatedAs(p, name, annotation, rest)
  }

  ghost predicate AnnotatedAs(p: string, name: string, annotation: string, rest: string) {
    && p == name + ":" + annotation + rest && ':' !in name && '=' !in annotation && (rest == [] || rest[0] == '=')
    && OptionalAnnotation(Strip(annotation))
  }

  // White space around a text does not matter

  predicate Solid(sub: string) {
    sub != [] && !IsSpace(sub[0]) && !IsSpace(sub[|sub| - 1])
  }

  lemma {:induction false} PaddedOccurs(front: string, s: string, back: string, sub: string, k: nat)
    requires Blank(front) && Blank(back) && Solid(sub) && OccursAt(front + s + back, k, sub)
    ensures |front| <= k && OccursAt(s, k - |front|, sub)
  {
    var w, n := front + s + back, |sub|;
    assert w[k] == sub[0] && w[k + n - 1] == sub[n - 1] by {
      assert w[k..k + n][0] == w[k] && w[k..k + n][n - 1] == w[k + n - 1];
    }
    assert k >= |front| && k + n <= |front| + |s|;
    assert w[k..k + n] == s[k - |front|..k - |front| + n];
  }

  lemma {:induction false} StripContains(w: string, sub: string)
    requires Solid(sub)
    ensures Contains(Strip(w), sub) <==> Contains(w, sub)
  {
    var front, back := StripIs(w);
    var s := Strip(w);
    hide Strip;
    if Contains(w, sub) {
      var k :| 0 <= k <= |w| && OccursAt(w, k, sub);
      PaddedOccurs(front, s, back, sub, k);
    }
    if Contains(s, sub) {
      var k :| 0 <= k <= |s| && OccursAt(s, k, sub);
      assert w[|front| + k..|front| + k + |sub|] == s[k..k + |sub|];
      assert OccursAt(w, |front| + k, sub);
    }
  }

  lemma {:induction false} ReadsIs(t: string, k: nat, sub: string)
    ensures Reads(t, k, sub) <==> OccursAt(t, k, sub)
  {
    var n := |sub|;
    if Reads(t, k, sub) {
      forall j | 0 <= j < n ensures t[k..k + n][j] == sub[j] {
        assert t[k + j] == sub[j];
      }
      assert t[k..k + n] == sub;
    }
    if OccursAt(t, k, sub) {
      forall j | 0 <= j < n ensures t[k + j] == sub[j] {
        assert t[k..k + n][j] == t[k + j];
      }
    }
  }

  /** Some occurrence lies between the two positions. */
  ghost predicate ReadsWithin(t: string, lo: nat, hi: nat, sub: string) {
    exists k: nat :: lo <= k && k + |sub| <= hi && Reads(t, k, sub)
  }

  lemma {:induction false} WindowReads(t: string, lo: nat, hi: nat, sub: string, k: nat)
    requires lo <= hi <= |t| && k + |sub| <= hi - lo
    ensures Reads(t, lo + k, sub) <==> Reads(t[lo..hi], k, sub)
  {
    var w := t[lo..hi];
    if Reads(t, lo + k, sub) {
      forall j | 0 <= j < |sub| ensures w[k + j] == sub[j] {
        assert t[lo + k + j] == sub[j];
      }
    }
    if Reads(w, k, sub) {
      forall j | 0 <= j < |sub| ensures t[lo + k + j] == sub[j] {
        assert w[k + j] == sub[j];
      }
    }
  }

  lemma {:induction false} WindowOccurs(t: string, lo: nat, hi: nat, sub: string)
    requires lo <= hi <= |t|
    ensures Contains(t[lo..hi], sub) <==> ReadsWithin(t, lo, hi, sub)
  {
    var w := t[lo..hi];
    if Contains(w, sub) {
      var k :| 0 <= k <= |w| && OccursAt(w, k, sub);
      ReadsIs(w, k, sub);
      WindowReads(t, lo, hi, sub, k);
    }
    if ReadsWithin(t, lo, hi, sub) {
      var k: nat :| lo <= k && k + |sub| <= hi && Reads(t, k, sub);
      WindowReads(t, lo, hi, sub, k - lo);
      ReadsIs(w, k - lo, sub);
    }
  }

  lemma {:induction false} NoneSoonIs(t: string, i: nat)
    requires i < |t|
    ensures NoneAt(t, i) <==> NoneSoon(t, i)
  {
    var hi := if i + 7 <= |t| then i + 7 else |t|;
    assert |"None"| == 4 && Solid("None");
    StripContains(t[i + 1..hi], "None");
    WindowOccurs(t, i + 1, hi, "None");
    hide Contains;
    hide Strip;
    hide Depth;
    assert forall k: nat :: Reads(t, k, "None") ==> k + 4 <= |t|;
    hide Reads;
    assert ReadsWithin(t, i + 1, hi, "None") <==> exists k: nat :: i + 1 <= k && k + 4 <= i + 7 && Reads(t, k, "None");
  }

  lemma {:induction false} OptionalAnnotationIs(t: string)
    ensures OptionalAnnotation(t) <==> Contains(t, "Optional[") || UnionWithNone(t)
  {
    assert t[0..|t|] == t;
    WindowOccurs(t, 0, |t|, "Optional[");
    assert forall k: nat :: Reads(t, k, "Optional[") ==> k + |"Optional["| <= |t|;
    forall i | 0 <= i < |t| ensures NoneAt(t, i) <==> NoneSoon(t, i) {
      NoneSoonIs(t, i);
    }
    hide Contains;
    hide NoneAt;
    hide NoneSoon;
    hide Reads;
  }

  // The annotation of a parameter

  lemma {:induction false} FirstColon(name: string, rest: string)
    requires ':' !in name
    ensures var p := name + ":" + rest; ':' in p && IndexOf(p, ':') == |name| && p[|name| + 1..] == rest
  {
    var p := name + ":" + rest;
    assert p[|name|] == ':' && forall j :: 0 <= j < |name| ==> p[j] == name[j];
  }

  lemma {:induction false} UpToEquals(annotation: string, rest: string)
    requires '=' !in annotation && (rest == [] || rest[0] == '=')
    ensures (annotation + rest)[..IndexOf(annotation + rest, '=')] == annotation
  {
    var s := annotation + rest;
    assert forall j :: 0 <= j < |annotation| ==> s[j] == annotation[j];
    assert rest != [] ==> s[|annotation|] == '=';
  }

  lemma {:induction false} TypePartOf(name: string, annotation: string, rest: string)
    requires ':' !in name && '=' !in annotation && (rest == [] || rest[0] == '=')
    ensures var p := name + ":" + annotation + rest; ':' in p && TypePart(p) == Strip(annotation)
  {
    var p := name + ":" + annotation + rest;
    assert p == name + ":" + (annotation + rest);
    FirstColon(name, annotation + rest);
    UpToEquals(annotation, rest);
    hide Strip;
    hide IndexOf;
  }

  lemma {:induction false} NoColon(p: string)
    requires ':' !in p
    ensures !IsOptional(p) && !Annotated(p)
  {
    forall n, a, r ensures !AnnotatedAs(p, n, a, r) {
      assert (n + ":" + a + r)[|n|] == ':';
    }
  }

  lemma {:induction false} CutParameter(p: string) returns (name: string, annotation: string, rest: string)
    requires ':' in p
    ensures p == name + ":" + annotation + rest && ':' !in name && '=' !in annotation && (rest == [] || rest[0] == '=')
  {
    var c := IndexOf(p, ':');
    var after := p[c + 1..];
    var e := IndexOf(after, '=');
    name, annotation, rest := p[..c], after[..e], after[e..];
    hide IndexOf;
  }

  lemma {:induction false} IsOptionalBy(p: string)
    requires ':' in p
    ensures IsOptional(p) <==> OptionalAnnotation(TypePart(p))
  {
    OptionalAnnotationIs(TypePart(p));
    hide OptionalAnnotation;
    hide TypePart;
    hide UnionWithNone;
    hide Contains;
  }

  lemma {:induction false} ReadAnnotation(p: string)
    requires ':' in p
    ensures IsOptional(p) ==> Annotated(p)
  {
    var name, annotation, rest := CutParameter(p);
    hide IsOptional;
    hide OptionalAnnotation;
    hide Strip;
    TypePartOf(name, annotation, rest);
    IsOptionalBy(p);
    hide TypePart;
    assert IsOptional(p) ==> AnnotatedAs(p, name, annotation, rest);
  }

  lemma {:induction false} ReadBack(p: string)
    requires Annotated(p)
    ensures IsOptional(p)
  {
    var name, annotation, rest :| AnnotatedAs(p, name, annotation, rest);
    hide IsOptional;
    hide OptionalAnnotation;
    hide Strip;
    TypePartOf(name, annotation, rest);
    IsOptionalBy(p);
    hide TypePart;
  }

  lemma {:induction false} AnnotatedIff(p: string)
    ensures IsOptional(p) <==> Annotated(p)
  {
    hide *;
    if ':' in p {
      ReadAnnotation(p);
      if Annotated(p) { ReadBack(p); }
    } else {
      NoColon(p);
    }
  }

  // Which parameters are completed

  /** A parameter without a default is completed, at the end of any list, exactly if its annotation is Optional;
  otherwise nothing before it is completed either. */
  lemma {:induction false} CompletedExactly(before: seq<string>, name: string, annotation: string)
    requires ':' !in name && '=' !in name && '=' !in annotation
    ensures var p := name + ":" + annotation;
            AddDefaults(before + [p])
            == if OptionalAnnotation(Strip(annotation)) then AddDefaults(before) + [p + " = ..."] else before + [p]
  {
    var p := name + ":" + annotation;
    assert p == name + ":" + annotation + [] && '=' !in p;
    assert !HasDefault(p) by { assert forall i :: 0 <= i < |p| ==> p[i] in p; }
    TypePartOf(name, annotation, []);
    OptionalAnnotationIs(Strip(annotation));
    hide Strip;
    hide HasDefault;
    hide TypePart;
    hide OptionalAnnotation;
    hide UnionWithNone;
    hide Contains;
    AddDefaultsPush(before, p);
    hide AddDefaults;
  }

  /** The last parameter that is neither completed nor has a default is not Optional. */
  lemma {:induction false} StopsAt(params: seq<string>, i: nat)
    requires i < |params| && !Completed(params, i) && !HasDefault(params[i])
    requires forall j :: i < j < |params| ==> Completed(params, j) || HasDefault(params[j])
    ensures !IsOptional(params[i])
  {
    hide *;
    var before, p := params[..|params| - 1], params[|params| - 1];
    var n := |before|;
    assert params == before + [p] && params[n] == p && before[..] == params[..n];
    CompletedPush(before, p);
    if i < n {
      assert Completed(params, n) || HasDefault(params[n]);
      assert params[i] == before[i];
      forall j | i < j < n ensures Completed(before, j) || HasDefault(before[j]) {
        assert params[j] == before[j];
      }
      StopsAt(before, i);
    }
  }

  lemma {:induction false} GainsByAnnotation(params: seq<string>, i: nat)
    requires i < |params|
    ensures || AddDefaults(params)[i] == params[i]
            || (AddDefaults(params)[i] == params[i] + " = ..." && Annotated(params[i]) && !HasDefault(params[i]))
  {
    assert ELLIPSIS == " = ...";
    hide AddDefaults;
    hide HasDefault;
    hide Annotated;
    hide IsOptional;
    CompletedIs(params, i);
    AnnotatedIff(params[i]);
  }

  lemma {:induction false} StopsByAnnotation(params: seq<string>, i: nat)
    requires i < |params| && AddDefaults(params)[i] == params[i] && !HasDefault(params[i])
    requires forall j :: i < j < |params| ==> AddDefaults(params)[j] != params[j] || HasDefault(params[j])
    ensures !Annotated(params[i])
  {
    hide AddDefaults;
    hide HasDefault;
    hide Annotated;
    hide IsOptional;
    StopsAt(params, i);
    AnnotatedIff(params[i]);
  }

  /** Rewriting a line: a parameter is left alone, or it has no default, its annotation is Optional and it gains
  `= ...`; and the last parameter left alone without a default has no such annotation. */
  lemma {:induction false} CompletedAnnotations(line: string)
    ensures var params, now := ParamsOf(line), ParamsOf(FixLine(line));
            && |now| == |params|
            && (forall i :: 0 <= i < |params| ==>
                  || now[i] == params[i]
                  || (now[i] == params[i] + " = ..." && Annotated(params[i]) && !HasDefault(params[i])))
            && (forall i :: 0 <= i < |params| && now[i] == params[i] && !HasDefault(params[i])
                            && (forall j :: i < j < |params| ==> now[j] != params[j] || HasDefault(params[j])) ==>
                  !Annotated(params[i]))
  {
    var params := ParamsOf(line);
    FixKeepsParameters(line);
    hide *;
    forall i | 0 <= i < |params|
      ensures || AddDefaults(params)[i] == params[i]
              || (AddDefaults(params)[i] == params[i] + " = ..." && Annotated(params[i]) && !HasDefault(params[i]))
    {
      GainsByAnnotation(params, i);
    }
    forall i | 0 <= i < |params| && AddDefaults(params)[i] == params[i] && !HasDefault(params[i])
               && (forall j :: i < j < |params| ==> AddDefaults(params)[j] != params[j] || HasDefault(params[j]))
      ensures !Annotated(params[i])
    {
      StopsByAnnotation(params, i);
    }
  }

  /** A parameter has a default exactly if an equals sign stands outside brackets and a colon before every equals
  sign. */
  lemma {:induction false} HasDefaultIff(p: string)
    ensures HasDefault(p) <==>
              && (exists i :: 0 <= i < |p| && p[i] == '=' && Depth(STUB, p[..i]) == 0)
              && (exists c :: 0 <= c < |p| && p[c] == ':' && forall k :: 0 <= k < c ==> p[k] != '=')
  {
    var e := IndexOf(p, '=');
    hide Depth;
    assert forall i :: 0 <= i < |p| ==> (EqualsAt(p, i) <==> p[i] == '=' && Depth(STUB, p[..i]) == 0);
    if ColonFirst(p) {
      var c :| 0 <= c < e && p[..e][c] == ':';
      assert p[c] == ':';
    }
    if exists c :: 0 <= c < |p| && p[c] == ':' && forall k :: 0 <= k < c ==> p[k] != '=' {
      var c :| 0 <= c < |p| && p[c] == ':' && forall k :: 0 <= k < c ==> p[k] != '=';
      assert c < e;
      assert p[..e][c] == ':';
    }
  }
}
