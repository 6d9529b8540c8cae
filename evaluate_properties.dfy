/** What `evaluateString` promises about each kind of template, proved for all
    contexts and all script runners. */
module EvaluateProperties {
  import opened Text
  import opened Values
  import opened Evaluate
  import FileUpload

  /** A segment of reference characters: it holds neither a dot nor a `$`. */
  predicate IsSegment(s: string)
  {
    |s| > 0 && forall k :: 0 <= k < |s| ==> IsRefChar(s[k])
  }

  /** A segment with no index part, looked up by name. */
  predicate IsPlainSegment(s: string)
  {
    IsSegment(s) && !Contains(s, '[')
  }

  lemma SegmentHasNo(s: string, c: char)
    requires IsSegment(s) && !IsRefChar(c)
    ensures !Contains(s, c)
  {
  }

  lemma SplitTwo(a: string, b: string, sep: char)
    requires !Contains(a, sep) && !Contains(b, sep)
    ensures Split(a + [sep] + b, sep) == [a, b]
  {
    assert Join([a, b], sep) == a + [sep] + Join([b], sep);
    SplitJoin([a, b], sep);
  }

  /** A reference standing alone between texts free of `$` is the only match found. */
  lemma ReferenceScan(pre: string, r: string, post: string)
    requires IsReference(r)
    requires !Contains(pre, '$') && !Contains(post, '$')
    requires Stop(post, 0)
    ensures References(pre + r + post) == [r]
  {
    var t := pre + r + post;
    var p := |pre|;
    var e := |pre| + |r|;
    assert forall k :: 0 <= k < p ==> t[k] == pre[k];
    ReferencesSkip(t, 0, p);
    assert t[p] == '$';
    assert RefBody(t, p + 1, e) by {
      forall k: nat | p + 1 <= k < e ensures AcceptedAt(t, k, e) {
        assert AcceptedAt(r, k - p, |r|);
        assert t[k] == r[k - p];
        if k + 1 < e { assert t[k + 1] == r[k - p + 1]; }
      }
    }
    assert Stop(t, e) by {
      if e < |t| {
        assert t[e] == post[0];
        if e + 1 < |t| { assert t[e + 1] == post[1]; }
      }
    }
    ScanEndUnique(t, p + 1, e);
    assert t[p..e] == r;
    assert forall k :: e <= k < |t| ==> t[k] == post[k - e];
    ReferencesSkip(t, e, |t|);
  }

  // ---------------------------------------------------------------------------
  // Script escapes

  /** The empty template is the empty string, whatever the context and the runner. */
  lemma EmptyTemplate(ctx: Row, run: ScriptRunner)
    ensures Eval("", ctx, run) == Ok(Str(""))
  {
  }

  /** A leading `!` hands the rest of the template to the script runner. */
  lemma BangRunsRemainder(code: string, ctx: Row, run: ScriptRunner)
    ensures Eval("!" + code, ctx, run) == RunScript(run, code, "!" + code, ctx)
  {
    assert ("!" + code)[1..] == code;
  }

  /** A `{{…}}` template hands its inner text to the script runner. */
  lemma BracesRunInnerText(code: string, ctx: Row, run: ScriptRunner)
    ensures Eval("{{" + code + "}}", ctx, run) == RunScript(run, code, "{{" + code + "}}", ctx)
  {
    var t := "{{" + code + "}}";
    assert HasPrefix(t, "{{") by { assert t[..2] == "{{"; }
    assert FileUpload.EndsWithCheck(t, "}}") by { assert t[|t| - 2..] == "}}"; }
    assert t[2..|t| - 2] == code;
  }

  /** A `js:` template hands the runner everything after its first character,
      so the script text starts with `s:`. */
  lemma JsPrefixRunsFromSecondCharacter(code: string, ctx: Row, run: ScriptRunner)
    requires |code| >= 1
    ensures Eval("js:" + code, ctx, run) == RunScript(run, "s:" + code, "js:" + code, ctx)
  {
    var t := "js:" + code;
    assert t[..3] == "js:";
    assert !HasPrefix(t, "{{") by { assert t[0] == 'j'; }
    assert t[1..] == "s:" + code;
  }

  /** Templates that are not script escapes never consult the runner. */
  lemma NonScriptIgnoresRunner(t: string, ctx: Row, run1: ScriptRunner, run2: ScriptRunner)
    requires !IsScript(t)
    ensures Eval(t, ctx, run1) == Eval(t, ctx, run2)
  {
  }

  // ---------------------------------------------------------------------------
  // `~` lookups

  lemma EvalAsTilde(t: string, ctx: Row, run: ScriptRunner)
    requires |t| >= 1 && t[0] == '~'
    ensures Eval(t, ctx, run) == Tilde(t, ctx)
  {
    assert !HasPrefix(t, "{{") by { assert |t| < 2 || t[..2][0] == '~'; }
    assert |t| > 3 ==> t[..3] != "js:" by { assert |t| > 3 ==> t[..3][0] == '~'; }
  }

  /** The `~` lookup over two segments, the first already named. */
  lemma TildeOverTwo(t: string, a: string, b: string, ctx: Row)
    requires |t| >= 1 && PathSegments(t[1..]) == [a, b]
    ensures Tilde(t, ctx) ==
      match Lookup(ctx, a)
      case Null => Ok(Null)
      case Map(m) => Ok(Lookup(m, b))
      case _ => Err(Panic(NotAMapPanic))
  {
    var segs := PathSegments(t[1..]);
    assert segs[..|segs| - 1] == [a];
    assert TildeWalk(Map(ctx), [a]) == TildeWalk(Lookup(ctx, a), []);
  }

  /** `~name` is the context's entry `name`, nil when absent. */
  lemma TildeTopLevel(a: string, ctx: Row, run: ScriptRunner)
    requires a != "" && !Contains(a, '.')
    ensures Eval("~" + a, ctx, run) == Ok(Lookup(ctx, a))
  {
    var t := "~" + a;
    EvalAsTilde(t, ctx, run);
    assert t[1..] == a;
    SplitWithoutSeparator(a, '.');
    assert PathSegments(t[1..]) == [a];
  }

  /** `~a.b` reads `b` from the map at `a`; a nil `a` gives nil, any other non-map panics. */
  lemma TildeTwoSegments(a: string, b: string, ctx: Row, run: ScriptRunner)
    requires a != "" && !Contains(a, '.') && !Contains(b, '.')
    ensures Eval("~" + a + "." + b, ctx, run) ==
      match Lookup(ctx, a)
      case Null => Ok(Null)
      case Map(m) => Ok(Lookup(m, b))
      case _ => Err(Panic(NotAMapPanic))
  {
    var t := "~" + a + "." + b;
    EvalAsTilde(t, ctx, run);
    assert t[1..] == a + ['.'] + b;
    SplitTwo(a, b, '.');
    TildeOverTwo(t, a, b, ctx);
  }

  /** An empty first segment names the `subject` entry: `~.b` reads `b` from the subject. */
  lemma TildeSubject(b: string, ctx: Row, run: ScriptRunner)
    requires !Contains(b, '.')
    ensures Eval("~." + b, ctx, run) ==
      match Lookup(ctx, "subject")
      case Null => Ok(Null)
      case Map(m) => Ok(Lookup(m, b))
      case _ => Err(Panic(NotAMapPanic))
  {
    var t := "~." + b;
    EvalAsTilde(t, ctx, run);
    assert t[1..] == "" + ['.'] + b;
    SplitTwo("", b, '.');
    assert Split(t[1..], '.')[0 := "subject"] == ["subject", b];
    TildeOverTwo(t, "subject", b, ctx);
  }

  // ---------------------------------------------------------------------------
  // `$` substitution

  /** Every `$` starts exactly one match, and every match has the shape the pattern describes. */
  lemma ReferencesShape(t: string)
    ensures |References(t)| == Dollars(t)
    ensures forall j :: 0 <= j < |References(t)| ==> IsReference(References(t)[j])
  {
    ReferencesCountDollars(t, 0);
    assert t[0..] == t;
  }

  lemma {:induction false} NoDollarSign(s: string)
    requires !Contains(s, '$')
    ensures Dollars(s) == 0
  {
    if |s| > 0 {
      assert s[0] != '$';
      assert !Contains(s[1..], '$') by {
        forall i | 0 <= i < |s[1..]| ensures s[1..][i] != '$' { assert s[1..][i] == s[i + 1]; }
      }
      NoDollarSign(s[1..]);
    }
  }

  /** Text with no `$` (and no escape) evaluates to itself. */
  lemma LiteralTextIsKept(t: string, ctx: Row, run: ScriptRunner)
    requires t != "" && !IsScript(t) && t[0] != '~'
    requires !Contains(t, '$')
    ensures Eval(t, ctx, run) == Ok(Str(t))
  {
    ReferencesShape(t);
    NoDollarSign(t);
  }

  lemma EvalAsSubstitution(t: string, ctx: Row, run: ScriptRunner)
    requires t != "" && !IsScript(t) && t[0] != '~'
    ensures Eval(t, ctx, run) == SubstituteAll(t, References(t), ctx)
  {
  }

  /** Substituting a single match. */
  lemma SubstituteSingle(t: string, r: string, ctx: Row)
    requires IsReference(r)
    ensures var res := ResolveReference(t, r, ctx);
      SubstituteAll(t, [r], ctx) ==
        if res.Err? then Err(res.error)
        else if res.value.None? then Ok(Null)
        else Ok(Str(ReplaceAll(t, r, Format(res.value.value))))
  {
    assert [r][1..] == [];
  }

  /** `$` followed by segments joined by dots is a match of the pattern. */
  lemma JoinedSegmentsAreReference(a: string, b: string)
    requires IsSegment(a) && IsSegment(b)
    ensures IsReference("$" + a) && IsReference("$" + a + "." + b)
  {
    var r1 := "$" + a;
    forall k: nat | 1 <= k < |r1| ensures AcceptedAt(r1, k, |r1|) { assert r1[k] == a[k - 1]; }
    var r := "$" + a + "." + b;
    forall k: nat | 1 <= k < |r| ensures AcceptedAt(r, k, |r|) {
      if k <= |a| { assert r[k] == a[k - 1]; }
      else if k == |a| + 1 { assert r[k + 1] == b[0]; }
      else { assert r[k] == b[k - |a| - 2]; }
    }
  }

  /** A one-segment reference names a top-level entry. */
  lemma ResolveTopLevel(t: string, a: string, ctx: Row)
    requires IsSegment(a)
    ensures ResolveReference(t, "$" + a, ctx) == Ok(Some(Lookup(ctx, a)))
  {
    assert ("$" + a)[1..] == a;
    SegmentHasNo(a, '.');
    SplitWithoutSeparator(a, '.');
    assert PathSegments(a) == [a];
  }

  /** A two-segment reference whose first segment has no index part. */
  lemma ResolveNested(t: string, a: string, b: string, ctx: Row)
    requires IsPlainSegment(a) && IsSegment(b)
    ensures ResolveReference(t, "$" + a + "." + b, ctx) ==
      if a !in ctx then Err(UnresolvedPath(t))
      else if ctx[a] == Null then Ok(None)
      else if ctx[a].Map? then Ok(Some(Lookup(ctx[a].m, b)))
      else Err(NotAnObject(t))
  {
    var r := "$" + a + "." + b;
    assert r[1..] == a + ['.'] + b;
    SegmentHasNo(a, '.');
    SegmentHasNo(b, '.');
    SplitTwo(a, b, '.');
    var segs := PathSegments(r[1..]);
    assert segs == [a, b];
    assert segs[..1] == [a];
    SplitWithoutSeparator(a, '[');
    assert DollarWalk(t, Map(ctx), [a]) == (if a in ctx then DollarWalk(t, ctx[a], []) else Err(UnresolvedPath(t)));
  }

  /** `$name` inside other text is replaced by the `%v` text of the context's entry `name`. */
  lemma TopLevelReferenceIsReplaced(pre: string, a: string, post: string, ctx: Row, run: ScriptRunner)
    requires IsSegment(a)
    requires !Contains(pre, '$') && !Contains(post, '$') && Stop(post, 0)
    requires !IsScript(pre + "$" + a + post) && (pre + "$" + a + post)[0] != '~'
    ensures Eval(pre + "$" + a + post, ctx, run) == Ok(Str(pre + Format(Lookup(ctx, a)) + post))
  {
    var r := "$" + a;
    var t := pre + "$" + a + post;
    assert t == pre + r + post;
    JoinedSegmentsAreReference(a, a);
    ReferenceScan(pre, r, post);
    EvalAsSubstitution(t, ctx, run);
    SubstituteSingle(t, r, ctx);
    ResolveTopLevel(t, a, ctx);
    ReplaceSingle(pre, r, post, Format(Lookup(ctx, a)));
  }

  /** `$a.b` inside other text: a missing `a` fails, a nil `a` makes the whole
      template nil, a map at `a` has `b`'s `%v` text substituted, anything else fails. */
  lemma NestedReferenceIsReplaced(pre: string, a: string, b: string, post: string, ctx: Row, run: ScriptRunner)
    requires IsPlainSegment(a) && IsSegment(b)
    requires !Contains(pre, '$') && !Contains(post, '$') && Stop(post, 0)
    requires !IsScript(pre + "$" + a + "." + b + post) && (pre + "$" + a + "." + b + post)[0] != '~'
    ensures var t := pre + "$" + a + "." + b + post;
      Eval(t, ctx, run) ==
        if a !in ctx then Err(UnresolvedPath(t))
        else if ctx[a] == Null then Ok(Null)
        else if ctx[a].Map? then Ok(Str(pre + Format(Lookup(ctx[a].m, b)) + post))
        else Err(NotAnObject(t))
  {
    var r := "$" + a + "." + b;
    var t := pre + "$" + a + "." + b + post;
    assert t == pre + r + post;
    JoinedSegmentsAreReference(a, b);
    ReferenceScan(pre, r, post);
    EvalAsSubstitution(t, ctx, run);
    SubstituteSingle(t, r, ctx);
    ResolveNested(t, a, b, ctx);
    if a in ctx && ctx[a].Map? {
      ReplaceSingle(pre, r, post, Format(Lookup(ctx[a].m, b)));
    }
  }

  /** The first segment `a[n]` carries the index `n`. */
  lemma IndexedSegment(a: string, n: nat)
    requires IsPlainSegment(a) && n <= MaxInt64
    ensures IsSegment(a + "[" + NatToString(n) + "]")
    ensures Split(a + "[" + NatToString(n) + "]", '[') == [a, NatToString(n) + "]"]
    ensures SegmentIndex(a + "[" + NatToString(n) + "]") == Some(n)
  {
    var d := NatToString(n);
    var s0 := a + "[" + d + "]";
    forall k | 0 <= k < |s0| ensures IsRefChar(s0[k]) {
      if k < |a| { assert s0[k] == a[k]; }
      else if |a| < k < |a| + 1 + |d| { assert s0[k] == d[k - |a| - 1]; }
    }
    assert !Contains(d + "]", '[') by {
      forall i | 0 <= i < |d + "]"| ensures (d + "]")[i] != '[' {
        if i < |d| { assert (d + "]")[i] == d[i]; }
      }
    }
    assert s0 == a + ['['] + (d + "]");
    SplitTwo(a, d + "]", '[');
    assert d + "]" == d + [']'] + "";
    SplitTwo(d, "", ']');
    ParseFormattedNat(n);
  }

  /** Resolving `$a[n].b`. */
  lemma ResolveIndexed(t: string, a: string, n: nat, b: string, ctx: Row)
    requires IsPlainSegment(a) && IsSegment(b) && n <= MaxInt64
    ensures var rows := RowsOf(Lookup(ctx, a));
      ResolveReference(t, "$" + (a + "[" + NatToString(n) + "]") + "." + b, ctx) ==
        if rows.Err? then Err(rows.error)
        else if n >= |rows.value| then Err(IndexOutOfRange(t, n, |rows.value|))
        else Ok(Some(Lookup(rows.value[n], b)))
  {
    var s0 := a + "[" + NatToString(n) + "]";
    IndexedSegment(a, n);
    var r := "$" + s0 + "." + b;
    assert r[1..] == s0 + ['.'] + b;
    SegmentHasNo(s0, '.');
    SegmentHasNo(b, '.');
    SplitTwo(s0, b, '.');
    var segs := PathSegments(r[1..]);
    assert segs == [s0, b];
    assert segs[..1] == [s0];
    assert DollarWalk(t, Map(ctx), [s0]) == DollarStep(t, Map(ctx), s0);
  }

  lemma ReferenceIsNoScript(r: string)
    requires IsReference(r)
    ensures r != "" && !IsScript(r) && r[0] != '~'
  {
    assert r[0] == '$';
    assert !HasPrefix(r, "{{") by { assert |r| < 2 || r[..2][0] == '$'; }
    assert |r| > 3 ==> r[..3] != "js:" by { assert |r| > 3 ==> r[..3][0] == '$'; }
  }

  /** A template that is one whole reference evaluates to the `%v` text of what it names. */
  lemma ReferenceAlone(r: string, ctx: Row, run: ScriptRunner)
    requires IsReference(r)
    ensures var res := ResolveReference(r, r, ctx);
      Eval(r, ctx, run) ==
        if res.Err? then Err(res.error)
        else if res.value.None? then Ok(Null)
        else Ok(Str(Format(res.value.value)))
  {
    ReferenceIsNoScript(r);
    EvalAsSubstitution(r, ctx, run);
    assert "" + r + "" == r;
    ReferenceScan("", r, "");
    SubstituteSingle(r, r, ctx);
    var res := ResolveReference(r, r, ctx);
    if res.Ok? && res.value.Some? {
      ReplaceWhole(r, Format(res.value.value));
    }
  }

  /** `$a[n].b`: the `n`-th row of the list at `a` (every element must be a map;
      a value that is not a list has no rows), with an index past the end failing. */
  lemma IndexedReference(a: string, n: nat, b: string, ctx: Row, run: ScriptRunner)
    requires IsPlainSegment(a) && IsSegment(b)
    requires n <= MaxInt64
    ensures var t := "$" + a + "[" + NatToString(n) + "]." + b;
      var rows := RowsOf(Lookup(ctx, a));
      Eval(t, ctx, run) ==
        if rows.Err? then Err(rows.error)
        else if n >= |rows.value| then Err(IndexOutOfRange(t, n, |rows.value|))
        else Ok(Str(Format(Lookup(rows.value[n], b))))
  {
    var s0 := a + "[" + NatToString(n) + "]";
    var r := "$" + s0 + "." + b;
    assert "$" + a + "[" + NatToString(n) + "]." + b == r;
    IndexedSegment(a, n);
    JoinedSegmentsAreReference(s0, b);
    ReferenceAlone(r, ctx, run);
    ResolveIndexed(r, a, n, b, ctx);
  }

  /** `$a[n].b` where `a` holds a `[]string` (a multi-valued form field or
      query parameter): it is not a `[]interface{}`, so it has no rows and
      every index is out of range. */
  lemma IndexedStrings(a: string, n: nat, b: string, ctx: Row, run: ScriptRunner)
    requires IsPlainSegment(a) && IsSegment(b)
    requires n <= MaxInt64
    requires Lookup(ctx, a).Strings?
    ensures var t := "$" + a + "[" + NatToString(n) + "]." + b;
      Eval(t, ctx, run) == Err(IndexOutOfRange(t, n, 0))
  {
    IndexedReference(a, n, b, ctx, run);
  }
}
