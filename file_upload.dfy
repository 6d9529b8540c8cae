/** The string logic of the cloud-store file upload action: suffix checks, the
    data-URL split of each attached file and the join of the upload target path.
    The temporary directory, base64 decoding, unzip and the rclone copy are not
    part of this model. */
module FileUpload {
  import opened Text
  import opened Values

  /** Whether the bytes `t` end the bytes `s`. */
  predicate EndsIn(s: seq<Byte>, t: seq<Byte>)
  {
    |t| <= |s| && s[|s| - |t|..] == t
  }

  /** `EndsWithCheck(s, t)`: written with explicit length guards, it is exactly
      `strings.HasSuffix`. Its callers pass text, on which Go's test of bytes
      and this test of characters agree (`EndsWithAgrees`). */
  function EndsWithCheck(s: string, t: string): (b: bool)
    ensures b <==> HasSuffix(s, t)
    ensures |t| > |s| ==> !b
    ensures |t| == 0 ==> b
  {
    if |t| > |s| then false
    else if |t| == |s| && t != s then false
    else s[|s| - |t|..] == t
  }

  /** `EndsWith(s, t)` on the bytes of Go's strings: the bytes before the last
      `|t|` bytes, and whether `t` is a suffix. When it is not, the prefix may
      end inside a character; Go returns those bytes all the same. */
  function EndsWith(s: seq<Byte>, t: seq<Byte>): (r: (seq<Byte>, bool))
    ensures r.1 <==> EndsIn(s, t)
    ensures r.1 ==> r.0 + t == s
    ensures |t| > |s| || (|t| == |s| && t != s) ==> r == ([], false)
    ensures |t| < |s| ==> r.0 == s[..|s| - |t|]
  {
    if |t| > |s| then ([], false)
    else if |t| == |s| && t != s then ([], false)
    else (s[..|s| - |t|], s[|s| - |t|..] == t)
  }

  /** The prefix `EndsWith` returns is the unique byte string that completes `t` to `s`. */
  lemma EndsWithPrefixUnique(s: seq<Byte>, t: seq<Byte>, p: seq<Byte>)
    requires p + t == s
    ensures EndsWith(s, t) == (p, true)
  {
    assert s[|s| - |t|..] == t;
    assert s[..|s| - |t|] == p;
  }

  /** On strings the byte test is the character test: the bytes of `p + t` end in those of `t`. */
  lemma EndsWithOnText(p: string, t: string)
    ensures EndsWith(Utf8(p + t), Utf8(t)) == (Utf8(p), true)
  {
    Utf8Append(p, t);
    EndsWithPrefixUnique(Utf8(p + t), Utf8(t), Utf8(p));
  }

  /** A character never ends with the encoding of another: a shorter
      encoding would have to start at a continuation byte. */
  lemma CharSuffix(c: char, pre: seq<Byte>, d: char)
    requires EndsIn(pre + Utf8Char(d), Utf8Char(c))
    ensures c == d
  {
    var x, y := Utf8Char(c), Utf8Char(d);
    var u := pre + y;
    Utf8CharBytes(c);
    Utf8CharBytes(d);
    if |x| < |y| {
      assert false;
    } else if |x| > |y| {
      assert false;
    } else {
      assert x == u[|u| - |y|..] == y;
      Utf8CharInjective(c, d);
    }
  }

  /** A suffix of `a + x` at least as long as `y` ends in `y` when `b + y` does. */
  lemma EndsInLast(ax: seq<Byte>, b: seq<Byte>, y: seq<Byte>)
    requires EndsIn(ax, b + y)
    ensures EndsIn(ax, y)
  {
    assert ax[|ax| - |y|..] == (b + y)[|b|..];
  }

  /** A common tail can be dropped from a suffix test. */
  lemma EndsInDropTail(a: seq<Byte>, b: seq<Byte>, x: seq<Byte>)
    requires EndsIn(a + x, b + x)
    ensures EndsIn(a, b)
  {
    assert a == (a + x)[..|a|];
    assert b == (b + x)[..|b|];
    assert a[|a| - |b|..] == (a + x)[|a| - |b|..|a|];
  }

  /** A suffix whose last character is also the string's last character
      extends the suffix of the rest. */
  lemma HasSuffixAppend(s: string, t: string)
    requires |s| > 0 && |t| > 0 && s[|s| - 1] == t[|t| - 1]
    requires HasSuffix(s[..|s| - 1], t[..|t| - 1])
    ensures HasSuffix(s, t)
  {
    var s', t' := s[..|s| - 1], t[..|t| - 1];
    assert s == s' + [s[|s| - 1]] && t == t' + [t[|t| - 1]];
    assert s[|s| - |t|..] == s'[|s'| - |t'|..] + [s[|s| - 1]];
  }

  /** The bytes of a non-empty string end with those of its last character. */
  lemma Utf8Last(s: string)
    requires |s| > 0
    ensures Utf8(s) == Utf8(s[..|s| - 1]) + Utf8Char(s[|s| - 1])
  {
  }

  /** Conversely, a byte suffix of text is a character suffix: UTF-8 lets no
      character's encoding end inside another's. */
  lemma {:induction false} ByteSuffixOfText(s: string, t: string)
    requires EndsIn(Utf8(s), Utf8(t))
    ensures HasSuffix(s, t)
    decreases |t|
  {
    if |t| > 0 {
      Utf8Last(t);
      assert |s| > 0 by { assert Utf8(s) != []; }
      Utf8Last(s);
      var s', t' := s[..|s| - 1], t[..|t| - 1];
      var d, c := s[|s| - 1], t[|t| - 1];
      EndsInLast(Utf8(s), Utf8(t'), Utf8Char(c));
      CharSuffix(c, Utf8(s'), d);
      EndsInDropTail(Utf8(s'), Utf8(t'), Utf8Char(c));
      ByteSuffixOfText(s', t');
      HasSuffixAppend(s, t);
    }
  }

  /** On text, Go's byte test `EndsWith` and the character test
      `EndsWithCheck` always give the same answer. */
  lemma EndsWithAgrees(s: string, t: string)
    ensures EndsWith(Utf8(s), Utf8(t)).1 == EndsWithCheck(s, t)
  {
    if HasSuffix(s, t) {
      var p := s[..|s| - |t|];
      assert p + t == s;
      EndsWithOnText(p, t);
    } else if EndsIn(Utf8(s), Utf8(t)) {
      ByteSuffixOfText(s, t);
    }
  }

  lemma {:induction false} SplitOnPresentSeparator(s: string, sep: char)
    requires Contains(s, sep)
    ensures |Split(s, sep)| >= 2
  {
    var k := IndexOf(s, sep);
    var i :| 0 <= i < |s| && s[i] == sep;
    assert k <= i;
  }

  /** The encoded part of a file's contents: the whole string when it holds no
      comma, otherwise the second comma-separated piece (the text after a
      `data:<type>;base64,` header). */
  method EncodedPart(contents: string) returns (encoded: string)
    ensures !Contains(contents, ',') ==> encoded == contents
    ensures Contains(contents, ',') ==> encoded == Split(contents, ',')[1]
    ensures !Contains(encoded, ',')
  {
    var splitParts := Split(contents, ',');
    SplitPiecesHaveNoSeparator(contents, ',');
    encoded := splitParts[0];
    if |splitParts| > 1 {
      encoded := splitParts[1];
    }
    if !Contains(contents, ',') {
      SplitWithoutSeparator(contents, ',');
    } else {
      SplitOnPresentSeparator(contents, ',');
    }
  }

  /** The upload target: `rootPath` with `atPath` appended, inserting one `/`
      only when neither side supplies it. */
  method UploadTarget(rootPath: string, atPath: string) returns (target: string)
    ensures atPath == "" ==> target == rootPath
    ensures atPath != "" && (EndsWithCheck(rootPath, "/") || atPath[0] == '/') ==> target == rootPath + atPath
    ensures atPath != "" && !EndsWithCheck(rootPath, "/") && atPath[0] != '/' ==> target == rootPath + "/" + atPath
    ensures HasPrefix(target, rootPath) && HasSuffix(target, atPath)
  {
    target := rootPath;
    if atPath != "" {
      if !EndsWithCheck(target, "/") && |atPath| > 0 && atPath[0] != '/' {
        target := target + "/";
      }
      target := target + atPath;
    }
    assert target[..|rootPath|] == rootPath;
    assert target[|target| - |atPath|..] == atPath;
  }

  /** A file the upload will write into its temporary directory. */
  datatype PlannedFile = PlannedFile(name: string, encoded: string, unzip: bool)

  datatype UploadPlan = UploadPlan(files: seq<PlannedFile>, target: string)

  /** The contents string of one attached file: `file`, else `contents`, when a string. */
  function FileContents(file: Row): (c: Option<string>)
    ensures c.Some? <==> Lookup(file, "file").Str? || Lookup(file, "contents").Str?
  {
    if Lookup(file, "file").Str? then Some(file["file"].s)
    else if Lookup(file, "contents").Str? then Some(file["contents"].s)
    else None
  }

  function EncodedPartOf(contents: string): string
  {
    var parts := Split(contents, ',');
    if |parts| > 1 then parts[1] else parts[0]
  }

  /** The files the loop writes, in order: a non-map entry panics; entries
      without a string name or without string contents are skipped. */
  function PlanFiles(files: seq<Value>): (r: Result<seq<PlannedFile>>)
    ensures r.Ok? ==> |r.value| <= |files|
    ensures r.Ok? <==> forall j :: 0 <= j < |files| ==> files[j].Map?
    ensures r.Err? ==> r.error == Panic("file attachment is not an object")
  {
    if |files| == 0 then Ok([])
    else
      var init := PlanFiles(files[..|files| - 1]);
      var last := files[|files| - 1];
      if init.Err? then init
      else if !last.Map? then Err(Panic("file attachment is not an object"))
      else if !Lookup(last.m, "name").Str? then init
      else
        var contents := FileContents(last.m);
        if contents.None? then init
        else
          var name := last.m["name"].s;
          Ok(init.value + [PlannedFile(name, EncodedPartOf(contents.value), EndsWithCheck(name, ".zip"))])
  }

  /** The upload action's file loop and the join of its target path. */
  function UploadPlanOf(inFields: Row): Result<UploadPlan>
  {
    if !Lookup(inFields, "file").List? then Err(ImproperFileAttachment)
    else
      match PlanFiles(inFields["file"].items)
      case Err(e) => Err(e)
      case Ok(planned) =>
        if !Lookup(inFields, "root_path").Str? then Err(Panic("root_path is not a string"))
        else
          var root := inFields["root_path"].s;
          var at := if Lookup(inFields, "path").Str? then inFields["path"].s else "";
          Ok(UploadPlan(planned, if at == "" then root
                                 else if !EndsWithCheck(root, "/") && at[0] != '/' then root + "/" + at
                                 else root + at))
  }

  /** The file loop and the path join of the upload action, step by step. */
  method PlanUpload(inFields: Row) returns (r: Result<UploadPlan>)
    ensures r == UploadPlanOf(inFields)
    ensures Lookup(inFields, "file").List? ==> r != Err(ImproperFileAttachment)
  {
    var atPath := if Lookup(inFields, "path").Str? then inFields["path"].s else "";
    if !Lookup(inFields, "file").List? {
      return Err(ImproperFileAttachment);
    }
    var files := inFields["file"].items;
    var planned: seq<PlannedFile> := [];
    for i := 0 to |files|
      invariant PlanFiles(files[..i]) == Ok(planned)
    {
      assert files[..i + 1][..i] == files[..i];
      if !files[i].Map? {
        assert !PlanFiles(files[..i + 1]).Ok?;
        PlanFilesPrefix(files, i + 1);
        return Err(Panic("file attachment is not an object"));
      }
      var file := files[i].m;
      if !Lookup(file, "name").Str? {
        continue;
      }
      var contents := FileContents(file);
      if contents.None? {
        continue;
      }
      var encodedPart := EncodedPart(contents.value);
      planned := planned + [PlannedFile(file["name"].s, encodedPart, EndsWithCheck(file["name"].s, ".zip"))];
    }
    assert files[..|files|] == files;
    if !Lookup(inFields, "root_path").Str? {
      return Err(Panic("root_path is not a string"));
    }
    var target := UploadTarget(inFields["root_path"].s, atPath);
    r := Ok(UploadPlan(planned, target));
  }

  /** A panic on an early attachment is a panic of the whole loop. */
  lemma PlanFilesPrefix(files: seq<Value>, n: nat)
    requires n <= |files|
    requires PlanFiles(files[..n]).Err?
    ensures PlanFiles(files).Err?
  {
    var j :| 0 <= j < n && !files[..n][j].Map?;
    assert files[j] == files[..n][j];
  }

  /** With every attachment a map carrying a string name and string contents,
      every file is written, in order, under its own name. */
  lemma {:induction false} PlanFilesKeepsEveryWellFormedFile(files: seq<Value>)
    requires forall j :: 0 <= j < |files| ==>
      files[j].Map? && Lookup(files[j].m, "name").Str? && FileContents(files[j].m).Some?
    ensures PlanFiles(files).Ok?
    ensures |PlanFiles(files).value| == |files|
    ensures forall j :: 0 <= j < |files| ==> PlanFiles(files).value[j].name == Lookup(files[j].m, "name").s
  {
    if |files| > 0 {
      var init := files[..|files| - 1];
      PlanFilesKeepsEveryWellFormedFile(init);
      var planned := PlanFiles(init).value;
      forall j | 0 <= j < |files| ensures PlanFiles(files).value[j].name == Lookup(files[j].m, "name").s {
        if j < |files| - 1 {
          assert PlanFiles(files).value[j] == planned[j];
          assert init[j] == files[j];
        }
      }
    }
  }
}
