// schema/v1/short_reference.go: short step references as a string language.
module ShortReferences {
  import opened Prelude
  import opened GoStrings
  import opened Proto
  import opened Templates

  const DIST_PREFIX := "dist://"
  const SEPARATOR := "/-/"

  // The regular expression \${{.*}}, whose dot does not cross a line.
  predicate ContainsExpression(s: string) {
    exists i, j :: 0 <= i && i + |OPEN| <= j <= |s| && OPEN <= s[i..] && CLOSE <= s[j..] && '\n' !in s[i + |OPEN|..j]
  }

  function NonEmpty(path: seq<string>): seq<string> {
    if path == [] then []
    else if path[0] == "" then NonEmpty(path[1..]) else [path[0]] + NonEmpty(path[1..])
  }

  // What pathFilename computes: a last segment that ends in .yml is the file name, an absolute path
  // starts with "/", and empty segments are dropped.
  function PathOf(allowAbsolute: bool, pathStr: string): (seq<string>, string) {
    if pathStr == "" then ([], "step.yml")
    else
      var parts := Split(pathStr, '/');
      var last := parts[|parts| - 1];
      var named := HasSuffix(last, ".yml");
      var dirs := if named then parts[..|parts| - 1] else parts;
      var rooted := if allowAbsolute && dirs != [] && HasPrefix(pathStr, "/") then dirs[0 := "/"] else dirs;
      (NonEmpty(rooted), if named then last else "step.yml")
  }

  method DeleteEmpty(path: seq<string>) returns (r: seq<string>)
    ensures r == NonEmpty(path)
  {
    r := [];
    for i := 0 to |path|
      invariant r + NonEmpty(path[i..]) == NonEmpty(path)
    {
      TailFrom(path, i);
      if path[i] != "" {
        assert r + NonEmpty(path[i..]) == r + [path[i]] + NonEmpty(path[i + 1..]);
        r := r + [path[i]];
      }
    }
    assert path[|path|..] == [];
  }

  method PathFilename(allowAbsolute: bool, pathStr: string) returns (path: seq<string>, filename: string)
    ensures (path, filename) == PathOf(allowAbsolute, pathStr)
  {
    filename := "step.yml";
    if pathStr == "" {
      return [], filename;
    }
    path := Split(pathStr, '/');
    var lastItemIndex := |path| - 1;
    if HasSuffix(path[lastItemIndex], ".yml") {
      filename := path[lastItemIndex];
      path := path[..lastItemIndex];
    }
    if allowAbsolute && |path| > 0 && HasPrefix(pathStr, "/") {
      path := path[0 := "/"];
    }
    path := DeleteEmpty(path);
  }

  function DefaultHTTPS(url: string): string {
    if HasPrefix(url, "http://") || HasPrefix(url, "https://") then url else "https://" + url
  }

  function PathReference(protocol: Protocol, url: string, version: string, path: seq<string>, filename: string): Reference {
    Reference(protocol, url, version, path, filename, NoStepPath)
  }

  function CompileDist(sr: string): Reference
    requires HasPrefix(sr, DIST_PREFIX)
  {
    PathReference(Dist, "", "", Split(sr[|DIST_PREFIX|..], '/'), "step.yml")
  }

  function CompileLocal(sr: string): Reference {
    var (path, filename) := PathOf(true, sr);
    PathReference(Local, "", "", path, filename)
  }

  function RemoteOf(sr: string): Option<Reference> {
    var parts := Split(sr, '@');
    if |parts| < 2 then None
    else
      var cut := Cut(Join(parts[..|parts| - 1], "@"), SEPARATOR);
      var (path, filename) := PathOf(false, cut.after);
      Some(PathReference(Git, DefaultHTTPS(cut.before), parts[|parts| - 1], ["steps"] + path, filename))
  }

  method CompileRemote(sr: string) returns (r: Option<Reference>)
    ensures r == RemoteOf(sr)
  {
    var parts := Split(sr, '@');
    if |parts| < 2 {
      return None;
    }
    var rest := Join(parts[..|parts| - 1], "@");
    var rev := parts[|parts| - 1];
    var cut := Cut(rest, SEPARATOR);
    var url := cut.before;
    rest := cut.after;
    url := DefaultHTTPS(url);
    var path, filename := PathFilename(false, rest);
    path := ["steps"] + path;
    r := Some(PathReference(Git, url, rev, path, filename));
  }

  // The trimmed text decides between local and remote, the untrimmed text is compiled.
  function CompileShortRef(sr: string): Option<Reference> {
    var value := TrimSpace(sr);
    if ContainsExpression(sr) then Some(PathReference(Dynamic, sr, "", [], ""))
    else if HasPrefix(value, ".") || HasPrefix(value, "/") then Some(CompileLocal(sr))
    else if HasPrefix(sr, DIST_PREFIX) then Some(CompileDist(sr))
    else RemoteOf(sr)
  }

  // ---- Printing and parsing back ----

  predicate Contains(s: string, sub: string) {
    HasPrefix(s, sub) || (s != "" && Contains(s[1..], sub))
  }

  predicate GoodSegments(segments: seq<string>) {
    forall i :: 0 <= i < |segments| ==> segments[i] != "" && '/' !in segments[i]
  }

  predicate GoodFile(file: string) {
    '/' !in file && HasSuffix(file, ".yml")
  }

  function PrintPath(segments: seq<string>, file: string): string {
    Join(segments + [file], "/")
  }

  function PrintRemote(url: string, segments: seq<string>, file: string, rev: string): string {
    url + SEPARATOR + PrintPath(segments, file) + "@" + rev
  }

  lemma {:induction false} NothingEmpty(path: seq<string>)
    requires forall i :: 0 <= i < |path| ==> path[i] != ""
    ensures NonEmpty(path) == path
  {
    if path != [] {
      NothingEmpty(path[1..]);
      assert [path[0]] + path[1..] == path;
    }
  }

  lemma PrintedPathSplits(segments: seq<string>, file: string)
    requires GoodSegments(segments) && GoodFile(file)
    ensures PrintPath(segments, file) != ""
    ensures Split(PrintPath(segments, file), '/') == segments + [file]
  {
    SplitJoin(segments + [file], '/');
    assert Split("", '/') == [""];
    assert (segments + [file])[|segments|] == file && file != "";
  }

  lemma PathRoundTrip(segments: seq<string>, file: string)
    requires GoodSegments(segments) && GoodFile(file)
    ensures PathOf(false, PrintPath(segments, file)) == (segments, file)
  {
    PrintedPathSplits(segments, file);
    assert (segments + [file])[..|segments|] == segments;
    NothingEmpty(segments);
  }

  // A separator at the very start either lies in the url or completes its last two characters.
  lemma SeparatorAtStart(url: string, rest: string)
    requires url != "" && SEPARATOR <= url + SEPARATOR + rest
    ensures Contains(url, SEPARATOR) || HasSuffix(url, "/-")
  {
    var s := url + SEPARATOR + rest;
    assert s[0] == SEPARATOR[0] == '/' && s[1] == SEPARATOR[1] == '-' && s[2] == SEPARATOR[2] == '/';
    assert s[|url|] == SEPARATOR[0];
    assert |url| == 2 ==> url == "/-";
    assert |url| >= 3 ==> SEPARATOR <= url;
  }

  lemma SuffixOfTail(s: string, suffix: string)
    requires s != "" && HasSuffix(s[1..], suffix)
    ensures HasSuffix(s, suffix)
  {
    assert s[|s| - |suffix|..] == s[1..][|s| - 1 - |suffix|..];
  }

  lemma {:induction false} CutFirst(url: string, rest: string)
    requires !Contains(url, SEPARATOR) && !HasSuffix(url, "/-")
    ensures Cut(url + SEPARATOR + rest, SEPARATOR) == CutResult(url, rest, true)
  {
    var s := url + SEPARATOR + rest;
    if url == "" {
      assert s == SEPARATOR + rest;
    } else {
      if SEPARATOR <= s {
        SeparatorAtStart(url, rest);
        assert false;
      }
      assert s[1..] == url[1..] + SEPARATOR + rest;
      if HasSuffix(url[1..], "/-") {
        SuffixOfTail(url, "/-");
        assert false;
      }
      CutFirst(url[1..], rest);
    }
  }

  lemma {:induction false} TrimRightKeepsHead(s: string)
    requires s != "" && !IsSpace(s[0])
    ensures TrimRight(s) != "" && TrimRight(s)[0] == s[0]
  {
    if IsSpace(s[|s| - 1]) {
      TrimRightKeepsHead(s[..|s| - 1]);
    }
  }

  // Text that neither trims nor looks like a local or a dist reference, nor holds an expression.
  predicate LooksRemote(sr: string) {
    && sr != "" && !IsSpace(sr[0]) && sr[0] != '.' && sr[0] != '/'
    && !HasPrefix(sr, DIST_PREFIX) && !ContainsExpression(sr)
  }

  lemma RemoteIsCompiled(sr: string)
    requires LooksRemote(sr)
    ensures CompileShortRef(sr) == RemoteOf(sr)
  {
    hide ContainsExpression, TrimSpace, IsSpace, RemoteOf;
    StaysTrimmed(sr);
    FirstChar(TrimSpace(sr));
  }

  lemma FirstChar(s: string)
    requires s != ""
    ensures (HasPrefix(s, ".") ==> s[0] == '.') && (HasPrefix(s, "/") ==> s[0] == '/')
  {
  }

  // Taking the text apart: what stands before the separator, after it, and after the at sign.
  lemma RemoteOfParts(url: string, path: string, rev: string)
    requires !Contains(url, SEPARATOR) && !HasSuffix(url, "/-") && '@' !in rev
    ensures RemoteOf(url + SEPARATOR + path + "@" + rev) == Some(
      var (dirs, file) := PathOf(false, path);
      PathReference(Git, DefaultHTTPS(url), rev, ["steps"] + dirs, file))
  {
    hide PathOf, Contains, Split, Join, Cut, DefaultHTTPS;
    var body := url + SEPARATOR + path;
    assert url + SEPARATOR + path + "@" + rev == body + ['@'] + rev;
    RemoteOfBody(body, rev);
    CutFirst(url, path);
  }

  lemma RemoteOfBody(body: string, rev: string)
    requires '@' !in rev
    ensures RemoteOf(body + ['@'] + rev) == Some(
      var cut := Cut(body, SEPARATOR);
      var (dirs, file) := PathOf(false, cut.after);
      PathReference(Git, DefaultHTTPS(cut.before), rev, ["steps"] + dirs, file))
  {
    hide PathOf, Split, Join, Cut, DefaultHTTPS;
    SplitAt(body, '@', rev);
    SplitPlain(rev, '@');
    JoinSplit(body, '@');
    var parts := Split(body + ['@'] + rev, '@');
    assert parts[..|parts| - 1] == Split(body, '@');
    assert ['@'] == "@";
  }

  // A url without a scheme is an https one.
  lemma SchemeOf(url: string)
    ensures DefaultHTTPS(url) ==
      if "http://" <= url || "https://" <= url then url else "https://" + url
  {
  }

  // Printing a remote reference and compiling it gives the parts back, with https as the scheme if
  // there was none.
  lemma RemoteRoundTrip(url: string, segments: seq<string>, file: string, rev: string)
    requires LooksRemote(PrintRemote(url, segments, file, rev))
    requires !Contains(url, SEPARATOR) && !HasSuffix(url, "/-")
    requires GoodSegments(segments) && GoodFile(file) && '@' !in rev
    ensures CompileShortRef(PrintRemote(url, segments, file, rev))
         == Some(PathReference(Git, if "http://" <= url || "https://" <= url then url else "https://" + url,
                               rev, ["steps"] + segments, file))
  {
    hide PathOf, PrintPath, ContainsExpression, Contains, RemoteOf, LooksRemote;
    RemoteIsCompiled(PrintRemote(url, segments, file, rev));
    RemoteOfParts(url, PrintPath(segments, file), rev);
    PathRoundTrip(segments, file);
    SchemeOf(url);
  }

  // Without a file name the step is step.yml, in the directory; without a path, in steps.
  lemma RemoteWithoutFile(url: string, segments: seq<string>, rev: string)
    requires segments != [] && GoodSegments(segments) && !HasSuffix(segments[|segments| - 1], ".yml") && '@' !in rev
    requires !Contains(url, SEPARATOR) && !HasSuffix(url, "/-")
    requires LooksRemote(url + SEPARATOR + Join(segments, "/") + "@" + rev)
    ensures CompileShortRef(url + SEPARATOR + Join(segments, "/") + "@" + rev)
         == Some(PathReference(Git, DefaultHTTPS(url), rev, ["steps"] + segments, "step.yml"))
  {
    hide ContainsExpression, Contains, RemoteOf, LooksRemote, DefaultHTTPS, Split, Join, NonEmpty;
    RemoteIsCompiled(url + SEPARATOR + Join(segments, "/") + "@" + rev);
    RemoteOfParts(url, Join(segments, "/"), rev);
    assert ['/'] == "/";
    SplitJoin(segments, '/');
    NothingEmpty(segments);
    JoinIsSomething(segments);
  }

  lemma JoinIsSomething(segments: seq<string>)
    requires segments != [] && GoodSegments(segments)
    ensures Join(segments, "/") != ""
  {
    hide Join;
    assert segments[0] != "";
    if Join(segments, "/") == "" {
      assert ['/'] == "/";
      SplitJoin(segments, '/');
      SplitFirst("", '/');
      assert false;
    }
  }

  lemma RemoteWithoutPath(url: string, rev: string)
    requires LooksRemote(url + "@" + rev) && !Contains(url, SEPARATOR) && '@' !in rev
    ensures CompileShortRef(url + "@" + rev) == Some(PathReference(Git, DefaultHTTPS(url), rev, ["steps"], "step.yml"))
  {
    hide ContainsExpression, Contains, RemoteOf, LooksRemote, DefaultHTTPS, Cut;
    RemoteIsCompiled(url + "@" + rev);
    assert url + "@" + rev == url + ['@'] + rev;
    RemoteOfBody(url, rev);
    CutParts(url, SEPARATOR);
    var cut := Cut(url, SEPARATOR);
    assert cut.before + "" == cut.before;
    assert cut.before == url && cut.after == "";
    var (dirs, file) := PathOf(false, cut.after);
    assert ["steps"] + dirs == ["steps"];
  }

  lemma StaysTrimmed(s: string)
    requires s != "" && !IsSpace(s[0])
    ensures TrimSpace(s) != "" && TrimSpace(s)[0] == s[0]
  {
    TrimRightKeepsHead(s);
  }

  // Likewise for absolute and for relative local references.
  lemma AbsoluteRoundTrip(segments: seq<string>, file: string)
    requires GoodSegments(segments) && GoodFile(file)
    requires !ContainsExpression("/" + PrintPath(segments, file))
    ensures CompileShortRef("/" + PrintPath(segments, file))
         == Some(PathReference(Local, "", "", ["/"] + segments, file))
  {
    hide ContainsExpression, Split, PrintPath, TrimSpace, NonEmpty;
    var printed := "/" + PrintPath(segments, file);
    StaysTrimmed(printed);
    PrintedPathSplits(segments, file);
    assert printed == "" + ['/'] + PrintPath(segments, file);
    SplitAt("", '/', PrintPath(segments, file));
    SplitFirst("", '/');
    var parts := Split(printed, '/');
    assert parts == [""] + segments + [file];
    assert parts[..|parts| - 1][0 := "/"] == ["/"] + segments;
    NothingEmpty(["/"] + segments);
  }

  lemma DistRoundTrip(segments: seq<string>)
    requires segments != [] && (forall i :: 0 <= i < |segments| ==> '/' !in segments[i])
    requires !ContainsExpression("dist://" + Join(segments, "/"))
    ensures CompileShortRef("dist://" + Join(segments, "/")) == Some(PathReference(Dist, "", "", segments, "step.yml"))
  {
    hide ContainsExpression, Split, Join, TrimSpace;
    var sr := "dist://" + Join(segments, "/");
    DistIsNotLocal(sr);
    assert ['/'] == "/" && sr[|DIST_PREFIX|..] == Join(segments, "/");
    SplitJoin(segments, '/');
  }

  lemma RelativeRoundTrip(segments: seq<string>, file: string)
    requires GoodSegments(segments) && GoodFile(file)
    requires segments != [] && segments[0][0] == '.'
    requires !ContainsExpression(PrintPath(segments, file))
    ensures CompileShortRef(PrintPath(segments, file)) == Some(PathReference(Local, "", "", segments, file))
  {
    hide ContainsExpression;
    var printed := PrintPath(segments, file);
    assert (segments + [file])[0] == segments[0];
    assert printed[0] == '.';
    TrimRightKeepsHead(printed);
    PathRoundTrip(segments, file);
  }

  // ---- Empty segments ----

  lemma {:induction false} NonEmptyHasNoEmpty(path: seq<string>)
    ensures "" !in NonEmpty(path)
  {
    if path != [] {
      NonEmptyHasNoEmpty(path[1..]);
    }
  }

  lemma PathHasNoEmpty(allowAbsolute: bool, pathStr: string)
    ensures "" !in PathOf(allowAbsolute, pathStr).0
  {
    if pathStr != "" {
      var parts := Split(pathStr, '/');
      var dirs := if HasSuffix(parts[|parts| - 1], ".yml") then parts[..|parts| - 1] else parts;
      NonEmptyHasNoEmpty(if allowAbsolute && dirs != [] && HasPrefix(pathStr, "/") then dirs[0 := "/"] else dirs);
    }
  }

  // Slashes that make an empty segment: at either end, or two in a row.
  predicate LooseSlash(s: string) {
    s == "" || s[0] == '/' || s[|s| - 1] == '/' || Contains(s, "//")
  }

  lemma ContainsAt(s: string, sub: string)
    ensures Contains(s, sub) <==> HasPrefix(s, sub) || (s != "" && Contains(s[1..], sub))
  {
  }

  lemma TwoSlashes(s: string)
    ensures HasPrefix(s, "//") <==> |s| >= 2 && s[0] == '/' && s[1] == '/'
  {
    if HasPrefix(s, "//") {
      assert s[0] == "//"[0] && s[1] == "//"[1];
    }
  }

  lemma {:induction false} SplitHasEmptyIff(s: string)
    ensures "" in Split(s, '/') <==> LooseSlash(s)
  {
    hide Split, Contains;
    SplitFirst(s, '/');
    if s != "" {
      SplitHasEmptyIff(s[1..]);
      ContainsAt(s, "//");
      TwoSlashes(s);
      var rest := Split(s[1..], '/');
      if s[0] == '/' {
        assert Split(s, '/')[0] == "";
      } else {
        SplitFirst(s[1..], '/');
        assert rest == [rest[0]] + rest[1..];
        assert "" in Split(s, '/') <==> "" in rest[1..];
        if |s| > 1 && s[1] == '/' {
          assert rest[0] == "";
          TailEmpty(s[1..]);
        } else if |s| > 1 {
          assert rest[0] != "" && s[1..][|s| - 2] == s[|s| - 1];
        } else {
          ContainsAt(s[1..], "//");
        }
      }
    }
  }

  // After a leading slash, another empty segment needs another loose slash.
  lemma TailEmpty(s: string)
    requires s != "" && s[0] == '/'
    ensures "" in Split(s, '/')[1..] <==> |s| == 1 || s[|s| - 1] == '/' || Contains(s, "//")
  {
    hide Split, Contains;
    SplitFirst(s, '/');
    assert Split(s, '/')[1..] == Split(s[1..], '/');
    SplitHasEmptyIff(s[1..]);
    ContainsAt(s, "//");
    TwoSlashes(s);
  }

  // A compiled reference has an empty path segment exactly if it is a dist reference, without an
  // expression, whose path is empty, has a slash at an end, or two slashes in a row.
  lemma EmptySegmentsIff(sr: string)
    requires CompileShortRef(sr).Some?
    ensures "" in CompileShortRef(sr).value.path <==>
      HasPrefix(sr, DIST_PREFIX) && !ContainsExpression(sr) && LooseSlash(sr[|DIST_PREFIX|..])
  {
    hide PathOf, ContainsExpression, LooseSlash, Contains, Cut, Join, TrimSpace, Split;
    var value := TrimSpace(sr);
    DistIsNotLocal(sr);
    if ContainsExpression(sr) {
    } else if HasPrefix(value, ".") || HasPrefix(value, "/") {
      PathHasNoEmpty(true, sr);
    } else if HasPrefix(sr, DIST_PREFIX) {
      SplitHasEmptyIff(sr[|DIST_PREFIX|..]);
    } else {
      var parts := Split(sr, '@');
      PathHasNoEmpty(false, Cut(Join(parts[..|parts| - 1], "@"), SEPARATOR).after);
    }
  }

  lemma DistIsNotLocal(sr: string)
    ensures HasPrefix(sr, DIST_PREFIX) ==> !HasPrefix(TrimSpace(sr), ".") && !HasPrefix(TrimSpace(sr), "/")
  {
    if HasPrefix(sr, DIST_PREFIX) {
      assert sr[0] == DIST_PREFIX[0] == 'd';
      StaysTrimmed(sr);
    }
  }

  // The input is accepted, and keeps its empty segment.
  lemma DistPathWithEmptySegment()
    ensures CompileShortRef("dist://a//b") == Some(PathReference(Dist, "", "", ["a", "", "b"], "step.yml"))
  {
    hide TrimSpace, ContainsExpression, Split;
    var sr := "dist://a//b";
    DistIsNotLocal(sr);
    assert HasPrefix(sr, DIST_PREFIX);
    NoDollarNoExpression(sr);
    assert sr[|DIST_PREFIX|..] == "a//b";
    assert "a//b" == "a" + ['/'] + ("" + ['/'] + "b");
    SplitAt("a", '/', "" + ['/'] + "b");
    SplitAt("", '/', "b");
    SplitPlain("a", '/');
    SplitPlain("", '/');
    SplitPlain("b", '/');
    assert Split("a//b", '/') == ["a", "", "b"];
  }

  lemma NoDollarNoExpression(s: string)
    requires '$' !in s
    ensures !ContainsExpression(s)
  {
    assert OPEN[0] == '$';
    forall i | 0 <= i < |s| ensures !(OPEN <= s[i..]) {
      assert s[i..][0] == s[i];
    }
  }

  // ---- What a remote reference says ----

  lemma CutAt(s: string, sep: string)
    requires sep != ""
    ensures Cut(s, sep) ==
      if HasPrefix(s, sep) then CutResult("", s[|sep|..], true)
      else if s == "" then CutResult("", "", false)
      else Cut(s[1..], sep).(before := [s[0]] + Cut(s[1..], sep).before)
  {
  }

  lemma {:induction false} CutParts(s: string, sep: string)
    requires sep != ""
    ensures var c := Cut(s, sep);
      && s == c.before + (if c.found then sep + c.after else "")
      && (c.found <==> Contains(s, sep)) && (!c.found ==> c.after == "")
  {
    hide Cut, Contains;
    CutAt(s, sep);
    ContainsAt(s, sep);
    if HasPrefix(s, sep) {
      assert s == sep + s[|sep|..];
    } else if s != "" {
      CutParts(s[1..], sep);
      var c := Cut(s[1..], sep);
      assert s == [s[0]] + s[1..];
      assert [s[0]] + (c.before + if c.found then sep + c.after else "")
          == [s[0]] + c.before + if c.found then sep + c.after else "";
    }
  }

  lemma {:induction false} JoinLast(parts: seq<string>, sep: string)
    requires |parts| >= 2
    ensures Join(parts, sep) == Join(parts[..|parts| - 1], sep) + sep + parts[|parts| - 1]
  {
    var front := parts[..|parts| - 1];
    if |parts| > 2 {
      JoinLast(parts[1..], sep);
      assert front[1..] == parts[1..][..|parts| - 2];
    }
  }

  lemma {:induction false} SplitOnceIff(s: string, c: char)
    ensures |Split(s, c)| == 1 <==> c !in s
  {
    SplitFirst(s, c);
    if s != "" {
      SplitOnceIff(s[1..], c);
      hide Split;
      assert s == [s[0]] + s[1..];
    }
  }

  // The text is the url, the path after the first separator if there is one, an at sign, and the
  // revision, the last part without one; only text without an at sign is refused.
  lemma RemoteParts(sr: string)
    ensures var r := RemoteOf(sr);
      && (r.None? <==> '@' !in sr)
      && (r.Some? ==>
            && r.value.protocol == Git && '@' !in r.value.version
            && r.value.path != [] && r.value.path[0] == "steps" && "" !in r.value.path
            && exists url, rest ::
                 && sr == url + rest + "@" + r.value.version
                 && r.value.url == DefaultHTTPS(url)
                 && (rest == "" || HasPrefix(rest, SEPARATOR)) && (rest == "" <==> !Contains(url + rest, SEPARATOR))
                 && (r.value.path[1..], r.value.filename)
                    == PathOf(false, if rest == "" then "" else rest[|SEPARATOR|..]))
  {
    hide Split, Join, Cut, PathOf, Contains, DefaultHTTPS;
    SplitOnceIff(sr, '@');
    var parts := Split(sr, '@');
    if |parts| >= 2 {
      var r := RemoteOf(sr).value;
      var body := Join(parts[..|parts| - 1], "@");
      JoinSplit(sr, '@');
      assert ['@'] == "@";
      JoinLast(parts, "@");
      CutParts(body, SEPARATOR);
      var cut := Cut(body, SEPARATOR);
      var rest := if cut.found then SEPARATOR + cut.after else "";
      PathHasNoEmpty(false, cut.after);
      assert cut.found ==> rest[|SEPARATOR|..] == cut.after;
      assert r.path[1..] == PathOf(false, cut.after).0;
      assert body == cut.before + rest;
      assert sr == cut.before + rest + "@" + r.version;
    }
  }

  // ---- Expressions ----

  // A text that holds an expression on one line is a dynamic reference, kept as it is, and nothing else is.
  lemma DynamicIff(sr: string)
    ensures (exists a, b, c :: sr == a + "${{" + b + "}}" + c && '\n' !in b) <==>
      CompileShortRef(sr) == Some(PathReference(Dynamic, sr, "", [], ""))
    ensures CompileShortRef(sr).Some? && CompileShortRef(sr).value.protocol == Dynamic ==>
      CompileShortRef(sr) == Some(PathReference(Dynamic, sr, "", [], ""))
  {
    hide ContainsExpression, PathOf, TrimSpace, Split, Join, Cut, DefaultHTTPS;
    if ContainsExpression(sr) {
      var a, b, c := ExpressionParts(sr);
      assert sr == a + "${{" + b + "}}" + c && '\n' !in b;
    }
    if a, b, c :| sr == a + "${{" + b + "}}" + c && '\n' !in b {
      PartsAreExpression(a, b, c);
    }
  }

  lemma ExpressionParts(s: string) returns (a: string, b: string, c: string)
    requires ContainsExpression(s)
    ensures s == a + "${{" + b + "}}" + c && '\n' !in b
  {
    var i, j :| 0 <= i && i + |OPEN| <= j <= |s| && OPEN <= s[i..] && CLOSE <= s[j..] && '\n' !in s[i + |OPEN|..j];
    a, b, c := s[..i], s[i + |OPEN|..j], s[j + |CLOSE|..];
    CutAround(s, i, OPEN);
    CutAround(s, j, CLOSE);
    assert s[..j] == s[..i + |OPEN|] + b && s[..i + |OPEN|] == a + OPEN;
  }

  lemma CutAround(s: string, at: nat, word: string)
    requires at <= |s| && word <= s[at..]
    ensures at + |word| <= |s| && s == s[..at] + word + s[at + |word|..]
  {
    assert s[at..] == word + s[at..][|word|..];
    assert s[at..][|word|..] == s[at + |word|..];
  }

  lemma PartsAreExpression(a: string, b: string, c: string)
    requires '\n' !in b
    ensures ContainsExpression(a + "${{" + b + "}}" + c)
  {
    var s := a + "${{" + b + "}}" + c;
    var i := |a|;
    var j := i + 3 + |b|;
    assert s[i..] == OPEN + (b + "}}" + c) && s[j..] == CLOSE + c;
    assert s[i + |OPEN|..j] == b;
  }

  // Recognised by its trimmed text, compiled by the whole: a space in front becomes part of the path.
  lemma SpaceStaysInPath()
    ensures CompileShortRef(" ./a") == Some(PathReference(Local, "", "", [" .", "a"], "step.yml"))
  {
    hide ContainsExpression, Split, TrimSpace;
    var sr := " ./a";
    NoDollarNoExpression(sr);
    assert AllSpace(" ") && AllSpace("") && Tight("./a");
    TrimmedOf(" ", "./a", "");
    assert " " + "./a" + "" == sr;
    assert sr == " ." + ['/'] + "a";
    SplitAt(" .", '/', "a");
    SplitPlain(" .", '/');
    SplitPlain("a", '/');
    assert Split(sr, '/') == [" .", "a"];
    FirstChar(sr);
    assert |"a"| < |".yml"| && "./a" == "." + "/a";
    assert forall i :: 0 <= i < 2 ==> [" .", "a"][i] != "";
    NothingEmpty([" .", "a"]);
    assert PathOf(true, sr) == ([" .", "a"], "step.yml");
  }
}
