// schema/v1/outputs.go and spec.go (the outputs part), and pkg/runner/step_file.go: declared output
// types at compile time, and what a step wrote at run time.
module OutputSpec {
  import opened Prelude
  import opened Values
  import opened Proto

  // A declared output: the type keyword if one is given, and the decoded default.
  datatype OutputDecl = OutputDecl(typ: Option<string>, default: Option<Value>)

  function TypeKeyword(t: ValueType): string {
    match t
    case StringType => "string"
    case NumberType => "number"
    case BooleanType => "boolean"
    case StructType => "struct"
    case ArrayType => "array"
    case NoType => "value_type_unspecified"
  }

  function TypeName(v: Value): string {
    match v
    case Bool(_) => "boolean"
    case List(_) => "array"
    case Number(_) => "number"
    case Str(_) => "string"
    case Struct(_) => "struct"
    case Null => "null"
  }

  // The value has the declared type.
  ghost predicate HasType(v: Value, t: ValueType) {
    || (v.Str? && t.StringType?) || (v.Number? && t.NumberType?) || (v.Bool? && t.BooleanType?)
    || (v.Struct? && t.StructType?) || (v.List? && t.ArrayType?)
  }

  // checkOutputType compares type names.
  predicate CheckOutputType(want: ValueType, have: Value) {
    TypeKeyword(want) == TypeName(have)
  }

  lemma CheckOutputTypeIsTyping(want: ValueType, have: Value)
    ensures CheckOutputType(want, have) <==> HasType(have, want)
  {
  }

  method CompileToProto(o: OutputDecl) returns (r: Option<Output>)
    ensures r.Some? <==> o.typ.Some? && exists t :: t != NoType && TypeKeyword(t) == o.typ.value
    ensures r.Some? ==> r.value.typ != NoType && TypeKeyword(r.value.typ) == o.typ.value && r.value.default == o.default
  {
    if o.typ.None? {
      return None;
    }
    var t;
    match o.typ.value {
      case "boolean" => t := BooleanType;
      case "array" => t := ArrayType;
      case "number" => t := NumberType;
      case "string" => t := StringType;
      case "struct" => t := StructType;
      case _ => return None;
    }
    assert TypeKeyword(t) == o.typ.value;
    r := Some(Output(t, o.default));
  }

  method VerifyDefaultValueMatchesType(o: OutputDecl, output: Output) returns (ok: bool)
    ensures ok <==>
      || o.default.None? || output.default.None? || o.typ.None?
      || exists t :: t != NoType && TypeKeyword(t) == o.typ.value && HasType(output.default.value, t)
  {
    if o.default.None? || output.default.None? {
      return true;
    }
    if o.typ.None? {
      return true;
    }
    var defaultType := "";
    match o.typ.value {
      case "boolean" => if output.default.value.Bool? { defaultType := "boolean"; }
      case "array" => if output.default.value.List? { defaultType := "array"; }
      case "number" => if output.default.value.Number? { defaultType := "number"; }
      case "string" => if output.default.value.Str? { defaultType := "string"; }
      case "struct" => if output.default.value.Struct? { defaultType := "struct"; }
      case _ => return false;
    }
    ok := defaultType == o.typ.value;
    if ok {
      var t := TypeOf(output.default.value);
      assert TypeKeyword(t) == o.typ.value && HasType(output.default.value, t);
    }
  }

  ghost function TypeOf(v: Value): ValueType {
    match v
    case Str(_) => StringType
    case Number(_) => NumberType
    case Bool(_) => BooleanType
    case Struct(_) => StructType
    case List(_) => ArrayType
    case Null => NoType
  }

  // A declaration compiles if it names one of the five types and its default, if any, has that type.
  ghost predicate WellDeclared(o: OutputDecl) {
    exists t :: t != NoType && o.typ == Some(TypeKeyword(t)) && (o.default.Some? ==> HasType(o.default.value, t))
  }

  ghost predicate Compiled(o: OutputDecl, output: Output) {
    && output.typ != NoType && o.typ == Some(TypeKeyword(output.typ)) && output.default == o.default
    && WellTyped(output)
  }

  // What Spec.Compile guarantees of an output.
  ghost predicate WellTyped(output: Output) {
    output.typ != NoType && (output.default.Some? ==> HasType(output.default.value, output.typ))
  }

  lemma KeywordsDiffer(t: ValueType, u: ValueType)
    requires TypeKeyword(t) == TypeKeyword(u)
    ensures t == u
  {
    var k := TypeKeyword(t);
    assert |k| == |TypeKeyword(u)| && k[0] == TypeKeyword(u)[0] && k[2] == TypeKeyword(u)[2];
  }

  method CompileOutput(o: OutputDecl) returns (r: Option<Output>)
    ensures r.Some? <==> WellDeclared(o)
    ensures r.Some? ==> Compiled(o, r.value)
  {
    var output := CompileToProto(o);
    if output.None? {
      return None;
    }
    var ok := VerifyDefaultValueMatchesType(o, output.value);
    forall t | t != NoType && TypeKeyword(t) == o.typ.value ensures t == output.value.typ {
      KeywordsDiffer(t, output.value.typ);
    }
    if !ok {
      return None;
    }
    r := output;
  }

  // The five keywords.
  lemma KeywordsMean(v: Value)
    ensures WellDeclared(OutputDecl(Some("string"), Some(v))) <==> v.Str?
    ensures WellDeclared(OutputDecl(Some("number"), Some(v))) <==> v.Number?
    ensures WellDeclared(OutputDecl(Some("boolean"), Some(v))) <==> v.Bool?
    ensures WellDeclared(OutputDecl(Some("struct"), Some(v))) <==> v.Struct?
    ensures WellDeclared(OutputDecl(Some("array"), Some(v))) <==> v.List?
    ensures !WellDeclared(OutputDecl(None, Some(v)))
  {
    KeywordMeans(StringType, "string", v);
    KeywordMeans(NumberType, "number", v);
    KeywordMeans(BooleanType, "boolean", v);
    KeywordMeans(StructType, "struct", v);
    KeywordMeans(ArrayType, "array", v);
  }

  lemma KeywordMeans(t: ValueType, keyword: string, v: Value)
    requires t != NoType && TypeKeyword(t) == keyword
    ensures WellDeclared(OutputDecl(Some(keyword), Some(v))) <==> HasType(v, t)
  {
    hide TypeKeyword, HasType;
    forall u | u != NoType && TypeKeyword(u) == keyword ensures u == t {
      KeywordsDiffer(u, t);
    }
  }

  // The outputs of a spec document: a delegate keyword, a map of declarations, or nothing.
  datatype OutputsDecl = Keyword | Declared(decls: map<string, OutputDecl>) | Absent

  // The loop over a declared map may take its entries in any order.
  method CompileOutputs(o: OutputsDecl) returns (r: Option<(OutputMethod, map<string, Output>)>)
    ensures r.Some? <==> (o.Declared? ==> forall k :: k in o.decls ==> WellDeclared(o.decls[k]))
    ensures r.Some? ==>
      && r.value.0 == (if o.Keyword? then DelegateMethod else OutputsMethod)
      && r.value.1.Keys == (if o.Declared? then o.decls.Keys else {})
      && forall k :: k in r.value.1 ==> Compiled(o.decls[k], r.value.1[k])
  {
    match o
    case Keyword => r := Some((DelegateMethod, map[]));
    case Absent => r := Some((OutputsMethod, map[]));
    case Declared(decls) =>
      var outputs: map<string, Output> := map[];
      var left := decls.Keys;
      while left != {}
        invariant left <= decls.Keys && outputs.Keys == decls.Keys - left
        invariant forall k :: k in outputs ==> WellDeclared(decls[k]) && Compiled(decls[k], outputs[k])
        decreases left
      {
        var k :| k in left;
        var output := CompileOutput(decls[k]);
        if output.None? {
          return None;
        }
        outputs := outputs[k := output.value];
        left := left - {k};
      }
      r := Some((OutputsMethod, outputs));
  }
}

module StepFiles {
  import opened Prelude
  import opened Values
  import opened Proto
  import opened OutputSpec

  // A line of a step file after JSON decoding; a null name or value is the same as an absent one.
  datatype Line = Blank | Malformed | Entry(name: Option<string>, value: Option<Value>)

  // A line in the file. A long one does not fit bufio's buffer of 65536 bytes: the scanner stops in
  // front of it, and nobody asks it why.
  datatype FileLine = FileLine(content: Line, long: bool)

  function FirstLong(lines: seq<FileLine>): (i: nat)
    ensures i <= |lines| && (i < |lines| ==> lines[i].long) && forall k :: 0 <= k < i ==> !lines[k].long
  {
    if lines == [] || lines[0].long then 0 else 1 + FirstLong(lines[1..])
  }

  function Contents(lines: seq<FileLine>): seq<Line> {
    seq(|lines|, i requires 0 <= i < |lines| => lines[i].content)
  }

  // What the scanner hands out, and what it keeps to itself.
  function Scanned(lines: seq<FileLine>): seq<Line> {
    Contents(lines[..FirstLong(lines)])
  }

  function Dropped(lines: seq<FileLine>): seq<Line> {
    Contents(lines[FirstLong(lines)..])
  }

  lemma ScannedAndDropped(lines: seq<FileLine>)
    ensures Contents(lines) == Scanned(lines) + Dropped(lines)
  {
    hide FirstLong;
  }

  predicate GoodLine(line: Line) {
    line.Blank? || (line.Entry? && line.name.Some? && line.name.value != "" && line.value.Some?)
  }

  predicate Writes(line: Line, key: string) {
    line.Entry? && line.name == Some(key)
  }

  // The last value written under a key.
  function LastWritten(lines: seq<Line>, key: string): Option<Value> {
    if lines == [] then None
    else
      var last := lines[|lines| - 1];
      if Writes(last, key) then last.value else LastWritten(lines[..|lines| - 1], key)
  }

  function Written(lines: seq<Line>): map<string, Value> {
    if lines == [] then map[]
    else
      var last, rest := lines[|lines| - 1], Written(lines[..|lines| - 1]);
      if last.Entry? && last.name.Some? && last.value.Some? then rest[last.name.value := last.value.value] else rest
  }

  // Repeated lines resolve to the last.
  lemma {:induction false} WrittenIsLast(lines: seq<Line>, key: string)
    requires AllGood(lines)
    ensures key in Written(lines) <==> LastWritten(lines, key).Some?
    ensures key in Written(lines) ==> LastWritten(lines, key) == Some(Written(lines)[key])
    ensures key in Written(lines) <==> exists i :: 0 <= i < |lines| && Writes(lines[i], key)
  {
    if lines != [] {
      var front, last := lines[..|lines| - 1], lines[|lines| - 1];
      assert GoodLine(last);
      WrittenIsLast(front, key);
      assert forall i :: 0 <= i < |front| ==> front[i] == lines[i];
    }
  }

  // The last value written under a key, line by line.
  lemma {:induction false} LastWrittenIs(lines: seq<Line>, key: string, v: Value)
    requires forall i :: 0 <= i < |lines| && Writes(lines[i], key) ==> lines[i].value.Some?
    ensures LastWritten(lines, key) == Some(v) <==>
      exists i :: 0 <= i < |lines| && lines[i] == Entry(Some(key), Some(v)) && NoneWritesAfter(lines, i, key)
    ensures LastWritten(lines, key) == None <==> forall i :: 0 <= i < |lines| ==> !Writes(lines[i], key)
  {
    if lines != [] {
      var front, last := lines[..|lines| - 1], lines[|lines| - 1];
      assert forall i :: 0 <= i < |front| ==> front[i] == lines[i];
      LastWrittenIs(front, key, v);
      if Writes(last, key) {
        assert Writes(lines[|lines| - 1], key);
      } else {
        assert forall i :: 0 <= i < |front| ==> (NoneWritesAfter(front, i, key) <==> NoneWritesAfter(lines, i, key));
      }
    }
  }

  ghost predicate NoneWritesAfter(lines: seq<Line>, i: int, key: string) {
    forall j :: i < j < |lines| && 0 <= j ==> !Writes(lines[j], key)
  }

  // What makes a file unreadable: a line that does not decode, or one without a name, with an empty
  // name, or without a value.
  lemma UnreadableIff(lines: seq<Line>)
    ensures KeyValues(lines).None? <==>
      exists i :: 0 <= i < |lines| && !lines[i].Blank? && (lines[i].Malformed? || lines[i].name == None || lines[i].name == Some("") || lines[i].value == None)
  {
    hide Written;
    if KeyValues(lines).None? {
      var i :| 0 <= i < |lines| && !GoodLine(lines[i]);
      assert !lines[i].Blank?;
    }
  }

  predicate AllGood(lines: seq<Line>) {
    forall i :: 0 <= i < |lines| ==> GoodLine(lines[i])
  }

  // The last value under a key of two parts of a file is that of the second part if it has one.
  lemma {:induction false} LastWrittenAppend(a: seq<Line>, b: seq<Line>, key: string)
    requires AllGood(b)
    ensures LastWritten(a + b, key) == if LastWritten(b, key).Some? then LastWritten(b, key) else LastWritten(a, key)
  {
    if b == [] {
      assert a + b == a;
    } else {
      var front, last := b[..|b| - 1], b[|b| - 1];
      assert (a + b)[..|a + b| - 1] == a + front && (a + b)[|a + b| - 1] == last;
      assert GoodLine(last);
      LastWrittenAppend(a, front, key);
    }
  }

  function KeyValues(lines: seq<Line>): Option<map<string, Value>> {
    if AllGood(lines) then Some(Written(lines)) else None
  }

  method ReadKeyValueLines(lines: seq<FileLine>) returns (r: Option<map<string, Value>>)
    ensures r == KeyValues(Scanned(lines))
  {
    hide FirstLong, Written;
    var out: map<string, Value> := map[];
    var i := 0;
    NothingWritten();
    assert Contents(lines[..0]) == [];
    while i < |lines| && !lines[i].long
      invariant 0 <= i <= FirstLong(lines)
      invariant forall j :: 0 <= j < i ==> GoodLine(lines[j].content)
      invariant out == Written(Contents(lines[..i]))
    {
      var line := lines[i].content;
      assert Scanned(lines)[i] == line;
      assert Contents(lines[..i + 1]) == Contents(lines[..i]) + [line];
      WrittenOne(Contents(lines[..i]), line);
      i := i + 1;
      if line.Blank? {
        continue;
      }
      if line.Malformed? || line.name.None? || line.name.value == "" || line.value.None? {
        assert !GoodLine(Scanned(lines)[i - 1]);
        return None;
      }
      out := out[line.name.value := line.value.value];
    }
    assert i == FirstLong(lines);
    r := Some(out);
  }

  lemma NothingWritten()
    ensures Written([]) == map[]
  {
  }

  lemma WrittenOne(front: seq<Line>, last: Line)
    ensures Written(front + [last]) ==
      if last.Entry? && last.name.Some? && last.value.Some? then Written(front)[last.name.value := last.value.value]
      else Written(front)
  {
    assert (front + [last])[..|front|] == front;
  }

  // Every written key is declared with the matching type, every unwritten output has a default.
  ghost predicate Honours(written: map<string, Value>, specOutputs: map<string, Output>) {
    && (forall key :: key in written ==> key in specOutputs && HasType(written[key], specOutputs[key].typ))
    && (forall name :: name in specOutputs && name !in written ==> specOutputs[name].default.Some?)
  }

  function OutputValues(written: map<string, Value>, specOutputs: map<string, Output>): Option<map<string, Value>> {
    if && (forall key :: key in written ==> key in specOutputs && CheckOutputType(specOutputs[key].typ, written[key]))
       && (forall name :: name in specOutputs && name !in written ==> specOutputs[name].default.Some?)
    then
      Some(map name | name in specOutputs ::
             if name in written then written[name] else specOutputs[name].default.value)
    else None
  }

  // The outputs of a step that wrote these lines.
  function OutputsOf(lines: seq<Line>, specOutputs: map<string, Output>): Option<map<string, Value>> {
    match KeyValues(lines)
    case None => None
    case Some(written) => OutputValues(written, specOutputs)
  }

  // Both loops may take their entries in any order; defaults are added to the map being read.
  method ReadValues(lines: seq<FileLine>, specOutputs: map<string, Output>) returns (r: Option<map<string, Value>>)
    ensures r == OutputsOf(Scanned(lines), specOutputs)
  {
    hide FirstLong, Written, GoodLine;
    var read := ReadKeyValueLines(lines);
    if read.None? {
      return None;
    }
    var keyValues := read.value;
    var written := read.value;
    var left := keyValues.Keys;
    while left != {}
      invariant left <= written.Keys
      invariant forall key :: key in written && key !in left ==>
        key in specOutputs && CheckOutputType(specOutputs[key].typ, written[key])
      decreases left
    {
      var key :| key in left;
      if key !in specOutputs || !CheckOutputType(specOutputs[key].typ, keyValues[key]) {
        return None;
      }
      left := left - {key};
    }
    left := specOutputs.Keys;
    while left != {}
      invariant left <= specOutputs.Keys
      invariant keyValues.Keys == written.Keys + (specOutputs.Keys - left)
      invariant forall name :: name in written ==> keyValues[name] == written[name]
      invariant forall name :: name in specOutputs && name !in left && name !in written ==>
        specOutputs[name].default == Some(keyValues[name])
      decreases left
    {
      var name :| name in left;
      if name !in keyValues {
        if specOutputs[name].default.None? {
          return None;
        }
        keyValues := keyValues[name := specOutputs[name].default.value];
      }
      left := left - {name};
    }
    assert keyValues.Keys == specOutputs.Keys;
    assert keyValues == OutputValues(written, specOutputs).value;
    r := Some(keyValues);
  }

  // Good lines that honour the declarations.
  ghost predicate Accepted(lines: seq<Line>, specOutputs: map<string, Output>) {
    AllGood(lines) && Honours(Written(lines), specOutputs)
  }

  // The last written value, or else the default.
  function Resolved(lines: seq<Line>, specOutputs: map<string, Output>, key: string): Option<Value> {
    if LastWritten(lines, key).Some? then LastWritten(lines, key)
    else if key in specOutputs then specOutputs[key].default
    else None
  }

  lemma WrittenIsLastEverywhere(lines: seq<Line>)
    requires AllGood(lines)
    ensures forall key ::
      && (key in Written(lines) <==> LastWritten(lines, key).Some?)
      && (key in Written(lines) ==> LastWritten(lines, key) == Some(Written(lines)[key]))
  {
    hide Written, LastWritten, GoodLine;
    forall key
      ensures key in Written(lines) <==> LastWritten(lines, key).Some?
      ensures key in Written(lines) ==> LastWritten(lines, key) == Some(Written(lines)[key])
    {
      WrittenIsLast(lines, key);
    }
  }

  lemma OutputsOfLines(lines: seq<Line>, specOutputs: map<string, Output>)
    requires forall k :: k in specOutputs ==> WellTyped(specOutputs[k])
    ensures var r := OutputsOf(lines, specOutputs);
      && (r.Some? <==> Accepted(lines, specOutputs))
      && (r.Some? ==>
            && r.value.Keys == specOutputs.Keys
            && forall k :: k in r.value ==>
                 HasType(r.value[k], specOutputs[k].typ) && Some(r.value[k]) == Resolved(lines, specOutputs, k))
  {
    hide Written, LastWritten, HasType, CheckOutputType, AllGood;
    forall t, v ensures CheckOutputType(t, v) <==> HasType(v, t) {
      CheckOutputTypeIsTyping(t, v);
    }
    if AllGood(lines) {
      WrittenIsLastEverywhere(lines);
    }
  }

  // The output contract: for compiled outputs, reading succeeds exactly when the scanned lines are
  // good and honour the declarations; the result then has exactly the declared keys, each with a
  // value of its declared type, the last one scanned or else the default. It is the result of the
  // whole file exactly if what a long line cut off would have changed nothing: all good lines whose
  // last values are those the result has anyway, or a file refused either way.
  lemma OutputContract(lines: seq<FileLine>, specOutputs: map<string, Output>)
    requires forall k :: k in specOutputs ==> WellTyped(specOutputs[k])
    ensures var kept := Scanned(lines);
      var r := OutputsOf(kept, specOutputs);
      && (r.Some? <==> Accepted(kept, specOutputs))
      && (r.Some? ==>
            && r.value.Keys == specOutputs.Keys
            && forall k :: k in r.value ==>
                 HasType(r.value[k], specOutputs[k].typ) && Some(r.value[k]) == Resolved(kept, specOutputs, k))
    ensures var kept, dropped := Scanned(lines), Dropped(lines);
      OutputsOf(kept, specOutputs) == OutputsOf(Contents(lines), specOutputs) <==>
        if Accepted(kept, specOutputs) then
          && AllGood(dropped)
          && forall key :: LastWritten(dropped, key).Some? ==>
               key in specOutputs && LastWritten(dropped, key) == Resolved(kept, specOutputs, key)
        else !Accepted(Contents(lines), specOutputs)
  {
    hide FirstLong, Scanned, Dropped, Contents, OutputsOf, Accepted;
    var kept, dropped := Scanned(lines), Dropped(lines);
    OutputsOfLines(kept, specOutputs);
    OutputsOfLines(kept + dropped, specOutputs);
    ScannedAndDropped(lines);
    if Accepted(kept, specOutputs) {
      if AllGood(dropped) {
        SameOutputsIff(kept, dropped, specOutputs);
      } else {
        BadWhole(kept, dropped);
        assert !Accepted(kept + dropped, specOutputs) by {
          RefusedWhole(kept + dropped, specOutputs);
        }
      }
    }
  }

  lemma BadWhole(kept: seq<Line>, dropped: seq<Line>)
    requires !AllGood(dropped)
    ensures !AllGood(kept + dropped)
  {
    hide GoodLine;
    var i :| 0 <= i < |dropped| && !GoodLine(dropped[i]);
    assert (kept + dropped)[|kept| + i] == dropped[i];
  }

  lemma RefusedWhole(lines: seq<Line>, specOutputs: map<string, Output>)
    requires !AllGood(lines)
    ensures !Accepted(lines, specOutputs)
  {
  }

  lemma ResolvedWhole(kept: seq<Line>, dropped: seq<Line>, specOutputs: map<string, Output>, key: string)
    requires AllGood(dropped)
    ensures Resolved(kept + dropped, specOutputs, key) ==
      if LastWritten(dropped, key).Some? then LastWritten(dropped, key) else Resolved(kept, specOutputs, key)
  {
    hide LastWritten, AllGood;
    LastWrittenAppend(kept, dropped, key);
  }

  // Lines are accepted if each written value is of the declared type, and each other output has a default.
  lemma AcceptedByKey(lines: seq<Line>, specOutputs: map<string, Output>)
    requires AllGood(lines)
    ensures Accepted(lines, specOutputs) <==>
      && (forall key :: LastWritten(lines, key).Some? ==>
            key in specOutputs && HasType(LastWritten(lines, key).value, specOutputs[key].typ))
      && (forall key :: key in specOutputs ==> Resolved(lines, specOutputs, key).Some?)
  {
    hide Written, LastWritten, HasType, AllGood;
    WrittenIsLastEverywhere(lines);
  }

  lemma OutputsOfIff(lines: seq<Line>, specOutputs: map<string, Output>)
    ensures OutputsOf(lines, specOutputs).Some? <==> Accepted(lines, specOutputs)
  {
    hide Written, HasType, CheckOutputType, AllGood;
    forall t, v ensures CheckOutputType(t, v) <==> HasType(v, t) {
      CheckOutputTypeIsTyping(t, v);
    }
  }

  lemma GoodWhole(kept: seq<Line>, dropped: seq<Line>)
    requires AllGood(kept) && AllGood(dropped)
    ensures AllGood(kept + dropped)
  {
    hide GoodLine;
  }

  lemma AcceptedWhole(kept: seq<Line>, dropped: seq<Line>, specOutputs: map<string, Output>)
    requires forall k :: k in specOutputs ==> WellTyped(specOutputs[k])
    requires Accepted(kept, specOutputs) && AllGood(dropped)
    requires forall key :: LastWritten(dropped, key).Some? ==>
      key in specOutputs && LastWritten(dropped, key) == Resolved(kept, specOutputs, key)
    ensures Accepted(kept + dropped, specOutputs)
  {
    hide LastWritten, HasType, AllGood, Accepted, OutputsOf;
    var whole := kept + dropped;
    AcceptedIsGood(kept, specOutputs);
    GoodWhole(kept, dropped);
    AcceptedByKey(kept, specOutputs);
    AcceptedByKey(whole, specOutputs);
    OutputsOfLines(kept, specOutputs);
    forall key
      ensures LastWritten(whole, key).Some? ==>
        key in specOutputs && HasType(LastWritten(whole, key).value, specOutputs[key].typ)
      ensures key in specOutputs ==> Resolved(whole, specOutputs, key).Some?
    {
      LastWrittenAppend(kept, dropped, key);
      if key in specOutputs {
        assert Some(OutputsOf(kept, specOutputs).value[key]) == Resolved(kept, specOutputs, key);
      }
    }
  }

  lemma AcceptedIsGood(lines: seq<Line>, specOutputs: map<string, Output>)
    requires Accepted(lines, specOutputs)
    ensures AllGood(lines)
  {
  }

  // A file whose kept lines are accepted, and whose dropped ones are good.
  lemma SameOutputsIff(kept: seq<Line>, dropped: seq<Line>, specOutputs: map<string, Output>)
    requires forall k :: k in specOutputs ==> WellTyped(specOutputs[k])
    requires Accepted(kept, specOutputs) && AllGood(dropped)
    ensures OutputsOf(kept, specOutputs) == OutputsOf(kept + dropped, specOutputs) <==>
      forall key :: LastWritten(dropped, key).Some? ==>
        key in specOutputs && LastWritten(dropped, key) == Resolved(kept, specOutputs, key)
  {
    hide LastWritten, HasType, OutputsOf, AllGood, Accepted, Resolved;
    var whole := kept + dropped;
    OutputsOfLines(kept, specOutputs);
    OutputsOfLines(whole, specOutputs);
    forall key ensures Resolved(whole, specOutputs, key) ==
      if LastWritten(dropped, key).Some? then LastWritten(dropped, key) else Resolved(kept, specOutputs, key)
    {
      ResolvedWhole(kept, dropped, specOutputs, key);
    }
    var a, b := OutputsOf(kept, specOutputs), OutputsOf(whole, specOutputs);
    if b.Some? {
      forall key | LastWritten(dropped, key).Some? ensures key in specOutputs {
        DeclaredIfAccepted(kept, dropped, specOutputs, key);
      }
    }
    if forall key :: LastWritten(dropped, key).Some? ==>
         key in specOutputs && LastWritten(dropped, key) == Resolved(kept, specOutputs, key)
    {
      AcceptedWhole(kept, dropped, specOutputs);
      assert a.value == b.value;
    }
  }

  lemma DeclaredIfAccepted(kept: seq<Line>, dropped: seq<Line>, specOutputs: map<string, Output>, key: string)
    requires AllGood(dropped) && Accepted(kept + dropped, specOutputs) && LastWritten(dropped, key).Some?
    ensures key in specOutputs
  {
    hide LastWritten, HasType, AllGood;
    LastWrittenAppend(kept, dropped, key);
    AcceptedByKey(kept + dropped, specOutputs);
  }

  // A value that was written, in a line of more than 65536 bytes: the step gets the default.
  lemma LongValueIsLost(x: Value, d: Value)
    requires x.Str? && d.Str? && x != d
    ensures var lines := [FileLine(Entry(Some("a"), Some(x)), true)];
      var specOutputs := map["a" := Output(StringType, Some(d))];
      && OutputsOf(Contents(lines), specOutputs) == Some(map["a" := x])
      && OutputsOf(Scanned(lines), specOutputs) == Some(map["a" := d])
  {
    var entry := Entry(Some("a"), Some(x));
    var lines := [FileLine(entry, true)];
    var specOutputs := map["a" := Output(StringType, Some(d))];
    assert Contents(lines) == [] + [entry] && Scanned(lines) == [];
    WrittenOne([], entry);
    NothingWritten();
    assert CheckOutputType(StringType, x);
    assert OutputValues(map["a" := x], specOutputs).value == map["a" := x];
    assert OutputValues(map[], specOutputs).value == map["a" := d];
  }

  // Which values an export file may hold, as environment text.
  function EnvText(number: real -> string, v: Value): Option<string> {
    match v
    case Bool(b) => Some(if b then "true" else "false")
    case Number(n) => Some(number(n))
    case Str(s) => Some(s)
    case _ => None
  }

  function ExportedEnv(number: real -> string, lines: seq<Line>): Option<map<string, string>> {
    match KeyValues(lines)
    case None => None
    case Some(written) =>
      if forall k :: k in written ==> EnvText(number, written[k]).Some? then
        Some(map k | k in written :: EnvText(number, written[k]).value)
      else None
  }

  ghost predicate AllText(number: real -> string, lines: seq<Line>) {
    forall k :: LastWritten(lines, k).Some? ==> EnvText(number, LastWritten(lines, k).value).Some?
  }

  lemma ExportedText(number: real -> string, lines: seq<Line>)
    ensures var r := ExportedEnv(number, lines);
      && (r.Some? <==> AllGood(lines) && AllText(number, lines))
      && (r.Some? ==> forall k ::
            && (k in r.value <==> LastWritten(lines, k).Some?)
            && (k in r.value ==> Some(r.value[k]) == EnvText(number, LastWritten(lines, k).value)))
  {
    hide Written, LastWritten, AllGood, EnvText;
    if AllGood(lines) {
      WrittenIsLastEverywhere(lines);
      var written := Written(lines);
      if ExportedEnv(number, lines).Some? {
        forall k | LastWritten(lines, k).Some? ensures EnvText(number, LastWritten(lines, k).value).Some? {
          assert k in written;
        }
      } else {
        var k :| k in written && EnvText(number, written[k]).None?;
        assert LastWritten(lines, k) == Some(written[k]);
      }
    }
  }

  // Exports read from a file with a long line are those of the whole file exactly if what was cut
  // off repeats, as text, the last exports before it, or if the file is refused either way.
  lemma ExportContract(number: real -> string, lines: seq<FileLine>)
    ensures var kept, dropped := Scanned(lines), Dropped(lines);
      ExportedEnv(number, kept) == ExportedEnv(number, Contents(lines)) <==>
        if ExportedEnv(number, kept).Some? then AllGood(dropped) && Repeats(number, kept, dropped)
        else ExportedEnv(number, Contents(lines)).None?
  {
    hide FirstLong, Scanned, Dropped, Contents, ExportedEnv, LastWritten, EnvText;
    var kept, dropped := Scanned(lines), Dropped(lines);
    ScannedAndDropped(lines);
    if ExportedEnv(number, kept).Some? {
      if AllGood(dropped) {
        SameExportsIff(number, kept, dropped);
      } else {
        ExportedText(number, kept + dropped);
        BadWhole(kept, dropped);
      }
    }
  }

  // What was dropped repeats the text of what was kept.
  ghost predicate Repeats(number: real -> string, kept: seq<Line>, dropped: seq<Line>) {
    forall key :: LastWritten(dropped, key).Some? ==>
      && LastWritten(kept, key).Some?
      && EnvText(number, LastWritten(dropped, key).value) == EnvText(number, LastWritten(kept, key).value)
  }

  lemma SameExportsIff(number: real -> string, kept: seq<Line>, dropped: seq<Line>)
    requires ExportedEnv(number, kept).Some? && AllGood(dropped)
    ensures ExportedEnv(number, kept) == ExportedEnv(number, kept + dropped) <==> Repeats(number, kept, dropped)
  {
    hide LastWritten, ExportedEnv, EnvText, GoodLine;
    var whole := kept + dropped;
    ExportedText(number, kept);
    ExportedText(number, whole);
    assert AllGood(whole);
    forall key ensures LastWritten(whole, key) ==
      if LastWritten(dropped, key).Some? then LastWritten(dropped, key) else LastWritten(kept, key)
    {
      LastWrittenAppend(kept, dropped, key);
    }
    var a, b := ExportedEnv(number, kept), ExportedEnv(number, whole);
    if Repeats(number, kept, dropped) {
      forall key | LastWritten(whole, key).Some?
        ensures key in a.value && EnvText(number, LastWritten(whole, key).value) == Some(a.value[key])
      {
        assert LastWritten(kept, key).Some?;
      }
      assert AllText(number, whole);
      forall key | key in a.value ensures key in b.value && b.value[key] == a.value[key] {
        assert LastWritten(whole, key).Some?;
      }
      assert a.value == b.value;
    }
    if a == b {
      forall key | LastWritten(dropped, key).Some?
        ensures LastWritten(kept, key).Some?
        ensures EnvText(number, LastWritten(dropped, key).value) == EnvText(number, LastWritten(kept, key).value)
      {
        assert LastWritten(whole, key) == LastWritten(dropped, key);
        assert key in b.value;
        assert key in a.value;
        assert LastWritten(kept, key).Some?;
      }
      assert Repeats(number, kept, dropped);
    }
  }

  method ReadEnvironment(number: real -> string, lines: seq<FileLine>) returns (r: Option<map<string, string>>)
    ensures r == ExportedEnv(number, Scanned(lines))
  {
    var outputs := ReadKeyValueLines(lines);
    if outputs.None? {
      return None;
    }
    var env: map<string, string> := map[];
    var left := outputs.value.Keys;
    while left != {}
      invariant left <= outputs.value.Keys && env.Keys == outputs.value.Keys - left
      invariant forall k :: k in env ==> EnvText(number, outputs.value[k]) == Some(env[k])
      decreases left
    {
      var key :| key in left;
      var text := EnvText(number, outputs.value[key]);
      if text.None? {
        return None;
      }
      env := env[key := text.value];
      left := left - {key};
    }
    assert env == ExportedEnv(number, Scanned(lines)).value;
    r := Some(env);
  }
}
