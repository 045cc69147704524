// pkg/internal/expression: values, the view an expression sees, and dotted-path evaluation.
module Values {
  import opened Prelude

  // structpb.Value with its kind set.
  datatype Value =
    | Null
    | Number(number: real)
    | Str(text: string)
    | Bool(bit: bool)
    | Struct(fields: map<string, Value>)
    | List(items: seq<Value>)

  // json.Marshal of a value; it can fail (a NaN, say), and is otherwise uninterpreted.
  type JsonOf = Value -> Option<string>

  function ValueToString(json: JsonOf, v: Value): Option<string> {
    if v.Str? then Some(v.text) else json(v)
  }
}

module Expressions {
  import opened Prelude
  import opened GoStrings
  import opened Values

  type Outputs = map<string, Value>

  // InterpolationContext, with the JSON tags as field names.
  datatype View = View(
    env: map<string, string>,
    exportFile: string,
    inputs: map<string, Value>,
    job: map<string, string>,
    outputFile: string,
    stepDir: string,
    steps: map<string, Outputs>,
    workDir: string)

  // What the reflective walk can be standing on.
  datatype Object =
    | Whole(view: View)
    | Single(text: string)
    | Texts(texts: map<string, string>)
    | Proto(value: Value)
    | Protos(protos: map<string, Value>)
    | Results(results: map<string, Outputs>)
    | Result(outputs: Outputs)

  function At<V>(m: map<string, V>, key: string): Option<V> {
    if key in m then Some(m[key]) else None
  }

  function DigView(v: View, key: string): Option<Object> {
    match key
    case "env" => Some(Texts(v.env))
    case "export_file" => Some(Single(v.exportFile))
    case "inputs" => Some(Protos(v.inputs))
    case "job" => Some(Texts(v.job))
    case "output_file" => Some(Single(v.outputFile))
    case "step_dir" => Some(Single(v.stepDir))
    case "steps" => Some(Results(v.steps))
    case "work_dir" => Some(Single(v.workDir))
    case _ => None
  }

  function DigObject(o: Object, key: string): Option<Object> {
    match o
    case Whole(v) => DigView(v, key)
    case Single(_) => None
    case Texts(m) => if key in m then Some(Single(m[key])) else None
    case Proto(v) => if v.Struct? && key in v.fields then Some(Proto(v.fields[key])) else None
    case Protos(m) => if key in m then Some(Proto(m[key])) else None
    case Results(m) => if key in m then Some(Result(m[key])) else None
    case Result(outputs) => if key == "outputs" then Some(Protos(outputs)) else None
  }

  // Maps of strings, of values or of step results are no protobuf values.
  function ObjectToProtoValue(o: Object): Option<Value> {
    match o
    case Single(s) => Some(Str(s))
    case Proto(v) => Some(v)
    case _ => None
  }

  // Follows the keys from the left.
  function Walk(o: Object, keys: seq<string>): Option<Object>
    decreases keys
  {
    if keys == [] then Some(o)
    else match DigObject(o, keys[0])
      case None => None
      case Some(next) => Walk(next, keys[1..])
  }

  function Keys(path: string): (keys: seq<string>)
    ensures |keys| >= 1
  {
    Split(TrimSpace(path), '.')
  }

  function Evaluation(view: View, path: string): Option<Value> {
    match Walk(Whole(view), Keys(path))
    case None => None
    case Some(o) => ObjectToProtoValue(o)
  }

  method Evaluate(view: View, path: string) returns (r: Option<Value>)
    ensures r == Evaluation(view, path)
  {
    var keys := Split(TrimSpace(path), '.');
    var o := Whole(view);
    for i := 0 to |keys|
      invariant Walk(Whole(view), keys) == Walk(o, keys[i..])
    {
      var next := DigObject(o, keys[i]);
      assert keys[i..][1..] == keys[i + 1..];
      if next.None? {
        return None;
      }
      o := next.value;
    }
    r := ObjectToProtoValue(o);
  }

  // Descending into a value: only structs have members.
  function Member(v: Value, keys: seq<string>): Option<Value> {
    if keys == [] then Some(v)
    else if v.Struct? && keys[0] in v.fields then Member(v.fields[keys[0]], keys[1..])
    else None
  }

  lemma {:induction false} WalkProto(v: Value, keys: seq<string>)
    ensures Walk(Proto(v), keys) == match Member(v, keys) case Some(u) => Some(Proto(u)) case None => None
  {
    if keys != [] && v.Struct? && keys[0] in v.fields {
      WalkProto(v.fields[keys[0]], keys[1..]);
    }
  }

  // The addresses an expression can name, and what each denotes. Anything else is an error.
  function Denotes(view: View, keys: seq<string>): Option<Value> {
    if keys == ["export_file"] then Some(Str(view.exportFile))
    else if keys == ["output_file"] then Some(Str(view.outputFile))
    else if keys == ["step_dir"] then Some(Str(view.stepDir))
    else if keys == ["work_dir"] then Some(Str(view.workDir))
    else if |keys| == 2 && keys[0] == "env" && keys[1] in view.env then Some(Str(view.env[keys[1]]))
    else if |keys| == 2 && keys[0] == "job" && keys[1] in view.job then Some(Str(view.job[keys[1]]))
    else if |keys| >= 2 && keys[0] == "inputs" && keys[1] in view.inputs then
      Member(view.inputs[keys[1]], keys[2..])
    else if |keys| >= 4 && keys[0] == "steps" && keys[1] in view.steps && keys[2] == "outputs"
            && keys[3] in view.steps[keys[1]] then
      Member(view.steps[keys[1]][keys[3]], keys[4..])
    else None
  }

  // The reflective walk finds exactly the addressable values.
  lemma EvaluationFindsTheAddressed(view: View, path: string)
    ensures Evaluation(view, path) == Denotes(view, Keys(path))
  {
    hide Keys, Member;
    var keys := Keys(path);
    var o := DigView(view, keys[0]);
    var rest := keys[1..];
    assert Walk(Whole(view), keys) == if o.None? then None else Walk(o.value, rest);
    if o.Some? {
      if rest == [] {
        assert keys == [keys[0]];
      } else {
        assert rest[1..] == keys[2..];
        match o.value
        case Single(_) =>
        case Texts(m) => WalkTexts(m, rest);
        case Protos(m) => if rest[0] in m { WalkProto(m[rest[0]], keys[2..]); }
        case Results(m) => WalkResults(m, keys);
      }
    }
  }

  // How a path is read, on its text: spaces at both ends do not matter, and dots separate the keys.
  lemma KeysOfText(a: string, keys: seq<string>, b: string)
    requires keys != [] && (forall i :: 0 <= i < |keys| ==> '.' !in keys[i])
    requires AllSpace(a) && Tight(Join(keys, ".")) && AllSpace(b)
    ensures Keys(a + Join(keys, ".") + b) == keys
  {
    hide AllSpace, Tight, Split, Join, TrimSpace;
    TrimmedOf(a, Join(keys, "."), b);
    assert ['.'] == ".";
    SplitJoin(keys, '.');
  }

  // The value of a path, by its text.
  lemma EvaluationOfText(view: View, a: string, keys: seq<string>, b: string)
    requires keys != [] && (forall i :: 0 <= i < |keys| ==> '.' !in keys[i])
    requires AllSpace(a) && Tight(Join(keys, ".")) && AllSpace(b)
    ensures Evaluation(view, a + Join(keys, ".") + b) == Denotes(view, keys)
  {
    KeysOfText(a, keys, b);
    EvaluationFindsTheAddressed(view, a + Join(keys, ".") + b);
    hide *;
  }

  // Every text is such a path, in one way.
  lemma EveryTextIsAPath(path: string) returns (a: string, keys: seq<string>, b: string)
    ensures path == a + Join(keys, ".") + b && keys != [] && (forall i :: 0 <= i < |keys| ==> '.' !in keys[i])
    ensures AllSpace(a) && Tight(Join(keys, ".")) && AllSpace(b)
    ensures keys == Keys(path)
  {
    hide AllSpace, Tight, TrimSpace, Join;
    a, b := TrimParts(path);
    keys := Split(TrimSpace(path), '.');
    JoinSplit(TrimSpace(path), '.');
    assert ['.'] == ".";
  }

  lemma JoinTwo(x: string, y: string)
    ensures Join([x, y], ".") == x + "." + y
  {
    assert [x, y][1..] == [y];
  }

  lemma JoinFour(x: string, y: string, z: string, u: string)
    ensures Join([x, y, z, u], ".") == x + "." + y + "." + z + "." + u
  {
    assert [x, y, z, u][1..] == [y, z, u] && [y, z, u][1..] == [z, u];
    JoinTwo(z, u);
    assert x + "." + (y + "." + (z + "." + u)) == x + "." + y + "." + z + "." + u;
  }

  lemma JoinOne(x: string)
    ensures Join([x], ".") == x
  {
  }

  // What a key may be written with.
  predicate PlainKey(key: string) {
    key != "" && Tight(key) && '.' !in key
  }

  // What each name in an expression stands for, with or without spaces around it.
  lemma NamesMean(view: View, a: string, b: string, key: string, step: string)
    requires AllSpace(a) && AllSpace(b) && PlainKey(key) && PlainKey(step)
    ensures Evaluation(view, a + "step_dir" + b) == Some(Str(view.stepDir))
    ensures Evaluation(view, a + "work_dir" + b) == Some(Str(view.workDir))
    ensures Evaluation(view, a + "output_file" + b) == Some(Str(view.outputFile))
    ensures Evaluation(view, a + "export_file" + b) == Some(Str(view.exportFile))
    ensures Evaluation(view, a + ("env." + key) + b) == if key in view.env then Some(Str(view.env[key])) else None
    ensures Evaluation(view, a + ("job." + key) + b) == if key in view.job then Some(Str(view.job[key])) else None
    ensures Evaluation(view, a + ("inputs." + key) + b) == if key in view.inputs then Some(view.inputs[key]) else None
    ensures Evaluation(view, a + ("steps." + step + ".outputs." + key) + b) ==
      if step in view.steps && key in view.steps[step] then Some(view.steps[step][key]) else None
  {
    hide Evaluation, IsSpace, AllSpace;
    OneName(view, a, b, "step_dir");
    OneName(view, a, b, "work_dir");
    OneName(view, a, b, "output_file");
    OneName(view, a, b, "export_file");
    TwoNames(view, a, b, "env", key);
    TwoNames(view, a, b, "job", key);
    TwoNames(view, a, b, "inputs", key);
    assert "env" + "." + key == "env." + key && "job" + "." + key == "job." + key;
    assert "inputs" + "." + key == "inputs." + key;
    StepName(view, a, b, step, key);
  }

  // The usual spacing of a hole, and line breaks.
  lemma SpacedName(view: View, key: string)
    requires PlainKey(key)
    ensures var value := if key in view.inputs then Some(view.inputs[key]) else None;
      Evaluation(view, " inputs." + key + " ") == value && Evaluation(view, "\n\tinputs." + key + "\r\n") == value
  {
    hide Evaluation, Tight;
    assert AllSpace(" ") && AllSpace("\n\t") && AllSpace("\r\n");
    WordEnds();
    hide IsSpace, AllSpace;
    TwoNames(view, " ", " ", "inputs", key);
    TwoNames(view, "\n\t", "\r\n", "inputs", key);
    assert " " + ("inputs" + "." + key) + " " == " inputs." + key + " ";
    assert "\n\t" + ("inputs" + "." + key) + "\r\n" == "\n\tinputs." + key + "\r\n";
  }

  lemma WordEnds()
    ensures Tight("step_dir") && Tight("work_dir") && Tight("output_file") && Tight("export_file")
    ensures PlainKey("env") && PlainKey("job") && PlainKey("inputs") && PlainKey("steps") && PlainKey("outputs")
  {
  }

  lemma OneName(view: View, a: string, b: string, name: string)
    requires AllSpace(a) && AllSpace(b) && name in ["step_dir", "work_dir", "output_file", "export_file"]
    ensures Evaluation(view, a + name + b) == Denotes(view, [name])
  {
    hide Evaluation, IsSpace, AllSpace, Denotes;
    JoinOne(name);
    WordEnds();
    EvaluationOfText(view, a, [name], b);
  }

  lemma TwoNames(view: View, a: string, b: string, name: string, key: string)
    requires AllSpace(a) && AllSpace(b) && PlainKey(key) && name in ["env", "job", "inputs"]
    ensures Evaluation(view, a + (name + "." + key) + b) ==
      match name
      case "env" => if key in view.env then Some(Str(view.env[key])) else None
      case "job" => if key in view.job then Some(Str(view.job[key])) else None
      case _ => if key in view.inputs then Some(view.inputs[key]) else None
  {
    hide Evaluation, IsSpace, AllSpace;
    var keys := [name, key];
    WordEnds();
    JoinTwo(name, key);
    TightEnds(name, ".", key);
    EvaluationOfText(view, a, keys, b);
    assert keys[2..] == [];
  }

  lemma StepName(view: View, a: string, b: string, step: string, key: string)
    requires AllSpace(a) && AllSpace(b) && PlainKey(step) && PlainKey(key)
    ensures Evaluation(view, a + ("steps." + step + ".outputs." + key) + b) ==
      if step in view.steps && key in view.steps[step] then Some(view.steps[step][key]) else None
  {
    hide Evaluation, IsSpace, AllSpace;
    var keys := ["steps", step, "outputs", key];
    WordEnds();
    JoinFour("steps", step, "outputs", key);
    assert "steps" + "." + step + "." + "outputs" + "." + key == "steps." + step + ".outputs." + key;
    TightEnds("steps", "." + step + ".outputs.", key);
    assert "steps" + ("." + step + ".outputs.") + key == "steps." + step + ".outputs." + key;
    EvaluationOfText(view, a, keys, b);
    assert keys[4..] == [];
  }

  lemma TightEnds(x: string, middle: string, y: string)
    requires x != "" && Tight(x) && y != "" && Tight(y)
    ensures Tight(x + middle + y)
  {
    hide IsSpace;
    var s := x + middle + y;
    assert s[0] == x[0] && s[|s| - 1] == y[|y| - 1];
  }

  lemma WalkTexts(m: map<string, string>, keys: seq<string>)
    requires keys != []
    ensures Walk(Texts(m), keys) == if |keys| == 1 && keys[0] in m then Some(Single(m[keys[0]])) else None
  {
    if keys[0] in m && |keys| > 1 {
      assert DigObject(Single(m[keys[0]]), keys[1]) == None;
    }
  }

  lemma WalkResults(m: map<string, Outputs>, keys: seq<string>)
    requires |keys| >= 2
    ensures var r := Walk(Results(m), keys[1..]);
      if |keys| >= 4 && keys[1] in m && keys[2] == "outputs" && keys[3] in m[keys[1]]
      then r == Walk(Proto(m[keys[1]][keys[3]]), keys[4..])
           && Walk(Proto(m[keys[1]][keys[3]]), keys[4..])
              == match Member(m[keys[1]][keys[3]], keys[4..]) case Some(u) => Some(Proto(u)) case None => None
      else r.None? || !(r.value.Single? || r.value.Proto?)
  {
    var rest := keys[1..];
    if keys[1] in m && |keys| >= 3 {
      assert rest[1..] == keys[2..];
      if keys[2] == "outputs" {
        assert keys[2..][1..] == keys[3..];
        assert Walk(Results(m), rest) == Walk(Protos(m[keys[1]]), keys[3..]);
        if |keys| >= 4 && keys[3] in m[keys[1]] {
          assert keys[3..][1..] == keys[4..];
          WalkProto(m[keys[1]][keys[3]], keys[4..]);
        }
      }
    }
  }
}
