// pkg/internal/expression/interpolation.go: the one-pass loop over delimiter matches, proved
// equal to the recursive grammar, and its lifting to value trees.
module Interpolation {
  import opened Prelude
  import opened Values
  import opened Expressions
  import opened Templates

  // ---- Meaning, by the grammar ----

  function NodeValue(view: View, node: Node): Option<Value> {
    match node
    case Run(text) => Some(Str(text))
    case Group(inner) => Evaluation(view, Spell(Yield(inner)))
  }

  function NodeValues(view: View, nodes: seq<Node>): Option<seq<Value>> {
    if forall i :: 0 <= i < |nodes| ==> NodeValue(view, nodes[i]).Some? then
      Some(seq(|nodes|, i requires 0 <= i < |nodes| => NodeValue(view, nodes[i]).value))
    else None
  }

  // Every value as text, in order.
  function Rendered(json: JsonOf, values: seq<Value>): Option<string> {
    if values == [] then Some("")
    else match (Rendered(json, values[..|values| - 1]), ValueToString(json, values[|values| - 1]))
      case (Some(front), Some(last)) => Some(front + last)
      case _ => None
  }

  // A lone piece keeps its type, anything else is rendered and joined.
  function Joined(json: JsonOf, values: seq<Value>): Option<Value> {
    if |values| == 1 then Some(values[0])
    else match Rendered(json, values)
      case None => None
      case Some(text) => Some(Str(text))
  }

  function Interpolated(json: JsonOf, view: View, s: string): Option<Value> {
    match Template(s)
    case None => None
    case Some(nodes) =>
      match NodeValues(view, nodes)
      case None => None
      case Some(values) => Joined(json, values)
  }

  function ExpandedString(json: JsonOf, view: View, s: string): Option<string> {
    match Interpolated(json, view, s)
    case None => None
    case Some(v) => ValueToString(json, v)
  }

  // ---- The loop ----

  datatype Match = Match(start: nat, end: nat)

  // regexp.FindAllStringIndex for the two delimiters, from position i on.
  function Matches(s: string, i: nat): (ms: seq<Match>)
    requires i <= |s|
    ensures forall k :: 0 <= k < |ms| ==> i <= ms[k].start < ms[k].end <= |s|
    decreases |s| - i
  {
    if i == |s| then []
    else if OPEN <= s[i..] then [Match(i, i + |OPEN|)] + Matches(s, i + |OPEN|)
    else if CLOSE <= s[i..] then [Match(i, i + |CLOSE|)] + Matches(s, i + |CLOSE|)
    else Matches(s, i + 1)
  }

  // Tokens that start with the text between two positions.
  function Gap(s: string, from: nat, to: nat, tail: seq<Token>): seq<Token>
    requires from <= to <= |s|
  {
    if from == to then tail else [Text(s[from..to])] + tail
  }

  function Delimiter(s: string, m: Match): Token
    requires m.start <= m.end <= |s|
  {
    if s[m.start..m.end] == OPEN then Open else Close
  }

  // The next match splits the remaining tokens into a gap, the delimiter, and the rest.
  lemma {:induction false} NextMatch(s: string, i: nat)
    requires i <= |s|
    ensures var ms := Matches(s, i);
      if ms == [] then Lex(s[i..]) == Gap(s, i, |s|, [])
      else
        && ms[1..] == Matches(s, ms[0].end)
        && SpellOne(Delimiter(s, ms[0])) == s[ms[0].start..ms[0].end]
        && Lex(s[i..]) == Gap(s, i, ms[0].start, [Delimiter(s, ms[0])] + Lex(s[ms[0].end..]))
    decreases |s| - i
  {
    if i < |s| {
      var r := s[i..];
      if OPEN <= r {
        assert r[3..] == s[i + 3..];
      } else if CLOSE <= r {
        assert r[2..] == s[i + 2..];
      } else {
        assert r[1..] == s[i + 1..];
        NextMatch(s, i + 1);
        var ms := Matches(s, i);
        if ms == [] {
          GrowGap(s, i, |s|, []);
        } else {
          GrowGap(s, i, ms[0].start, [Delimiter(s, ms[0])] + Lex(s[ms[0].end..]));
        }
      }
    }
  }

  lemma GrowGap(s: string, i: nat, m: nat, rest: seq<Token>)
    requires i < m <= |s| && (rest == [] || !rest[0].Text?)
    ensures Grow(s[i], Gap(s, i + 1, m, rest)) == Gap(s, i, m, rest)
  {
    assert s[i..m] == [s[i]] + s[i + 1..m];
    if i + 1 == m {
      assert s[i..m] == [s[i]];
    } else {
      assert ([Text(s[i + 1..m])] + rest)[1..] == rest;
    }
  }

  function PieceValue(view: View, p: Piece): Option<Value> {
    match p
    case Literal(text) => Some(Str(text))
    case Hole(path) => Evaluation(view, path)
  }

  lemma PrependNothing<T>(o: Option<seq<T>>)
    ensures Prepend([], o) == o
  {
    if o.Some? {
      assert [] + o.value == o.value;
    }
  }

  lemma PrependTwice<T>(a: seq<T>, b: seq<T>, o: Option<seq<T>>)
    ensures Prepend(a, Prepend(b, o)) == Prepend(a + b, o)
  {
    if o.Some? {
      assert a + (b + o.value) == a + b + o.value;
    }
  }

  // The values of collected pieces, in order.
  ghost predicate Collected(view: View, pieces: seq<Piece>, output: seq<Value>) {
    |output| == |pieces| && forall i :: 0 <= i < |pieces| ==> PieceValue(view, pieces[i]) == Some(output[i])
  }

  lemma ScanIsTemplate(json: JsonOf, view: View, s: string)
    ensures Scan(Lex(s), 0, "").None? ==> Interpolated(json, view, s) == None
    ensures Scan(Lex(s), 0, "").Some? ==>
      var pieces := Scan(Lex(s), 0, "").value;
      && ((exists i :: 0 <= i < |pieces| && PieceValue(view, pieces[i]).None?) ==> Interpolated(json, view, s) == None)
      && forall output :: Collected(view, pieces, output) ==> Interpolated(json, view, s) == Joined(json, output)
  {
    ScanOutside(Lex(s));
    if Template(s).Some? {
      var nodes := Template(s).value;
      var pieces := Pieces(nodes);
      assert forall i :: 0 <= i < |nodes| ==> NodeValue(view, nodes[i]) == PieceValue(view, pieces[i]);
      forall output | Collected(view, pieces, output)
        ensures Interpolated(json, view, s) == Joined(json, output)
      {
        assert NodeValues(view, nodes).value == output;
      }
    }
  }

  lemma {:induction false} RenderedPrefix(json: JsonOf, values: seq<Value>, i: nat)
    requires i <= |values|
    ensures Rendered(json, values[..i]).None? ==> Rendered(json, values).None?
  {
    if i < |values| {
      assert values[..|values| - 1][..i] == values[..i];
      RenderedPrefix(json, values[..|values| - 1], i);
    } else {
      assert values[..i] == values;
    }
  }

  // A single item keeps its type, otherwise all items are concatenated.
  method Join(json: JsonOf, output: seq<Value>) returns (r: Option<Value>)
    ensures r == Joined(json, output)
  {
    if |output| == 1 {
      return Some(output[0]);
    }
    var res := "";
    for i := 0 to |output|
      invariant Rendered(json, output[..i]) == Some(res)
    {
      assert output[..i + 1][..i] == output[..i];
      RenderedPrefix(json, output, i + 1);
      var str := ValueToString(json, output[i]);
      if str.None? {
        return None;
      }
      res := res + str.value;
    }
    assert output[..|output|] == output;
    r := Some(Str(res));
  }

  // What is still to be collected once the loop has passed `prev` at some depth; an open hole's
  // text starts at `open`.
  ghost function Remaining(s: string, depth: nat, open: nat, prev: nat): Option<seq<Piece>>
    requires open <= prev <= |s|
  {
    Scan(Lex(s[prev..]), depth, if depth == 0 then "" else s[open..prev])
  }

  function LiteralGap(s: string, from: nat, to: nat): seq<Piece>
    requires from <= to <= |s|
  {
    if from == to then [] else [Literal(s[from..to])]
  }

  // The text up to the next match: a literal outside holes, part of the hole's text inside.
  lemma ScanGap(s: string, depth: nat, open: nat, prev: nat, start: nat, tail: seq<Token>)
    requires open <= prev <= start <= |s|
    ensures Scan(Gap(s, prev, start, tail), depth, if depth == 0 then "" else s[open..prev]) ==
      if depth == 0 then Prepend(LiteralGap(s, prev, start), Scan(tail, 0, "")) else Scan(tail, depth, s[open..start])
  {
    hide Scan;
    if prev < start {
      ScanStep(Text(s[prev..start]), tail, depth, if depth == 0 then "" else s[open..prev]);
      assert s[open..prev] + s[prev..start] == s[open..start];
    } else {
      PrependNothing(Scan(tail, 0, ""));
    }
  }

  // One iteration: `m` is the first match from `prev` on.
  lemma Iteration(s: string, depth: nat, open: nat, prev: nat)
    requires open <= prev <= |s| && Matches(s, prev) != []
    ensures var m := Matches(s, prev)[0];
      && Matches(s, prev)[1..] == Matches(s, m.end)
      && (s[m.start..m.end] == OPEN || s[m.start..m.end] == CLOSE)
      && Remaining(s, depth, open, prev) ==
         if s[m.start..m.end] == OPEN then
           if depth == 0 then Prepend(LiteralGap(s, prev, m.start), Remaining(s, 1, m.end, m.end))
           else Remaining(s, depth + 1, open, m.end)
         else if depth == 0 then None
         else if depth == 1 then Prepend([Hole(s[open..m.start])], Remaining(s, 0, open, m.end))
         else Remaining(s, depth - 1, open, m.end)
  {
    hide Lex, Scan, Matches, Gap, Prepend;
    NextMatch(s, prev);
    var m := Matches(s, prev)[0];
    var rest := Lex(s[m.end..]);
    ScanGap(s, depth, open, prev, m.start, [Delimiter(s, m)] + rest);
    ScanStep(Delimiter(s, m), rest, depth, if depth == 0 then "" else s[open..m.start]);
    PrependNone(LiteralGap(s, prev, m.start));
    assert s[open..m.start] + s[m.start..m.end] == s[open..m.end];
    assert s[m.end..m.end] == "";
  }

  lemma PrependNone(front: seq<Piece>)
    ensures Prepend(front, None) == None
  {
  }

  lemma ScanStep(t: Token, rest: seq<Token>, depth: nat, hole: string)
    ensures Scan([t] + rest, depth, hole) ==
      if depth == 0 then
        match t
        case Text(text) => Prepend([Literal(text)], Scan(rest, 0, ""))
        case Open => Scan(rest, 1, "")
        case Close => None
      else if depth == 1 && t.Close? then Prepend([Hole(hole)], Scan(rest, 0, ""))
      else Scan(rest, if t.Open? then depth + 1 else if t.Close? then depth - 1 else depth, hole + SpellOne(t))
  {
    assert ([t] + rest)[1..] == rest;
  }

  // After the last match: an open hole is an error, otherwise the suffix is a literal.
  lemma Suffix(s: string, depth: nat, open: nat, prev: nat)
    requires open <= prev <= |s| && Matches(s, prev) == []
    ensures Remaining(s, depth, open, prev) == if depth > 0 then None else Some(LiteralGap(s, prev, |s|))
  {
    NextMatch(s, prev);
    if prev < |s| {
      ScanStep(Text(s[prev..|s|]), [], depth, if depth == 0 then "" else s[open..prev]);
      assert [Literal(s[prev..|s|])] + [] == [Literal(s[prev..|s|])];
    }
  }

  // The loop invariant after k matches: the pieces collected so far, with their values, and what
  // remains make up the whole.
  ghost predicate Progress(view: View, s: string, k: nat, pieces: seq<Piece>, output: seq<Value>,
                           depth: nat, open: nat, prev: nat)
  {
    && open <= prev <= |s|
    && k <= |Matches(s, 0)| && Matches(s, 0)[k..] == Matches(s, prev)
    && Collected(view, pieces, output)
    && Scan(Lex(s), 0, "") == Prepend(pieces, Remaining(s, depth, open, prev))
  }

  lemma Begin(view: View, s: string)
    ensures Progress(view, s, 0, [], [], 0, 0, 0)
  {
    assert s[0..] == s;
    PrependNothing(Scan(Lex(s), 0, ""));
  }

  // The next match lies ahead and is one of the two delimiters.
  lemma Ahead(view: View, s: string, k: nat, pieces: seq<Piece>, output: seq<Value>, depth: nat, open: nat, prev: nat)
    requires Progress(view, s, k, pieces, output, depth, open, prev) && k < |Matches(s, 0)|
    ensures var m := Matches(s, 0)[k];
      && open <= prev <= m.start < m.end <= |s|
      && (s[m.start..m.end] == OPEN || s[m.start..m.end] == CLOSE)
  {
    TailFrom(Matches(s, 0), k);
    Iteration(s, depth, open, prev);
  }

  lemma OpenHole(view: View, s: string, k: nat, pieces: seq<Piece>, output: seq<Value>, open: nat, prev: nat, m: Match)
    requires Progress(view, s, k, pieces, output, 0, open, prev)
    requires k < |Matches(s, 0)| && m == Matches(s, 0)[k] && prev <= m.start < m.end <= |s| && s[m.start..m.end] == OPEN
    ensures Progress(view, s, k + 1, pieces + LiteralGap(s, prev, m.start),
                     if prev == m.start then output else output + [Str(s[prev..m.start])], 1, m.end, m.end)
  {
    TailFrom(Matches(s, 0), k);
    Iteration(s, 0, open, prev);
    PrependTwice(pieces, LiteralGap(s, prev, m.start), Remaining(s, 1, m.end, m.end));
  }

  // A hole without a value fails the whole string, whatever follows it.
  lemma FailingHole(view: View, s: string, pieces: seq<Piece>, path: string, tail: Option<seq<Piece>>)
    requires Scan(Lex(s), 0, "") == Prepend(pieces + [Hole(path)], tail)
    requires Evaluation(view, path).None?
    ensures forall json :: Interpolated(json, view, s) == None
  {
    forall json ensures Interpolated(json, view, s) == None {
      ScanIsTemplate(json, view, s);
      if tail.Some? {
        var all := Scan(Lex(s), 0, "").value;
        assert all[|pieces|] == Hole(path);
        assert PieceValue(view, all[|pieces|]).None?;
      }
    }
  }

  lemma CloseHole(view: View, s: string, k: nat, pieces: seq<Piece>, output: seq<Value>, open: nat, prev: nat, m: Match)
    requires Progress(view, s, k, pieces, output, 1, open, prev)
    requires k < |Matches(s, 0)| && m == Matches(s, 0)[k]
    requires open <= prev <= m.start < m.end <= |s| && s[m.start..m.end] == CLOSE
    ensures var v := Evaluation(view, s[open..m.start]);
      && (v.None? ==> forall json :: Interpolated(json, view, s) == None)
      && (v.Some? ==> Progress(view, s, k + 1, pieces + [Hole(s[open..m.start])], output + [v.value], 0, open, m.end))
  {
    TailFrom(Matches(s, 0), k);
    Iteration(s, 1, open, prev);
    var path := s[open..m.start];
    var tail := Remaining(s, 0, open, m.end);
    PrependTwice(pieces, [Hole(path)], tail);
    if Evaluation(view, path).None? {
      FailingHole(view, s, pieces, path, tail);
    }
  }

  // Inside a hole a delimiter only moves the depth.
  lemma Nested(view: View, s: string, k: nat, pieces: seq<Piece>, output: seq<Value>, depth: nat, open: nat, prev: nat, m: Match)
    requires Progress(view, s, k, pieces, output, depth, open, prev) && depth > 0
    requires k < |Matches(s, 0)| && m == Matches(s, 0)[k] && m.start < m.end <= |s|
    ensures s[m.start..m.end] == OPEN ==> Progress(view, s, k + 1, pieces, output, depth + 1, open, m.end)
    ensures s[m.start..m.end] != OPEN && depth > 1 ==> Progress(view, s, k + 1, pieces, output, depth - 1, open, m.end)
  {
    TailFrom(Matches(s, 0), k);
    Iteration(s, depth, open, prev);
  }

  lemma ExtraClose(view: View, s: string, k: nat, pieces: seq<Piece>, output: seq<Value>, open: nat, prev: nat, m: Match)
    requires Progress(view, s, k, pieces, output, 0, open, prev)
    requires k < |Matches(s, 0)| && m == Matches(s, 0)[k] && m.start < m.end <= |s| && s[m.start..m.end] == CLOSE
    ensures forall json :: Interpolated(json, view, s) == None
  {
    TailFrom(Matches(s, 0), k);
    Iteration(s, 0, open, prev);
    forall json ensures Interpolated(json, view, s) == None {
      ScanIsTemplate(json, view, s);
    }
  }

  lemma Finish(json: JsonOf, view: View, s: string, pieces: seq<Piece>, output: seq<Value>, depth: nat, open: nat, prev: nat)
    requires Progress(view, s, |Matches(s, 0)|, pieces, output, depth, open, prev)
    ensures prev <= |s|
    ensures depth > 0 ==> Interpolated(json, view, s) == None
    ensures depth == 0 && prev == |s| ==> Interpolated(json, view, s) == Joined(json, output)
    ensures depth == 0 && prev < |s| ==> Interpolated(json, view, s) == Joined(json, output + [Str(s[prev..])])
  {
    Suffix(s, depth, open, prev);
    ScanIsTemplate(json, view, s);
    if depth == 0 {
      assert s[prev..] == s[prev..|s|];
      assert output + [] == output;
      assert Collected(view, Scan(Lex(s), 0, "").value, output + if prev == |s| then [] else [Str(s[prev..])]);
    }
  }

  method InterpolateString(json: JsonOf, view: View, value: string) returns (r: Option<Value>)
    ensures r == Interpolated(json, view, value)
  {
    hide *;
    var output: seq<Value> := [];
    var depth, prev_idx, open_idx := 0, 0, 0;
    var locs := Matches(value, 0);
    ghost var pieces: seq<Piece> := [];
    Begin(view, value);
    for k := 0 to |locs|
      invariant depth >= 0 && open_idx >= 0 && 0 <= prev_idx <= |value|
      invariant Progress(view, value, k, pieces, output, depth, open_idx, prev_idx)
    {
      var loc := locs[k];
      Ahead(view, value, k, pieces, output, depth, open_idx, prev_idx);
      ghost var before, start := output, prev_idx;
      if depth == 0 && prev_idx != loc.start {
        output := output + [Str(value[prev_idx..loc.start])];
      }
      prev_idx := loc.end;
      if value[loc.start..loc.end] == OPEN {
        depth := depth + 1;
        if depth == 1 {
          OpenHole(view, value, k, pieces, before, open_idx, start, loc);
          pieces := pieces + LiteralGap(value, start, loc.start);
          open_idx := loc.end;
        } else {
          Nested(view, value, k, pieces, output, depth - 1, open_idx, start, loc);
        }
      } else {
        depth := depth - 1;
        var insideString := value[open_idx..loc.start];
        if depth < 0 {
          ExtraClose(view, value, k, pieces, before, open_idx, start, loc);
          return None;
        } else if depth > 0 {
          Nested(view, value, k, pieces, output, depth + 1, open_idx, start, loc);
        } else {
          CloseHole(view, value, k, pieces, output, open_idx, start, loc);
          var insideValue := Evaluate(view, insideString);
          if insideValue.None? {
            return None;
          }
          output := output + [insideValue.value];
          pieces := pieces + [Hole(insideString)];
        }
      }
    }
    Finish(json, view, value, pieces, output, depth, open_idx, prev_idx);
    if depth > 0 {
      return None;
    }
    if prev_idx != |value| {
      output := output + [Str(value[prev_idx..])];
    }
    r := Join(json, output);
  }

  method ExpandString(json: JsonOf, view: View, value: string) returns (r: Option<string>)
    ensures r == ExpandedString(json, view, value)
  {
    var res := InterpolateString(json, view, value);
    r := if res.None? then None else ValueToString(json, res.value);
  }

  // ---- Value trees ----

  function Expanded(json: JsonOf, view: View, v: Value): Option<Value>
    decreases v
  {
    match v
    case Str(s) => Interpolated(json, view, s)
    case Struct(fields) =>
      if forall k :: k in fields ==> Expanded(json, view, fields[k]).Some? then
        Some(Struct(map k | k in fields :: Expanded(json, view, fields[k]).value))
      else None
    case List(items) =>
      if forall i :: 0 <= i < |items| ==> Expanded(json, view, items[i]).Some? then
        Some(List(seq(|items|, i requires 0 <= i < |items| => Expanded(json, view, items[i]).value)))
      else None
    case _ => Some(v)
  }

  method Expand(json: JsonOf, view: View, v: Value) returns (r: Option<Value>)
    ensures r == Expanded(json, view, v)
    decreases v, 1
  {
    match v
    case Str(s) => r := InterpolateString(json, view, s);
    case Struct(fields) => r := ExpandStruct(json, view, fields, v);
    case List(items) => r := ExpandList(json, view, items, v);
    case _ => r := Some(v);
  }

  // The fields may be visited in any order.
  method ExpandStruct(json: JsonOf, view: View, fields: map<string, Value>, ghost whole: Value) returns (r: Option<Value>)
    requires whole == Struct(fields)
    ensures r == Expanded(json, view, whole)
    decreases whole, 0
  {
    var res: map<string, Value> := map[];
    var left := fields.Keys;
    while left != {}
      invariant left <= fields.Keys && res.Keys == fields.Keys - left
      invariant forall k :: k in res ==> Expanded(json, view, fields[k]) == Some(res[k])
      decreases left
    {
      var fieldKey :| fieldKey in left;
      var fieldNewValue := Expand(json, view, fields[fieldKey]);
      if fieldNewValue.None? {
        assert fieldKey in fields && Expanded(json, view, fields[fieldKey]).None?;
        return None;
      }
      res := res[fieldKey := fieldNewValue.value];
      left := left - {fieldKey};
    }
    assert forall k :: k in fields ==> Expanded(json, view, fields[k]).Some?;
    assert Expanded(json, view, whole).value.fields == res;
    r := Some(Struct(res));
  }

  method ExpandList(json: JsonOf, view: View, items: seq<Value>, ghost whole: Value) returns (r: Option<Value>)
    requires whole == List(items)
    ensures r == Expanded(json, view, whole)
    decreases whole, 0
  {
    var res: seq<Value> := [];
    for i := 0 to |items|
      invariant |res| == i
      invariant forall k :: 0 <= k < i ==> Expanded(json, view, items[k]) == Some(res[k])
    {
      var listNewValue := Expand(json, view, items[i]);
      if listNewValue.None? {
        return None;
      }
      res := res + [listNewValue.value];
    }
    assert Expanded(json, view, whole).value.items == res;
    r := Some(List(res));
  }
}
