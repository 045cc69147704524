// What holds of string and value expansion as a whole.
module InterpolationLaws {
  import opened Prelude
  import opened Values
  import opened Expressions
  import opened Templates
  import opened Interpolation

  // ---- When a string expands ----

  lemma {:induction false} RenderedIff(json: JsonOf, values: seq<Value>)
    ensures Rendered(json, values).Some? <==> forall i :: 0 <= i < |values| ==> ValueToString(json, values[i]).Some?
  {
    if values != [] {
      RenderedIff(json, values[..|values| - 1]);
    }
  }

  // Success needs balanced delimiters, a value for every top-level hole, and, unless there is
  // exactly one piece, a rendering for every piece; nothing else.
  lemma InterpolationSucceedsIff(json: JsonOf, view: View, s: string)
    ensures Interpolated(json, view, s).Some? <==>
      && Balanced(Lex(s))
      && Template(s).Some?
      && (forall node :: node in Template(s).value ==> NodeValue(view, node).Some?)
      && (|Template(s).value| != 1 ==>
            forall node :: node in Template(s).value ==> ValueToString(json, NodeValue(view, node).value).Some?)
  {
    TemplateIffBalanced(s);
    hide Template, Balanced, Lex, NodeValue, ValueToString, Rendered;
    if Template(s).Some? {
      var nodes := Template(s).value;
      if NodeValues(view, nodes).Some? {
        var values := NodeValues(view, nodes).value;
        RenderedIff(json, values);
        assert forall i :: 0 <= i < |nodes| ==> nodes[i] in nodes && values[i] == NodeValue(view, nodes[i]).value;
      } else {
        var i :| 0 <= i < |nodes| && NodeValue(view, nodes[i]).None?;
        assert nodes[i] in nodes;
      }
    }
  }

  // A string that is one hole, whatever is nested in it, keeps the type of the hole's value.
  lemma LoneHoleKeepsType(json: JsonOf, view: View, s: string, inner: seq<Node>)
    requires Template(s) == Some([Group(inner)])
    ensures s == OPEN + Spell(Yield(inner)) + CLOSE
    ensures Interpolated(json, view, s) == Evaluation(view, Spell(Yield(inner)))
  {
    hide Template, Spell, Yield, Evaluation;
    var nodes := [Group(inner)];
    TemplateTiles(s);
    assert Sources(nodes)[1..] == [] && Concat([]) == "";
    assert Source(nodes[0]) + "" == Source(nodes[0]);
    assert NodeValue(view, nodes[0]) == Evaluation(view, Spell(Yield(inner)));
  }

  // Text without the characters of the delimiters.
  predicate Word(s: string) {
    forall i :: 0 <= i < |s| ==> s[i] !in {'$', '{', '}'}
  }

  lemma {:induction false} LexWord(s: string, rest: string)
    requires Word(s) && s != "" && (rest == "" || CLOSE <= rest)
    ensures Lex(s + rest) == [Text(s)] + Lex(rest)
    decreases |s|
  {
    var t := s + rest;
    assert t[0] == s[0] && OPEN[0] == '$' && CLOSE[0] == '}';
    assert !(OPEN <= t) && !(CLOSE <= t);
    assert t[1..] == s[1..] + rest;
    if |s| == 1 {
      assert t[1..] == rest && s == [s[0]];
      if rest != "" {
        assert rest[0] == CLOSE[0] == '}';
        assert Lex(rest)[0] == Close;
      }
    } else {
      LexWord(s[1..], rest);
      assert [s[0]] + s[1..] == s;
      assert ([Text(s[1..])] + Lex(rest))[1..] == Lex(rest);
    }
  }

  lemma LexHole(path: string)
    requires Word(path) && path != ""
    ensures Lex(OPEN + path + CLOSE) == [Open, Text(path), Close]
  {
    var s := OPEN + path + CLOSE;
    assert s[3..] == path + CLOSE;
    LexWord(path, CLOSE);
    assert CLOSE[2..] == "";
    assert CLOSE[0] == '}' && OPEN[0] == '$';
    assert Lex(CLOSE) == [Close] + Lex("");
  }

  // A hole without delimiters inside.
  lemma SimpleHole(path: string)
    requires Lex(OPEN + path + CLOSE) == [Open, Text(path), Close]
    ensures Template(OPEN + path + CLOSE) == Some([Group([Run(path)])]) && Spell(Yield([Run(path)])) == path
  {
    var nodes := [Group([Run(path)])];
    assert Yield([Run(path)]) == [Text(path)] + Yield([]);
    assert Yield(nodes) == [Open] + Yield([Run(path)]) + [Close] + Yield([]);
    assert Yield(nodes) == [Open, Text(path), Close];
    TemplateIsTheGrammar(OPEN + path + CLOSE, nodes);
    assert Spell(Yield([Run(path)])) == path + Spell([]);
    assert path + "" == path;
  }

  // ---- Text of a string, node by node ----

  function NodeText(json: JsonOf, view: View, node: Node): Option<string> {
    match NodeValue(view, node)
    case None => None
    case Some(v) => ValueToString(json, v)
  }

  function TextOf(json: JsonOf, view: View, nodes: seq<Node>): Option<string> {
    if nodes == [] then Some("")
    else match (NodeText(json, view, nodes[0]), TextOf(json, view, nodes[1..]))
      case (Some(first), Some(rest)) => Some(first + rest)
      case _ => None
  }

  lemma {:induction false} TextOfAppend(json: JsonOf, view: View, a: seq<Node>, b: seq<Node>)
    ensures TextOf(json, view, a + b) ==
      match (TextOf(json, view, a), TextOf(json, view, b))
      case (Some(x), Some(y)) => Some(x + y)
      case _ => None
  {
    hide NodeText;
    if a == [] {
      assert a + b == b;
      assert forall x: string :: "" + x == x;
    } else {
      assert (a + b)[1..] == a[1..] + b;
      TextOfAppend(json, view, a[1..], b);
      if NodeText(json, view, a[0]).Some? && TextOf(json, view, a[1..]).Some? && TextOf(json, view, b).Some? {
        var x, y, z := NodeText(json, view, a[0]).value, TextOf(json, view, a[1..]).value, TextOf(json, view, b).value;
        assert x + y + z == x + (y + z);
      }
    }
  }

  lemma {:induction false} TextOfRendered(json: JsonOf, view: View, nodes: seq<Node>)
    ensures NodeValues(view, nodes).None? ==> TextOf(json, view, nodes) == None
    ensures NodeValues(view, nodes).Some? ==>
      TextOf(json, view, nodes) == Rendered(json, NodeValues(view, nodes).value)
  {
    hide NodeValue;
    if nodes != [] {
      var front, last := nodes[..|nodes| - 1], nodes[|nodes| - 1];
      assert nodes == front + [last];
      TextOfRendered(json, view, front);
      TextOfAppend(json, view, front, [last]);
      assert TextOf(json, view, [last]) == match NodeText(json, view, last) case None => None case Some(x) => Some(x + "");
      assert forall x: string :: x + "" == x;
      if NodeValues(view, nodes).Some? {
        assert NodeValues(view, nodes).value[..|front|] == NodeValues(view, front).value;
      } else if NodeValue(view, last).Some? {
        assert exists i :: 0 <= i < |front| && NodeValue(view, front[i]).None?;
      }
    }
  }

  // Expanding to a string renders the nodes one after the other, typed lone pieces included.
  lemma ExpandedStringByNode(json: JsonOf, view: View, s: string)
    ensures ExpandedString(json, view, s) ==
      match Template(s) case None => None case Some(nodes) => TextOf(json, view, nodes)
  {
    if Template(s).Some? {
      var nodes := Template(s).value;
      TextOfRendered(json, view, nodes);
      if NodeValues(view, nodes).Some? {
        var values := NodeValues(view, nodes).value;
        if |values| == 1 {
          assert Rendered(json, values) ==
            match ValueToString(json, values[0]) case None => None case Some(x) => Some("" + x);
          assert forall x: string :: "" + x == x;
        }
      }
    }
  }

  // ---- Concatenation ----

  // No delimiter match of s lies across position n.
  predicate CleanCut(s: string, n: nat)
    requires n <= |s|
    decreases n
  {
    n == 0
    || if OPEN <= s then n >= |OPEN| && CleanCut(s[|OPEN|..], n - |OPEN|)
       else if CLOSE <= s then n >= |CLOSE| && CleanCut(s[|CLOSE|..], n - |CLOSE|)
       else CleanCut(s[1..], n - 1)
  }

  lemma CleanCutAt(s: string, n: nat)
    requires 0 < n <= |s|
    ensures CleanCut(s, n) <==>
      if OPEN <= s then n >= |OPEN| && CleanCut(s[|OPEN|..], n - |OPEN|)
      else if CLOSE <= s then n >= |CLOSE| && CleanCut(s[|CLOSE|..], n - |CLOSE|)
      else CleanCut(s[1..], n - 1)
  {
  }

  lemma MatchesAt(s: string, i: nat)
    requires i < |s|
    ensures OPEN <= s[i..] ==> Matches(s, i) == [Match(i, i + |OPEN|)] + Matches(s, i + |OPEN|)
    ensures !(OPEN <= s[i..]) && CLOSE <= s[i..] ==> Matches(s, i) == [Match(i, i + |CLOSE|)] + Matches(s, i + |CLOSE|)
    ensures !(OPEN <= s[i..]) && !(CLOSE <= s[i..]) ==> Matches(s, i) == Matches(s, i + 1)
  {
  }

  ghost predicate NoStraddle(ms: seq<Match>, n: nat) {
    forall m :: m in ms ==> !(m.start < n < m.end)
  }

  lemma {:induction false} CleanCutIsNoStraddle(s: string, i: nat, n: nat)
    requires i <= n <= |s|
    ensures CleanCut(s[i..], n - i) <==> NoStraddle(Matches(s, i), n)
    decreases |s| - i
  {
    hide CleanCut, Matches;
    var r := s[i..];
    if n == i {
      assert CleanCut(r, 0) by {
        NothingCut(r);
      }
    } else {
      CleanCutAt(r, n - i);
      MatchesAt(s, i);
      if OPEN <= r {
        assert r[3..] == s[i + 3..];
        if i + 3 <= n {
          CleanCutIsNoStraddle(s, i + 3, n);
        } else {
          assert Matches(s, i)[0] == Match(i, i + 3);
        }
      } else if CLOSE <= r {
        assert r[2..] == s[i + 2..];
        if i + 2 <= n {
          CleanCutIsNoStraddle(s, i + 2, n);
        } else {
          assert Matches(s, i)[0] == Match(i, i + 2);
        }
      } else {
        assert r[1..] == s[i + 1..];
        CleanCutIsNoStraddle(s, i + 1, n);
      }
    }
  }

  lemma NothingCut(s: string)
    ensures CleanCut(s, 0)
  {
  }

  // Token sequences put end to end, with text merged at the seam.
  function Weld(x: seq<Token>, y: seq<Token>): seq<Token> {
    if x == [] then y
    else if |x| == 1 && x[0].Text? && y != [] && y[0].Text? then [Text(x[0].text + y[0].text)] + y[1..]
    else [x[0]] + Weld(x[1..], y)
  }

  lemma WeldDelimiter(t: Token, x: seq<Token>, y: seq<Token>)
    requires !t.Text?
    ensures Weld([t] + x, y) == [t] + Weld(x, y)
  {
    assert ([t] + x)[1..] == x;
  }

  lemma WeldGrow(c: char, x: seq<Token>, y: seq<Token>)
    ensures Weld(Grow(c, x), y) == Grow(c, Weld(x, y))
  {
    if x == [] {
      assert Grow(c, x) == [Text([c])];
      if y != [] && y[0].Text? {
      } else {
        assert [Text([c])][1..] == [];
      }
    } else if x[0].Text? {
      assert Grow(c, x)[1..] == x[1..];
      if |x| == 1 && y != [] && y[0].Text? {
        assert [c] + x[0].text + y[0].text == [c] + (x[0].text + y[0].text);
        assert Weld(x, y)[1..] == y[1..];
      } else {
        assert Weld(x, y)[1..] == Weld(x[1..], y);
      }
    } else {
      assert Grow(c, x)[1..] == x;
      assert Weld(x, y)[0] == x[0];
    }
  }

  lemma {:induction false} LexWeld(a: string, b: string)
    requires CleanCut(a + b, |a|)
    ensures Lex(a + b) == Weld(Lex(a), Lex(b))
    decreases |a|
  {
    hide Lex, CleanCut, Weld, Grow;
    var s := a + b;
    if a == "" {
      assert s == b;
      WeldNothing(Lex(b));
    } else {
      CleanCutAt(s, |a|);
      LexAt(s);
      LexAt(a);
      if OPEN <= s {
        assert s[3..] == a[3..] + b;
        assert OPEN <= a;
        LexWeld(a[3..], b);
        WeldDelimiter(Open, Lex(a[3..]), Lex(b));
      } else if CLOSE <= s {
        assert s[2..] == a[2..] + b;
        assert CLOSE <= a;
        LexWeld(a[2..], b);
        WeldDelimiter(Close, Lex(a[2..]), Lex(b));
      } else {
        assert s[1..] == a[1..] + b;
        LexWeld(a[1..], b);
        WeldGrow(a[0], Lex(a[1..]), Lex(b));
      }
    }
  }

  lemma WeldNothing(y: seq<Token>)
    ensures Lex("") == [] && Weld([], y) == y
  {
  }

  function WeldNodes(x: seq<Node>, y: seq<Node>): seq<Node> {
    if x == [] then y
    else if |x| == 1 && x[0].Run? && y != [] && y[0].Run? then [Run(x[0].text + y[0].text)] + y[1..]
    else [x[0]] + WeldNodes(x[1..], y)
  }

  lemma {:induction false} WeldText(x: seq<Token>, y: seq<Token>, t: Token)
    requires !t.Text?
    ensures Weld(x + [t], y) == x + [t] + y
  {
    if x == [] {
      assert x + [t] == [t];
      assert [t][1..] == [];
    } else {
      assert (x + [t])[1..] == x[1..] + [t];
      WeldText(x[1..], y, t);
    }
  }

  lemma WeldFirst(t: Token, x: seq<Token>, y: seq<Token>)
    requires x != []
    ensures Weld([t] + x, y) == [t] + Weld(x, y)
  {
    assert ([t] + x)[1..] == x;
  }

  lemma {:induction false} WeldSplit(x: seq<Token>, y: seq<Token>, z: seq<Token>)
    requires y != []
    ensures Weld(x + y, z) == x + Weld(y, z)
  {
    hide Weld;
    if x == [] {
      assert x + y == y && x + Weld(y, z) == Weld(y, z);
    } else {
      var first, rest := x[0], x[1..];
      assert x == [first] + rest;
      assert x + y == [first] + (rest + y);
      WeldSplit(rest, y, z);
      WeldFirst(first, rest + y, z);
      assert [first] + (rest + Weld(y, z)) == [first] + rest + Weld(y, z);
    }
  }

  lemma {:induction false} YieldWeld(x: seq<Node>, y: seq<Node>)
    ensures Yield(WeldNodes(x, y)) == Weld(Yield(x), Yield(y))
  {
    if x == [] {
    } else if |x| == 1 {
      assert x[1..] == [];
      match x[0]
      case Run(text) =>
        assert Yield(x) == [Text(text)];
        if y != [] && y[0].Run? {
          assert WeldNodes(x, y)[1..] == y[1..];
        } else {
          assert WeldNodes(x, y)[1..] == y;
          assert [Text(text)][1..] == [];
        }
      case Group(inner) =>
        assert WeldNodes(x, y)[1..] == y;
        assert Yield(x) == [Open] + Yield(inner) + [Close];
        WeldText([Open] + Yield(inner), Yield(y), Close);
    } else {
      YieldWeld(x[1..], y);
      assert WeldNodes(x, y)[1..] == WeldNodes(x[1..], y);
      var first := match x[0] case Run(text) => [Text(text)] case Group(inner) => [Open] + Yield(inner) + [Close];
      assert Yield(x) == first + Yield(x[1..]);
      WeldSplit(first, Yield(x[1..]), Yield(y));
    }
  }

  lemma RunText(json: JsonOf, view: View, text: string)
    ensures NodeText(json, view, Run(text)) == Some(text)
  {
  }

  lemma TextOfCons(json: JsonOf, view: View, node: Node, rest: seq<Node>)
    ensures TextOf(json, view, [node] + rest) ==
      match (NodeText(json, view, node), TextOf(json, view, rest))
      case (Some(x), Some(y)) => Some(x + y)
      case _ => None
  {
    assert ([node] + rest)[1..] == rest;
  }

  lemma {:induction false} TextOfWeld(json: JsonOf, view: View, x: seq<Node>, y: seq<Node>)
    requires TextOf(json, view, x).Some? && TextOf(json, view, y).Some?
    ensures TextOf(json, view, WeldNodes(x, y)) == Some(TextOf(json, view, x).value + TextOf(json, view, y).value)
  {
    hide NodeText;
    if x == [] {
      assert "" + TextOf(json, view, y).value == TextOf(json, view, y).value;
    } else if |x| == 1 && x[0].Run? && y != [] && y[0].Run? {
      WeldRuns(json, view, x[0].text, y[0].text, y[1..]);
      assert x == [x[0]] && y == [y[0]] + y[1..];
    } else {
      hide TextOf;
      assert x == [x[0]] + x[1..];
      TextOfCons(json, view, x[0], x[1..]);
      TextOfWeld(json, view, x[1..], y);
      TextOfCons(json, view, x[0], WeldNodes(x[1..], y));
      var f, r, z := NodeText(json, view, x[0]).value, TextOf(json, view, x[1..]).value, TextOf(json, view, y).value;
      assert f + r + z == f + (r + z);
    }
  }

  lemma WeldRuns(json: JsonOf, view: View, s: string, t: string, rest: seq<Node>)
    requires TextOf(json, view, [Run(t)] + rest).Some?
    ensures TextOf(json, view, [Run(s)]).Some?
    ensures TextOf(json, view, [Run(s + t)] + rest)
         == Some(TextOf(json, view, [Run(s)]).value + TextOf(json, view, [Run(t)] + rest).value)
  {
    hide NodeText;
    RunText(json, view, s);
    RunText(json, view, t);
    RunText(json, view, s + t);
    TextOfCons(json, view, Run(t), rest);
    TextOfCons(json, view, Run(s + t), rest);
    var r := TextOf(json, view, rest).value;
    assert s + t + r == s + "" + (t + r);
  }

  lemma DepthGrow(c: char, ts: seq<Token>)
    ensures Depth(Grow(c, ts)) == Depth(ts)
  {
    if ts != [] && ts[0].Text? {
      assert Grow(c, ts)[1..] == ts[1..];
    } else {
      assert Grow(c, ts)[1..] == ts;
    }
  }

  lemma StraddledOpen(a: string, b: string)
    requires OPEN <= a + b && 0 < |a| < 3
    ensures Depth(Lex(a + b)) == 1 + Depth(Lex(b)) && Depth(Lex(a)) == 0
  {
    var s := a + b;
    assert s[..3] == OPEN;
    assert a == OPEN[..|a|] && b[..3 - |a|] == OPEN[|a|..];
    assert s[3..] == b[3 - |a|..];
    assert Lex(s)[1..] == Lex(s[3..]);
    PlainDepth(a);
    DropPlain(b, 3 - |a|);
  }

  lemma StraddledClose(a: string, b: string)
    requires CLOSE <= a + b && |a| == 1 && !(CLOSE <= b)
    ensures Depth(Lex(a + b)) == Depth(Lex(b)) - 1 && Depth(Lex(a)) == 0
  {
    var s := a + b;
    assert s[0] == CLOSE[0] == '}' && s[1] == CLOSE[1] == '}';
    assert a == "}" && b[0] == '}';
    assert s[2..] == b[1..];
    assert Lex(s)[1..] == Lex(s[2..]);
    PlainDepth(a);
    DepthGrow(b[0], Lex(b[1..]));
  }

  // A delimiter formed across the seam changes the nesting balance.
  lemma {:induction false} StraddleUnbalances(a: string, b: string)
    requires !CleanCut(a + b, |a|) && !(CLOSE <= b)
    ensures Depth(Lex(a + b)) != Depth(Lex(a)) + Depth(Lex(b))
    decreases |a|
  {
    var s := a + b;
    if OPEN <= s {
      if |a| >= 3 {
        assert s[3..] == a[3..] + b;
        StraddleUnbalances(a[3..], b);
        assert Lex(s)[1..] == Lex(s[3..]) && Lex(a)[1..] == Lex(a[3..]);
      } else {
        StraddledOpen(a, b);
      }
    } else if CLOSE <= s {
      if |a| >= 2 {
        assert s[2..] == a[2..] + b;
        StraddleUnbalances(a[2..], b);
        assert Lex(s)[1..] == Lex(s[2..]) && Lex(a)[1..] == Lex(a[2..]);
      } else {
        StraddledClose(a, b);
      }
    } else {
      assert s[1..] == a[1..] + b;
      StraddleUnbalances(a[1..], b);
      DepthGrow(s[0], Lex(s[1..]));
      DepthGrow(a[0], Lex(a[1..]));
    }
  }

  lemma PlainDepth(a: string)
    requires a == "$" || a == "${" || a == "}"
    ensures Depth(Lex(a)) == 0
  {
    DepthGrow(a[0], Lex(a[1..]));
    if |a| == 2 {
      DepthGrow(a[1], Lex(a[1..][1..]));
    }
  }

  lemma DropPlain(b: string, n: nat)
    requires 1 <= n <= 2 && n <= |b| && b[..n] == "{{"[..n]
    ensures Depth(Lex(b)) == Depth(Lex(b[n..]))
  {
    hide Lex, Depth;
    assert b[0] == b[..n][0] == "{{"[0];
    BraceIsText(b);
    if n == 2 {
      assert b[1] == b[..n][1] == "{{"[1];
      SecondBrace(b);
    }
  }

  lemma SecondBrace(b: string)
    requires |b| >= 2 && b[1] == '{'
    ensures Depth(Lex(b[1..])) == Depth(Lex(b[2..]))
  {
    hide Lex, Depth;
    BraceIsText(b[1..]);
    assert b[1..][1..] == b[2..];
  }

  // A brace in front is text, whatever follows.
  lemma BraceIsText(b: string)
    requires b != "" && b[0] == '{'
    ensures Depth(Lex(b)) == Depth(Lex(b[1..]))
  {
    hide Lex, Depth;
    LexAt(b);
    assert OPEN[0] == '$' && CLOSE[0] == '}';
    DepthGrow(b[0], Lex(b[1..]));
  }

  // ExpandString is a homomorphism exactly at clean cuts: if both halves expand, the whole expands
  // if and only if no delimiter match straddles the join, and then to the concatenation.
  lemma ExpandStringOfConcat(json: JsonOf, view: View, a: string, b: string)
    requires ExpandedString(json, view, a).Some? && ExpandedString(json, view, b).Some?
    ensures ExpandedString(json, view, a + b).Some? <==> CleanCut(a + b, |a|)
    ensures CleanCut(a + b, |a|) ==>
      ExpandedString(json, view, a + b) == Some(ExpandedString(json, view, a).value + ExpandedString(json, view, b).value)
  {
    hide Lex, Depth, Weld, Yield;
    ExpandedStringByNode(json, view, a);
    ExpandedStringByNode(json, view, b);
    ExpandedStringByNode(json, view, a + b);
    var x, y := Template(a).value, Template(b).value;
    TemplateIsTheGrammar(a, x);
    TemplateIsTheGrammar(b, y);
    if CleanCut(a + b, |a|) {
      LexWeld(a, b);
      YieldWeld(x, y);
      TemplateIsTheGrammar(a + b, WeldNodes(x, y));
      TextOfWeld(json, view, x, y);
    } else {
      TemplateIffBalanced(a);
      TemplateIffBalanced(b);
      TemplateIffBalanced(a + b);
      if CLOSE <= b {
        LeadingCloseUnbalances(b);
        assert false;
      }
      StraddleUnbalances(a, b);
    }
  }

  lemma LeadingCloseUnbalances(b: string)
    requires CLOSE <= b
    ensures !Balanced(Lex(b))
  {
    var ts := Lex(b);
    assert b[0] == CLOSE[0] == '}';
    assert ts == [Close] + Lex(b[2..]);
    assert ts[..1] == [Close] && [Close][1..] == [];
    assert 0 + Depth(ts[..1]) < 0;
  }

  // ---- Text without delimiters ----

  predicate Plain(s: string) {
    Matches(s, 0) == []
  }

  lemma PlainTemplate(s: string)
    requires Plain(s)
    ensures Template(s) == Some(if s == "" then [] else [Run(s)])
  {
    NextMatch(s, 0);
    assert s[0..] == s && s[0..|s|] == s;
    if s != "" {
      assert [Run(s)][1..] == [];
      assert Yield([Run(s)]) == [Text(s)];
      TemplateIsTheGrammar(s, [Run(s)]);
    }
  }

  lemma PlainStringsExpandToThemselves(json: JsonOf, view: View, s: string)
    requires Plain(s)
    ensures Interpolated(json, view, s) == Some(Str(s))
    ensures ExpandedString(json, view, s) == Some(s)
  {
    PlainTemplate(s);
    if s == "" {
      assert NodeValues(view, []).value == [];
    } else {
      assert NodeValues(view, [Run(s)]).value == [Str(s)];
    }
  }

  // All strings inside a value, at any depth.
  predicate PlainValue(v: Value)
    decreases v
  {
    match v
    case Str(s) => Plain(s)
    case Struct(fields) => forall k :: k in fields ==> PlainValue(fields[k])
    case List(items) => forall i :: 0 <= i < |items| ==> PlainValue(items[i])
    case _ => true
  }

  lemma {:induction false} PlainValuesExpandToThemselves(json: JsonOf, view: View, v: Value)
    requires PlainValue(v)
    ensures Expanded(json, view, v) == Some(v)
    decreases v
  {
    match v
    case Str(s) => PlainStringsExpandToThemselves(json, view, s);
    case Struct(fields) =>
      forall k | k in fields ensures Expanded(json, view, fields[k]) == Some(fields[k]) {
        PlainValuesExpandToThemselves(json, view, fields[k]);
      }
      assert Expanded(json, view, v).value.fields == fields;
    case List(items) =>
      forall i | 0 <= i < |items| ensures Expanded(json, view, items[i]) == Some(items[i]) {
        PlainValuesExpandToThemselves(json, view, items[i]);
      }
      assert Expanded(json, view, v).value.items == items;
    case _ =>
  }
}
