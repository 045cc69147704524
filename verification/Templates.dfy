// The template language of pkg/internal/expression/interpolation.go, as a grammar.
//
//   template ::= (run | group)*          group ::= "${{" (run | group)* "}}"
//
// A run is a maximal stretch of text without a delimiter.
module Templates {
  import opened Prelude

  const OPEN := "${{"
  const CLOSE := "}}"

  datatype Token = Text(text: string) | Open | Close

  // Leftmost, non-overlapping delimiters, with the text between them.
  function Lex(s: string): seq<Token> {
    if s == "" then []
    else if OPEN <= s then [Open] + Lex(s[|OPEN|..])
    else if CLOSE <= s then [Close] + Lex(s[|CLOSE|..])
    else Grow(s[0], Lex(s[1..]))
  }

  // Puts a character in front, extending a leading text token.
  function Grow(c: char, ts: seq<Token>): seq<Token> {
    if ts != [] && ts[0].Text? then [Text([c] + ts[0].text)] + ts[1..] else [Text([c])] + ts
  }

  function SpellOne(t: Token): string {
    match t
    case Text(text) => text
    case Open => OPEN
    case Close => CLOSE
  }

  function Spell(ts: seq<Token>): string {
    if ts == [] then "" else SpellOne(ts[0]) + Spell(ts[1..])
  }

  lemma {:induction false} SpellAppend(a: seq<Token>, b: seq<Token>)
    ensures Spell(a + b) == Spell(a) + Spell(b)
  {
    if a == [] {
      assert a + b == b;
    } else {
      assert (a + b)[1..] == a[1..] + b;
      SpellAppend(a[1..], b);
    }
  }

  lemma LexAt(s: string)
    requires s != ""
    ensures Lex(s) ==
      if OPEN <= s then [Open] + Lex(s[|OPEN|..])
      else if CLOSE <= s then [Close] + Lex(s[|CLOSE|..])
      else Grow(s[0], Lex(s[1..]))
  {
    hide Grow;
  }

  lemma SpellFirst(t: Token, ts: seq<Token>)
    ensures Spell([t] + ts) == SpellOne(t) + Spell(ts)
  {
    assert ([t] + ts)[1..] == ts;
  }

  lemma SpellGrow(c: char, ts: seq<Token>)
    ensures Spell(Grow(c, ts)) == [c] + Spell(ts)
  {
    hide Spell;
    if ts != [] && ts[0].Text? {
      assert ts == [ts[0]] + ts[1..];
      SpellFirst(ts[0], ts[1..]);
      SpellFirst(Text([c] + ts[0].text), ts[1..]);
      assert [c] + ts[0].text + Spell(ts[1..]) == [c] + (ts[0].text + Spell(ts[1..]));
    } else {
      SpellFirst(Text([c]), ts);
    }
  }

  // Tokens tile the input: nothing is lost, repeated or reordered.
  lemma {:induction false} SpellLex(s: string)
    ensures Spell(Lex(s)) == s
  {
    hide Lex, Spell, Grow;
    if s == "" {
      NothingToLex();
    } else {
      LexAt(s);
      if OPEN <= s {
        SpellLex(s[3..]);
        SpellFirst(Open, Lex(s[3..]));
        assert s == OPEN + s[3..];
      } else if CLOSE <= s {
        SpellLex(s[2..]);
        SpellFirst(Close, Lex(s[2..]));
        assert s == CLOSE + s[2..];
      } else {
        SpellLex(s[1..]);
        SpellGrow(s[0], Lex(s[1..]));
        assert s == [s[0]] + s[1..];
      }
    }
  }

  lemma NothingToLex()
    ensures Lex("") == [] && Spell([]) == ""
  {
  }

  datatype Node = Run(text: string) | Group(inner: seq<Node>)

  // The token sequence a forest derives.
  function Yield(nodes: seq<Node>): seq<Token> {
    if nodes == [] then []
    else match nodes[0]
      case Run(text) => [Text(text)] + Yield(nodes[1..])
      case Group(inner) => [Open] + Yield(inner) + [Close] + Yield(nodes[1..])
  }

  datatype Descent = Reached(nodes: seq<Node>, rest: seq<Token>) | Unclosed

  predicate AtEnd(ts: seq<Token>) {
    ts == [] || ts[0].Close?
  }

  // Recursive descent: nodes up to the end of input or to a close that opens here did not claim.
  function Descend(ts: seq<Token>): (d: Descent)
    ensures d.Reached? ==> |d.rest| <= |ts| && AtEnd(d.rest)
    decreases |ts|
  {
    if AtEnd(ts) then Reached([], ts)
    else if ts[0].Text? then
      match Descend(ts[1..])
      case Unclosed => Unclosed
      case Reached(after, rest) => Reached([Run(ts[0].text)] + after, rest)
    else
      match Descend(ts[1..])
      case Unclosed => Unclosed
      case Reached(inner, close) =>
        if close == [] then Unclosed
        else match Descend(close[1..])
          case Unclosed => Unclosed
          case Reached(after, rest) => Reached([Group(inner)] + after, rest)
  }

  function Template(s: string): Option<seq<Node>> {
    match Descend(Lex(s))
    case Unclosed => None
    case Reached(nodes, rest) => if rest == [] then Some(nodes) else None
  }

  lemma YieldRun(text: string, after: seq<Node>, rest: seq<Token>)
    ensures Yield([Run(text)] + after) + rest == [Text(text)] + (Yield(after) + rest)
  {
    assert ([Run(text)] + after)[1..] == after;
  }

  lemma YieldGroup(inner: seq<Node>, after: seq<Node>, rest: seq<Token>)
    ensures Yield([Group(inner)] + after) + rest == [Open] + (Yield(inner) + ([Close] + (Yield(after) + rest)))
  {
    assert ([Group(inner)] + after)[1..] == after;
  }

  lemma DescendAt(ts: seq<Token>)
    ensures Descend(ts) ==
      if AtEnd(ts) then Reached([], ts)
      else match Descend(ts[1..])
        case Unclosed => Unclosed
        case Reached(inner, close) =>
          if ts[0].Text? then Reached([Run(ts[0].text)] + inner, close)
          else if close == [] then Unclosed
          else match Descend(close[1..])
            case Unclosed => Unclosed
            case Reached(after, rest) => Reached([Group(inner)] + after, rest)
  {
  }

  lemma {:induction false} DescendSound(ts: seq<Token>)
    ensures Descend(ts).Reached? ==> ts == Yield(Descend(ts).nodes) + Descend(ts).rest
    decreases |ts|
  {
    hide Descend, Yield;
    DescendAt(ts);
    if AtEnd(ts) {
      YieldNothing(ts);
    } else {
      var d := Descend(ts[1..]);
      DescendSound(ts[1..]);
      if ts[0].Text? {
        if d.Reached? {
          YieldRun(ts[0].text, d.nodes, d.rest);
          assert ts == [ts[0]] + ts[1..];
        }
      } else if d.Reached? && d.rest != [] {
        var e := Descend(d.rest[1..]);
        DescendSound(d.rest[1..]);
        if e.Reached? {
          YieldGroup(d.nodes, e.nodes, e.rest);
          assert d.rest == [Close] + d.rest[1..];
          assert ts == [Open] + ts[1..];
        }
      }
    }
  }

  lemma YieldNothing(rest: seq<Token>)
    ensures Yield([]) + rest == rest
  {
  }

  lemma {:induction false} DescendComplete(nodes: seq<Node>, rest: seq<Token>)
    requires AtEnd(rest)
    ensures Descend(Yield(nodes) + rest) == Reached(nodes, rest)
    decreases nodes
  {
    if nodes == [] {
      assert Yield(nodes) + rest == rest;
    } else {
      var after := Yield(nodes[1..]) + rest;
      assert [nodes[0]] + nodes[1..] == nodes;
      DescendComplete(nodes[1..], rest);
      match nodes[0]
      case Run(text) => DescendRun(text, nodes[1..], rest);
      case Group(inner) =>
        DescendComplete(inner, [Close] + after);
        DescendGroup(inner, nodes[1..], rest);
    }
  }

  lemma DescendRun(text: string, after: seq<Node>, rest: seq<Token>)
    requires Descend(Yield(after) + rest) == Reached(after, rest)
    ensures Descend(Yield([Run(text)] + after) + rest) == Reached([Run(text)] + after, rest)
  {
    YieldRun(text, after, rest);
    assert ([Text(text)] + (Yield(after) + rest))[1..] == Yield(after) + rest;
  }

  lemma DescendGroup(inner: seq<Node>, after: seq<Node>, rest: seq<Token>)
    requires Descend(Yield(after) + rest) == Reached(after, rest)
    requires Descend(Yield(inner) + ([Close] + (Yield(after) + rest))) == Reached(inner, [Close] + (Yield(after) + rest))
    ensures Descend(Yield([Group(inner)] + after) + rest) == Reached([Group(inner)] + after, rest)
  {
    YieldGroup(inner, after, rest);
    var close := [Close] + (Yield(after) + rest);
    assert close[1..] == Yield(after) + rest;
    assert ([Open] + (Yield(inner) + close))[1..] == Yield(inner) + close;
  }

  // The parser accepts exactly the derivable inputs, with the one forest that derives them.
  lemma TemplateIsTheGrammar(s: string, nodes: seq<Node>)
    ensures Template(s) == Some(nodes) <==> Yield(nodes) == Lex(s)
  {
    DescendSound(Lex(s));
    if Yield(nodes) == Lex(s) {
      DescendComplete(nodes, []);
      assert Yield(nodes) + [] == Yield(nodes);
    }
    if Template(s) == Some(nodes) {
      assert Yield(nodes) + [] == Yield(nodes);
    }
  }

  // What the text of a node looks like in the input.
  function Source(node: Node): string {
    match node
    case Run(text) => text
    case Group(inner) => OPEN + Spell(Yield(inner)) + CLOSE
  }

  function Sources(nodes: seq<Node>): seq<string> {
    seq(|nodes|, i requires 0 <= i < |nodes| => Source(nodes[i]))
  }

  lemma {:induction false} SourcesTile(nodes: seq<Node>)
    ensures Concat(Sources(nodes)) == Spell(Yield(nodes))
  {
    if nodes != [] {
      SourcesTile(nodes[1..]);
      assert Sources(nodes)[1..] == Sources(nodes[1..]);
      assert [nodes[0]] + nodes[1..] == nodes;
      match nodes[0]
      case Run(text) => SpellRun(text, nodes[1..], "");
      case Group(inner) =>
        SpellGroup(inner, nodes[1..], "");
        assert "" + OPEN == OPEN;
    }
  }

  // Literals, holes and delimiters tile the input exactly.
  lemma TemplateTiles(s: string)
    ensures Template(s).Some? ==> Concat(Sources(Template(s).value)) == s
  {
    if Template(s).Some? {
      TemplateIsTheGrammar(s, Template(s).value);
      SourcesTile(Template(s).value);
      SpellLex(s);
    }
  }

  // Nesting depth after a token sequence.
  function Depth(ts: seq<Token>): int {
    if ts == [] then 0 else (if ts[0].Open? then 1 else if ts[0].Close? then -1 else 0) + Depth(ts[1..])
  }

  ghost predicate NeverBelow(ts: seq<Token>, d: int) {
    forall i :: 0 <= i <= |ts| ==> d + Depth(ts[..i]) >= 0
  }

  ghost predicate Balanced(ts: seq<Token>) {
    NeverBelow(ts, 0) && Depth(ts) == 0
  }

  lemma {:induction false} DepthAppend(a: seq<Token>, b: seq<Token>)
    ensures Depth(a + b) == Depth(a) + Depth(b)
  {
    if a == [] {
      assert a + b == b;
    } else {
      assert (a + b)[1..] == a[1..] + b;
      DepthAppend(a[1..], b);
    }
  }

  lemma NeverBelowStep(ts: seq<Token>, d: int)
    requires ts != [] && d >= 0
    ensures NeverBelow(ts, d) <==> NeverBelow(ts[1..], d + Depth(ts[..1]))
  {
    assert Depth(ts[..1]) == Depth(ts) - Depth(ts[1..]) by { assert ts == ts[..1] + ts[1..]; DepthAppend(ts[..1], ts[1..]); }
    forall i | 0 <= i < |ts|
      ensures Depth(ts[..i + 1]) == Depth(ts[..1]) + Depth(ts[1..][..i])
    {
      assert ts[..i + 1] == ts[..1] + ts[1..][..i];
      DepthAppend(ts[..1], ts[1..][..i]);
    }
    if NeverBelow(ts, d) {
      forall i | 0 <= i <= |ts[1..]| ensures d + Depth(ts[..1]) + Depth(ts[1..][..i]) >= 0 {
        assert d + Depth(ts[..i + 1]) >= 0;
      }
    }
    if NeverBelow(ts[1..], d + Depth(ts[..1])) {
      forall i | 0 <= i <= |ts| ensures d + Depth(ts[..i]) >= 0 {
        if i > 0 { assert d + Depth(ts[..1]) + Depth(ts[1..][..i - 1]) >= 0; }
      }
    }
  }

  // The pieces a scan at nesting depth `depth` collects; `hole` is the text of the open hole so far.
  datatype Piece = Literal(text: string) | Hole(path: string)

  function Scan(ts: seq<Token>, depth: nat, hole: string): Option<seq<Piece>>
    decreases |ts|
  {
    if ts == [] then if depth == 0 then Some([]) else None
    else if depth == 0 then
      match ts[0]
      case Text(text) => Prepend([Literal(text)], Scan(ts[1..], 0, ""))
      case Open => Scan(ts[1..], 1, "")
      case Close => None
    else if depth == 1 && ts[0].Close? then Prepend([Hole(hole)], Scan(ts[1..], 0, ""))
    else
      var depth' := if ts[0].Open? then depth + 1 else if ts[0].Close? then depth - 1 else depth;
      Scan(ts[1..], depth', hole + SpellOne(ts[0]))
  }

  function Prepend<T>(front: seq<T>, o: Option<seq<T>>): Option<seq<T>> {
    match o
    case None => None
    case Some(s) => Some(front + s)
  }

  function PieceOf(node: Node): Piece {
    match node
    case Run(text) => Literal(text)
    case Group(inner) => Hole(Spell(Yield(inner)))
  }

  function Pieces(nodes: seq<Node>): seq<Piece> {
    seq(|nodes|, i requires 0 <= i < |nodes| => PieceOf(nodes[i]))
  }

  lemma SpellRun(text: string, after: seq<Node>, hole: string)
    ensures hole + text + Spell(Yield(after)) == hole + Spell(Yield([Run(text)] + after))
  {
    assert ([Run(text)] + after)[1..] == after;
    SpellAppend([Text(text)], Yield(after));
    assert Spell([Text(text)]) == text + Spell([]);
  }

  lemma SpellGroup(inner: seq<Node>, after: seq<Node>, hole: string)
    ensures hole + OPEN + Spell(Yield(inner)) + CLOSE + Spell(Yield(after))
         == hole + Spell(Yield([Group(inner)] + after))
  {
    hide Yield, Spell;
    YieldGroup(inner, after, []);
    var x, y := Spell(Yield(inner)), Spell(Yield(after));
    var tail := [Close] + Yield(after);
    assert Yield([Group(inner)] + after) + [] == Yield([Group(inner)] + after);
    assert Yield(after) + [] == Yield(after);
    SpellFirst(Open, Yield(inner) + tail);
    SpellAppend(Yield(inner), tail);
    SpellFirst(Close, Yield(after));
    assert hole + OPEN + x + CLOSE + y == hole + (OPEN + (x + (CLOSE + y)));
  }

  // Inside a hole, scanning the nodes up to the next unclaimed close only gathers their text.
  lemma ScanAt(ts: seq<Token>, depth: nat, hole: string)
    requires ts != []
    ensures Scan(ts, depth, hole) ==
      if depth == 0 then
        match ts[0]
        case Text(text) => Prepend([Literal(text)], Scan(ts[1..], 0, ""))
        case Open => Scan(ts[1..], 1, "")
        case Close => None
      else if depth == 1 && ts[0].Close? then Prepend([Hole(hole)], Scan(ts[1..], 0, ""))
      else Scan(ts[1..], if ts[0].Open? then depth + 1 else if ts[0].Close? then depth - 1 else depth, hole + SpellOne(ts[0]))
  {
    hide Prepend;
  }

  lemma ScanNothing(depth: nat, hole: string)
    ensures Scan([], depth, hole) == if depth == 0 then Some([]) else None
    ensures hole + Spell(Yield([])) == hole
  {
  }

  // Inside a hole the scan only spells what the parser parses.
  lemma {:induction false} ScanInside(ts: seq<Token>, depth: nat, hole: string)
    requires depth > 0
    ensures match Descend(ts)
      case Unclosed => Scan(ts, depth, hole) == None
      case Reached(nodes, rest) => Scan(ts, depth, hole) == Scan(rest, depth, hole + Spell(Yield(nodes)))
    decreases |ts|
  {
    hide Descend, Scan, Spell, Yield;
    DescendAt(ts);
    if AtEnd(ts) {
      ScanNothing(depth, hole);
    } else {
      ScanAt(ts, depth, hole);
      var d := Descend(ts[1..]);
      if ts[0].Text? {
        ScanInside(ts[1..], depth, hole + ts[0].text);
        if d.Reached? {
          SpellRun(ts[0].text, d.nodes, hole);
        }
      } else {
        ScanInside(ts[1..], depth + 1, hole + OPEN);
        if d.Reached? {
          var hole' := hole + OPEN + Spell(Yield(d.nodes));
          if d.rest == [] {
            ScanNothing(depth + 1, hole');
          } else {
            ScanAt(d.rest, depth + 1, hole');
            ScanInside(d.rest[1..], depth, hole' + CLOSE);
            var e := Descend(d.rest[1..]);
            if e.Reached? {
              SpellGroup(d.nodes, e.nodes, hole);
            }
          }
        }
      }
    }
  }

  lemma PiecesOf(node: Node, nodes: seq<Node>)
    ensures Pieces([node] + nodes) == [PieceOf(node)] + Pieces(nodes)
  {
    hide PieceOf;
  }

  lemma PrependPieces(node: Node, nodes: seq<Node>)
    ensures Prepend([PieceOf(node)], Some(Pieces(nodes))) == Some(Pieces([node] + nodes))
  {
    hide PieceOf, Pieces;
    PiecesOf(node, nodes);
  }

  lemma {:induction false} ScanOutside(ts: seq<Token>)
    ensures match Descend(ts)
      case Unclosed => Scan(ts, 0, "") == None
      case Reached(nodes, rest) => Scan(ts, 0, "") == if rest == [] then Some(Pieces(nodes)) else None
    decreases |ts|
  {
    hide Descend, Scan, Spell, Yield, Pieces;
    DescendAt(ts);
    if AtEnd(ts) {
      EndOutside(ts);
    } else {
      ScanAt(ts, 0, "");
      var d := Descend(ts[1..]);
      if ts[0].Text? {
        ScanOutside(ts[1..]);
        if d.Reached? {
          PrependPieces(Run(ts[0].text), d.nodes);
        }
      } else {
        ScanInside(ts[1..], 1, "");
        if d.Reached? {
          var hole := Spell(Yield(d.nodes));
          assert "" + hole == hole;
          if d.rest == [] {
            ScanNothing(1, hole);
          } else {
            ScanAt(d.rest, 1, hole);
            ScanOutside(d.rest[1..]);
            var e := Descend(d.rest[1..]);
            if e.Reached? {
              PrependPieces(Group(d.nodes), e.nodes);
            }
          }
        }
      }
    }
  }

  lemma EndOutside(ts: seq<Token>)
    requires AtEnd(ts)
    ensures Scan(ts, 0, "") == if ts == [] then Some(Pieces([])) else None
  {
    ScanNothing(0, "");
    assert Pieces([]) == [];
    if ts != [] {
      ScanAt(ts, 0, "");
    }
  }

  lemma {:induction false} ScanSucceeds(ts: seq<Token>, depth: nat, hole: string)
    ensures Scan(ts, depth, hole).Some? <==> NeverBelow(ts, depth) && depth + Depth(ts) == 0
    decreases |ts|
  {
    if ts == [] {
      assert NeverBelow(ts, depth);
    } else {
      NeverBelowStep(ts, depth);
      assert Depth(ts[..1]) + Depth(ts[1..]) == Depth(ts) by { DepthAppend(ts[..1], ts[1..]); assert ts == ts[..1] + ts[1..]; }
      assert Depth(ts[..1]) == (if ts[0].Open? then 1 else if ts[0].Close? then -1 else 0) + Depth(ts[..1][1..]);
      if depth == 0 {
        match ts[0]
        case Text(_) => ScanSucceeds(ts[1..], 0, "");
        case Open => ScanSucceeds(ts[1..], 1, "");
        case Close =>
          assert Depth(ts[..1]) == -1;
          assert depth + Depth(ts[..1]) < 0;
      } else if depth == 1 && ts[0].Close? {
        ScanSucceeds(ts[1..], 0, "");
      } else {
        var depth' := if ts[0].Open? then depth + 1 else if ts[0].Close? then depth - 1 else depth;
        ScanSucceeds(ts[1..], depth', hole + SpellOne(ts[0]));
      }
    }
  }

  // A string is a template exactly when its delimiters balance with no negative prefix.
  lemma TemplateIffBalanced(s: string)
    ensures Template(s).Some? <==> Balanced(Lex(s))
  {
    ScanOutside(Lex(s));
    ScanSucceeds(Lex(s), 0, "");
  }
}
