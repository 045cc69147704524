// What pkg/api/internal/streamer/file/file.go makes of a text: lines and messages.
module LogLines {
  newtype byte = x: int | 0 <= x < 256
  type Bytes = seq<byte>

  const LF: byte := 10
  const CR: byte := 13

  function FirstLF(s: Bytes): (i: nat)
    ensures i <= |s| && (i < |s| ==> s[i] == LF) && forall k :: 0 <= k < i ==> s[k] != LF
  {
    if s == [] || s[0] == LF then 0 else 1 + FirstLF(s[1..])
  }

  function DropCR(line: Bytes): (r: Bytes)
    ensures r == line <==> line == [] || line[|line| - 1] != CR
    ensures r == line || r + [CR] == line
  {
    if line != [] && line[|line| - 1] == CR then line[..|line| - 1] else line
  }

  // Empty lines are dropped, every other is ended with a newline.
  function Shown(line: Bytes): Bytes {
    if line == [] then [] else line + [LF]
  }

  // What a follower shows of a text.
  function N(s: Bytes): Bytes
    decreases |s|
  {
    var i := FirstLF(s);
    if i == |s| then Shown(DropCR(s)) else Shown(DropCR(s[..i])) + N(s[i + 1..])
  }

  ghost predicate Ended(s: Bytes) {
    s == [] || s[|s| - 1] == LF
  }

  lemma FirstLFIs(s: Bytes, i: nat)
    requires i <= |s| && (i < |s| ==> s[i] == LF) && forall k :: 0 <= k < i ==> s[k] != LF
    ensures FirstLF(s) == i
  {
    hide FirstLF;
    var j := FirstLF(s);
    assert j >= i;
  }

  lemma NoLine()
    ensures Shown(DropCR([])) == []
  {
  }

  lemma NUnfolds(s: Bytes)
    ensures var i := FirstLF(s);
      N(s) == if i == |s| then Shown(DropCR(s)) else Shown(DropCR(s[..i])) + N(s[i + 1..])
  {
    hide FirstLF, DropCR, Shown;
  }

  // Unfolds N at the first newline.
  lemma NAt(s: Bytes, i: nat)
    requires i <= |s| && (i < |s| ==> s[i] == LF) && forall k :: 0 <= k < i ==> s[k] != LF
    ensures FirstLF(s) == i
    ensures N(s) == if i == |s| then Shown(DropCR(s)) else Shown(DropCR(s[..i])) + N(s[i + 1..])
    ensures s == [] ==> N(s) == []
  {
    hide FirstLF, N, DropCR, Shown;
    NoLine();
    FirstLFIs(s, i);
    NUnfolds(s);
  }

  lemma NCons(line: Bytes, rest: Bytes)
    requires LF !in line
    ensures N(line + [LF] + rest) == Shown(DropCR(line)) + N(rest)
  {
    hide FirstLF, N, DropCR, Shown;
    var s := line + [LF] + rest;
    NAt(s, |line|);
    assert s[..|line|] == line && s[|line| + 1..] == rest;
  }

  // Texts can be shown piece by piece when cut after a newline.
  lemma {:induction false} NAppend(a: Bytes, b: Bytes)
    requires Ended(a)
    ensures N(a + b) == N(a) + N(b)
    decreases |a|
  {
    hide FirstLF, N, DropCR, Shown;
    if a == [] {
      NAt(a, 0);
      assert a + b == b;
    } else {
      var line, rest := FirstLine(a);
      NCons(line, rest);
      NCons(line, rest + b);
      assert line + [LF] + rest + b == line + [LF] + (rest + b);
      NAppend(rest, b);
      assert Shown(DropCR(line)) + (N(rest) + N(b)) == Shown(DropCR(line)) + N(rest) + N(b);
    }
  }

  lemma FirstLine(a: Bytes) returns (line: Bytes, rest: Bytes)
    requires Ended(a) && a != []
    ensures a == line + [LF] + rest && LF !in line && Ended(rest) && |rest| < |a|
  {
    hide FirstLF;
    var i := FirstLF(a);
    assert a[|a| - 1] == LF;
    line, rest := a[..i], a[i + 1..];
  }

  lemma NOneLine(line: Bytes)
    requires FirstLF(line) == |line|
    ensures N(line) == Shown(DropCR(line)) && N(line + [LF]) == Shown(DropCR(line))
  {
    hide FirstLF, N, DropCR, Shown;
    NAt(line, |line|);
    NAt(line + [LF], |line|);
    NAt([], 0);
    assert (line + [LF])[..|line|] == line;
    assert (line + [LF])[|line| + 1..] == [];
  }

  // ---- The messages a follower writes ----

  function Joined(messages: seq<Bytes>): Bytes {
    if messages == [] then [] else messages[0] + Joined(messages[1..])
  }

  lemma {:induction false} JoinedAppend(a: seq<Bytes>, b: seq<Bytes>)
    ensures Joined(a + b) == Joined(a) + Joined(b)
  {
    if a == [] {
      assert a + b == b;
    } else {
      assert (a + b)[1..] == a[1..] + b;
      JoinedAppend(a[1..], b);
    }
  }

  lemma JoinedOne(m: Bytes)
    ensures Joined([m]) == m
  {
    assert [m][1..] == [];
  }

  // The messages a follower sends for a text: each line, then its newline.
  function Messages(s: Bytes): seq<Bytes>
    decreases |s|
  {
    var i := FirstLF(s);
    LineMessages(DropCR(s[..i])) + if i == |s| then [] else Messages(s[i + 1..])
  }

  function LineMessages(line: Bytes): seq<Bytes> {
    if line == [] then [] else [line, [LF]]
  }

  lemma MessagesUnfold(s: Bytes)
    ensures var i := FirstLF(s);
      Messages(s) == LineMessages(DropCR(s[..i])) + if i == |s| then [] else Messages(s[i + 1..])
  {
    hide FirstLF, DropCR, LineMessages;
  }

  // Unfolds Messages at the first newline.
  lemma MessagesAt(s: Bytes, i: nat)
    requires i <= |s| && (i < |s| ==> s[i] == LF) && forall k :: 0 <= k < i ==> s[k] != LF
    ensures Messages(s) == LineMessages(DropCR(s[..i])) + if i == |s| then [] else Messages(s[i + 1..])
  {
    hide FirstLF, Messages, DropCR, LineMessages;
    FirstLFIs(s, i);
    MessagesUnfold(s);
  }

  lemma MessagesCons(line: Bytes, rest: Bytes)
    requires LF !in line
    ensures Messages(line + [LF] + rest) == LineMessages(DropCR(line)) + Messages(rest)
  {
    hide FirstLF, Messages, DropCR, LineMessages;
    var s := line + [LF] + rest;
    MessagesAt(s, |line|);
    assert s[..|line|] == line && s[|line| + 1..] == rest;
  }

  lemma MessagesOfNothing()
    ensures Messages([]) == []
  {
    NoLine();
    hide Messages;
    MessagesAt([], 0);
    assert LineMessages(DropCR([])) == [];
  }

  lemma {:induction false} MessagesAppend(a: Bytes, b: Bytes)
    requires Ended(a)
    ensures Messages(a + b) == Messages(a) + Messages(b)
    decreases |a|
  {
    hide FirstLF, Messages, DropCR, LineMessages;
    if a == [] {
      MessagesOfNothing();
      assert a + b == b && [] + Messages(b) == Messages(b);
    } else {
      var line, rest := FirstLine(a);
      MessagesCons(line, rest);
      MessagesCons(line, rest + b);
      assert line + [LF] + rest + b == line + [LF] + (rest + b);
      MessagesAppend(rest, b);
      var first := LineMessages(DropCR(line));
      assert first + (Messages(rest) + Messages(b)) == first + Messages(rest) + Messages(b);
    }
  }

  lemma MessagesOfLine(line: Bytes)
    requires LF !in line
    ensures Messages(line) == LineMessages(DropCR(line)) && Messages(line + [LF]) == LineMessages(DropCR(line))
  {
    hide FirstLF, Messages, DropCR, LineMessages;
    MessagesOfNothing();
    MessagesAt(line, |line|);
    assert line[..|line|] == line;
    var none: seq<Bytes> := [];
    assert LineMessages(DropCR(line)) + none == LineMessages(DropCR(line));
    MessagesCons(line, []);
    assert line + [LF] + [] == line + [LF];
  }

  // ---- Unended lines ----

  // What follows the last newline.
  function LastLine(s: Bytes): (line: Bytes)
    ensures LF !in line
  {
    if s == [] || s[|s| - 1] == LF then [] else LastLine(s[..|s| - 1]) + [s[|s| - 1]]
  }

  lemma {:induction false} LastLineIsLast(s: Bytes) returns (a: Bytes)
    ensures s == a + LastLine(s) && Ended(a)
  {
    if s == [] || s[|s| - 1] == LF {
      a := s;
    } else {
      a := LastLineIsLast(s[..|s| - 1]);
    }
  }

  // What shows once more of a last line is there: exactly as long as the line's own newline has not
  // been shown, or shows nothing, or is where the line ends, is what was shown a prefix of it.
  lemma PrefixOfMoreIff(a: Bytes, line: Bytes, rest: Bytes, out: Bytes)
    requires Ended(a) && LF !in line && out <= N(a + line)
    ensures var r := rest[..FirstLF(rest)];
      out <= N(a + line + rest) <==> out != N(a + line) || DropCR(line) == [] || DropCR(line + r) == DropCR(line)
  {
    hide FirstLF, N;
    var i := FirstLF(rest);
    var r := rest[..i];
    assert LF !in line + r;
    FirstLFIs(line, |line|);
    NOneLine(line);
    NAppend(a, line);
    NAppend(a, line + rest);
    assert a + line + rest == a + (line + rest);
    var shown, more := DropCR(line), DropCR(line + r);
    var tail := MoreOfLine(line, rest);
    assert N(a + line + rest) == N(a) + (Shown(more) + tail);
    DropCRGrows(line, r);
    ShownPrefixIff(N(a), shown, more, tail, out);
  }

  lemma DropCRGrows(line: Bytes, r: Bytes)
    ensures DropCR(line) <= DropCR(line + r)
  {
    if r != [] {
      assert line <= (line + r)[..|line + r| - 1];
    } else {
      assert line + r == line;
    }
  }

  lemma MoreOfLine(line: Bytes, rest: Bytes) returns (tail: Bytes)
    requires LF !in line
    ensures N(line + rest) == Shown(DropCR(line + rest[..FirstLF(rest)])) + tail
  {
    hide FirstLF, N, DropCR, Shown;
    var i := FirstLF(rest);
    var r := rest[..i];
    if i < |rest| {
      tail := N(rest[i + 1..]);
      NCons(line + r, rest[i + 1..]);
      assert line + rest == line + r + [LF] + rest[i + 1..];
    } else {
      tail := [];
      assert r == rest;
      FirstLFIs(line + rest, |line + rest|);
      NOneLine(line + rest);
    }
  }

  lemma ShownPrefixIff(front: Bytes, shown: Bytes, more: Bytes, tail: Bytes, out: Bytes)
    requires out <= front + Shown(shown) && LF !in more && shown <= more
    ensures out <= front + (Shown(more) + tail) <==> out != front + Shown(shown) || shown == [] || more == shown
  {
    var whole := front + (Shown(more) + tail);
    if shown == [] || out != front + Shown(shown) {
      assert out <= front + shown;
      assert front + shown <= whole;
    } else {
      var n := |front| + |shown|;
      assert out[n] == LF;
      if more != shown {
        assert whole[n] == more[|shown|];
      } else {
        assert whole == out + tail;
      }
    }
  }
}
