// pkg/api/client/basic/client.go: FollowLogs, and what it takes to resume from the count it returns.
module ClientLogs {
  import opened Prelude
  import opened LogLines

  // The log sink: how many bytes of the k-th message it takes, and whether it reports an error. As
  // the io.Writer contract demands, taking less than everything is an error.
  datatype Sink = Sink(takes: (nat, Bytes) -> nat, fails: nat -> bool)

  function Taken(sink: Sink, k: nat, data: Bytes): (n: nat)
    ensures n <= |data|
  {
    if sink.takes(k, data) <= |data| then sink.takes(k, data) else |data|
  }

  predicate Fails(sink: Sink, k: nat, data: Bytes) {
    Taken(sink, k, data) < |data| || sink.fails(k)
  }

  // A message of the stream, or an error that ends it; after the last one comes io.EOF.
  type Stream = seq<Option<Bytes>>

  // The data of the first k messages.
  function Payload(stream: Stream, k: nat): seq<Bytes>
    requires k <= |stream| && forall i :: 0 <= i < k ==> stream[i].Some?
  {
    seq(k, i requires 0 <= i < k => stream[i].value)
  }

  // The first k messages are delivered whole, and then: the context was cancelled, or the stream
  // ended or broke, or the write of the next message failed. Only a cancelled relay has no count.
  ghost predicate Relayed(cancelled: nat -> bool, offset: int, stream: Stream, sink: Sink, k: nat, written: int, err: bool, sunk: Bytes) {
    && k <= |stream| && (forall i :: 0 <= i < k ==> stream[i].Some? && !Fails(sink, i, stream[i].value) && !cancelled(i))
    && var whole := Joined(Payload(stream, k));
       if cancelled(k) then written == -1 && err && sunk == whole
       else
         && written == offset + |sunk|
         && if k == |stream| then !err && sunk == whole
            else if stream[k].None? then err && sunk == whole
            else err && Fails(sink, k, stream[k].value)
                 && sunk == whole + stream[k].value[..Taken(sink, k, stream[k].value)]
  }

  // Relays the messages in order and counts the bytes the sink took, from the offset on. `sunk` is
  // what reached the sink, `k` how many messages did whole.
  method FollowLogs(cancelled: nat -> bool, connected: bool, offset: int, stream: Stream, sink: Sink)
    returns (written: int, err: bool, sunk: Bytes, k: nat)
    ensures if connected then Relayed(cancelled, offset, stream, sink, k, written, err, sunk)
            else written == -1 && err && sunk == []
  {
    sunk, k := [], 0;
    if !connected {
      return -1, true, sunk, k;
    }
    written := offset;
    while true
      invariant k <= |stream| && forall i :: 0 <= i < k ==> stream[i].Some? && !Fails(sink, i, stream[i].value) && !cancelled(i)
      invariant sunk == Joined(Payload(stream, k)) && written == offset + |sunk|
      decreases |stream| - k
    {
      if cancelled(k) {
        return -1, true, sunk, k;
      }
      if k == |stream| {
        return written, false, sunk, k;
      }
      if stream[k].None? {
        return written, true, sunk, k;
      }
      var data := stream[k].value;
      var n := Taken(sink, k, data);
      written := written + n;
      sunk := sunk + data[..n];
      if Fails(sink, k, data) {
        return written, true, sunk, k;
      }
      assert Payload(stream, k + 1) == Payload(stream, k) + [data];
      JoinedAppend(Payload(stream, k), [data]);
      JoinedOne(data);
      k := k + 1;
    }
  }

  // ---- Clean logs ----

  // A log its followers show as it is.
  ghost predicate Clean(log: Bytes) {
    N(log) == log
  }

  lemma {:induction false} ShownLength(s: Bytes)
    ensures Ended(N(s)) && |N(s)| <= |s| + if Ended(s) then 0 else 1
    decreases |s|
  {
    hide FirstLF, N;
    var i := FirstLF(s);
    NAt(s, i);
    if i < |s| {
      ShownLength(s[i + 1..]);
    }
  }

  // Clean logs are made of lines that are not empty, do not end in CR, and are ended.
  lemma CleanLine(log: Bytes)
    requires Clean(log) && log != []
    ensures var i := FirstLF(log);
      0 < i < |log| && DropCR(log[..i]) == log[..i] && Clean(log[i + 1..])
  {
    hide FirstLF, N;
    ShownLength(log);
    var i := FirstLF(log);
    NAt(log, i);
    assert log[|log| - 1] == LF;
    var line, rest := log[..i], log[i + 1..];
    ShownLength(rest);
    assert log == (line + [LF]) + rest;
    var shown := Shown(DropCR(line));
    assert shown + N(rest) == log;
    assert |shown| == |line| + 1;
    assert N(rest) == log[|shown|..] == rest;
  }

  // Which logs are clean, byte by byte: the log is ended, and no newline is at its start, after
  // another, or after a CR.
  ghost predicate Tidy(log: Bytes) {
    Ended(log) && forall i :: 0 <= i < |log| && log[i] == LF ==> i > 0 && log[i - 1] != LF && log[i - 1] != CR
  }

  lemma TidyRest(log: Bytes, i: nat)
    requires i == FirstLF(log) < |log|
    ensures Tidy(log) <==> 0 < i && log[i - 1] != CR && Tidy(log[i + 1..]) && (i + 1 < |log| ==> log[i + 1] != LF)
  {
    hide FirstLF;
    var rest := log[i + 1..];
    assert forall k :: 0 <= k < |rest| ==> rest[k] == log[i + 1 + k];
    assert Ended(log) <==> Ended(rest);
    if Tidy(log) {
      assert log[i] == LF;
      forall k | 0 <= k < |rest| && rest[k] == LF ensures k > 0 && rest[k - 1] != LF && rest[k - 1] != CR {
        assert log[i + 1 + k] == LF;
      }
    }
    if 0 < i && log[i - 1] != CR && Tidy(rest) && (i + 1 < |log| ==> log[i + 1] != LF) {
      forall j | 0 <= j < |log| && log[j] == LF ensures j > 0 && log[j - 1] != LF && log[j - 1] != CR {
        if j > i {
          assert rest[j - i - 1] == LF;
        }
      }
    }
  }

  lemma {:induction false} CleanIffTidy(log: Bytes)
    ensures Clean(log) <==> Tidy(log)
    decreases |log|
  {
    hide FirstLF, N, Tidy;
    var i := FirstLF(log);
    if log == [] {
      NAt(log, 0);
      assert Tidy(log) by {
        TidyNothing();
      }
    } else if i == |log| {
      if Clean(log) {
        CleanLine(log);
      }
      if Tidy(log) {
        TidyEnded(log);
      }
    } else {
      CleanIffTidy(log[i + 1..]);
      TidyRest(log, i);
      if Clean(log) {
        CleanLine(log);
        CleanStart(log, i);
      }
      if Tidy(log) {
        NAt(log, i);
        assert log == log[..i] + [LF] + log[i + 1..];
      }
    }
  }

  lemma TidyNothing()
    ensures Tidy([])
  {
  }

  lemma TidyEnded(log: Bytes)
    requires Tidy(log)
    ensures Ended(log)
  {
  }

  // After a line of a clean log there is no empty one.
  lemma CleanStart(log: Bytes, i: nat)
    requires Clean(log) && i == FirstLF(log) < |log| && Clean(log[i + 1..]) && DropCR(log[..i]) == log[..i] && i > 0
    ensures log[i - 1] != CR && (i + 1 < |log| ==> log[i + 1] != LF)
  {
    hide FirstLF, N;
    assert log[i - 1] == log[..i][i - 1];
    if i + 1 < |log| {
      CleanLine(log[i + 1..]);
      assert log[i + 1] == log[i + 1..][0];
    }
  }

  // Following a clean log from the middle shows the rest, except that a newline right at the cut is lost.
  lemma {:induction false} ShownFrom(log: Bytes, n: nat)
    requires Clean(log) && n <= |log|
    ensures N(log[n..]) == if n < |log| && log[n] == LF then log[n + 1..] else log[n..]
    decreases |log|
  {
    hide FirstLF, N;
    if log == [] {
      NAt(log[n..], 0);
    } else {
      CleanLine(log);
      var i := FirstLF(log);
      if n > i {
        ShownFrom(log[i + 1..], n - i - 1);
        assert log[i + 1..][n - i - 1..] == log[n..];
        assert n < |log| ==> log[i + 1..][n - i..] == log[n + 1..];
      } else {
        ShownFromFirstLine(log, n, i);
      }
    }
  }

  lemma ShownFromFirstLine(log: Bytes, n: nat, i: nat)
    requires n <= i == FirstLF(log) < |log| && DropCR(log[..i]) == log[..i] && Clean(log[i + 1..])
    ensures N(log[n..]) == if n == i then log[n + 1..] else log[n..]
  {
    hide FirstLF, N, DropCR, Shown;
    var text, line, rest := log[n..], log[n..i], log[i + 1..];
    assert log[..i][n..] == line && LF !in line;
    assert text == line + [LF] + rest;
    NCons(line, rest);
    EndOfLine(log[..i], n);
  }

  lemma EndOfLine(line: Bytes, n: nat)
    requires n <= |line| && DropCR(line) == line
    ensures Shown(DropCR(line[n..])) == if n == |line| then [] else line[n..] + [LF]
  {
    if n < |line| {
      assert line[n..][|line| - n - 1] == line[|line| - 1];
    }
  }

  // The resume law: what was shown up to a cut and what following again shows make up the log
  // exactly when the cut is not in front of a newline.
  lemma ResumeLaw(log: Bytes, n: nat)
    requires Clean(log) && n <= |log|
    ensures log[..n] + N(log[n..]) == log <==> n == |log| || log[n] != LF
  {
    hide FirstLF, N;
    ShownFrom(log, n);
    assert log[..n] + log[n..] == log;
    if n < |log| && log[n] == LF {
      assert |log[..n] + log[n + 1..]| < |log|;
    }
  }

  // ---- The count after a failure ----

  ghost predicate Alternating(messages: seq<Bytes>) {
    && |messages| % 2 == 0
    && forall i :: 0 <= i < |messages| ==>
         if i % 2 == 0 then messages[i] != [] && LF !in messages[i] else messages[i] == [LF]
  }

  // Lines and newlines take turns, and together they are what the follower shows.
  lemma {:induction false} MessagesShow(s: Bytes)
    ensures Joined(Messages(s)) == N(s) && Alternating(Messages(s))
    decreases |s|
  {
    hide FirstLF, N, Joined, Alternating;
    var i := FirstLF(s);
    NAt(s, i);
    var line := DropCR(s[..i]);
    LineShows(line);
    if i < |s| {
      MessagesShow(s[i + 1..]);
      MoreAlternating(line, Messages(s[i + 1..]));
      JoinedAppend(LineMessages(line), Messages(s[i + 1..]));
    } else {
      assert s[..i] == s;
      MoreAlternating(line, []);
      assert LineMessages(line) + [] == LineMessages(line);
    }
  }

  lemma LineShows(line: Bytes)
    ensures Joined(LineMessages(line)) == Shown(line)
    ensures Alternating([])
  {
    if line != [] {
      assert [line, [LF]][1..] == [[LF]];
      JoinedOne([LF]);
    }
  }

  lemma MoreAlternating(line: Bytes, rest: seq<Bytes>)
    requires LF !in line && Alternating(rest)
    ensures Alternating(LineMessages(line) + rest)
  {
    if line != [] {
      var all := [line, [LF]] + rest;
      forall i | 2 <= i < |all| ensures all[i] == rest[i - 2] && i % 2 == (i - 2) % 2 {
      }
    }
  }

  lemma JoinedAt(messages: seq<Bytes>, k: nat, n: nat)
    requires k < |messages| && n < |messages[k]|
    ensures |Joined(messages[..k])| + n < |Joined(messages)|
    ensures Joined(messages)[|Joined(messages[..k])| + n] == messages[k][n]
    ensures Joined(messages[..k]) + messages[k][..n] == Joined(messages)[..|Joined(messages[..k])| + n]
  {
    var before, after := messages[..k], messages[k + 1..];
    assert messages == before + ([messages[k]] + after);
    JoinedAppend(before, [messages[k]] + after);
    JoinedAppend([messages[k]], after);
    JoinedOne(messages[k]);
  }

  // A relay that broke off after k messages and n bytes of the next has relayed the log from the
  // offset to its count. Following again from there completes the log exactly when the count is not
  // just in front of a newline: not between a line and its newline.
  lemma CutLaw(log: Bytes, offset: nat, k: nat, n: nat)
    requires Clean(log) && offset <= |log| && (offset < |log| ==> log[offset] != LF)
    requires var messages := Messages(log[offset..]); k < |messages| && n <= |messages[k]|
    ensures var messages := Messages(log[offset..]);
      var sunk := Joined(messages[..k]) + messages[k][..n];
      var count := offset + |sunk|;
      && count <= |log| && sunk == log[offset..count]
      && (sunk + N(log[count..]) == log[offset..] <==> if k % 2 == 0 then n < |messages[k]| else n > 0)
  {
    hide N, Messages, Joined, Clean;
    var text := log[offset..];
    ShownFrom(log, offset);
    MessagesShow(text);
    var messages := Messages(text);
    assert Joined(messages) == text;
    SplitJoined(messages, k, n);
    var sunk := Joined(messages[..k]) + messages[k][..n];
    var count := offset + |sunk|;
    assert sunk == log[offset..count];
    ShownFrom(log, count);
    assert log[offset..] == sunk + log[count..];
    NewlineAhead(messages, k, n);
    if count < |log| {
      assert log[count] == text[|sunk|];
      if log[count] == LF {
        assert |sunk + log[count + 1..]| < |log[offset..]|;
      }
    }
  }

  lemma SplitJoined(messages: seq<Bytes>, k: nat, n: nat)
    requires k < |messages| && n <= |messages[k]|
    ensures var all, sunk := Joined(messages), Joined(messages[..k]) + messages[k][..n];
      |sunk| <= |all| && sunk == all[..|sunk|]
  {
    hide Joined;
    var before, after := messages[..k], messages[k + 1..];
    assert messages == before + ([messages[k]] + after);
    JoinedAppend(before, [messages[k]] + after);
    JoinedAppend([messages[k]], after);
    JoinedOne(messages[k]);
  }

  // Which byte comes next.
  lemma NewlineAhead(messages: seq<Bytes>, k: nat, n: nat)
    requires Alternating(messages) && k < |messages| && n <= |messages[k]|
    ensures var all, at := Joined(messages), |Joined(messages[..k]) + messages[k][..n]|;
      at < |all| && all[at] == LF <==> if k % 2 == 0 then n == |messages[k]| else n == 0
  {
    hide Joined;
    if n < |messages[k]| {
      JoinedAt(messages, k, n);
    } else {
      assert messages[..k + 1] == messages[..k] + [messages[k]];
      JoinedAppend(messages[..k], [messages[k]]);
      JoinedOne(messages[k]);
      assert messages[k][..n] == messages[k];
      if k + 1 < |messages| {
        JoinedAt(messages, k + 1, 0);
      } else {
        assert messages[..k + 1] == messages;
      }
    }
  }

  // The count FollowLogs returns when the write of a follower's message failed. Resuming from it loses
  // nothing unless the sink refused a newline outright, or reported an error on a line it took whole.
  lemma ResumeAfterFailedWrite(log: Bytes, offset: nat, cancelled: nat -> bool, stream: Stream, sink: Sink,
                               k: nat, written: int, err: bool, sunk: Bytes)
    requires Clean(log) && offset <= |log| && (offset < |log| ==> log[offset] != LF)
    requires var messages := Messages(log[offset..]);
      |stream| <= |messages| && forall i :: 0 <= i < |stream| ==> stream[i] == Some(messages[i])
    requires Relayed(cancelled, offset, stream, sink, k, written, err, sunk) && k < |stream| && !cancelled(k)
    ensures err && offset <= written <= |log| && sunk == log[offset..written]
    ensures var data := stream[k].value;
      var taken := Taken(sink, k, data);
      sunk + N(log[written..]) == log[offset..] <==> if data == [LF] then taken == 1 else taken < |data|
  {
    hide N, Messages, Joined, Clean;
    var messages := Messages(log[offset..]);
    MessagesShow(log[offset..]);
    assert Payload(stream, k) == messages[..k];
    CutLaw(log, offset, k, Taken(sink, k, stream[k].value));
    assert k % 2 == 0 ==> messages[k] != [LF];
  }

  // A refused newline is lost: the log "A" and newline, followed from the start, the line taken and
  // its newline not. The count is 1, and following from 1 shows nothing more.
  lemma RefusedNewlineIsLost()
    ensures var log: Bytes := [65, LF];
      && Clean(log) && Messages(log) == [[65], [LF]]
      && var sink := Sink((k, data) => if k == 0 then |data| else 0, k => false);
         Relayed(k => false, 0, [Some([65]), Some([LF])], sink, 1, 1, true, [65]) && [65] + N(log[1..]) != log
  {
    var log: Bytes := [65, LF];
    hide FirstLF;
    NAt(log, 1);
    NAt([], 0);
    assert log[..1] == [65] && log[2..] == [] && log[1..] == [LF];
    NAt([LF], 0);
    assert [LF][1..] == [];
    FirstLFIs(log, 1);
    FirstLFIs([], 0);
    assert Messages([]) == [];
    assert Messages(log) == [[65], [LF]];
    var stream: Stream := [Some([65]), Some([LF])];
    assert Payload(stream, 1) == [[65]];
    JoinedOne([65]);
    assert [LF][..0] == [];
    assert [65] + [] == [65];
  }
}
