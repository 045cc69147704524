// The writes of a follower, as pkg/api/service/service.go sends them on: one message each.
module LogDelivery {
  import opened Prelude
  import opened LogLines
  import opened LogStreamer
  import opened ClientLogs

  function OwedMessages(pc: Pc): seq<Bytes> {
    match pc
    case Emit(line) => LineMessages(line)
    case EmitNewline => [[LF]]
    case _ => []
  }

  // The writes so far, and those still owed, are the messages of what was consumed.
  ghost predicate Delivered(log: Bytes, f: Follower) {
    if f.pc.Failed? then f.writes <= Messages(Consumed(log, f))
    else f.writes + OwedMessages(f.pc) == Messages(Consumed(log, f))
  }

  ghost predicate AllDelivered(st: State) {
    forall i :: 0 <= i < |st.followers| ==> Delivered(st.log, st.followers[i])
  }

  lemma MessagesByTake(before: Bytes, pending: Bytes, end: Bytes)
    requires Ended(before) && (end == [] || end == [LF])
    ensures var line := pending[..FirstLF(pending)];
      Messages(before + (line + end)) == Messages(before) + LineMessages(DropCR(line))
  {
    hide FirstLF, Messages, DropCR, LineMessages;
    var line := pending[..FirstLF(pending)];
    MessagesOfLine(line);
    MessagesAppend(before, line + end);
    assert line + [] == line;
  }

  lemma DeliveredAfterTake(log: Bytes, stop: bool, f: Follower, move: Move)
    requires Good(log, stop, f) && Delivered(log, f)
    requires (move.TakeLine? || move.TakeRest?) && Moved(log, stop, f, move).Some?
    ensures Delivered(log, Moved(log, stop, f, move).value)
  {
    hide FirstLF, N, Messages, DropCR, LineMessages, Reading, Consumed;
    ConsumedByTake(log, stop, f, move);
    MessagesByTake(Consumed(log, f), f.pending, if move.TakeLine? then [LF] else []);
    assert f.writes + [] == f.writes;
  }

  // Other moves consume nothing; a write that succeeds pays what is owed.
  lemma DeliveredAfterOther(log: Bytes, stop: bool, f: Follower, move: Move)
    requires Good(log, stop, f) && Delivered(log, f)
    requires !move.TakeLine? && !move.TakeRest? && Moved(log, stop, f, move).Some?
    ensures Delivered(log, Moved(log, stop, f, move).value)
  {
    hide FirstLF, N, Messages, HasLine, Ended;
    var f' := Moved(log, stop, f, move).value;
    if move.Read? {
      GoodAfterRead(log, stop, f, move.n);
    }
    assert Consumed(log, f') == Consumed(log, f);
    hide Consumed;
    match move
    case WriteLine => assert f.writes + [f.pc.line] + [[LF]] == f.writes + LineMessages(f.pc.line);
    case WriteNewline => assert f'.writes + [] == f'.writes;
    case Skip => assert f.writes + [] == f.writes;
    case _ =>
  }

  lemma ConsumedAfterWrite(log: Bytes, stop: bool, f: Follower, p: Bytes)
    requires Reading(log, stop, f)
    ensures Consumed(log + p, f) == Consumed(log, f)
  {
    if f.pos <= |log| {
      assert (log + p)[f.offset..f.pos - |f.pending|] == log[f.offset..f.pos - |f.pending|];
    } else if f.pos <= |log + p| {
      assert (log + p)[f.offset..f.pos - |f.pending|] == [];
    }
  }

  lemma NextDelivers(st: State, step: Step)
    requires Inv(st) && AllDelivered(st) && Next(st, step).Some?
    ensures AllDelivered(Next(st, step).value)
  {
    hide Good, Moved, Messages, Consumed;
    var st' := Next(st, step).value;
    forall i | 0 <= i < |st'.followers| ensures Delivered(st'.log, st'.followers[i]) {
      if i < |st.followers| {
        var f := st.followers[i];
        assert Good(st.log, st.stop, f) && Delivered(st.log, f);
        match step
        case Write(p) => WokenDelivers(st.log, st.stop, f, p);
        case Stop =>
          WokenDelivers(st.log, st.stop, f, []);
          assert st.log + [] == st.log;
        case Start(_) =>
        case Cancel(k) => CancelDelivers(st.log, f);
        case Follow(k, move) =>
          if i == k {
            DeliveredAfterMove(st.log, st.stop, f, move);
          }
      } else {
        StartDelivers(st'.log, st'.followers[i].offset);
      }
    }
  }

  lemma DeliveredAfterMove(log: Bytes, stop: bool, f: Follower, move: Move)
    requires Good(log, stop, f) && Delivered(log, f) && Moved(log, stop, f, move).Some?
    ensures Delivered(log, Moved(log, stop, f, move).value)
  {
    hide Good, Moved, Delivered;
    if move.TakeLine? || move.TakeRest? {
      DeliveredAfterTake(log, stop, f, move);
    } else {
      DeliveredAfterOther(log, stop, f, move);
    }
  }

  lemma WokenDelivers(log: Bytes, stop: bool, f: Follower, p: Bytes)
    requires Good(log, stop, f) && Delivered(log, f)
    ensures Delivered(log + p, if f.pc.Waiting? then f.(pc := Scanning) else f)
  {
    hide Messages, N;
    ConsumedAfterWrite(log, stop, f, p);
    assert Consumed(log + p, f.(pc := Scanning)) == Consumed(log + p, f);
  }

  lemma CancelDelivers(log: Bytes, f: Follower)
    requires Delivered(log, f)
    ensures Delivered(log, f.(cancelled := true))
  {
    hide Messages;
    assert Consumed(log, f.(cancelled := true)) == Consumed(log, f);
  }

  lemma StartDelivers(log: Bytes, offset: nat)
    ensures Delivered(log, Follower(offset, offset, [], false, false, false, Scanning, [], []))
  {
    MessagesOfNothing();
    hide Messages;
    assert Consumed(log, Follower(offset, offset, [], false, false, false, Scanning, [], [])) == [];
  }

  lemma {:induction false} RunDelivers(steps: seq<Step>)
    requires Run(steps).Some? && NoWriteAfterStop(steps)
    ensures AllDelivered(Run(steps).value)
  {
    hide Next, Inv, Delivered;
    if steps != [] {
      var front := steps[..|steps| - 1];
      RunDelivers(front);
      RunKeepsInv(front);
      NextDelivers(Run(front).value, steps[|steps| - 1]);
    }
  }

  lemma DeliveredSoFar(log: Bytes, stop: bool, f: Follower)
    requires Good(log, stop, f) && Delivered(log, f) && !f.broken
    ensures f.writes <= Messages(Tail(log, f.offset))
    ensures f.pc.Done? ==> f.writes == Messages(Tail(log, f.offset))
  {
    hide FirstLF, N, Messages;
    var consumed := Consumed(log, f);
    assert f.writes <= Messages(consumed);
    assert f.writes + [] == f.writes;
    if f.pos > |log| || (f.eof && f.pending == []) {
      assert consumed == Tail(log, f.offset);
    } else {
      var rest := log[f.pos - |f.pending|..];
      assert Tail(log, f.offset) == consumed + rest;
      MessagesAppend(consumed, rest);
    }
  }

  // What a failing write to the i-th follower's client was still accepted with.
  function AcceptedOf(steps: seq<Step>, i: nat): nat {
    if steps == [] then 0
    else
      var last := steps[|steps| - 1];
      AcceptedOf(steps[..|steps| - 1], i) +
      if last.Follow? && last.i == i && last.move.WriteLineFails? then last.move.accepted
      else if last.Follow? && last.i == i && last.move.WriteNewlineFails? then last.move.accepted
      else 0
  }

  // What a follower has shown is its writes, and of a failing one the bytes it was accepted with.
  lemma {:induction false} ShownIsWritten(steps: seq<Step>, i: nat)
    requires Run(steps).Some?
    ensures i < |Run(steps).value.followers| ==>
      var f := Run(steps).value.followers[i];
      Joined(f.writes) <= f.out && |f.out| == |Joined(f.writes)| + AcceptedOf(steps, i)
      && (!f.pc.Failed? ==> f.out == Joined(f.writes))
    ensures i >= |Run(steps).value.followers| ==> AcceptedOf(steps, i) == 0
  {
    hide Next, Joined;
    if steps == [] {
    } else {
      var front, last := steps[..|steps| - 1], steps[|steps| - 1];
      ShownIsWritten(front, i);
      NextShows(Run(front).value, last, i, AcceptedOf(front, i));
    }
  }

  lemma NextShows(st: State, step: Step, i: nat, accepted: nat)
    requires Next(st, step).Some?
    requires i < |st.followers| ==>
      var f := st.followers[i];
      Joined(f.writes) <= f.out && |f.out| == |Joined(f.writes)| + accepted && (!f.pc.Failed? ==> f.out == Joined(f.writes))
    requires i >= |st.followers| ==> accepted == 0
    ensures var more :=
        if step.Follow? && step.i == i && step.move.WriteLineFails? then step.move.accepted
        else if step.Follow? && step.i == i && step.move.WriteNewlineFails? then step.move.accepted
        else 0;
      if i < |Next(st, step).value.followers| then
        var f := Next(st, step).value.followers[i];
        Joined(f.writes) <= f.out && |f.out| == |Joined(f.writes)| + accepted + more
        && (!f.pc.Failed? ==> f.out == Joined(f.writes))
      else accepted + more == 0
  {
    hide Joined, FirstLF, DropCR;
    NothingJoined();
    if step.Follow? && step.i == i {
      var f := st.followers[i];
      match step.move
      case WriteLine => JoinedMore(f.writes, f.pc.line);
      case WriteNewline => JoinedMore(f.writes, [LF]);
      case _ =>
    }
  }

  lemma NothingJoined()
    ensures Joined([]) == []
  {
  }

  lemma JoinedMore(writes: seq<Bytes>, data: Bytes)
    ensures Joined(writes + [data]) == Joined(writes) + data
  {
    JoinedAppend(writes, [data]);
    JoinedOne(data);
  }

  // In every interleaving, the writes of the i-th call to follow are the first of the messages of the
  // log from its offset, and all of them once it returned nil, unless its read of the file failed.
  lemma FollowersWriteTheMessages(steps: seq<Step>, i: nat)
    requires Run(steps).Some? && NoWriteAfterStop(steps) && i < |Starts(steps)|
    ensures i < |Run(steps).value.followers|
    ensures var st := Run(steps).value;
      var f, messages := st.followers[i], Messages(Tail(Writes(steps), Starts(steps)[i]));
      !f.broken ==> f.writes <= messages && (f.pc.Done? ==> f.writes == messages)
  {
    hide Good, Delivered, Run, Starts, Writes, Messages;
    RunKeepsInv(steps);
    StateOfHistory(steps);
    FollowersAreStarts(steps);
    RunDelivers(steps);
    var st := Run(steps).value;
    if !st.followers[i].broken {
      DeliveredSoFar(st.log, st.stop, st.followers[i]);
    }
  }

  // End to end: a client asked to follow from an offset and relays what that follower wrote, and its
  // sink fails at message k. The log may have grown since. Following again from the returned count
  // completes it unless the sink refused a newline outright, or reported an error on a line it took
  // whole.
  lemma ResumeAfterFollowing(steps: seq<Step>, i: nat, cancelled: nat -> bool, stream: Stream, sink: Sink,
                             k: nat, written: int, err: bool, sunk: Bytes)
    requires Run(steps).Some? && NoWriteAfterStop(steps)
    requires i < |Starts(steps)| == |Run(steps).value.followers|
    requires var log, f, offset := Run(steps).value.log, Run(steps).value.followers[i], Starts(steps)[i];
      && !f.broken && Clean(log) && offset <= |log| && (offset < |log| ==> log[offset] != LF)
      && |stream| <= |f.writes| && (forall m :: 0 <= m < |stream| ==> stream[m] == Some(f.writes[m]))
      && Relayed(cancelled, offset, stream, sink, k, written, err, sunk) && k < |stream| && !cancelled(k)
    ensures var log, offset, data := Run(steps).value.log, Starts(steps)[i], stream[k].value;
      && err && offset <= written <= |log| && sunk == log[offset..written]
      && (sunk + N(log[written..]) == log[offset..] <==>
            if data == [LF] then Taken(sink, k, data) == 1 else Taken(sink, k, data) < |data|)
  {
    hide Run, N, Messages, Clean, Relayed, Starts, Writes;
    StateOfHistory(steps);
    FollowersWriteTheMessages(steps, i);
    var log, offset := Run(steps).value.log, Starts(steps)[i];
    var messages := Messages(log[offset..]);
    assert forall m :: 0 <= m < |stream| ==> stream[m] == Some(messages[m]);
    ResumeAfterFailedWrite(log, offset, cancelled, stream, sink, k, written, err, sunk);
  }

  // Following again is following from that count: what the new call shows, whatever happened in
  // between, follows what the first relay gave.
  lemma FollowingAgain(steps: seq<Step>, i: nat, sunk: Bytes, offset: nat)
    requires Run(steps).Some? && NoWriteAfterStop(steps) && i < |Starts(steps)| && Starts(steps)[i] == offset + |sunk|
    requires var log := Run(steps).value.log;
      && Clean(log) && offset + |sunk| <= |log| && sunk == log[offset..offset + |sunk|]
      && (offset + |sunk| < |log| ==> log[offset + |sunk|] != LF)
    ensures i < |Run(steps).value.followers|
    ensures var log, f := Run(steps).value.log, Run(steps).value.followers[i];
      && (!f.broken ==> sunk + f.out <= log[offset..])
      && (f.pc.Done? ==> sunk + f.out == log[offset..])
  {
    hide Run, N, Clean, Starts, Writes, BreaksALine, NoWriteAfterStop;
    StateOfHistory(steps);
    FollowersShowTheLog(steps, i);
    var log, f := Run(steps).value.log, Run(steps).value.followers[i];
    var rest := log[offset + |sunk|..];
    assert N(rest) == rest by {
      ShownFrom(log, offset + |sunk|);
    }
    Appended(sunk, f.out, rest);
    assert log[offset..] == sunk + rest;
  }

  lemma Appended(a: Bytes, b: Bytes, c: Bytes)
    ensures b <= c ==> a + b <= a + c
  {
  }
}
