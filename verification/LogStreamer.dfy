// pkg/api/internal/streamer/file/file.go: one append-only log with any number of followers.
module LogStreamer {
  import opened Prelude
  import opened LogLines

  // bufio.MaxScanTokenSize: a line that fills the buffer without ending is an error.
  const MAX_TOKEN: nat := 65536

  // Where a follower is: scanning, asleep on the condition variable, about to write a line, about to
  // write that line's newline, returned nil, returned an error.
  datatype Pc = Scanning | Waiting | Emit(line: Bytes) | EmitNewline | Done | Failed

  // `out` is what its writer accepted, `writes` the writes it accepted whole; `eof` says that the
  // reader returned io.EOF or an error, `broken` that this was a failed read of the file.
  datatype Follower = Follower(
    offset: nat, pos: nat, pending: Bytes, eof: bool, broken: bool, cancelled: bool, pc: Pc, out: Bytes, writes: seq<Bytes>)

  datatype State = State(log: Bytes, stop: bool, followers: seq<Follower>)

  const INIT := State([], false, [])

  // What a follower may do next. A write that fails may have accepted some bytes.
  datatype Move =
    | Block | Read(n: nat) | SeeEof | SeeCancel | ReadError | TooLong
    | TakeLine | TakeRest | Return
    | Skip | WriteLine | WriteLineFails(accepted: nat) | WriteNewline | WriteNewlineFails(accepted: nat)

  datatype Step = Write(p: Bytes) | Stop | Start(offset: int) | Cancel(i: nat) | Follow(i: nat, move: Move)

  predicate HasLine(f: Follower) {
    FirstLF(f.pending) < |f.pending|
  }

  // The scanner needs another read.
  predicate Hungry(f: Follower) {
    f.pc.Scanning? && !f.eof && !HasLine(f) && |f.pending| < MAX_TOKEN
  }

  function Moved(log: Bytes, stop: bool, f: Follower, move: Move): Option<Follower> {
    match move
    case Block =>
      if Hungry(f) && !f.cancelled && f.pos >= |log| && !stop then Some(f.(pc := Waiting)) else None
    case Read(n) =>
      if Hungry(f) && !f.cancelled && 0 < n && f.pos + n <= |log| && |f.pending| + n <= MAX_TOKEN then
        Some(f.(pending := f.pending + log[f.pos..f.pos + n], pos := f.pos + n))
      else None
    case SeeEof =>
      if Hungry(f) && !f.cancelled && f.pos >= |log| && stop then Some(f.(eof := true)) else None
    case SeeCancel =>
      if (Hungry(f) || f.pc.Emit?) && f.cancelled then Some(f.(pc := Failed)) else None
    case ReadError =>
      if Hungry(f) && !f.cancelled then Some(f.(eof := true, broken := true)) else None
    case TooLong =>
      if f.pc.Scanning? && !f.eof && !HasLine(f) && |f.pending| >= MAX_TOKEN then Some(f.(pc := Failed)) else None
    case TakeLine =>
      if f.pc.Scanning? && HasLine(f) then
        var i := FirstLF(f.pending);
        Some(f.(pending := f.pending[i + 1..], pc := Emit(DropCR(f.pending[..i]))))
      else None
    case TakeRest =>
      if f.pc.Scanning? && f.eof && !HasLine(f) && f.pending != [] then
        Some(f.(pending := [], pc := Emit(DropCR(f.pending))))
      else None
    case Return =>
      if f.pc.Scanning? && f.eof && f.pending == [] then Some(f.(pc := if f.broken then Failed else Done)) else None
    case Skip =>
      if f.pc.Emit? && !f.cancelled && f.pc.line == [] then Some(f.(pc := Scanning)) else None
    case WriteLine =>
      if f.pc.Emit? && !f.cancelled && f.pc.line != [] then
        Some(f.(out := f.out + f.pc.line, writes := f.writes + [f.pc.line], pc := EmitNewline)) else None
    case WriteLineFails(accepted) =>
      if f.pc.Emit? && !f.cancelled && f.pc.line != [] && accepted <= |f.pc.line| then
        Some(f.(out := f.out + f.pc.line[..accepted], pc := Failed))
      else None
    case WriteNewline =>
      if f.pc.EmitNewline? then Some(f.(out := f.out + [LF], writes := f.writes + [[LF]], pc := Scanning)) else None
    case WriteNewlineFails(accepted) =>
      if f.pc.EmitNewline? && accepted <= 1 then Some(f.(out := f.out + [LF][..accepted], pc := Failed)) else None
  }

  // Broadcast: every sleeper is runnable again.
  function Woken(followers: seq<Follower>): seq<Follower> {
    seq(|followers|, i requires 0 <= i < |followers| =>
      if followers[i].pc.Waiting? then followers[i].(pc := Scanning) else followers[i])
  }

  // One critical section or one write of one of the parties.
  function Next(st: State, step: Step): Option<State> {
    match step
    case Write(p) => Some(State(st.log + p, st.stop, Woken(st.followers)))
    case Stop => Some(State(st.log, true, Woken(st.followers)))
    case Start(offset) =>
      if offset < 0 then Some(st)
      else Some(st.(followers := st.followers + [Follower(offset, offset, [], false, false, false, Scanning, [], [])]))
    case Cancel(i) =>
      if i < |st.followers| then Some(st.(followers := st.followers[i := st.followers[i].(cancelled := true)])) else None
    case Follow(i, move) =>
      if i < |st.followers| then
        (match Moved(st.log, st.stop, st.followers[i], move)
         case None => None
         case Some(f) => Some(st.(followers := st.followers[i := f])))
      else None
  }

  // An interleaving; None if some step was not possible.
  function Run(steps: seq<Step>): Option<State> {
    if steps == [] then Some(INIT)
    else match Run(steps[..|steps| - 1])
      case None => None
      case Some(st) => Next(st, steps[|steps| - 1])
  }

  // Job.Run closes the log only after the step, the one writer, has returned.
  ghost predicate NoWriteAfterStop(steps: seq<Step>) {
    forall i, j :: 0 <= i < j < |steps| && steps[i].Stop? ==> !steps[j].Write?
  }

  // The offsets that were followed from, in the order of the calls; a negative one is refused.
  function Starts(steps: seq<Step>): seq<nat> {
    if steps == [] then []
    else
      var last := steps[|steps| - 1];
      Starts(steps[..|steps| - 1]) + if last.Start? && last.offset >= 0 then [last.offset] else []
  }

  // Everything written, in order.
  function Writes(steps: seq<Step>): Bytes {
    if steps == [] then []
    else
      var last := steps[|steps| - 1];
      Writes(steps[..|steps| - 1]) + if last.Write? then last.p else []
  }

  ghost predicate Stopped(steps: seq<Step>) {
    exists k :: 0 <= k < |steps| && steps[k].Stop?
  }

  lemma {:induction false} StateOfHistory(steps: seq<Step>)
    requires Run(steps).Some?
    ensures Run(steps).value.log == Writes(steps) && (Run(steps).value.stop <==> Stopped(steps))
  {
    hide Moved, Woken;
    if steps != [] {
      var front, last := steps[..|steps| - 1], steps[|steps| - 1];
      StateOfHistory(front);
      assert forall k :: 0 <= k < |front| ==> front[k] == steps[k];
      if last.Stop? {
        assert steps[|steps| - 1].Stop?;
      }
    }
  }

  lemma NextKeepsOffsets(st: State, step: Step)
    requires Next(st, step).Some?
    ensures var st' := Next(st, step).value;
      && |st'.followers| == |st.followers| + (if step.Start? && step.offset >= 0 then 1 else 0)
      && (forall i :: 0 <= i < |st.followers| ==> st'.followers[i].offset == st.followers[i].offset)
      && (step.Start? && step.offset >= 0 ==> st'.followers[|st.followers|].offset == step.offset)
  {
    hide FirstLF, DropCR;
  }

  // One follower for each call, at the offset it asked for.
  lemma {:induction false} FollowersAreStarts(steps: seq<Step>)
    requires Run(steps).Some?
    ensures var followers := Run(steps).value.followers;
      |followers| == |Starts(steps)| && forall i :: 0 <= i < |followers| ==> followers[i].offset == Starts(steps)[i]
  {
    hide Next;
    if steps != [] {
      var front := steps[..|steps| - 1];
      FollowersAreStarts(front);
      NextKeepsOffsets(Run(front).value, steps[|steps| - 1]);
    }
  }

  // ---- The invariant ----

  function Tail(log: Bytes, offset: nat): Bytes {
    if offset <= |log| then log[offset..] else []
  }

  // What the scanner has consumed.
  ghost function Consumed(log: Bytes, f: Follower): Bytes
  {
    if f.offset + |f.pending| <= f.pos <= |log| then log[f.offset..f.pos - |f.pending|] else []
  }

  function Owed(pc: Pc): Bytes {
    match pc
    case Emit(line) => Shown(line)
    case EmitNewline => [LF]
    case _ => []
  }

  ghost predicate Reading(log: Bytes, stop: bool, f: Follower) {
    && f.offset <= f.pos && |f.pending| <= f.pos - f.offset
    && (if f.pos <= |log| then f.pending == log[f.pos - |f.pending|..f.pos] else f.pos == f.offset)
    && (f.eof && !f.broken ==> stop && f.pos >= |log|)
  }

  ghost predicate Good(log: Bytes, stop: bool, f: Follower) {
    && Reading(log, stop, f)
    && (Ended(Consumed(log, f)) || (f.eof && f.pending == []))
    && (if f.pc.Failed? then f.out <= N(Consumed(log, f)) else f.out + Owed(f.pc) == N(Consumed(log, f)))
    && (f.pc.Waiting? ==> f.pos >= |log| && !stop && !f.eof)
    && (f.pc.Done? ==> f.eof && !f.broken && f.pending == [])
  }

  lemma GoodStart(log: Bytes, stop: bool, offset: nat)
    ensures Good(log, stop, Follower(offset, offset, [], false, false, false, Scanning, [], []))
  {
    hide FirstLF, Moved;
  }

  lemma GoodAfterWrite(log: Bytes, f: Follower, p: Bytes)
    requires Good(log, false, f)
    ensures Good(log + p, false, if f.pc.Waiting? then f.(pc := Scanning) else f)
  {
    hide FirstLF, N, Moved;
    var f' := if f.pc.Waiting? then f.(pc := Scanning) else f;
    if f.pos <= |log| {
      assert (log + p)[f.pos - |f.pending|..f.pos] == log[f.pos - |f.pending|..f.pos];
      assert Consumed(log + p, f') == Consumed(log, f);
    } else {
      assert Consumed(log + p, f') == [];
    }
  }

  lemma GoodAfterStop(log: Bytes, stop: bool, f: Follower)
    requires Good(log, stop, f)
    ensures Good(log, true, if f.pc.Waiting? then f.(pc := Scanning) else f)
  {
    hide FirstLF, N, Moved;
  }

  lemma LineConsumed(log: Bytes, offset: nat, from: nat, pos: nat, i: nat)
    requires offset <= from <= from + i < pos <= |log| && log[from..pos][i] == LF
    ensures log[offset..from] + (log[from..pos][..i] + [LF]) == log[offset..from + i + 1]
    ensures log[from..pos][i + 1..] == log[from + i + 1..pos]
  {
  }

  // Taking a line consumes it and its newline, taking the rest what is pending.
  lemma ConsumedByTake(log: Bytes, stop: bool, f: Follower, move: Move)
    requires Reading(log, stop, f) && (move.TakeLine? || move.TakeRest?) && Moved(log, stop, f, move).Some?
    ensures var f' := Moved(log, stop, f, move).value;
      && Reading(log, stop, f') && f.pending != []
      && f'.pc == Emit(DropCR(f.pending[..FirstLF(f.pending)]))
      && Consumed(log, f') == Consumed(log, f) +
           (f.pending[..FirstLF(f.pending)] + if move.TakeLine? then [LF] else [])
      && (move.TakeRest? ==> f'.eof && f'.pending == [])
  {
    if move.TakeLine? {
      ConsumedByTakeLine(log, stop, f);
    } else {
      ConsumedByTakeRest(log, stop, f);
    }
    hide FirstLF, DropCR, Consumed, Reading;
  }

  lemma ConsumedByTakeLine(log: Bytes, stop: bool, f: Follower)
    requires Reading(log, stop, f) && Moved(log, stop, f, TakeLine).Some?
    ensures var f', i := Moved(log, stop, f, TakeLine).value, FirstLF(f.pending);
      Reading(log, stop, f') && Consumed(log, f') == Consumed(log, f) + (f.pending[..i] + [LF])
  {
    hide FirstLF, DropCR;
    assert f.pos <= |log|;
    LineConsumed(log, f.offset, f.pos - |f.pending|, f.pos, FirstLF(f.pending));
  }

  lemma ConsumedByTakeRest(log: Bytes, stop: bool, f: Follower)
    requires Reading(log, stop, f) && Moved(log, stop, f, TakeRest).Some?
    ensures var f', i := Moved(log, stop, f, TakeRest).value, FirstLF(f.pending);
      && Reading(log, stop, f') && f.pending[..i] == f.pending
      && Consumed(log, f') == Consumed(log, f) + (f.pending[..i] + [])
  {
    hide FirstLF, DropCR;
    var line := DropCR(f.pending);
    assert f.pos <= |log| && FirstLF(f.pending) == |f.pending|;
    assert Moved(log, stop, f, TakeRest) == Some(f.(pending := [], pc := Emit(line)));
    hide Moved;
    TakenRest(log, stop, f, f.(pending := [], pc := Emit(line)));
  }

  lemma TakenRest(log: Bytes, stop: bool, f: Follower, f': Follower)
    requires Reading(log, stop, f) && f.pos <= |log| && f' == f.(pending := [], pc := f'.pc)
    ensures Reading(log, stop, f') && f.pending[..|f.pending|] == f.pending
    ensures Consumed(log, f') == Consumed(log, f) + (f.pending[..|f.pending|] + [])
  {
    assert f.pending + [] == f.pending;
    assert log[f.offset..f.pos] == log[f.offset..f.pos - |f.pending|] + log[f.pos - |f.pending|..f.pos];
  }

  lemma ShownByTake(before: Bytes, pending: Bytes, end: Bytes)
    requires Ended(before) && (end == [] || end == [LF])
    ensures var line := pending[..FirstLF(pending)];
      N(before + (line + end)) == N(before) + Shown(DropCR(line))
  {
    hide FirstLF, N, DropCR, Shown;
    var line := pending[..FirstLF(pending)];
    FirstLFIs(line, |line|);
    NOneLine(line);
    NAppend(before, line + end);
    assert line + [] == line;
  }

  lemma GoodAfterTake(log: Bytes, stop: bool, f: Follower, move: Move)
    requires Good(log, stop, f) && (move.TakeLine? || move.TakeRest?) && Moved(log, stop, f, move).Some?
    ensures Good(log, stop, Moved(log, stop, f, move).value)
  {
    hide N, FirstLF, DropCR, Reading, Consumed, Shown;
    ConsumedByTake(log, stop, f, move);
    var end := if move.TakeLine? then [LF] else [];
    ShownByTake(Consumed(log, f), f.pending, end);
    assert f.out + [] == f.out;
    EndedByTake(Consumed(log, f), f.pending[..FirstLF(f.pending)]);
  }

  lemma EndedByTake(before: Bytes, line: Bytes)
    ensures Ended(before + (line + [LF]))
  {
    assert before + (line + [LF]) == before + line + [LF];
  }

  lemma GoodAfterRead(log: Bytes, stop: bool, f: Follower, n: nat)
    requires Good(log, stop, f) && Moved(log, stop, f, Read(n)).Some?
    ensures Good(log, stop, Moved(log, stop, f, Read(n)).value)
  {
    hide N, FirstLF;
    var f' := Moved(log, stop, f, Read(n)).value;
    assert f'.pending == log[f'.pos - |f'.pending|..f'.pos];
    assert Consumed(log, f') == Consumed(log, f);
  }

  lemma GoodAfterMove(log: Bytes, stop: bool, f: Follower, move: Move)
    requires Good(log, stop, f) && Moved(log, stop, f, move).Some?
    ensures Good(log, stop, Moved(log, stop, f, move).value)
  {
    hide Good, Moved;
    match move
    case TakeLine | TakeRest => GoodAfterTake(log, stop, f, move);
    case Read(n) => GoodAfterRead(log, stop, f, n);
    case _ => GoodAfterOther(log, stop, f, move);
  }

  lemma GoodAfterOther(log: Bytes, stop: bool, f: Follower, move: Move)
    requires Good(log, stop, f) && Moved(log, stop, f, move).Some?
    requires !move.TakeLine? && !move.TakeRest? && !move.Read?
    ensures Good(log, stop, Moved(log, stop, f, move).value)
  {
    hide N, HasLine, Ended, Owed;
    var f' := Moved(log, stop, f, move).value;
    assert Consumed(log, f') == Consumed(log, f);
    OutAfterMove(log, stop, f, move, N(Consumed(log, f)));
  }

  // Writing pays what is owed.
  lemma OutAfterMove(log: Bytes, stop: bool, f: Follower, move: Move, due: Bytes)
    requires Moved(log, stop, f, move).Some? && !move.TakeLine? && !move.TakeRest? && !move.Read?
    requires if f.pc.Failed? then f.out <= due else f.out + Owed(f.pc) == due
    ensures var f' := Moved(log, stop, f, move).value;
      if f'.pc.Failed? then f'.out <= due else f'.out + Owed(f'.pc) == due
  {
    hide FirstLF;
    match move
    case WriteLine => assert f.out + f.pc.line + [LF] == due;
    case _ =>
  }

  ghost predicate Inv(st: State) {
    forall i :: 0 <= i < |st.followers| ==> Good(st.log, st.stop, st.followers[i])
  }

  lemma NextKeepsInv(st: State, step: Step)
    requires Inv(st) && Next(st, step).Some? && (step.Write? ==> !st.stop)
    ensures Inv(Next(st, step).value)
  {
    hide Good, Moved;
    var st' := Next(st, step).value;
    forall i | 0 <= i < |st'.followers| ensures Good(st'.log, st'.stop, st'.followers[i]) {
      match step
      case Write(p) => GoodAfterWrite(st.log, st.followers[i], p);
      case Stop => GoodAfterStop(st.log, st.stop, st.followers[i]);
      case Start(offset) =>
        if i == |st.followers| && offset >= 0 {
          GoodStart(st.log, st.stop, offset);
        }
      case Cancel(k) =>
        if i == k {
          GoodAfterCancel(st.log, st.stop, st.followers[i]);
        }
      case Follow(k, move) =>
        if i == k {
          GoodAfterMove(st.log, st.stop, st.followers[i], move);
        }
    }
  }

  lemma GoodAfterCancel(log: Bytes, stop: bool, f: Follower)
    requires Good(log, stop, f)
    ensures Good(log, stop, f.(cancelled := true))
  {
    hide FirstLF, N, Moved;
    assert Consumed(log, f.(cancelled := true)) == Consumed(log, f);
  }

  lemma {:induction false} RunKeepsInv(steps: seq<Step>)
    requires Run(steps).Some? && NoWriteAfterStop(steps)
    ensures Inv(Run(steps).value)
  {
    hide Next, Good;
    if steps != [] {
      var front, last := steps[..|steps| - 1], steps[|steps| - 1];
      RunKeepsInv(front);
      if last.Write? && Run(front).value.stop {
        StateOfHistory(front);
      }
      NextKeepsInv(Run(front).value, last);
    }
  }

  // ---- What followers show ----

  lemma ShownSoFar(log: Bytes, stop: bool, f: Follower)
    requires Good(log, stop, f)
    ensures !f.broken ==> f.out <= N(Tail(log, f.offset))
    ensures f.pc.Done? ==> f.out == N(Tail(log, f.offset))
    ensures f.out <= N(Tail(log, f.offset)) <==> !BreaksALine(log, f)
  {
    hide FirstLF, N, Moved, DropCR, LastLine;
    var consumed := Consumed(log, f);
    assert f.out <= N(consumed);
    if f.pos > |log| {
      assert consumed == [] == Tail(log, f.offset);
      LastLineOfEnded(consumed);
    } else if f.pending != [] {
      var rest := log[f.pos - |f.pending|..];
      assert Tail(log, f.offset) == consumed + rest;
      NAppend(consumed, rest);
      LastLineOfEnded(consumed);
    } else {
      var a := LastLineIsLast(consumed);
      var rest := Tail(log, f.pos);
      assert consumed == log[f.offset..f.pos] && rest == log[f.pos..];
      assert Tail(log, f.offset) == consumed + rest;
      PrefixOfMoreIff(a, LastLine(consumed), rest, f.out);
      if f.eof && !f.broken {
        NothingMore(consumed, rest);
      } else if Ended(consumed) {
        NAppend(consumed, rest);
        LastLineOfEnded(consumed);
      }
    }
  }

  lemma LastLineOfEnded(s: Bytes)
    requires Ended(s)
    ensures LastLine(s) == [] && DropCR(LastLine(s)) == []
  {
  }

  lemma NothingMore(s: Bytes, rest: Bytes)
    requires rest == []
    ensures s + rest == s && LastLine(s) + rest[..FirstLF(rest)] == LastLine(s)
  {
    assert rest[..FirstLF(rest)] == [];
  }

  // The follower has ended a line by a newline that the log does not have there: it has shown all it
  // consumed, the last line of that is unended and shows something, and in the log the line goes on
  // so that it shows something else.
  ghost predicate BreaksALine(log: Bytes, f: Follower) {
    var consumed, rest := Consumed(log, f), Tail(log, f.pos);
    var line := LastLine(consumed);
    && f.out == N(consumed) && DropCR(line) != []
    && DropCR(line + rest[..FirstLF(rest)]) != DropCR(line)
  }

  // In every interleaving of writes, stop, cancellations and followers, with no write after stop,
  // the i-th call to follow shows a prefix of what everything written shows from its offset on, and
  // all of it once it returned nil. Only a follower whose own read of the file failed may break this, and
  // does exactly if it has ended a line the log goes on with.
  lemma FollowersShowTheLog(steps: seq<Step>, i: nat)
    requires Run(steps).Some? && NoWriteAfterStop(steps) && i < |Starts(steps)|
    ensures i < |Run(steps).value.followers|
    ensures var st := Run(steps).value;
      var f, shown := st.followers[i], N(Tail(Writes(steps), Starts(steps)[i]));
      && (!f.broken ==> f.out <= shown)
      && (f.pc.Done? ==> f.out == shown)
      && (f.out <= shown <==> !BreaksALine(st.log, f))
  {
    hide FirstLF, N, BreaksALine, Run, Starts, Writes;
    RunKeepsInv(steps);
    StateOfHistory(steps);
    FollowersAreStarts(steps);
    var st := Run(steps).value;
    ShownSoFar(st.log, st.stop, st.followers[i]);
  }

  // A failed read makes the scanner end the line it is in: the newline it shows is not in the log.
  lemma BrokenFollowerBreaksALine()
    ensures exists steps ::
      && Run(steps).Some? && NoWriteAfterStop(steps) && |Run(steps).value.followers| == 1
      && !(Run(steps).value.followers[0].out <= N(Tail(Run(steps).value.log, 0)))
  {
    var f0 := Follower(0, 0, [], false, false, false, Scanning, [], []);
    var f5 := Follower(0, 1, [], true, true, false, Scanning, [65, LF], [[65], [LF]]);
    assert [] + [65] == [65] && [65] + [66] == [65, 66] && [] + [f0] == [f0];
    assert Woken([]) == [] && Woken([f5]) == [f5];
    hide FirstLF, N, Woken, Moved, Run;
    assert Run([]) == Some(INIT) by {
      NoSteps();
    }
    var r := RunsTo([], INIT, Write([65]), State([65], false, []));
    r := RunsTo(r, State([65], false, []), Start(0), State([65], false, [f0]));
    r := BreakingRun(r, f0, f5);
    r := RunsTo(r, State([65], false, [f5]), Write([66]), State([65, 66], false, [f5]));
    ShowsBoth();
    assert Tail([65, 66], 0) == [65, 66];
  }

  lemma NoSteps()
    ensures Run([]) == Some(INIT)
  {
  }

  lemma BreakingRun(front: seq<Step>, f: Follower, f': Follower) returns (steps: seq<Step>)
    requires Run(front) == Some(State([65], false, [f])) && forall i :: 0 <= i < |front| ==> !front[i].Stop?
    requires f == Follower(0, 0, [], false, false, false, Scanning, [], [])
    requires f' == Follower(0, 1, [], true, true, false, Scanning, [65, LF], [[65], [LF]])
    ensures Run(steps) == Some(State([65], false, [f'])) && forall i :: 0 <= i < |steps| ==> !steps[i].Stop?
  {
    hide Run, N, Moved;
    var f1 := f.(pending := [65], pos := 1);
    var f2 := f1.(eof := true, broken := true);
    var f3 := f2.(pending := [], pc := Emit([65]));
    var f4 := f3.(out := [65], writes := [[65]], pc := EmitNewline);
    BreakingReads(f, f1, f2);
    BreakingWrites(f2, f3, f4, f');
    steps := MovesTo(front, [65], f, Read(1), f1);
    steps := MovesTo(steps, [65], f1, ReadError, f2);
    steps := MovesTo(steps, [65], f2, TakeRest, f3);
    steps := MovesTo(steps, [65], f3, WriteLine, f4);
    steps := MovesTo(steps, [65], f4, WriteNewline, f');
  }

  lemma BreakingReads(f: Follower, f1: Follower, f2: Follower)
    requires f == Follower(0, 0, [], false, false, false, Scanning, [], [])
    requires f1 == f.(pending := [65], pos := 1) && f2 == f1.(eof := true, broken := true)
    ensures Moved([65], false, f, Read(1)) == Some(f1) && Moved([65], false, f1, ReadError) == Some(f2)
  {
    hide FirstLF;
    OneByteIsNoLine();
    assert [] + [65] == [65] && [65][0..1] == [65];
  }

  lemma BreakingWrites(f2: Follower, f3: Follower, f4: Follower, f5: Follower)
    requires f2 == Follower(0, 1, [65], true, true, false, Scanning, [], [])
    requires f3 == f2.(pending := [], pc := Emit([65])) && f4 == f3.(out := [65], writes := [[65]], pc := EmitNewline)
    requires f5 == f4.(out := [65, LF], writes := [[65], [LF]], pc := Scanning)
    ensures Moved([65], false, f2, TakeRest) == Some(f3) && Moved([65], false, f3, WriteLine) == Some(f4)
    ensures Moved([65], false, f4, WriteNewline) == Some(f5)
  {
    hide FirstLF;
    OneByteIsNoLine();
    assert [65] + [LF] == [65, LF] && f2.out + [65] == [65];
    assert f2.writes + [[65]] == [[65]] && [[65]] + [[LF]] == [[65], [LF]];
  }

  lemma OneByteIsNoLine()
    ensures FirstLF([]) == 0 && FirstLF([65]) == 1
  {
    FirstLFIs([], 0);
    FirstLFIs([65], 1);
  }

  lemma ShowsBoth()
    ensures !([65, LF] <= N([65, 66]))
  {
    hide FirstLF;
    FirstLFIs([65, 66], 2);
    assert N([65, 66])[1] == 66;
  }

  lemma RunsTo(front: seq<Step>, before: State, step: Step, after: State) returns (steps: seq<Step>)
    requires Run(front) == Some(before) && !step.Stop? && forall i :: 0 <= i < |front| ==> !front[i].Stop?
    requires Next(before, step) == Some(after)
    ensures Run(steps) == Some(after) && forall i :: 0 <= i < |steps| ==> !steps[i].Stop?
  {
    steps := front + [step];
    assert steps[..|steps| - 1] == front;
  }

  lemma MovesTo(front: seq<Step>, log: Bytes, f: Follower, move: Move, f': Follower) returns (steps: seq<Step>)
    requires Run(front) == Some(State(log, false, [f])) && forall i :: 0 <= i < |front| ==> !front[i].Stop?
    requires Moved(log, false, f, move) == Some(f')
    ensures Run(steps) == Some(State(log, false, [f'])) && forall i :: 0 <= i < |steps| ==> !steps[i].Stop?
  {
    hide Moved;
    assert [f][0 := f'] == [f'];
    steps := RunsTo(front, State(log, false, [f]), Follow(0, move), State(log, false, [f']));
  }

  // ---- Wake-ups ----

  // In every reachable state a sleeper has read to the end of the log and the log is not stopped, so
  // nothing it waits for has happened yet; and every write and every stop leaves nobody asleep.
  lemma NoLostWakeUp(steps: seq<Step>, step: Step, i: nat)
    requires Run(steps).Some? && NoWriteAfterStop(steps) && i < |Run(steps).value.followers|
    ensures var st := Run(steps).value;
      && (st.followers[i].pc.Waiting? ==> st.followers[i].pos >= |st.log| && !st.stop)
      && (step.Write? || step.Stop? ==> !Next(st, step).value.followers[i].pc.Waiting?)
  {
    hide Consumed, N, Run;
    RunKeepsInv(steps);
    var st := Run(steps).value;
    assert Good(st.log, st.stop, st.followers[i]);
  }

  // Cancelling wakes nobody: a cancelled sleeper stays asleep until the next write or stop.
  lemma CancelWakesNobody(st: State, step: Step, i: nat)
    requires i < |st.followers| && st.followers[i].pc.Waiting? && Next(st, step).Some?
    ensures Next(st, step).value.followers[i].pc.Waiting? <==> !step.Write? && !step.Stop?
  {
    hide FirstLF;
    assert forall m :: Moved(st.log, st.stop, st.followers[i], m).None?;
  }

  // A cancelled follower reads no more and shows no further line: at most the newline of the one it is
  // writing.
  lemma {:induction false} CancelledShowsNoMore(steps: seq<Step>, more: seq<Step>, i: nat)
    requires Run(steps).Some? && i < |Run(steps).value.followers| && Run(steps).value.followers[i].cancelled
    requires Run(steps + more).Some?
    ensures i < |Run(steps + more).value.followers|
    ensures var f, f' := Run(steps).value.followers[i], Run(steps + more).value.followers[i];
      && f'.cancelled && f'.pos == f.pos
      && (f'.out == f.out || (f.pc.EmitNewline? && f'.out == f.out + [LF]))
      && (f'.pc.EmitNewline? ==> f.pc.EmitNewline? && f'.out == f.out)
    decreases |more|
  {
    hide Next;
    if more == [] {
      assert steps + more == steps;
    } else {
      var all, front, last := steps + more, more[..|more| - 1], more[|more| - 1];
      assert all[..|all| - 1] == steps + front && all[|all| - 1] == last;
      CancelledShowsNoMore(steps, front, i);
      CancelledStep(Run(steps + front).value, last, i);
    }
  }

  lemma CancelledStep(st: State, step: Step, i: nat)
    requires Next(st, step).Some? && i < |st.followers| && st.followers[i].cancelled
    ensures i < |Next(st, step).value.followers|
    ensures var f, f' := st.followers[i], Next(st, step).value.followers[i];
      && f'.cancelled && f'.pos == f.pos
      && (f'.out == f.out || (f.pc.EmitNewline? && f'.out == f.out + [LF] && !f'.pc.EmitNewline?))
      && (f'.pc.EmitNewline? ==> f.pc.EmitNewline? && f'.out == f.out)
  {
    hide FirstLF, DropCR;
    if step.Follow? && step.i == i && step.move.WriteNewlineFails? {
      assert [LF][..step.move.accepted] == if step.move.accepted == 0 then [] else [LF];
      assert st.followers[i].out + [] == st.followers[i].out;
    }
  }

  // ---- Termination after a stop ----

  predicate Returned(f: Follower) {
    f.pc.Done? || f.pc.Failed?
  }

  // How much a follower still has to do on a log that does not grow.
  function Work(log: Bytes, f: Follower): nat {
    8 * (if f.pos < |log| then |log| - f.pos else 0) + 4 * |f.pending| + (if f.eof then 0 else 1)
    + match f.pc
      case Scanning | Waiting => 1
      case EmitNewline => 2
      case Emit(_) => 3
      case _ => 0
  }

  // Once stopped, a follower that has not returned can move, whatever the others do, and each of its
  // moves leaves it less to do: it returns.
  lemma StoppedFollowersReturn(steps: seq<Step>, i: nat, move: Move)
    requires Run(steps).Some? && NoWriteAfterStop(steps) && Stopped(steps) && i < |Run(steps).value.followers|
    ensures var st := Run(steps).value;
      var f := st.followers[i];
      && (!Returned(f) ==> exists m :: Moved(st.log, true, f, m).Some?)
      && (Moved(st.log, true, f, move).Some? ==> Work(st.log, Moved(st.log, true, f, move).value) < Work(st.log, f))
  {
    hide Consumed, N, Run, Moved, Work;
    RunKeepsInv(steps);
    StateOfHistory(steps);
    var st := Run(steps).value;
    var f := st.followers[i];
    assert Good(st.log, true, f);
    if !Returned(f) {
      var m := Possible(st.log, f);
    }
    if Moved(st.log, true, f, move).Some? {
      MovesAreWork(st.log, f, move);
    }
  }

  lemma MovesAreWork(log: Bytes, f: Follower, move: Move)
    requires Moved(log, true, f, move).Some?
    ensures Work(log, Moved(log, true, f, move).value) < Work(log, f)
  {
    hide FirstLF;
  }

  lemma Possible(log: Bytes, f: Follower) returns (m: Move)
    requires !Returned(f) && !f.pc.Waiting?
    ensures Moved(log, true, f, m).Some?
  {
    hide FirstLF;
    match f.pc
    case Emit(line) => m := if f.cancelled then SeeCancel else if line == [] then Skip else WriteLine;
    case EmitNewline => m := WriteNewline;
    case Scanning =>
      m := if HasLine(f) then TakeLine
           else if f.eof then (if f.pending == [] then Return else TakeRest)
           else if |f.pending| >= MAX_TOKEN then TooLong
           else if f.cancelled then SeeCancel
           else if f.pos >= |log| then SeeEof
           else Read(1);
  }

  function MovesOf(steps: seq<Step>, i: nat): nat {
    if steps == [] then 0
    else
      var last := steps[|steps| - 1];
      MovesOf(steps[..|steps| - 1], i) + if last.Follow? && last.i == i then 1 else 0
  }

  // However a run goes on after a stop, no follower makes more moves than it had work left.
  lemma {:induction false} MovesAfterStopAreBounded(steps: seq<Step>, more: seq<Step>, i: nat)
    requires Run(steps).Some? && Stopped(steps) && i < |Run(steps).value.followers|
    requires Run(steps + more).Some? && NoWriteAfterStop(steps + more)
    ensures var st, st' := Run(steps).value, Run(steps + more).value;
      && st'.stop && st'.log == st.log && i < |st'.followers|
      && MovesOf(more, i) + Work(st.log, st'.followers[i]) <= Work(st.log, st.followers[i])
    decreases |more|
  {
    hide Moved, Work;
    StateOfHistory(steps);
    if more == [] {
      assert steps + more == steps;
    } else {
      var all, front, last := steps + more, more[..|more| - 1], more[|more| - 1];
      assert all[..|all| - 1] == steps + front && all[|all| - 1] == last;
      MovesAfterStopAreBounded(steps, front, i);
      var k :| 0 <= k < |steps| && steps[k].Stop?;
      assert all[k].Stop?;
      var before := Run(steps + front).value;
      if last.Follow? && last.i == i {
        MovesAreWork(before.log, before.followers[i], last.move);
      } else {
        OthersLeaveWork(before, last, i);
      }
    }
  }

  lemma OthersLeaveWork(st: State, step: Step, i: nat)
    requires Next(st, step).Some? && i < |st.followers| && st.stop && !step.Write? && !(step.Follow? && step.i == i)
    ensures var st' := Next(st, step).value;
      st'.stop && i < |st'.followers| && Work(st.log, st'.followers[i]) <= Work(st.log, st.followers[i])
  {
    hide Moved;
  }

  ghost predicate LongLineAt(log: Bytes, k: nat) {
    k + 65536 <= |log| && forall j :: k <= j < k + 65536 ==> log[j] != LF
  }

  lemma LongPending(log: Bytes, f: Follower)
    requires |f.pending| <= f.pos <= |log| && f.pending == log[f.pos - |f.pending|..f.pos]
    requires !HasLine(f) && |f.pending| >= MAX_TOKEN
    ensures LongLineAt(log, f.pos - |f.pending|)
  {
    hide FirstLF;
    var k := f.pos - |f.pending|;
    forall j | k <= j < k + MAX_TOKEN ensures log[j] != LF {
      assert log[j] == f.pending[j - k];
    }
  }

  // A line is too long only if the log really holds that many bytes in a row without a newline.
  lemma TooLongMeansALongLine(steps: seq<Step>, i: nat)
    requires Run(steps).Some? && NoWriteAfterStop(steps) && i < |Run(steps).value.followers|
    ensures var st := Run(steps).value;
      var f := st.followers[i];
      Moved(st.log, st.stop, f, TooLong).Some? ==>
        exists k :: f.offset <= k && LongLineAt(st.log, k)
  {
    hide Consumed, N, Run, FirstLF, HasLine, LongLineAt;
    RunKeepsInv(steps);
    var st := Run(steps).value;
    var f := st.followers[i];
    assert Good(st.log, st.stop, f);
    if Moved(st.log, st.stop, f, TooLong).Some? {
      LongPending(st.log, f);
    }
  }
}
