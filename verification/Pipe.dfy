/** SealedRepo.Get: a producer goroutine writes the fetched chunks into an io.Pipe while the
    caller reads from the other end. The pipe is synchronous, its first closing wins, and the
    producer keeps going after every error it reports. */
module Pipe {
  import opened Common

  /** One row of the query: the blob and the length its manifest entry claims. */
  datatype Fetched = Fetched(sealed: Bytes, length: int)

  /** What rows.Next and rows.Scan deliver in turn. */
  datatype Item = Row(row: Fetched) | ScanFailure

  datatype Error = Eof | QueryError | ScanError(at: nat) | LengthMismatch(at: nat) | RowsError | ClosedPipe

  /** Where the producer is. Writing carries what Write has not handed over yet. */
  datatype Phase = Querying | Fetching | Writing(rest: Bytes, offered: bool) | Finished

  /** `next` rows have been taken. `werr` is the error the writing side closed with, `readerClosed`
      whether the reader closed, `got` what the reader has received, `seen` how its last Read ended. */
  datatype State = State(
    phase: Phase, next: nat, werr: Option<Error>, readerClosed: bool, got: Bytes, seen: Option<Error>)

  const INITIAL := State(Querying, 0, None, false, [], None)

  datatype Action =
    | QueryOk
    | QueryFails
    | TakeRow
    | WriteReturns
    | RowsBreak
    | RowsEnd
    | Read(size: nat)
    | CloseReader

  predicate Closed(s: State) {
    s.werr.Some? || s.readerClosed
  }

  /** CloseWithError: only the first error is kept. */
  function CloseWith(s: State, e: Error): State {
    if s.werr.Some? then s else s.(werr := Some(e))
  }

  /** Which actions can happen. A Read waits for a Write in progress or for the pipe to close;
      a Write returns once all is handed over, or as soon as the pipe is closed. */
  predicate Enabled(items: seq<Item>, s: State, a: Action) {
    match a
    case QueryOk => s.phase.Querying?
    case QueryFails => s.phase.Querying?
    case TakeRow => s.phase.Fetching? && s.next < |items|
    case WriteReturns => s.phase.Writing? && (Closed(s) || (s.phase.rest == [] && s.phase.offered))
    case RowsBreak => s.phase.Fetching?
    case RowsEnd => s.phase.Fetching? && s.next == |items|
    case Read(_) => Closed(s) || (s.phase.Writing? && (s.phase.rest != [] || !s.phase.offered))
    case CloseReader => true
  }

  /** How a row that was taken is reported before it is written. */
  function Check(s: State, item: Item, at: nat): State {
    match item
    case ScanFailure => CloseWith(s, ScanError(at))
    case Row(r) => if |r.sealed| != r.length then CloseWith(s, LengthMismatch(at)) else s
  }

  function Payload(item: Item): Bytes {
    match item
    case ScanFailure => []
    case Row(r) => r.sealed
  }

  function Step(items: seq<Item>, s: State, a: Action): State
    requires Enabled(items, s, a)
  {
    match a
    case QueryOk => s.(phase := Fetching)
    case QueryFails =>
      // rows is empty and rows.Err() reports again, to no effect
      CloseWith(s, QueryError).(phase := Finished)
    case TakeRow =>
      Check(s, items[s.next], s.next).(phase := Writing(Payload(items[s.next]), false), next := s.next + 1)
    case WriteReturns =>
      if Closed(s) then CloseWith(s, ClosedPipe).(phase := Fetching) else s.(phase := Fetching)
    case RowsBreak => CloseWith(s, RowsError).(phase := Finished)
    case RowsEnd => CloseWith(s, Eof).(phase := Finished)
    case Read(size) =>
      if Closed(s) then
        s.(seen := if s.readerClosed then Some(ClosedPipe) else s.werr)
      else
        var n := if size <= |s.phase.rest| then size else |s.phase.rest|;
        s.(phase := Writing(s.phase.rest[n..], true), got := s.got + s.phase.rest[..n], seen := None)
    case CloseReader => s.(readerClosed := true)
  }

  /** States of some interleaving, of any length. */
  ghost predicate Run(items: seq<Item>, actions: seq<Action>, states: seq<State>) {
    && |states| == |actions| + 1
    && states[0] == INITIAL
    && (forall i {:trigger actions[i]} :: 0 <= i < |actions| ==>
          Enabled(items, states[i], actions[i]) && states[i + 1] == Step(items, states[i], actions[i]))
  }

  // ---- The invariant ----

  function Text(items: seq<Item>): Bytes {
    if items == [] then [] else Text(items[..|items| - 1]) + Payload(items[|items| - 1])
  }

  predicate Sound(item: Item) {
    item.Row? && |item.row.sealed| == item.row.length
  }

  predicate AllSound(items: seq<Item>) {
    forall i :: 0 <= i < |items| ==> Sound(items[i])
  }

  /** What is still on its way to the reader. */
  function InFlight(s: State): Bytes {
    if s.phase.Writing? then s.phase.rest else []
  }

  /** While the pipe is open, reader and Write together hold the rows taken so far, all sound. */
  ghost predicate OpenInv(items: seq<Item>, s: State)
    requires s.next <= |items|
  {
    !Closed(s) ==>
      && !s.phase.Finished?
      && AllSound(items[..s.next])
      && s.got + InFlight(s) == Text(items[..s.next])
  }

  /** Row `at` is the first unsound one and exactly the rows before it were read. */
  ghost predicate FirstBad(items: seq<Item>, at: nat, got: Bytes) {
    at < |items| && !Sound(items[at]) && AllSound(items[..at]) && got == Text(items[..at])
  }

  /** What an ending with error e says about what was read. */
  ghost predicate Explains(items: seq<Item>, e: Error, got: Bytes) {
    match e
    case Eof => AllSound(items) && got == Text(items)
    case LengthMismatch(at) => FirstBad(items, at, got)
    case ScanError(at) => FirstBad(items, at, got)
    case _ => true
  }

  ghost predicate Inv(items: seq<Item>, s: State) {
    && s.next <= |items|
    && OpenInv(items, s)
    && s.got <= Text(items[..s.next])
    && (s.werr.Some? && !s.readerClosed ==> Explains(items, s.werr.value, s.got))
    && (s.seen.Some? ==> Closed(s) && Explains(items, s.seen.value, s.got))
    && (s.phase.Finished? ==> s.werr.Some?)
  }

  lemma TextStep(items: seq<Item>, n: nat)
    requires n < |items|
    ensures Text(items[..n + 1]) == Text(items[..n]) + Payload(items[n])
  {
    assert items[..n + 1][..n] == items[..n];
  }

  lemma SoundStep(items: seq<Item>, n: nat)
    requires n < |items| && AllSound(items[..n]) && Sound(items[n])
    ensures AllSound(items[..n + 1])
  {
  }

  lemma TakeRowKeeps(items: seq<Item>, s: State)
    requires Inv(items, s) && Enabled(items, s, TakeRow)
    ensures Inv(items, Step(items, s, TakeRow))
  {
    hide Text;
    var s' := Step(items, s, TakeRow);
    TextStep(items, s.next);
    assert s'.got <= Text(items[..s'.next]);
    if !Closed(s') {
      SoundStep(items, s.next);
    }
    if !Closed(s) {
      assert s.got == Text(items[..s.next]);
    }
  }

  lemma ReadKeeps(items: seq<Item>, s: State, size: nat)
    requires Inv(items, s) && Enabled(items, s, Read(size))
    ensures Inv(items, Step(items, s, Read(size)))
  {
  }

  lemma StepKeeps(items: seq<Item>, s: State, a: Action)
    requires Inv(items, s) && Enabled(items, s, a)
    ensures Inv(items, Step(items, s, a))
  {
    match a {
      case TakeRow => TakeRowKeeps(items, s);
      case Read(size) => ReadKeeps(items, s, size);
      case RowsEnd => assert items[..s.next] == items;
      case _ =>
    }
  }

  lemma {:induction false} RunKeeps(items: seq<Item>, actions: seq<Action>, states: seq<State>, i: nat)
    requires Run(items, actions, states) && i < |states|
    ensures Inv(items, states[i])
  {
    if i > 0 {
      RunKeeps(items, actions, states, i - 1);
      StepKeeps(items, states[i - 1], actions[i - 1]);
    }
  }

  // ---- What every interleaving guarantees the reader ----

  lemma {:induction false} TextIsMonotone(items: seq<Item>, n: nat)
    requires n <= |items|
    ensures Text(items[..n]) <= Text(items)
    decreases |items| - n
  {
    if n == |items| {
      assert items[..n] == items;
    } else {
      TextStep(items, n);
      TextIsMonotone(items, n + 1);
    }
  }

  /** For every schedule and every read size: the bytes read are a prefix of the chunks in order;
      a clean end means every chunk was sound and all of it was read; a length or scan error names
      the first unsound row, with exactly the rows before it read. */
  lemma ReaderSeesPrefix(items: seq<Item>, actions: seq<Action>, states: seq<State>, i: nat)
    requires Run(items, actions, states) && i < |states|
    ensures states[i].got <= Text(items)
    ensures states[i].seen.Some? ==> Explains(items, states[i].seen.value, states[i].got)
  {
    RunKeeps(items, actions, states, i);
    TextIsMonotone(items, states[i].next);
    var a, b := Text(items[..states[i].next]), Text(items);
    assert b[..|states[i].got|] == a[..|states[i].got|];
  }

  /** First error wins: after the writing side has closed, its error never changes and nothing
      more reaches the reader. */
  lemma {:induction false} FirstErrorWins(items: seq<Item>, actions: seq<Action>, states: seq<State>, i: nat, j: nat)
    requires Run(items, actions, states) && i <= j < |states| && states[i].werr.Some?
    ensures states[j].werr == states[i].werr && states[j].got == states[i].got
    decreases j - i
  {
    if i < j {
      FirstErrorWins(items, actions, states, i, j - 1);
      assert states[j] == Step(items, states[j - 1], actions[j - 1]);
    }
  }

  // ---- When the stream ends cleanly ----

  /** A move that makes the writing side close with an error: a failed query, broken rows, an unsound
      row, or a Write that finds the reader gone. */
  predicate Fails(items: seq<Item>, s: State, a: Action) {
    || a.QueryFails? || a.RowsBreak?
    || (a.TakeRow? && s.next < |items| && !Sound(items[s.next]))
    || (a.WriteReturns? && s.readerClosed)
  }

  ghost predicate HasFailed(items: seq<Item>, actions: seq<Action>, states: seq<State>, n: nat)
    requires n <= |actions| <= |states|
  {
    exists k :: 0 <= k < n && Fails(items, states[k], actions[k])
  }

  /** How the producer stands, given whether some move failed. */
  ghost predicate Standing(items: seq<Item>, s: State, failed: bool) {
    && s.next <= |items|
    && (failed <==> s.werr.Some? && s.werr.value != Eof)
    && (!failed ==> AllSound(items[..s.next]))
    && (s.phase.Finished? <==> s.werr == Some(Eof) || (failed && s.phase.Finished?))
    && (s.werr == Some(Eof) ==> s.next == |items|)
  }

  lemma StandingStep(items: seq<Item>, s: State, a: Action, failed: bool)
    requires Standing(items, s, failed) && Enabled(items, s, a)
    ensures Standing(items, Step(items, s, a), failed || Fails(items, s, a))
  {
    if a.TakeRow? && !failed && Sound(items[s.next]) {
      SoundStep(items, s.next);
    }
  }

  lemma {:induction false} RunStands(items: seq<Item>, actions: seq<Action>, states: seq<State>, n: nat)
    requires Run(items, actions, states) && n < |states|
    ensures Standing(items, states[n], HasFailed(items, actions, states, n))
  {
    if n > 0 {
      hide Standing, Step, Enabled, Fails, HasFailed;
      RunStands(items, actions, states, n - 1);
      StandingStep(items, states[n - 1], actions[n - 1], HasFailed(items, actions, states, n - 1));
      FailedStep(items, actions, states, n);
    }
  }

  lemma FailedStep(items: seq<Item>, actions: seq<Action>, states: seq<State>, n: nat)
    requires 0 < n <= |actions| <= |states|
    ensures HasFailed(items, actions, states, n)
            <==> HasFailed(items, actions, states, n - 1) || Fails(items, states[n - 1], actions[n - 1])
  {
    hide Fails;
  }

  /** What the writing side closes with when the move fails. */
  function ErrorOf(items: seq<Item>, s: State, a: Action): Error
    requires Fails(items, s, a)
  {
    match a
    case QueryFails => QueryError
    case RowsBreak => RowsError
    case TakeRow => if items[s.next].ScanFailure? then ScanError(s.next) else LengthMismatch(s.next)
    case WriteReturns => ClosedPipe
  }

  /** The first move that fails decides what the writing side has closed with, for good. */
  lemma FirstFailureIsReported(items: seq<Item>, actions: seq<Action>, states: seq<State>, k: nat, n: nat)
    requires Run(items, actions, states) && k < n < |states|
    requires Fails(items, states[k], actions[k]) && !HasFailed(items, actions, states, k)
    ensures states[n].werr == Some(ErrorOf(items, states[k], actions[k]))
  {
    RunStands(items, actions, states, k);
    assert states[k + 1] == Step(items, states[k], actions[k]);
    FirstErrorWins(items, actions, states, k + 1, n);
  }

  /** A Read of the open pipe takes as much as it asks for, or what is being written. */
  lemma ReadTakes(items: seq<Item>, s: State, size: nat)
    requires Enabled(items, s, Read(size)) && !Closed(s)
    ensures
      var s', n := Step(items, s, Read(size)), if size <= |InFlight(s)| then size else |InFlight(s)|;
      |s'.got| == |s.got| + n && s'.got + InFlight(s') == s.got + InFlight(s) && s'.seen.None?
  {
  }

  /** The query can fail before the first row, the rows can break before any further one, and the
      reader can close at any time; closing releases a Write in progress. */
  lemma AnythingCanFail(items: seq<Item>, s: State)
    ensures Enabled(items, s, QueryFails) <==> s.phase.Querying?
    ensures Enabled(items, s, RowsBreak) <==> s.phase.Fetching?
    ensures Enabled(items, s, CloseReader)
    ensures s.phase.Writing? ==> Enabled(items, Step(items, s, CloseReader), WriteReturns)
  {
  }

  /** Once the reader has closed it gets nothing more, and every Read says so. */
  lemma {:induction false} ClosedForGood(items: seq<Item>, actions: seq<Action>, states: seq<State>, k: nat, n: nat)
    requires Run(items, actions, states) && k < n < |states| && actions[k].CloseReader?
    ensures states[n].readerClosed && states[n].got == states[k].got
    ensures n < |actions| && actions[n].Read? ==> states[n + 1].seen == Some(ClosedPipe)
    decreases n
  {
    assert states[n] == Step(items, states[n - 1], actions[n - 1]);
    if n > k + 1 {
      ClosedForGood(items, actions, states, k, n - 1);
    }
    if n < |actions| {
      assert states[n + 1] == Step(items, states[n], actions[n]);
    }
  }

  /** The surroundings' share of it: everything but the rows themselves. */
  ghost predicate Disturbed(actions: seq<Action>, states: seq<State>, n: nat)
    requires n <= |actions| <= |states|
  {
    exists k :: 0 <= k < n &&
      (actions[k].QueryFails? || actions[k].RowsBreak? || (actions[k].WriteReturns? && states[k].readerClosed))
  }

  /** A producer that has finished has closed with end of file if and only if every row was sound, the
      query and its rows did not fail, and no Write found the reader gone. */
  lemma CleanEndIff(items: seq<Item>, actions: seq<Action>, states: seq<State>, n: nat)
    requires Run(items, actions, states) && n < |states| && states[n].phase.Finished?
    ensures states[n].werr == Some(Eof) <==> AllSound(items) && !Disturbed(actions, states, n)
  {
    RunStands(items, actions, states, n);
    if HasFailed(items, actions, states, n) && AllSound(items) {
      var k :| 0 <= k < n && Fails(items, states[k], actions[k]);
    }
    if Disturbed(actions, states, n) {
      var k :| 0 <= k < n &&
        (actions[k].QueryFails? || actions[k].RowsBreak? || (actions[k].WriteReturns? && states[k].readerClosed));
      assert Fails(items, states[k], actions[k]);
    }
    if !HasFailed(items, actions, states, n) {
      assert items[..states[n].next] == items;
    }
  }

  lemma {:induction false} ReaderOpen(items: seq<Item>, actions: seq<Action>, states: seq<State>, n: nat)
    requires Run(items, actions, states) && n < |states|
    requires forall k :: 0 <= k < n ==> !actions[k].CloseReader?
    ensures !states[n].readerClosed
  {
    if n > 0 {
      ReaderOpen(items, actions, states, n - 1);
      assert states[n] == Step(items, states[n - 1], actions[n - 1]);
    }
  }

  /** So without failures, and as long as the reader does not close, its first Read after the producer
      has finished sees end of file, and it has got everything. */
  lemma SoundStreamEndsCleanly(items: seq<Item>, actions: seq<Action>, states: seq<State>, n: nat)
    requires Run(items, actions, states) && n < |actions| && AllSound(items)
    requires forall k :: 0 <= k < n ==> !actions[k].QueryFails? && !actions[k].RowsBreak? && !actions[k].CloseReader?
    requires states[n].phase.Finished? && actions[n].Read?
    ensures states[n + 1].seen == Some(Eof) && states[n + 1].got == Text(items)
  {
    ReaderOpen(items, actions, states, n);
    if Disturbed(actions, states, n) {
      var k :| 0 <= k < n &&
        (actions[k].QueryFails? || actions[k].RowsBreak? || (actions[k].WriteReturns? && states[k].readerClosed));
      ReaderOpen(items, actions, states, k);
    }
    CleanEndIff(items, actions, states, n);
    assert states[n + 1] == Step(items, states[n], actions[n]);
    ReaderSeesPrefix(items, actions, states, n + 1);
  }

  // ---- Progress ----

  /** Moves for the rows not taken yet: taking, offering and returning, and a Read per byte. */
  function Work(items: seq<Item>, next: nat): nat
    requires next <= |items|
    decreases |items| - next
  {
    if next == |items| then 0 else |Payload(items[next])| + 3 + Work(items, next + 1)
  }

  /** Moves for the phase itself. */
  function Due(p: Phase): nat {
    match p
    case Querying => 2
    case Fetching => 1
    case Writing(rest, offered) => |rest| + (if offered then 2 else 3)
    case Finished => 0
  }

  /** A bound on the moves that are left. */
  function Left(items: seq<Item>, s: State): nat
    requires s.next <= |items|
  {
    Work(items, s.next) + Due(s.phase)
  }

  /** A move of the producer, or a Read of at least one byte from the open pipe. */
  predicate Productive(s: State, a: Action) {
    !a.CloseReader? && (a.Read? ==> a.size >= 1 && !Closed(s))
  }

  /** Every such move brings the transfer closer to its end; no other takes it back. */
  lemma EveryMoveProgresses(items: seq<Item>, s: State, a: Action)
    requires Inv(items, s) && Enabled(items, s, a)
    ensures Inv(items, Step(items, s, a))
    ensures Left(items, Step(items, s, a)) <= Left(items, s) - (if Productive(s, a) then 1 else 0)
  {
    StepKeeps(items, s, a);
  }

  function ProductiveMoves(actions: seq<Action>, states: seq<State>, n: nat): nat
    requires n <= |actions| <= |states|
  {
    if n == 0 then 0
    else ProductiveMoves(actions, states, n - 1) + (if Productive(states[n - 1], actions[n - 1]) then 1 else 0)
  }

  lemma {:induction false} WorkIsText(items: seq<Item>, n: nat)
    requires n <= |items|
    ensures |Text(items[..n])| + Work(items, n) == |Text(items)| + 3 * (|items| - n)
    decreases |items| - n
  {
    if n == |items| {
      assert items[..n] == items;
    } else {
      TextStep(items, n);
      WorkIsText(items, n + 1);
    }
  }

  lemma {:induction false} MovesAndLeft(items: seq<Item>, actions: seq<Action>, states: seq<State>, n: nat)
    requires Run(items, actions, states) && n <= |actions|
    ensures states[n].next <= |items|
    ensures ProductiveMoves(actions, states, n) + Left(items, states[n]) <= Left(items, INITIAL)
  {
    hide Inv, Step, Left;
    RunKeeps(items, actions, states, n);
    InvBounds(items, states[n]);
    if n > 0 {
      RunKeeps(items, actions, states, n - 1);
      InvBounds(items, states[n - 1]);
      MovesAndLeft(items, actions, states, n - 1);
      EveryMoveProgresses(items, states[n - 1], actions[n - 1]);
    }
  }

  lemma InvBounds(items: seq<Item>, s: State)
    requires Inv(items, s)
    ensures s.next <= |items|
  {
  }

  /** No schedule goes on for ever: any run makes at most three such moves per row, one per byte, and
      two for the query and its end. */
  lemma RunsAreBounded(items: seq<Item>, actions: seq<Action>, states: seq<State>, n: nat)
    requires Run(items, actions, states) && n <= |actions|
    ensures ProductiveMoves(actions, states, n) <= |Text(items)| + 3 * |items| + 2
  {
    MovesAndLeft(items, actions, states, n);
    WorkIsText(items, 0);
    assert items[..0] == [];
  }

  /** And there is no deadlock: until the producer has finished such a move is possible, and
      once it has, the next Read tells the reader how the stream ended. */
  lemma NoDeadlock(items: seq<Item>, s: State) returns (a: Action)
    requires Inv(items, s)
    ensures Enabled(items, s, a) && !a.CloseReader?
    ensures !s.phase.Finished? ==> Productive(s, a)
    ensures !s.phase.Finished? ==> !a.QueryFails? && !a.RowsBreak?
    ensures s.phase.Finished? ==>
      a.Read? && s.werr.Some? && Step(items, s, a).seen == Some(if s.readerClosed then ClosedPipe else s.werr.value)
  {
    match s.phase
    case Querying => a := QueryOk;
    case Fetching => a := if s.next < |items| then TakeRow else RowsEnd;
    case Writing(rest, offered) => a := if Closed(s) || (rest == [] && offered) then WriteReturns else Read(1);
    case Finished => a := Read(1);
  }

  /** Hence every run in which the query and its rows have not failed so far can be brought to its
      end, by moves that do not fail either. */
  lemma {:induction false} CanFinish(items: seq<Item>, actions: seq<Action>, states: seq<State>)
    returns (all: seq<Action>, through: seq<State>)
    requires Run(items, actions, states)
    requires forall k :: 0 <= k < |actions| ==> !actions[k].QueryFails? && !actions[k].RowsBreak?
    ensures Run(items, all, through) && actions <= all && through[|all|].phase.Finished?
    ensures forall k :: 0 <= k < |all| ==> !all[k].QueryFails? && !all[k].RowsBreak?
    ensures forall k :: |actions| <= k < |all| ==> !all[k].CloseReader?
    decreases var s := states[|actions|]; if s.next <= |items| then Left(items, s) else 0
  {
    hide Inv, Left, Step, Enabled, Standing;
    var n := |actions|;
    RunKeeps(items, actions, states, n);
    InvBounds(items, states[n]);
    if states[n].phase.Finished? {
      all, through := actions, states;
    } else {
      var a := NoDeadlock(items, states[n]);
      EveryMoveProgresses(items, states[n], a);
      InvBounds(items, Step(items, states[n], a));
      RunMore(items, actions, states, a);
      all, through := CanFinish(items, actions + [a], states + [Step(items, states[n], a)]);
    }
  }

  lemma RunMore(items: seq<Item>, actions: seq<Action>, states: seq<State>, a: Action)
    requires Run(items, actions, states) && Enabled(items, states[|actions|], a)
    ensures Run(items, actions + [a], states + [Step(items, states[|actions|], a)])
  {
    hide Step, Enabled;
    var more, through := actions + [a], states + [Step(items, states[|actions|], a)];
    forall i {:trigger more[i]} | 0 <= i < |more|
      ensures Enabled(items, through[i], more[i]) && through[i + 1] == Step(items, through[i], more[i])
    {
      if i < |actions| {
        assert more[i] == actions[i];
      }
    }
  }
}
