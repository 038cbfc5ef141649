/** The streaming strategy session: one process answers a line per observation, and is torn
    down at the first failure so that its leftover output is never taken for a later answer. */
module StreamingSession {
  import opened Wrappers

  type Action = string

  /** A line of output, `None` when it is not a valid action, stamped with the round that was
      being answered when the process wrote it. */
  datatype Line = Line(action: Option<Action>, round: nat)

  /** What the process does in a round: whether it was still running when the round began, whether
      the observation reached it, the lines it writes up to the read, whether its output ends
      before that, how many lines a read of the pipe returns, and what it writes after the read. */
  datatype Round = Round(alive: bool, reached: bool, lines: seq<Option<Action>>, ends: bool, chunk: nat,
                         late: seq<Option<Action>>)

  /** Output of the running process that no round has taken yet: what the text reader has already
      pulled into its buffer, and what is still in the pipe. Waiting for output looks at the pipe
      only. */
  datatype Output = Output(buffered: seq<Line>, piped: seq<Line>)
  {
    function All(): seq<Line> { buffered + piped }
  }

  datatype Session = Session(unread: Option<Output>, admitted: seq<Option<Line>>)

  const START: Session := Session(None, [])

  function Stamped(lines: seq<Option<Action>>, round: nat): seq<Line> {
    if lines == [] then [] else [Line(lines[0], round)] + Stamped(lines[1..], round)
  }

  /** What a running process left unread; a new one starts clean. */
  function Kept(s: Session, r: Round): Output {
    if s.unread.Some? && r.alive then s.unread.value else Output([], [])
  }

  /** The output when the round reads. */
  function Waiting(s: Session, r: Round): Output {
    Output(Kept(s, r).buffered, Kept(s, r).piped + Stamped(r.lines, |s.admitted|))
  }

  /** The wait ends with something in the pipe or the end of the output; otherwise it times out. */
  predicate Wakes(s: Session, r: Round) {
    Waiting(s, r).piped != [] || r.ends
  }

  /** The next line in the order of writing, buffered lines first, must be there and be an action. */
  predicate Fails(s: Session, r: Round) {
    !r.reached || !Wakes(s, r) || Waiting(s, r).All() == [] || Waiting(s, r).All()[0].action.None?
  }

  /** Reading a line: from the buffer, or after pulling at least one line from the pipe. */
  function LeftAfterRead(waiting: Output, chunk: nat): Output
    requires waiting.All() != []
  {
    if waiting.buffered != [] then Output(waiting.buffered[1..], waiting.piped)
    else
      var pulled := if chunk == 0 then 1 else if chunk <= |waiting.piped| then chunk else |waiting.piped|;
      Output(waiting.piped[1..pulled], waiting.piped[pulled..])
  }

  function Decided(s: Session, r: Round): Session {
    if Fails(s, r) then Session(None, s.admitted + [None])
    else
      var left := LeftAfterRead(Waiting(s, r), r.chunk);
      Session(Some(left.(piped := left.piped + Stamped(r.late, |s.admitted|))),
              s.admitted + [Some(Waiting(s, r).All()[0])])
  }

  function AfterRounds(rounds: seq<Round>): Session {
    if rounds == [] then START else Decided(AfterRounds(rounds[..|rounds| - 1]), rounds[|rounds| - 1])
  }

  class Stream {
    /** The running process's reader and pipe, or none when there is no process. */
    var unread: Option<Output>
    ghost var admitted: seq<Option<Line>>

    ghost function Current(): Session
      reads this
    {
      Session(unread, admitted)
    }

    constructor ()
      ensures Current() == START
    {
      unread, admitted := None, [];
    }

    /** Safe to call repeatedly. */
    method Close()
      modifies `unread
      ensures unread == None
    {
      unread := None;
    }

    /** A running process is kept; otherwise the old one is closed and a new one started. */
    method EnsureStarted(r: Round) returns (output: Output)
      modifies `unread
      ensures unread == Some(output) && output == Kept(old(Current()), r)
    {
      if unread.None? || !r.alive {
        Close();
        unread := Some(Output([], []));
      }
      output := unread.value;
    }

    /** One decision of round `round`; `None` is the deterministic hold. */
    method Decide(r: Round, round: nat) returns (action: Option<Action>)
      requires round == |admitted|
      modifies this
      ensures Current() == Decided(old(Current()), r)
      ensures action.Some? <==> !Fails(old(Current()), r)
      ensures action.Some? ==> action == Waiting(old(Current()), r).All()[0].action
    {
      var output := EnsureStarted(r);
      output := output.(piped := output.piped + Stamped(r.lines, round));
      var line: Option<Line> := None;
      if r.reached && (output.piped != [] || r.ends) {
        if output.buffered == [] && output.piped != [] {
          var pulled := if r.chunk == 0 then 1 else if r.chunk <= |output.piped| then r.chunk else |output.piped|;
          output := Output(output.piped[..pulled], output.piped[pulled..]);
        }
        if output.buffered != [] {
          line := Some(output.buffered[0]);
          output := output.(buffered := output.buffered[1..]);
        }
      }
      if line.None? || line.value.action.None? {
        Close();
        admitted := admitted + [None];
        return None;
      }
      unread := Some(output.(piped := output.piped + Stamped(r.late, round)));
      admitted := admitted + [line];
      action := line.value.action;
    }
  }

  // ----- lines are taken in the order they were written

  lemma {:induction false} StampedWith(lines: seq<Option<Action>>, round: nat)
    ensures |Stamped(lines, round)| == |lines|
    ensures forall i :: 0 <= i < |lines| ==> Stamped(lines, round)[i] == Line(lines[i], round)
  {
    if lines != [] {
      StampedWith(lines[1..], round);
    }
  }

  lemma ReadTakesFirst(waiting: Output, chunk: nat)
    requires waiting.All() != []
    ensures LeftAfterRead(waiting, chunk).All() == waiting.All()[1..]
  {
    if waiting.buffered != [] {
      assert (waiting.buffered + waiting.piped)[1..] == waiting.buffered[1..] + waiting.piped;
    } else {
      var pulled := if chunk == 0 then 1 else if chunk <= |waiting.piped| then chunk else |waiting.piped|;
      assert waiting.All() == waiting.piped;
      assert waiting.piped[1..pulled] + waiting.piped[pulled..] == waiting.piped[1..];
    }
  }

  lemma WaitingInOrder(s: Session, r: Round)
    ensures Waiting(s, r).All() == Kept(s, r).All() + Stamped(r.lines, |s.admitted|)
  {
    var kept, added := Kept(s, r), Stamped(r.lines, |s.admitted|);
    assert kept.buffered + (kept.piped + added) == (kept.buffered + kept.piped) + added;
  }

  lemma LateLinesAreLast(left: Output, late: seq<Line>)
    ensures left.(piped := left.piped + late).All() == left.All() + late
  {
    assert left.buffered + (left.piped + late) == (left.buffered + left.piped) + late;
  }

  /** However much a read pulls into the buffer, a round takes the first unread line and leaves the
      others in order. */
  lemma RoundTakesFirst(s: Session, r: Round)
    requires !Fails(s, r)
    ensures var all := Kept(s, r).All() + Stamped(r.lines, |s.admitted|);
            && all != [] && Decided(s, r).admitted == s.admitted + [Some(all[0])]
            && Decided(s, r).unread.Some?
            && Decided(s, r).unread.value.All() == all[1..] + Stamped(r.late, |s.admitted|)
  {
    WaitingInOrder(s, r);
    ReadTakesFirst(Waiting(s, r), r.chunk);
    LateLinesAreLast(LeftAfterRead(Waiting(s, r), r.chunk), Stamped(r.late, |s.admitted|));
  }

  /** A round takes the next line - what a running process left unread comes before what it writes
      now, a new process starts clean - exactly when the observation reached it, the wait saw
      something in the pipe or the end of the output, and that line is an action. Otherwise it holds,
      and nothing the process wrote is kept. */
  lemma RoundTakesExactly(s: Session, r: Round)
    ensures var kept := if s.unread.Some? && r.alive then s.unread.value else Output([], []);
            var lines := kept.buffered + kept.piped + Stamped(r.lines, |s.admitted|);
            var woken := kept.piped != [] || r.lines != [] || r.ends;
            var takes := r.reached && woken && lines != [] && lines[0].action.Some?;
            && Decided(s, r).admitted == s.admitted + [if takes then Some(lines[0]) else None]
            && (Decided(s, r).unread.Some? <==> takes)
  {
    StampedWith(r.lines, |s.admitted|);
    WaitingInOrder(s, r);
  }

  /** Everything a process writes over some rounds that begin with round `from`. */
  function Written(rounds: seq<Round>, from: nat): seq<Line> {
    if rounds == [] then []
    else
      var last := rounds[|rounds| - 1];
      Written(rounds[..|rounds| - 1], from) + Stamped(last.lines, from + |rounds| - 1)
      + Stamped(last.late, from + |rounds| - 1)
  }

  /** No round fails and the process is never found dead. */
  predicate Clean(rounds: seq<Round>) {
    rounds == [] ||
    (Clean(rounds[..|rounds| - 1])
     && (|rounds| > 1 ==> rounds[|rounds| - 1].alive)
     && !Fails(AfterRounds(rounds[..|rounds| - 1]), rounds[|rounds| - 1]))
  }

  lemma DropHead(before: seq<Line>, added: seq<Line>, late: seq<Line>, n: nat)
    requires n <= |before| && before[n..] + added != []
    ensures (before[n..] + added)[0] == (before + added + late)[n]
    ensures (before[n..] + added)[1..] + late == (before + added + late)[n + 1..]
  {
  }

  /** The session has decided the first lines of `written`, and the others are unread. */
  predicate Following(s: Session, written: seq<Line>) {
    && |s.admitted| <= |written|
    && (forall k :: 0 <= k < |s.admitted| ==> s.admitted[k] == Some(written[k]))
    && (s.admitted != [] ==> s.unread.Some? && s.unread.value.All() == written[|s.admitted|..])
    && (s.admitted == [] ==> s == START && written == [])
  }

  lemma KeptIsRest(s: Session, r: Round, written: seq<Line>)
    requires Following(s, written) && (s.admitted != [] ==> r.alive)
    ensures Kept(s, r).All() == written[|s.admitted|..]
  {
  }

  lemma PrefixGrows(admitted: seq<Option<Line>>, written: seq<Line>, longer: seq<Line>)
    requires |admitted| <= |written| <= |longer| && |admitted| < |longer| && written == longer[..|written|]
    requires forall k :: 0 <= k < |admitted| ==> admitted[k] == Some(written[k])
    ensures forall k :: 0 <= k <= |admitted| ==> (admitted + [Some(longer[|admitted|])])[k] == Some(longer[k])
  {
  }

  lemma FollowsOn(s: Session, admitted: seq<Option<Line>>, written: seq<Line>, longer: seq<Line>)
    requires |admitted| <= |written| <= |longer| && |admitted| < |longer| && written == longer[..|written|]
    requires forall k :: 0 <= k < |admitted| ==> admitted[k] == Some(written[k])
    requires s.admitted == admitted + [Some(longer[|admitted|])]
    requires s.unread.Some? && s.unread.value.All() == longer[|admitted| + 1..]
    ensures Following(s, longer)
  {
    PrefixGrows(admitted, written, longer);
  }

  lemma FollowingNext(s: Session, r: Round, written: seq<Line>)
    requires Following(s, written) && !Fails(s, r) && (s.admitted != [] ==> r.alive)
    ensures Following(Decided(s, r), written + Stamped(r.lines, |s.admitted|) + Stamped(r.late, |s.admitted|))
  {
    var n, added, late := |s.admitted|, Stamped(r.lines, |s.admitted|), Stamped(r.late, |s.admitted|);
    var longer := written + added + late;
    assert Decided(s, r).admitted == s.admitted + [Some(longer[n])] && n < |longer|
           && Decided(s, r).unread.Some? && Decided(s, r).unread.value.All() == longer[n + 1..] by {
      RoundTakesFirst(s, r);
      KeptIsRest(s, r, written);
      DropHead(written, added, late, n);
    }
    assert written == longer[..|written|];
    FollowsOn(Decided(s, r), s.admitted, written, longer);
  }

  /** While nothing fails, decision k is the k-th line the process ever wrote. */
  lemma {:induction false} DecisionsFollowWriting(rounds: seq<Round>)
    requires Clean(rounds)
    ensures |AfterRounds(rounds).admitted| == |rounds| && Following(AfterRounds(rounds), Written(rounds, 0))
  {
    if rounds != [] {
      var front, last := rounds[..|rounds| - 1], rounds[|rounds| - 1];
      DecisionsFollowWriting(front);
      FollowingNext(AfterRounds(front), last, Written(front, 0));
    }
  }

  // ----- no output survives a failure

  /** No round from `from` up to `to` failed. */
  predicate CleanSince(admitted: seq<Option<Line>>, from: nat, to: nat) {
    forall k :: from <= k < to && k < |admitted| ==> admitted[k].Some?
  }

  /** Everything unread was written since the last failure, in rounds already begun. */
  predicate Current(s: Session) {
    s.unread.Some? ==>
      forall i :: 0 <= i < |s.unread.value.All()| ==>
        && s.unread.value.All()[i].round < |s.admitted|
        && CleanSince(s.admitted, s.unread.value.All()[i].round, |s.admitted|)
  }

  predicate AdmittedCurrent(admitted: seq<Option<Line>>) {
    forall k :: 0 <= k < |admitted| && admitted[k].Some? ==>
      admitted[k].value.round <= k && CleanSince(admitted, admitted[k].value.round, k)
  }

  lemma RoundKeepsCurrent(s: Session, r: Round)
    requires Current(s) && AdmittedCurrent(s.admitted)
    ensures Current(Decided(s, r)) && AdmittedCurrent(Decided(s, r).admitted)
  {
    var s' := Decided(s, r);
    if !Fails(s, r) {
      StampedWith(r.lines, |s.admitted|);
      StampedWith(r.late, |s.admitted|);
      RoundTakesFirst(s, r);
      var all := Kept(s, r).All() + Stamped(r.lines, |s.admitted|);
      assert forall i :: 0 <= i < |all| ==>
               all[i].round <= |s.admitted| && CleanSince(s.admitted, all[i].round, |s.admitted|);
    }
    forall k | 0 <= k < |s'.admitted| && s'.admitted[k].Some?
      ensures s'.admitted[k].value.round <= k && CleanSince(s'.admitted, s'.admitted[k].value.round, k)
    {
      if k < |s.admitted| { assert s'.admitted[k] == s.admitted[k]; }
    }
  }

  /** A line admitted in round k was written by the same process, in round k or before, with no
      failed round in between: nothing a failed stream left behind is ever admitted. */
  lemma {:induction false} NoStaleOutput(rounds: seq<Round>)
    ensures Current(AfterRounds(rounds)) && AdmittedCurrent(AfterRounds(rounds).admitted)
    ensures |AfterRounds(rounds).admitted| == |rounds|
  {
    if rounds != [] {
      NoStaleOutput(rounds[..|rounds| - 1]);
      RoundKeepsCurrent(AfterRounds(rounds[..|rounds| - 1]), rounds[|rounds| - 1]);
    }
  }

  // ----- does each line answer its own round?

  /** The round takes an answer to its own observation exactly when nothing was left unread before. */
  lemma AnswersOwnRound(s: Session, r: Round)
    requires Current(s) && !Fails(s, r)
    ensures Waiting(s, r).All()[0].round == |s.admitted| <==> Kept(s, r).All() == []
  {
    StampedWith(r.lines, |s.admitted|);
    WaitingInOrder(s, r);
  }

  predicate OneLineEach(rounds: seq<Round>) {
    forall i :: 0 <= i < |rounds| ==> |rounds[i].lines| + |rounds[i].late| <= 1
  }

  /** Nothing is left unread, and every admitted line answers its own round. */
  predicate InStep(s: Session) {
    && (s.unread.Some? ==> s.unread.value.All() == [])
    && forall k :: 0 <= k < |s.admitted| && s.admitted[k].Some? ==> s.admitted[k].value.round == k
  }

  lemma OneLineStaysInStep(s: Session, r: Round)
    requires InStep(s) && |r.lines| + |r.late| <= 1
    ensures InStep(Decided(s, r))
  {
    StampedWith(r.lines, |s.admitted|);
    if !Fails(s, r) { RoundTakesFirst(s, r); }
  }

  /** A process that writes at most one line per observation is never read out of step. */
  lemma {:induction false} OneLineKeepsStep(rounds: seq<Round>)
    requires OneLineEach(rounds)
    ensures |AfterRounds(rounds).admitted| == |rounds| && InStep(AfterRounds(rounds))
  {
    if rounds != [] {
      OneLineKeepsStep(rounds[..|rounds| - 1]);
      OneLineStaysInStep(AfterRounds(rounds[..|rounds| - 1]), rounds[|rounds| - 1]);
    }
  }

  /** The process writes exactly one action, in time, and keeps running. */
  predicate Answers(r: Round) {
    r.alive && r.reached && |r.lines| == 1 && r.lines[0].Some? && r.late == []
  }

  /** A first round with one action too many, and after it one action per observation. */
  predicate OneTooMany(rounds: seq<Round>) {
    && rounds != [] && rounds[0].reached && rounds[0].late == []
    && |rounds[0].lines| == 2 && rounds[0].lines[0].Some? && rounds[0].lines[1].Some?
    && forall i :: 1 <= i < |rounds| ==> Answers(rounds[i])
  }

  /** What is written then: both lines of the first round, and one of each later round. */
  lemma {:induction false} WrittenWithExtra(rounds: seq<Round>)
    requires OneTooMany(rounds)
    ensures var written := Written(rounds, 0);
            && |written| == |rounds| + 1
            && written[0] == Line(rounds[0].lines[0], 0) && written[1] == Line(rounds[0].lines[1], 0)
            && forall k :: 1 <= k < |rounds| ==> written[k + 1] == Line(rounds[k].lines[0], k)
  {
    var front, last := rounds[..|rounds| - 1], rounds[|rounds| - 1];
    StampedWith(last.lines, |front|);
    assert Stamped(last.late, |front|) == [];
    if front != [] {
      WrittenWithExtra(front);
      assert forall k :: 0 <= k < |front| ==> front[k] == rounds[k];
    }
  }

  lemma {:induction false} ExtraStaysClean(rounds: seq<Round>)
    requires OneTooMany(rounds)
    ensures Clean(rounds)
  {
    var front, last := rounds[..|rounds| - 1], rounds[|rounds| - 1];
    if front == [] {
      assert AfterRounds(front) == START && rounds[0] == last;
      FirstOfTwo(last);
      assert Clean(front);
    } else {
      assert forall k :: 0 <= k < |front| ==> front[k] == rounds[k];
      ExtraStaysClean(front);
      DecisionsFollowWriting(front);
      WrittenWithExtra(front);
      LeftoverAnswers(AfterRounds(front), last, Written(front, 0));
    }
  }

  lemma FirstOfTwo(r: Round)
    requires r.reached && |r.lines| == 2 && r.lines[0].Some?
    ensures !Fails(START, r)
  {
    StampedWith(r.lines, 0);
    WaitingInOrder(START, r);
    assert Waiting(START, r).All()[0] == Line(r.lines[0], 0);
  }

  /** With one leftover action and a new line in the pipe a round cannot fail. */
  lemma LeftoverAnswers(s: Session, r: Round, written: seq<Line>)
    requires Following(s, written) && Answers(r) && s.admitted != []
    requires |written| == |s.admitted| + 1 && written[|s.admitted|].action.Some?
    ensures !Fails(s, r)
  {
    StampedWith(r.lines, |s.admitted|);
    WaitingInOrder(s, r);
    assert Kept(s, r).All() == [written[|s.admitted|]];
  }

  /** One extra line is enough to stay behind for good: while the process goes on writing one line
      per observation, nothing fails, and every decision after the first is the answer to the
      observation before. */
  lemma ExtraLineFallsBehind(rounds: seq<Round>, k: nat)
    requires OneTooMany(rounds) && 1 <= k < |rounds|
    ensures Clean(rounds) && |AfterRounds(rounds).admitted| == |rounds|
    ensures AfterRounds(rounds).admitted[k]
         == Some(if k == 1 then Line(rounds[0].lines[1], 0) else Line(rounds[k - 1].lines[0], k - 1))
  {
    ExtraStaysClean(rounds);
    DecisionsFollowWriting(rounds);
    WrittenWithExtra(rounds);
  }

  /** A round in which a living process writes nothing: with lines left over it is held exactly when
      all of them are in the reader's buffer already, where the wait does not see them, or the next
      one is no action. */
  lemma SilentRound(s: Session, r: Round)
    requires r.reached && r.lines == [] && !r.ends
    ensures Fails(s, r) <==> Kept(s, r).piped == [] || Kept(s, r).All()[0].action.None?
  {
    assert Waiting(s, r) == Kept(s, r);
  }
}
