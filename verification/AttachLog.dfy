/** The per-tab log of the attach phase: which sequences of commands and outcomes a tab can ever see. */
module AttachLog {
  import opened Runs
  import opened SessionProtocol
  import opened SessionInvariants

  function TabLog(log: seq<Entry>, t: int): seq<Mark> {
    if log == [] then []
    else
      var last := log[|log| - 1];
      TabLog(log[..|log| - 1], t) + (if last.tab == t then [last.mark] else [])
  }

  // ----- the grammar

  /** A finished attempt: attach refused; attached and committed; attached, no usable info, detached again. */
  datatype Round = Refused | Attached | Undone

  function Marks(r: Round): seq<Mark> {
    match r
    case Refused => [MAttach, MRefused, MAbandon]
    case Attached => [MAttach, MAccepted, MGetInfo, MUsable, MCommit]
    case Undone => [MAttach, MAccepted, MGetInfo, MUnusable, MDetach, MDetached, MAbandon]
  }

  function Flatten(rounds: seq<Round>): seq<Mark> {
    if rounds == [] then [] else Flatten(rounds[..|rounds| - 1]) + Marks(rounds[|rounds| - 1])
  }

  /** marks is finished rounds followed by the first j marks of one more. */
  ghost predicate Parses(marks: seq<Mark>, rounds: seq<Round>, r: Round, j: nat) {
    j < |Marks(r)| && marks == Flatten(rounds) + Marks(r)[..j]
  }

  ghost predicate WellFormed(marks: seq<Mark>) {
    exists rounds, r, j :: Parses(marks, rounds, r, j)
  }

  // ----- where the current attempt stands

  /** What a leader's phase says about the unfinished round at the end of its tab's log. */
  ghost predicate Stands(p: Phase, r: Round, j: nat) {
    match p
    case Starting => j == 0
    case AttachSent => j == 1
    case AttachAccepted => r != Refused && j == 2
    case InfoSent => r != Refused && j == 3
    case InfoUnusable(_) => r == Undone && j == 4
    case DetachSent(_) => r == Undone && j == 5
    case Abandoning(_) => (r == Refused && j == 2) || (r == Undone && j == 6)
    case InfoUsable(_) => r == Attached && j == 4
    case Numbered(_, _) => r == Attached && j == 4
    case _ => false
  }

  /** Tab t's log is finished rounds and the round its leader, if any, is in. */
  ghost predicate LogOf(s: State, t: int) {
    exists rounds, r, j ::
      Parses(TabLog(s.log, t), rounds, r, j)
      && (if t in s.attaching && s.attaching[t] < |s.calls| then Stands(s.calls[s.attaching[t]].phase, r, j) else j == 0)
  }

  ghost predicate LogOk(s: State) {
    forall t :: LogOf(s, t)
  }

  lemma TabLogAppend(log: seq<Entry>, e: Entry, t: int)
    ensures TabLog(log + [e], t) == TabLog(log, t) + (if e.tab == t then [e.mark] else [])
  {
    assert (log + [e])[..|log|] == log;
  }

  lemma FlattenAppend(rounds: seq<Round>, r: Round)
    ensures Flatten(rounds + [r]) == Flatten(rounds) + Marks(r)
  {
    assert (rounds + [r])[..|rounds|] == rounds;
  }

  /** A mark that continues the unfinished round, which may be read as any round with the same beginning. */
  lemma ParseMore(marks: seq<Mark>, rounds: seq<Round>, r: Round, j: nat, r': Round, mark: Mark)
    requires Parses(marks, rounds, r, j)
    requires j + 1 < |Marks(r')| && Marks(r')[..j] == Marks(r)[..j] && Marks(r')[j] == mark
    ensures Parses(marks + [mark], rounds, r', j + 1)
  {
    assert Marks(r')[..j + 1] == Marks(r')[..j] + [mark];
  }

  /** The last mark of a round closes it. */
  lemma ParseClose(marks: seq<Mark>, rounds: seq<Round>, r: Round, j: nat, mark: Mark)
    requires Parses(marks, rounds, r, j) && j + 1 == |Marks(r)| && Marks(r)[j] == mark
    ensures Parses(marks + [mark], rounds + [r], Refused, 0)
  {
    FlattenAppend(rounds, r);
    assert Marks(r)[..j] + [mark] == Marks(r);
  }

  lemma LogFrame(s: State, s': State, t: int)
    requires LogOf(s, t)
    requires TabLog(s'.log, t) == TabLog(s.log, t)
    requires t in s'.attaching <==> t in s.attaching
    requires t in s.attaching ==> s.attaching[t] < |s.calls| && s'.attaching[t] < |s'.calls|
    requires t in s.attaching ==> forall r, j :: Stands(s.calls[s.attaching[t]].phase, r, j) ==> Stands(s'.calls[s'.attaching[t]].phase, r, j)
    ensures LogOf(s', t)
  {
  }

  /** How a leader's next phase continues its round. */
  function NextRound(r: Round, mark: Mark): Round {
    match mark
    case MRefused => Refused
    case MAccepted => if r == Refused then Attached else r
    case MUsable => Attached
    case MUnusable => Undone
    case _ => r
  }

  lemma ExchangeContinues(s: State, a: Step, r: Round, j: nat)
    requires ExchangeOf(s, a).Some? && ExchangeOf(s, a).value.0 < |s.calls|
    requires Stands(s.calls[ExchangeOf(s, a).value.0].phase, r, j)
    ensures var (c, p, mark) := ExchangeOf(s, a).value;
      var r' := NextRound(r, mark);
      && j + 1 < |Marks(r')| && Marks(r')[..j] == Marks(r)[..j] && Marks(r')[j] == mark
      && Stands(p, r', j + 1)
  {
    var (c, p, mark) := ExchangeOf(s, a).value;
    match a
    case SendAttach(_) =>
    case AttachReply(_, _) =>
    case SendGetInfo(_) =>
    case GetInfoReply(_, reply) => assert p.InfoUsable? <==> mark == MUsable;
    case SendDetach(_) =>
    case DetachReply(_) =>
  }

  lemma LogMove(s: State, a: Step)
    requires OneAttempt(s) && LogOk(s) && Exchange(s, a).Some?
    ensures LogOk(Exchange(s, a).value)
  {
    ExchangeShape(s, a);
    var (c, p, mark) := ExchangeOf(s, a).value;
    var s' := Move(s, c, p, mark);
    forall t ensures LogOf(s', t) {
      assert LogOf(s, t);
      TabLogAppend(s.log, Entry(s.calls[c].tab, mark), t);
      if t == s.calls[c].tab {
        var rounds, r, j: nat :| Parses(TabLog(s.log, t), rounds, r, j) && Stands(s.calls[c].phase, r, j);
        ExchangeContinues(s, a, r, j);
        ParseMore(TabLog(s.log, t), rounds, r, j, NextRound(r, mark), mark);
      } else {
        LogFrame(s, s', t);
      }
    }
  }

  lemma RoundEnds(p: Phase, r: Round, j: nat)
    requires Stands(p, r, j) && (p.Numbered? || p.Abandoning?)
    ensures j + 1 == |Marks(r)| && Marks(r)[j] == (if p.Numbered? then MCommit else MAbandon)
  {
  }

  lemma LogClose(s: State, s': State, c: nat, mark: Mark)
    requires OneAttempt(s) && LogOk(s) && c < |s.calls|
    requires (s.calls[c].phase.Numbered? && mark == MCommit) || (s.calls[c].phase.Abandoning? && mark == MAbandon)
    requires s'.log == s.log + [Entry(s.calls[c].tab, mark)] && s'.attaching == s.attaching - {s.calls[c].tab}
    requires |s'.calls| == |s.calls| && forall d :: 0 <= d < |s.calls| && d != c ==> s'.calls[d] == s.calls[d]
    ensures LogOk(s')
  {
    forall t ensures LogOf(s', t) {
      assert LogOf(s, t);
      TabLogAppend(s.log, Entry(s.calls[c].tab, mark), t);
      if t == s.calls[c].tab {
        var rounds, r, j: nat :| Parses(TabLog(s.log, t), rounds, r, j) && Stands(s.calls[c].phase, r, j);
        RoundEnds(s.calls[c].phase, r, j);
        ParseClose(TabLog(s.log, t), rounds, r, j, mark);
      } else {
        LogFrame(s, s', t);
      }
    }
  }

  lemma LogBegin(s: State, k: nat)
    requires OneAttempt(s) && LogOk(s) && OnBegin(s, k).Some?
    ensures LogOk(OnBegin(s, k).value)
  {
    var s' := OnBegin(s, k).value;
    forall t ensures LogOf(s', t) {
      assert LogOf(s, t);
      if t in s.attaching || t !in s'.attaching {
        LogFrame(s, s', t);
      } else {
        var rounds, r, j :| Parses(TabLog(s.log, t), rounds, r, j) && j == 0;
        assert Parses(TabLog(s'.log, t), rounds, r, j) && Stands(Starting, r, j);
      }
    }
  }

  lemma LogSame(s: State, s': State)
    requires OneAttempt(s) && LogOk(s)
    requires s'.log == s.log && s'.attaching == s.attaching && |s'.calls| == |s.calls|
    requires forall c :: 0 <= c < |s.calls| ==>
      s'.calls[c].phase == s.calls[c].phase || !InFlight(s.calls[c].phase)
      || (s.calls[c].phase.InfoUsable? && s'.calls[c].phase.Numbered?)
    ensures LogOk(s')
  {
    forall t ensures LogOf(s', t) {
      assert LogOf(s, t);
      LogFrame(s, s', t);
    }
  }

  lemma LogCommit(s: State, c: nat)
    requires OneAttempt(s) && LogOk(s) && OnCommit(s, c).Some?
    ensures LogOk(OnCommit(s, c).value)
  {
    LogClose(s, OnCommit(s, c).value, c, MCommit);
  }

  lemma LogAbandon(s: State, c: nat)
    requires OneAttempt(s) && LogOk(s) && OnAbandon(s, c).Some?
    ensures LogOk(OnAbandon(s, c).value)
  {
    LogClose(s, OnAbandon(s, c).value, c, MAbandon);
  }

  lemma LogTakeNumber(s: State, c: nat)
    requires OneAttempt(s) && LogOk(s) && OnTakeNumber(s, c).Some?
    ensures LogOk(OnTakeNumber(s, c).value)
  {
    LogSame(s, OnTakeNumber(s, c).value);
  }

  lemma LogEmitAttached(s: State, c: nat)
    requires OneAttempt(s) && LogOk(s) && OnEmitAttached(s, c).Some?
    ensures LogOk(OnEmitAttached(s, c).value)
  {
    LogSame(s, OnEmitAttached(s, c).value);
  }

  lemma LogKept(s: State, a: Step)
    requires OneAttempt(s) && LogOk(s) && Next(s, a).Some?
    ensures LogOk(Next(s, a).value)
  {
    if IsExchange(a) {
      assert Next(s, a) == Exchange(s, a);
      LogMove(s, a);
    } else if LeavesCore(a) {
      LeavesCoreFrame(s, a);
      LogSame(s, Next(s, a).value);
    } else if Hears(a) {
      HeardFrame(s, a);
      LogSame(s, Heard(s, a));
    } else {
      match a
      case Begin(k) => LogBegin(s, k);
      case Commit(c) => LogCommit(s, c);
      case Abandon(c) => LogAbandon(s, c);
      case TakeNumber(c) => LogTakeNumber(s, c);
      case EmitAttached(c) => LogEmitAttached(s, c);
    }
  }

  lemma LogInit()
    ensures LogOk(Init())
  {
    forall t ensures LogOf(Init(), t) {
      assert Parses(TabLog([], t), [], Refused, 0);
    }
  }

  // ----- what the grammar means for the extension

  lemma UndoneHasIt(r: Round, i: nat)
    requires i < |Marks(r)| && Marks(r)[i] == MUnusable
    ensures r == Undone && i == 3
  {
  }

  lemma {:induction false} FlattenDetaches(rounds: seq<Round>, x: nat)
    requires x < |Flatten(rounds)| && Flatten(rounds)[x] == MUnusable
    ensures x + 1 < |Flatten(rounds)| && Flatten(rounds)[x + 1] == MDetach
  {
    var before, last := rounds[..|rounds| - 1], rounds[|rounds| - 1];
    var m := |Flatten(before)|;
    if x < m {
      FlattenDetaches(before, x);
    } else {
      UndoneHasIt(last, x - m);
    }
  }

  /** After an attempt without usable info, the next thing its tab's log shows is the compensating detach. */
  lemma DetachComesNext(marks: seq<Mark>, x: nat)
    requires WellFormed(marks) && x + 1 < |marks| && marks[x] == MUnusable
    ensures marks[x + 1] == MDetach
  {
    var rounds, r, j: nat :| Parses(marks, rounds, r, j);
    var n := |Flatten(rounds)|;
    if x < n {
      FlattenDetaches(rounds, x);
    } else {
      UndoneHasIt(r, x - n);
      assert marks[x + 1] == Marks(r)[..j][x + 1 - n];
    }
  }
}
