/**
 The weekly runner as a state machine over its separate transactions. Any number of processes interleave;
 each may crash at any step. The run id is the primary key of the table of runs.
 */
module WeeklyRunner {
  import opened Prelude

  // ----- run ids ------------------------------------------------------------------

  function Digits(n: nat): string {
    if n < 10 then [('0' as int + n) as char] else Digits(n / 10) + [('0' as int + n % 10) as char]
  }

  /** A branch is addressed by its one fixed name; dates are ISO strings. */
  datatype Key = Key(branch: string, date: string)

  function RunId(key: Key, attempt: nat): string {
    if attempt <= 1 then key.date + "-" + key.branch
    else key.date + "-" + key.branch + "-attempt" + Digits(attempt)
  }

  lemma {:induction false} DigitsLength(n: nat)
    ensures |Digits(n)| >= 1 && (n >= 10 ==> |Digits(n)| >= 2)
  {
    if n >= 10 {
      DigitsLength(n / 10);
    }
  }

  lemma {:induction false} DigitsInjective(m: nat, n: nat)
    requires Digits(m) == Digits(n)
    ensures m == n
  {
    DigitsLength(m);
    DigitsLength(n);
    if m >= 10 && n >= 10 {
      var a, b := Digits(m), Digits(n);
      assert a[..|a| - 1] == Digits(m / 10) && b[..|b| - 1] == Digits(n / 10);
      DigitsInjective(m / 10, n / 10);
      assert a[|a| - 1] == b[|b| - 1];
    }
  }

  /** Attempts of one branch and date never share a run id, so a retry is not blocked by its own past. */
  lemma RunIdInjective(key: Key, a: nat, b: nat)
    requires a >= 1 && b >= 1 && RunId(key, a) == RunId(key, b)
    ensures a == b
  {
    var stem := key.date + "-" + key.branch;
    if a > 1 && b > 1 {
      assert RunId(key, a)[|stem| + 8..] == Digits(a);
      assert RunId(key, b)[|stem| + 8..] == Digits(b);
      DigitsInjective(a, b);
    }
  }

  lemma {:induction false} DigitsOnly(n: nat)
    ensures forall i :: 0 <= i < |Digits(n)| ==> '0' <= Digits(n)[i] <= '9'
  {
    if n >= 10 {
      DigitsOnly(n / 10);
    }
  }

  /** What a later attempt adds to the id of the first. */
  function Suffix(attempt: nat): string { if attempt <= 1 then "" else "-attempt" + Digits(attempt) }

  lemma RunIdParts(key: Key, attempt: nat)
    ensures RunId(key, attempt) == key.date + ("-" + (key.branch + Suffix(attempt)))
  {
    if attempt > 1 {
      assert key.date + "-" + key.branch + "-attempt" == key.date + ("-" + (key.branch + "-attempt"));
    }
  }

  lemma SplitAt(x: string, y: string, u: string, v: string)
    requires |x| == |y| && x + u == y + v
    ensures x == y && u == v
  {
    assert (x + u)[..|x|] == x && (y + v)[..|y|] == y;
    assert (x + u)[|x|..] == u && (y + v)[|y|..] == v;
  }

  lemma TailOf(x: string, d: string, i: nat)
    ensures var s := x + ("-attempt" + d);
      |s| == |x| + 8 + |d| && s[|x| + 7] == 't' && (i < |d| ==> s[|x| + 8 + i] == d[i])
  {
    assert ("-attempt" + d)[7] == "-attempt"[7] == 't';
    if i < |d| {
      assert (x + ("-attempt" + d))[|x| + 8 + i] == ("-attempt" + d)[8 + i];
    }
  }

  /** Texts that end alike have digits of the same length: before the digits there is a letter. */
  lemma SameDigits(x: string, da: string, y: string, db: string)
    requires x + ("-attempt" + da) == y + ("-attempt" + db)
    requires forall i :: 0 <= i < |db| ==> '0' <= db[i] <= '9'
    ensures |da| >= |db|
  {
    TailOf(x, da, 0);
    TailOf(y, db, if |da| < |db| then |db| - |da| - 1 else 0);
  }

  /** Two later attempts with the same text are the same attempt of the same branch. */
  lemma SuffixUnique(x: string, a: nat, y: string, b: nat)
    requires a > 1 && b > 1 && x + Suffix(a) == y + Suffix(b)
    ensures a == b && x == y
  {
    DigitsOnly(a);
    DigitsOnly(b);
    SameDigits(x, Digits(a), y, Digits(b));
    SameDigits(y, Digits(b), x, Digits(a));
    SplitAt(x, y, Suffix(a), Suffix(b));
    SplitAt("-attempt", "-attempt", Digits(a), Digits(b));
    DigitsInjective(a, b);
  }

  /** A branch whose name looks like a later attempt of another. */
  predicate Imitates(branch: string, other: string, attempt: nat) {
    attempt > 1 && branch == other + Suffix(attempt)
  }

  lemma TextsAgreeExactly(branch: string, a: nat, other: string, b: nat)
    requires a >= 1 && b >= 1
    ensures branch + Suffix(a) == other + Suffix(b) <==>
      (branch == other && a == b) || (a == 1 && Imitates(branch, other, b)) || (b == 1 && Imitates(other, branch, a))
  {
    assert branch + "" == branch && other + "" == other;
    if a > 1 && b > 1 && branch + Suffix(a) == other + Suffix(b) {
      SuffixUnique(branch, a, other, b);
    } else if a == 1 && b > 1 && branch == other {
      assert |other + Suffix(b)| > |other|;
    } else if b == 1 && a > 1 && branch == other {
      assert |branch + Suffix(a)| > |branch|;
    }
  }

  /**
   When two ids are the same, for dates of equal length: only for the same branch, date and attempt, or when one
   branch is named like a later attempt of the other on the same date.
   */
  lemma RunIdsAgreeExactly(key: Key, a: nat, other: Key, b: nat)
    requires a >= 1 && b >= 1 && |key.date| == |other.date|
    ensures RunId(key, a) == RunId(other, b) <==>
      key.date == other.date
      && ((key.branch == other.branch && a == b)
          || (a == 1 && Imitates(key.branch, other.branch, b)) || (b == 1 && Imitates(other.branch, key.branch, a)))
  {
    var x, y := key.branch + Suffix(a), other.branch + Suffix(b);
    RunIdParts(key, a);
    RunIdParts(other, b);
    TextsAgreeExactly(key.branch, a, other.branch, b);
    if RunId(key, a) == RunId(other, b) {
      SplitAt(key.date, other.date, "-" + x, "-" + y);
      SplitAt("-", "-", x, y);
    }
  }

  // ----- states and steps ---------------------------------------------------------

  datatype RunStatus = Running | Completed | Failed

  datatype Row = Row(key: Key, attempt: nat, status: RunStatus)

  type Table = map<string, Row>

  /** Where a process stands between its transactions. */
  datatype Pc =
    | Start                 // before reading the latest row
    | Decided(next: nat)    // read the table, about to insert this attempt
    | Trading               // running row committed, trading transaction open
    | Traded                // trading transaction committed
    | Raised                // trading transaction rolled back
    | Gone                  // returned, raised or crashed

  datatype Process = Process(key: Key, forceRetry: bool, pc: Pc, runId: string)

  /** A committed trading transaction. */
  datatype Commit = Commit(key: Key, runId: string)

  datatype State = State(table: Table, procs: seq<Process>, commits: seq<Commit>)

  datatype Action =
    | Launch(key: Key, forceRetry: bool)
    | Read(p: nat, latest: Option<string>)
    | Insert(p: nat)
    | CommitTrades(p: nat)
    | Abort(p: nat)
    | MarkCompleted(p: nat)
    | MarkFailed(p: nat)
    | Crash(p: nat)               // also: any error while writing the final status
    | Flip(runId: string)         // an operator sets a running row to failed by hand

  ghost predicate IsLatest(table: Table, key: Key, latest: Option<string>) {
    match latest
    case None => forall id :: id in table ==> table[id].key != key
    case Some(id) =>
      id in table && table[id].key == key
      && forall other :: other in table && table[other].key == key ==> table[other].attempt <= table[id].attempt
  }

  datatype Decision = Skip | RunInFlight | ManualInterventionRequired | Attempt(next: nat)

  function Decide(table: Table, latest: Option<string>, forceRetry: bool): Decision
    requires latest.Some? ==> latest.value in table
  {
    match latest
    case None => Attempt(1)
    case Some(id) =>
      match table[id].status
      case Completed => Skip
      case Running => RunInFlight
      case Failed => if forceRetry then Attempt(table[id].attempt + 1) else ManualInterventionRequired
  }

  ghost predicate Enabled(s: State, a: Action) {
    match a
    case Launch(_, _) => true
    case Read(p, latest) => p < |s.procs| && s.procs[p].pc == Start && IsLatest(s.table, s.procs[p].key, latest)
    case Insert(p) => p < |s.procs| && s.procs[p].pc.Decided?
    case CommitTrades(p) => p < |s.procs| && s.procs[p].pc == Trading
    case Abort(p) => p < |s.procs| && s.procs[p].pc == Trading
    case MarkCompleted(p) => p < |s.procs| && s.procs[p].pc == Traded
    case MarkFailed(p) => p < |s.procs| && s.procs[p].pc == Raised
    case Crash(p) => p < |s.procs|
    case Flip(id) => id in s.table && s.table[id].status == Running
  }

  function Move(s: State, p: nat, pc: Pc): seq<Process>
    requires p < |s.procs|
  {
    s.procs[p := s.procs[p].(pc := pc)]
  }

  function SetStatus(table: Table, id: string, status: RunStatus): Table {
    if id in table then table[id := table[id].(status := status)] else table
  }

  ghost function Next(s: State, a: Action): State
    requires Enabled(s, a)
  {
    match a
    case Launch(key, force) => s.(procs := s.procs + [Process(key, force, Start, "")])
    case Read(p, latest) =>
      (match Decide(s.table, latest, s.procs[p].forceRetry)
       case Attempt(n) => s.(procs := Move(s, p, Decided(n)))
       case _ => s.(procs := Move(s, p, Gone)))
    case Insert(p) =>
      var me := s.procs[p];
      var id := RunId(me.key, me.pc.next);
      if id in s.table then s.(procs := Move(s, p, Gone))  // the primary key refuses the second insert
      else s.(table := s.table[id := Row(me.key, me.pc.next, Running)],
              procs := s.procs[p := me.(pc := Trading, runId := id)])
    case CommitTrades(p) =>
      s.(commits := s.commits + [Commit(s.procs[p].key, s.procs[p].runId)], procs := Move(s, p, Traded))
    case Abort(p) => s.(procs := Move(s, p, Raised))
    case MarkCompleted(p) =>
      s.(table := SetStatus(s.table, s.procs[p].runId, Completed), procs := Move(s, p, Gone))
    case MarkFailed(p) =>
      s.(table := SetStatus(s.table, s.procs[p].runId, Failed), procs := Move(s, p, Gone))
    case Crash(p) => s.(procs := Move(s, p, Gone))
    case Flip(id) => s.(table := SetStatus(s.table, id, Failed))
  }

  const EMPTY := State(map[], [], [])

  /** Where a list of actions leads, if each of them can be taken in turn. */
  ghost function Outcome(s: State, acts: seq<Action>): Option<State> {
    if acts == [] then Some(s) else
      match Outcome(s, acts[..|acts| - 1])
      case None => None
      case Some(mid) => if Enabled(mid, acts[|acts| - 1]) then Some(Next(mid, acts[|acts| - 1])) else None
  }

  lemma {:induction false} OutcomeCons(s: State, a: Action, rest: seq<Action>)
    ensures Outcome(s, [a] + rest) == if Enabled(s, a) then Outcome(Next(s, a), rest) else None
  {
    var acts := [a] + rest;
    if rest == [] {
      assert acts[..0] == [];
    } else {
      assert acts[..|acts| - 1] == [a] + rest[..|rest| - 1];
      OutcomeCons(s, a, rest[..|rest| - 1]);
    }
  }

  lemma OutcomeTwo(s: State, a: Action, b: Action)
    ensures Outcome(s, [a, b])
         == if Enabled(s, a) && Enabled(Next(s, a), b) then Some(Next(Next(s, a), b)) else None
  {
    assert [a, b] == [a] + ([b] + []);
    OutcomeCons(s, a, [b] + []);
    if Enabled(s, a) {
      OutcomeCons(Next(s, a), b, []);
    }
  }

  lemma OutcomeAppend(s: State, acts: seq<Action>, a: Action)
    ensures Outcome(s, acts + [a])
         == (match Outcome(s, acts)
             case None => None
             case Some(mid) => if Enabled(mid, a) then Some(Next(mid, a)) else None)
  {
    assert (acts + [a])[..|acts|] == acts;
  }

  lemma {:induction false} OutcomeConcat(s: State, acts: seq<Action>, more: seq<Action>)
    requires Outcome(s, acts).Some?
    ensures Outcome(s, acts + more) == Outcome(Outcome(s, acts).value, more)
    decreases |more|
  {
    if more == [] {
      assert acts + more == acts;
    } else {
      OutcomeConcat(s, acts, more[..|more| - 1]);
      assert (acts + more)[..|acts + more| - 1] == acts + more[..|more| - 1];
    }
  }

  // ----- operator discipline ------------------------------------------------------

  /** The run's own process may still commit trades or write "completed". */
  ghost predicate Live(s: State, id: string) {
    exists p :: 0 <= p < |s.procs| && s.procs[p].runId == id && (s.procs[p].pc == Trading || s.procs[p].pc == Traded)
  }

  ghost predicate HasTraded(s: State, id: string) {
    exists i :: 0 <= i < |s.commits| && s.commits[i].runId == id
  }

  /** Manual flips only hit rows whose process can no longer act on them. */
  ghost predicate Disciplined(s: State, acts: seq<Action>) {
    acts == [] ||
    (var before, a := acts[..|acts| - 1], acts[|acts| - 1];
     Disciplined(s, before)
     && (a.Flip? && Outcome(s, before).Some? ==> !Live(Outcome(s, before).value, a.runId)))
  }

  /** Besides, manual flips never hit a run whose trades are committed. */
  ghost predicate Careful(s: State, acts: seq<Action>) {
    acts == [] ||
    (var before, a := acts[..|acts| - 1], acts[|acts| - 1];
     Careful(s, before)
     && (a.Flip? && Outcome(s, before).Some? ==>
           !Live(Outcome(s, before).value, a.runId) && !HasTraded(Outcome(s, before).value, a.runId)))
  }

  // ----- attempts are contiguous and all but the last have failed -----------------

  ghost predicate Holds(table: Table, key: Key, attempt: nat, status: RunStatus) {
    var id := RunId(key, attempt);
    id in table && table[id] == Row(key, attempt, status)
  }

  predicate Active(p: Process) { p.pc == Trading || p.pc == Traded || p.pc == Raised }

  ghost predicate TableOk(table: Table) {
    forall id :: id in table ==>
      var row := table[id];
      row.attempt >= 1 && id == RunId(row.key, row.attempt)
      && (row.attempt >= 2 ==> Holds(table, row.key, row.attempt - 1, Failed))
  }

  ghost predicate ProcessOk(s: State, p: Process) {
    && (p.pc.Decided? ==> p.pc.next >= 1 && (p.pc.next >= 2 ==> Holds(s.table, p.key, p.pc.next - 1, Failed)))
    && (Active(p) ==> p.runId in s.table && s.table[p.runId].key == p.key)
    && (p.pc == Trading || p.pc == Traded ==> s.table[p.runId].status == Running)
    && (p.pc == Raised ==> s.table[p.runId].status != Completed)
  }

  ghost predicate Orderly(s: State) {
    && TableOk(s.table)
    && (forall p :: 0 <= p < |s.procs| ==> ProcessOk(s, s.procs[p]))
    && (forall p, q :: 0 <= p < q < |s.procs| && Active(s.procs[p]) && Active(s.procs[q]) ==>
          s.procs[p].runId != s.procs[q].runId)
  }

  /** A step that only moves one process, to a state it may be in, keeps the order. */
  lemma MoveKeepsOrder(s: State, p: nat, pc: Pc)
    requires Orderly(s) && p < |s.procs|
    requires Active(s.procs[p].(pc := pc)) ==> Active(s.procs[p])
    requires ProcessOk(s, s.procs[p].(pc := pc))
    ensures Orderly(s.(procs := Move(s, p, pc)))
  {
    var s' := s.(procs := Move(s, p, pc));
    forall q | 0 <= q < |s'.procs|
      ensures ProcessOk(s', s'.procs[q])
    {
      assert ProcessOk(s, s.procs[q]);
    }
  }

  /** A row under a new run id leaves all other rows as they are. */
  lemma InsertKeepsRows(table: Table, id: string, row: Row)
    requires id !in table
    ensures forall key, attempt, status :: Holds(table, key, attempt, status) ==>
      Holds(table[id := row], key, attempt, status)
  {
  }

  lemma InsertKeepsTable(table: Table, key: Key, attempt: nat)
    requires TableOk(table) && attempt >= 1 && RunId(key, attempt) !in table
    requires attempt >= 2 ==> Holds(table, key, attempt - 1, Failed)
    ensures TableOk(table[RunId(key, attempt) := Row(key, attempt, Running)])
  {
    InsertKeepsRows(table, RunId(key, attempt), Row(key, attempt, Running));
  }

  lemma InsertKeepsProcess(s: State, s': State, id: string, row: Row, p: Process)
    requires ProcessOk(s, p) && id !in s.table && s'.table == s.table[id := row]
    ensures ProcessOk(s', p)
    ensures Active(p) ==> p.runId != id
  {
    InsertKeepsRows(s.table, id, row);
  }

  /** Inserting the next attempt under a fresh run id. */
  lemma InsertKeepsOrder(s: State, p: nat)
    requires Orderly(s) && Enabled(s, Insert(p)) && RunId(s.procs[p].key, s.procs[p].pc.next) !in s.table
    ensures Orderly(Next(s, Insert(p)))
  {
    var s', me := Next(s, Insert(p)), s.procs[p];
    var id, row := RunId(me.key, me.pc.next), Row(me.key, me.pc.next, Running);
    assert ProcessOk(s, me);
    InsertKeepsTable(s.table, me.key, me.pc.next);
    forall q | 0 <= q < |s.procs|
      ensures ProcessOk(s', s.procs[q]) && (Active(s.procs[q]) ==> s.procs[q].runId != id)
    {
      InsertKeepsProcess(s, s', id, row, s.procs[q]);
    }
    assert s'.procs == s.procs[p := me.(pc := Trading, runId := id)];
    assert ProcessOk(s', s'.procs[p]);
  }

  /** Changing the status of a running row: no later attempt exists, and nobody else relies on the row. */
  lemma StatusKeepsOrder(s: State, id: string, status: RunStatus)
    requires Orderly(s) && id in s.table && status != Running
    requires s.table[id].status == Running || (s.table[id].status == Failed && status == Failed)
    requires !Live(s, id)
    requires status == Completed ==> forall p :: 0 <= p < |s.procs| && Active(s.procs[p]) ==> s.procs[p].runId != id
    ensures Orderly(s.(table := SetStatus(s.table, id, status)))
  {
    var s' := s.(table := SetStatus(s.table, id, status));
    forall key, attempt | Holds(s.table, key, attempt, Failed)
      ensures Holds(s'.table, key, attempt, Failed)
    {
      assert RunId(key, attempt) == id ==> status == Failed;
    }
    forall q | 0 <= q < |s'.procs|
      ensures ProcessOk(s', s'.procs[q])
    {
      assert ProcessOk(s, s.procs[q]);
    }
  }

  lemma MarkKeepsOrder(s: State, p: nat, status: RunStatus)
    requires Orderly(s) && p < |s.procs|
    requires (s.procs[p].pc == Traded && status == Completed) || (s.procs[p].pc == Raised && status == Failed)
    ensures Orderly(s.(table := SetStatus(s.table, s.procs[p].runId, status), procs := Move(s, p, Gone)))
  {
    var gone := s.(procs := Move(s, p, Gone));
    assert ProcessOk(s, s.procs[p]);
    MoveKeepsOrder(s, p, Gone);
    StatusKeepsOrder(gone, s.procs[p].runId, status);
  }

  lemma LaunchKeepsOrder(s: State, a: Action)
    requires Orderly(s) && a.Launch?
    ensures Orderly(Next(s, a))
  {
    assert forall p :: 0 <= p < |s.procs| ==> ProcessOk(s, s.procs[p]) && ProcessOk(Next(s, a), s.procs[p]);
  }

  /** What a process decides from the latest row is backed by a failed row. */
  lemma DecisionBacked(s: State, p: Process, latest: Option<string>, next: nat)
    requires TableOk(s.table) && IsLatest(s.table, p.key, latest)
    requires Decide(s.table, latest, p.forceRetry) == Attempt(next)
    ensures ProcessOk(s, p.(pc := Decided(next)))
  {
    if latest.Some? {
      var row := s.table[latest.value];
      assert row == Row(p.key, next - 1, Failed) && Holds(s.table, p.key, next - 1, Failed);
    } else {
      assert next == 1;
    }
  }

  lemma ReadKeepsOrder(s: State, p: nat, latest: Option<string>)
    requires Orderly(s) && Enabled(s, Read(p, latest))
    ensures Orderly(Next(s, Read(p, latest)))
  {
    var decision := Decide(s.table, latest, s.procs[p].forceRetry);
    if decision.Attempt? {
      DecisionBacked(s, s.procs[p], latest, decision.next);
      MoveKeepsOrder(s, p, Decided(decision.next));
    } else {
      MoveKeepsOrder(s, p, Gone);
    }
  }

  lemma TradingKeepsOrder(s: State, a: Action)
    requires Orderly(s) && Enabled(s, a) && (a.CommitTrades? || a.Abort?)
    ensures Orderly(Next(s, a))
  {
    assert ProcessOk(s, s.procs[a.p]);
    MoveKeepsOrder(s, a.p, if a.Abort? then Raised else Traded);
    var s' := s.(procs := Move(s, a.p, if a.Abort? then Raised else Traded));
    assert forall p :: 0 <= p < |s'.procs| ==> ProcessOk(s', s'.procs[p]) && ProcessOk(Next(s, a), s'.procs[p]);
  }

  /** Every step of every process, and every flip of a run whose process is gone, keeps the order. */
  lemma StepKeepsOrder(s: State, a: Action)
    requires Orderly(s) && Enabled(s, a) && (a.Flip? ==> !Live(s, a.runId))
    ensures Orderly(Next(s, a))
  {
    match a {
      case Launch(_, _) => LaunchKeepsOrder(s, a);
      case Read(p, latest) => ReadKeepsOrder(s, p, latest);
      case Insert(p) =>
        if RunId(s.procs[p].key, s.procs[p].pc.next) in s.table {
          MoveKeepsOrder(s, p, Gone);
        } else {
          InsertKeepsOrder(s, p);
        }
      case CommitTrades(p) => TradingKeepsOrder(s, a);
      case Abort(p) => TradingKeepsOrder(s, a);
      case MarkCompleted(p) => MarkKeepsOrder(s, p, Completed);
      case MarkFailed(p) => MarkKeepsOrder(s, p, Failed);
      case Crash(p) => MoveKeepsOrder(s, p, Gone);
      case Flip(id) => StatusKeepsOrder(s, id, Failed);
    }
  }

  lemma {:induction false} DisciplinedRunsAreOrderly(s: State, acts: seq<Action>)
    requires Orderly(s) && Outcome(s, acts).Some? && Disciplined(s, acts)
    ensures Orderly(Outcome(s, acts).value)
  {
    if acts != [] {
      var before := acts[..|acts| - 1];
      DisciplinedRunsAreOrderly(s, before);
      StepKeepsOrder(Outcome(s, before).value, acts[|acts| - 1]);
    }
  }

  /** A row of attempt n stands on failed rows 1 .. n-1. */
  lemma {:induction false} EarlierAttemptsFailed(table: Table, id: string, k: nat)
    requires TableOk(table) && id in table && 1 <= k < table[id].attempt
    ensures Holds(table, table[id].key, k, Failed)
    decreases table[id].attempt - k
  {
    if k < table[id].attempt - 1 {
      EarlierAttemptsFailed(table, id, k + 1);
    }
  }

  /** Two rows of one branch and date that have not failed are the same row. */
  lemma LiveRowUnique(table: Table, a: string, b: string)
    requires TableOk(table) && a in table && b in table && table[a].key == table[b].key
    requires table[a].status != Failed && table[b].status != Failed
    ensures a == b
  {
    if table[a].attempt < table[b].attempt {
      EarlierAttemptsFailed(table, b, table[a].attempt);
    } else if table[b].attempt < table[a].attempt {
      EarlierAttemptsFailed(table, a, table[b].attempt);
    }
  }

  /**
   In every state of every disciplined run, whatever the interleaving and the crashes: the attempts of a
   branch and date are exactly 1 .. n and all before the last have failed.
   */
  lemma AttemptsContiguous(acts: seq<Action>, id: string, k: nat)
    requires Outcome(EMPTY, acts).Some? && Disciplined(EMPTY, acts)
    requires var table := Outcome(EMPTY, acts).value.table; id in table && 1 <= k < table[id].attempt
    ensures var table := Outcome(EMPTY, acts).value.table; Holds(table, table[id].key, k, Failed)
  {
    DisciplinedRunsAreOrderly(EMPTY, acts);
    EarlierAttemptsFailed(Outcome(EMPTY, acts).value.table, id, k);
  }

  /** Once a row has completed, no step adds a row for its branch and date and the row stays completed. */
  lemma CompletedBlocks(s: State, a: Action, id: string)
    requires Orderly(s) && Enabled(s, a) && (a.Flip? ==> !Live(s, a.runId))
    requires id in s.table && s.table[id].status == Completed
    ensures var table := Next(s, a).table;
      && id in table && table[id] == s.table[id]
      && forall other :: other in table && table[other].key == s.table[id].key ==> other in s.table
  {
    match a {
      case Insert(p) =>
        var me := s.procs[p];
        var added := RunId(me.key, me.pc.next);
        assert ProcessOk(s, me);
        if added !in s.table && me.key == s.table[id].key {
          InsertKeepsOrder(s, p);
          LiveRowUnique(Next(s, a).table, added, id);
        }
      case MarkFailed(p) => assert ProcessOk(s, s.procs[p]);
      case _ =>
    }
  }

  // ----- at most one trading commit ------------------------------------------------

  ghost predicate AtMostOncePerKey(commits: seq<Commit>) {
    forall i, j :: 0 <= i < j < |commits| ==> commits[i].key != commits[j].key
  }

  ghost predicate CommitsOk(s: State) {
    && AtMostOncePerKey(s.commits)
    && (forall i :: 0 <= i < |s.commits| ==>
          var c := s.commits[i];
          c.runId in s.table && s.table[c.runId].key == c.key && s.table[c.runId].status != Failed)
    && (forall p :: 0 <= p < |s.procs| && (s.procs[p].pc == Trading || s.procs[p].pc == Raised) ==>
          !HasTraded(s, s.procs[p].runId))
    && (forall p :: 0 <= p < |s.procs| && s.procs[p].pc == Traded ==> HasTraded(s, s.procs[p].runId))
  }

  lemma CommitsGrow(s: State, s': State)
    requires s.commits <= s'.commits
    ensures forall id :: HasTraded(s, id) ==> HasTraded(s', id)
  {
    forall id | HasTraded(s, id) ensures HasTraded(s', id) {
      var i :| 0 <= i < |s.commits| && s.commits[i].runId == id;
      assert s'.commits[i].runId == id;
    }
  }

  /** A process that is about to commit is the first to do so for its branch and date. */
  lemma FirstToCommit(s: State, p: nat)
    requires Orderly(s) && CommitsOk(s) && Enabled(s, CommitTrades(p))
    ensures forall i :: 0 <= i < |s.commits| ==> s.commits[i].key != s.procs[p].key
  {
    var me := s.procs[p];
    assert ProcessOk(s, me) && !HasTraded(s, me.runId);
    forall i | 0 <= i < |s.commits|
      ensures s.commits[i].key != me.key
    {
      assert s.commits[i].runId != me.runId;
      if s.commits[i].key == me.key {
        LiveRowUnique(s.table, s.commits[i].runId, me.runId);
      }
    }
  }

  /** Nobody else who is still to act has traded under the run id that commits. */
  lemma OthersUntraded(s: State, p: nat, q: nat)
    requires Orderly(s) && CommitsOk(s) && Enabled(s, CommitTrades(p))
    requires q < |s.procs| && q != p && (s.procs[q].pc == Trading || s.procs[q].pc == Raised)
    ensures !HasTraded(Next(s, CommitTrades(p)), s.procs[q].runId)
  {
    assert Active(s.procs[p]) && Active(s.procs[q]);
    assert s.procs[q].runId != s.procs[p].runId && !HasTraded(s, s.procs[q].runId);
  }

  lemma CommitStepOk(s: State, p: nat)
    requires Orderly(s) && CommitsOk(s) && Enabled(s, CommitTrades(p))
    ensures CommitsOk(Next(s, CommitTrades(p)))
  {
    var s', me := Next(s, CommitTrades(p)), s.procs[p];
    assert ProcessOk(s, me);
    FirstToCommit(s, p);
    CommitsGrow(s, s');
    forall q | 0 <= q < |s'.procs| && (s'.procs[q].pc == Trading || s'.procs[q].pc == Raised)
      ensures !HasTraded(s', s'.procs[q].runId)
    {
      OthersUntraded(s, p, q);
    }
    assert s'.commits[|s.commits|].runId == me.runId;
  }

  lemma InsertStepOk(s: State, p: nat)
    requires Orderly(s) && CommitsOk(s) && Enabled(s, Insert(p))
    ensures CommitsOk(Next(s, Insert(p)))
  {
    var s' := Next(s, Insert(p));
    var id := RunId(s.procs[p].key, s.procs[p].pc.next);
    assert id !in s.table ==> !HasTraded(s, id);
    forall q | 0 <= q < |s'.procs| && (s'.procs[q].pc == Trading || s'.procs[q].pc == Raised)
      ensures !HasTraded(s', s'.procs[q].runId)
    {
      assert q != p ==> !HasTraded(s, s.procs[q].runId);
    }
    CommitsGrow(s, s');
  }

  /** Steps that leave the commits alone, fail no traded run and let no process start. */
  lemma QuietStepOk(s: State, s': State)
    requires CommitsOk(s) && s'.commits == s.commits && s.table.Keys <= s'.table.Keys
    requires forall id :: id in s.table && HasTraded(s, id) ==>
      s'.table[id].key == s.table[id].key && s'.table[id].status != Failed
    requires forall q :: 0 <= q < |s'.procs| && Active(s'.procs[q]) ==>
      q < |s.procs| && s'.procs[q].runId == s.procs[q].runId
      && (s'.procs[q].pc == s.procs[q].pc || (s'.procs[q].pc == Raised && s.procs[q].pc == Trading))
    ensures CommitsOk(s')
  {
    forall q | 0 <= q < |s'.procs| && Active(s'.procs[q])
      ensures HasTraded(s', s'.procs[q].runId) <==> s'.procs[q].pc == Traded
    {
      assert HasTraded(s', s'.procs[q].runId) == HasTraded(s, s.procs[q].runId);
    }
    forall i | 0 <= i < |s.commits|
      ensures var c := s.commits[i];
        c.runId in s'.table && s'.table[c.runId].key == c.key && s'.table[c.runId].status != Failed
    {
      assert HasTraded(s, s.commits[i].runId);
    }
  }

  lemma TradedNotFailed(s: State)
    requires CommitsOk(s)
    ensures forall id :: id in s.table && HasTraded(s, id) ==> s.table[id].status != Failed
  {
    forall id | id in s.table && HasTraded(s, id) ensures s.table[id].status != Failed {
      var i :| 0 <= i < |s.commits| && s.commits[i].runId == id;
    }
  }

  lemma MarkStepOk(s: State, a: Action)
    requires Orderly(s) && CommitsOk(s) && Enabled(s, a) && (a.MarkFailed? || a.MarkCompleted?)
    ensures CommitsOk(Next(s, a))
  {
    assert ProcessOk(s, s.procs[a.p]);
    assert a.MarkFailed? ==> !HasTraded(s, s.procs[a.p].runId);
    TradedNotFailed(s);
    QuietStepOk(s, Next(s, a));
  }

  lemma FlipStepOk(s: State, id: string)
    requires CommitsOk(s) && Enabled(s, Flip(id)) && !HasTraded(s, id)
    ensures CommitsOk(Next(s, Flip(id)))
  {
    TradedNotFailed(s);
    QuietStepOk(s, Next(s, Flip(id)));
  }

  lemma MoveStepOk(s: State, a: Action)
    requires CommitsOk(s) && Enabled(s, a) && (a.Launch? || a.Read? || a.Abort? || a.Crash?)
    ensures CommitsOk(Next(s, a))
  {
    TradedNotFailed(s);
    assert Next(s, a).table == s.table;
    QuietStepOk(s, Next(s, a));
  }

  lemma SafeStep(s: State, a: Action)
    requires Orderly(s) && CommitsOk(s) && Enabled(s, a)
    requires a.Flip? ==> !Live(s, a.runId) && !HasTraded(s, a.runId)
    ensures Orderly(Next(s, a)) && CommitsOk(Next(s, a))
  {
    StepKeepsOrder(s, a);
    match a {
      case CommitTrades(p) => CommitStepOk(s, p);
      case Insert(p) => InsertStepOk(s, p);
      case Flip(id) => FlipStepOk(s, id);
      case MarkCompleted(_) => MarkStepOk(s, a);
      case MarkFailed(_) => MarkStepOk(s, a);
      case _ => MoveStepOk(s, a);
    }
  }

  lemma {:induction false} CarefulRunsAreSafe(s: State, acts: seq<Action>)
    requires Orderly(s) && CommitsOk(s) && Outcome(s, acts).Some? && Careful(s, acts)
    ensures Orderly(Outcome(s, acts).value) && CommitsOk(Outcome(s, acts).value)
  {
    if acts != [] {
      CarefulRunsAreSafe(s, acts[..|acts| - 1]);
      SafeStep(Outcome(s, acts[..|acts| - 1]).value, acts[|acts| - 1]);
    }
  }

  lemma LatestOfUnfailed(table: Table, id: string, latest: Option<string>)
    requires TableOk(table) && id in table && table[id].status != Failed
    requires IsLatest(table, table[id].key, latest)
    ensures latest == Some(id)
  {
    assert latest.Some?;
    var other := latest.value;
    assert table[id].attempt <= table[other].attempt;
    if table[other].attempt > table[id].attempt {
      EarlierAttemptsFailed(table, other, table[id].attempt);
    }
  }

  /** No branch trades twice on one date, and the latest row of a branch that traded is that very run, not failed. */
  ghost predicate TradedOnce(s: State) {
    && AtMostOncePerKey(s.commits)
    && forall i, latest :: 0 <= i < |s.commits| && IsLatest(s.table, s.commits[i].key, latest) ==>
         latest == Some(s.commits[i].runId) && latest.value in s.table && s.table[latest.value].status != Failed
  }

  lemma SafeTradedOnce(s: State)
    requires Orderly(s) && CommitsOk(s)
    ensures TradedOnce(s)
  {
    forall i, latest | 0 <= i < |s.commits| && IsLatest(s.table, s.commits[i].key, latest)
      ensures latest == Some(s.commits[i].runId)
    {
      LatestOfUnfailed(s.table, s.commits[i].runId, latest);
    }
  }

  /**
   At-most-once trading: `TradedOnce` holds in every state of every careful run, whatever the interleaving,
   the crashes and the forced retries.
   */
  lemma AtMostOnce(acts: seq<Action>)
    requires Outcome(EMPTY, acts).Some? && Careful(EMPTY, acts)
    ensures TradedOnce(Outcome(EMPTY, acts).value)
  {
    CarefulRunsAreSafe(EMPTY, acts);
    SafeTradedOnce(Outcome(EMPTY, acts).value);
  }

  /** Without any manual edit every run is careful. */
  lemma {:induction false} NoFlipsIsCareful(s: State, acts: seq<Action>)
    requires forall i :: 0 <= i < |acts| ==> !acts[i].Flip?
    ensures Careful(s, acts) && Disciplined(s, acts)
  {
    if acts != [] {
      NoFlipsIsCareful(s, acts[..|acts| - 1]);
    }
  }

  // ----- what an undisciplined flip leads to ----------------------------------------

  lemma UnfailedIsLatest(table: Table, id: string)
    requires TableOk(table) && id in table && table[id].status != Failed
    ensures IsLatest(table, table[id].key, Some(id))
  {
    forall other | other in table && table[other].key == table[id].key
      ensures table[other].attempt <= table[id].attempt
    {
      if table[other].attempt > table[id].attempt {
        EarlierAttemptsFailed(table, other, table[id].attempt);
      }
    }
  }

  /** A possible continuation in which the flip of `id` is the first step and the only manual edit. */
  ghost predicate FlipThenNoMore(s: State, id: string, acts: seq<Action>) {
    && acts != [] && acts[0] == Flip(id) && Outcome(s, acts).Some?
    && forall i :: 1 <= i < |acts| ==> !acts[i].Flip?
  }

  lemma FlipThenLaunch(s: State, id: string)
    requires TableOk(s.table) && id in s.table && s.table[id].status == Running
    ensures Enabled(s, Flip(id))
    ensures var s2 := Next(Next(s, Flip(id)), Launch(s.table[id].key, true));
      && s2.table == s.table[id := s.table[id].(status := Failed)] && s2.commits == s.commits
      && s2.procs == s.procs + [Process(s.table[id].key, true, Start, "")]
      && IsLatest(s2.table, s.table[id].key, Some(id))
  {
    UnfailedIsLatest(s.table, id);
  }

  /** A fresh forced process that sees a failed latest row inserts the next attempt if its run id is free. */
  lemma ReadThenInsert(s: State, q: nat, id: string)
    requires q < |s.procs| && id in s.table && s.procs[q] == Process(s.table[id].key, true, Start, "")
    requires s.table[id].status == Failed && IsLatest(s.table, s.table[id].key, Some(id))
    requires RunId(s.table[id].key, s.table[id].attempt + 1) !in s.table
    ensures Enabled(s, Read(q, Some(id))) && Enabled(Next(s, Read(q, Some(id))), Insert(q))
    ensures var row := s.table[id];
      var retry := RunId(row.key, row.attempt + 1);
      var r := Next(Next(s, Read(q, Some(id))), Insert(q));
      && r.table == s.table[retry := Row(row.key, row.attempt + 1, Running)] && r.commits == s.commits
      && r.procs == s.procs[q := Process(row.key, true, Trading, retry)]
  {
    var s1 := Next(s, Read(q, Some(id)));
    assert s1.procs == s.procs[q := Process(s.table[id].key, true, Decided(s.table[id].attempt + 1), "")];
  }

  /** A flip and three more steps. */
  lemma FlipAndThree(s: State, id: string, a: Action, b: Action, c: Action) returns (acts: seq<Action>)
    requires Enabled(s, Flip(id)) && Enabled(Next(s, Flip(id)), a) && !a.Flip? && !b.Flip? && !c.Flip?
    requires var s2 := Next(Next(s, Flip(id)), a); Enabled(s2, b) && Enabled(Next(s2, b), c)
    ensures FlipThenNoMore(s, id, acts)
    ensures Outcome(s, acts) == Some(Next(Next(Next(Next(s, Flip(id)), a), b), c))
  {
    acts := [Flip(id), a] + [b, c];
    OutcomeTwo(s, Flip(id), a);
    OutcomeTwo(Next(Next(s, Flip(id)), a), b, c);
    OutcomeConcat(s, [Flip(id), a], [b, c]);
  }

  /** A flip followed by a forced retry: a fresh process inserts the next attempt and starts trading. */
  lemma RecoveryStarts(s: State, id: string) returns (acts: seq<Action>)
    requires Orderly(s) && id in s.table && s.table[id].status == Running
    requires RunId(s.table[id].key, s.table[id].attempt + 1) !in s.table
    ensures var row := s.table[id];
      var retry := RunId(row.key, row.attempt + 1);
      var r := Outcome(s, acts);
      && r.Some? && FlipThenNoMore(s, id, acts)
      && r.value.table == s.table[id := row.(status := Failed)][retry := Row(row.key, row.attempt + 1, Running)]
      && r.value.procs == s.procs + [Process(row.key, true, Trading, retry)]
      && r.value.commits == s.commits
  {
    var q, row := |s.procs|, s.table[id];
    FlipThenLaunch(s, id);
    var s2 := Next(Next(s, Flip(id)), Launch(row.key, true));
    ReadThenInsert(s2, q, id);
    acts := FlipAndThree(s, id, Launch(row.key, true), Read(q, Some(id)), Insert(q));
    var launched, retry := Process(row.key, true, Start, ""), RunId(row.key, row.attempt + 1);
    assert s2.procs == s.procs + [launched];
    assert (s.procs + [launched])[q := Process(row.key, true, Trading, retry)]
        == s.procs + [Process(row.key, true, Trading, retry)];
  }

  lemma FinishTrading(s: State, p: nat) returns (acts: seq<Action>)
    requires p < |s.procs| && s.procs[p].pc == Trading
    ensures var r := Outcome(s, acts);
      r.Some? && r.value.table == SetStatus(s.table, s.procs[p].runId, Completed)
    ensures forall i :: 0 <= i < |acts| ==> !acts[i].Flip?
  {
    acts := [CommitTrades(p), MarkCompleted(p)];
    OutcomeTwo(s, CommitTrades(p), MarkCompleted(p));
  }

  lemma FinishTraded(s: State, p: nat) returns (acts: seq<Action>)
    requires p < |s.procs| && s.procs[p].pc == Traded
    ensures var r := Outcome(s, acts);
      r.Some? && r.value.table == SetStatus(s.table, s.procs[p].runId, Completed)
    ensures forall i :: 0 <= i < |acts| ==> !acts[i].Flip?
  {
    acts := [] + [MarkCompleted(p)];
    OutcomeAppend(s, [], MarkCompleted(p));
  }

  /** How a live process ends when nothing goes wrong. */
  lemma FinishCompletes(s: State, p: nat) returns (acts: seq<Action>)
    requires p < |s.procs| && (s.procs[p].pc == Trading || s.procs[p].pc == Traded)
    ensures var r := Outcome(s, acts);
      r.Some? && r.value.table == SetStatus(s.table, s.procs[p].runId, Completed)
    ensures forall i :: 0 <= i < |acts| ==> !acts[i].Flip?
  {
    if s.procs[p].pc == Trading {
      acts := FinishTrading(s, p);
    } else {
      acts := FinishTraded(s, p);
    }
  }

  /** More steps without flips. */
  lemma NoMoreFlips(s: State, id: string, acts: seq<Action>, more: seq<Action>)
    requires FlipThenNoMore(s, id, acts) && Outcome(Outcome(s, acts).value, more).Some?
    requires forall i :: 0 <= i < |more| ==> !more[i].Flip?
    ensures FlipThenNoMore(s, id, acts + more)
    ensures Outcome(s, acts + more) == Outcome(Outcome(s, acts).value, more)
  {
    OutcomeConcat(s, acts, more);
  }

  /** The rest of such a continuation is a careful run from the state after the flip. */
  lemma AfterTheFlip(s: State, id: string, acts: seq<Action>)
    requires FlipThenNoMore(s, id, acts)
    ensures Enabled(s, Flip(id)) && Outcome(Next(s, Flip(id)), acts[1..]) == Outcome(s, acts)
    ensures Careful(Next(s, Flip(id)), acts[1..]) && Disciplined(Next(s, Flip(id)), acts[1..])
  {
    assert acts == [Flip(id)] + acts[1..];
    OutcomeCons(s, Flip(id), acts[1..]);
    NoFlipsIsCareful(Next(s, Flip(id)), acts[1..]);
  }

  lemma CompletedBeforeLast(table: Table, id: string)
    requires id in table && table[id].attempt >= 1 && id == RunId(table[id].key, table[id].attempt)
    requires Holds(table, table[id].key, table[id].attempt + 1, Running)
    ensures !TableOk(SetStatus(table, id, Completed))
    ensures Holds(SetStatus(table, id, Completed), table[id].key, table[id].attempt + 1, Running)
  {
    var next := RunId(table[id].key, table[id].attempt + 1);
    assert next != id;
    assert SetStatus(table, id, Completed)[next].attempt >= 2;
  }

  /** The table after a running row has been flipped to failed and its retry has started. */
  function Retried(table: Table, id: string): Table
    requires id in table
  {
    var row := table[id];
    table[id := row.(status := Failed)][RunId(row.key, row.attempt + 1) := Row(row.key, row.attempt + 1, Running)]
  }

  lemma RetriedRows(table: Table, id: string)
    requires id in table && RunId(table[id].key, table[id].attempt + 1) !in table
    ensures id in Retried(table, id) && Retried(table, id)[id] == table[id].(status := Failed)
    ensures Holds(Retried(table, id), table[id].key, table[id].attempt + 1, Running)
  {
  }

  /** The same for the table that a forced retry leaves. */
  lemma CompletedBeforeRetry(table: Table, id: string)
    requires TableOk(table) && id in table && RunId(table[id].key, table[id].attempt + 1) !in table
    ensures var after := SetStatus(Retried(table, id), id, Completed);
      && id in after && after[id].status == Completed
      && Holds(after, table[id].key, table[id].attempt + 1, Running) && !TableOk(after)
  {
    assert table[id].attempt >= 1 && id == RunId(table[id].key, table[id].attempt);
    RetriedRows(table, id);
    CompletedBeforeLast(Retried(table, id), id);
  }

  /** Recovery by a flip, after which process `p`, still live, finishes its run. */
  lemma FinishesAfterRetry(s: State, id: string, p: nat) returns (acts: seq<Action>)
    requires Orderly(s) && id in s.table && s.table[id].status == Running
    requires RunId(s.table[id].key, s.table[id].attempt + 1) !in s.table
    requires p < |s.procs| && s.procs[p].runId == id && (s.procs[p].pc == Trading || s.procs[p].pc == Traded)
    ensures FlipThenNoMore(s, id, acts)
    ensures Outcome(s, acts).value.table == SetStatus(Retried(s.table, id), id, Completed)
  {
    var recovery := RecoveryStarts(s, id);
    var retried := Outcome(s, recovery).value;
    assert retried.procs[p] == s.procs[p];
    var finish := FinishCompletes(retried, p);
    NoMoreFlips(s, id, recovery, finish);
    acts := recovery + finish;
  }

  /**
   The discipline is needed: flipping the row of a live run lets a retry start, after which the live process
   still marks its own row completed although a later attempt exists.
   */
  lemma FlippingALiveRunBreaksOrder(s: State, id: string) returns (acts: seq<Action>)
    requires Orderly(s) && id in s.table && s.table[id].status == Running && Live(s, id)
    requires RunId(s.table[id].key, s.table[id].attempt + 1) !in s.table
    ensures FlipThenNoMore(s, id, acts)
    ensures var table := Outcome(s, acts).value.table;
      && id in table && table[id].status == Completed
      && Holds(table, s.table[id].key, s.table[id].attempt + 1, Running)
      && !TableOk(table)
  {
    var p :| 0 <= p < |s.procs| && s.procs[p].runId == id && (s.procs[p].pc == Trading || s.procs[p].pc == Traded);
    acts := FinishesAfterRetry(s, id, p);
    CompletedBeforeRetry(s.table, id);
  }

  /** The care is needed: flipping a run whose trades are committed lets the same branch and date trade again. */
  lemma FlippingATradedRunTradesTwice(s: State, id: string) returns (acts: seq<Action>)
    requires Orderly(s) && CommitsOk(s) && id in s.table && s.table[id].status == Running && HasTraded(s, id)
    requires RunId(s.table[id].key, s.table[id].attempt + 1) !in s.table
    ensures FlipThenNoMore(s, id, acts) && !AtMostOncePerKey(Outcome(s, acts).value.commits)
  {
    var i :| 0 <= i < |s.commits| && s.commits[i].runId == id;
    var recovery := RecoveryStarts(s, id);
    var retried, again := Outcome(s, recovery).value, CommitTrades(|s.procs|);
    OutcomeAppend(retried, [], again);
    NoMoreFlips(s, id, recovery, [] + [again]);
    acts := recovery + ([] + [again]);
    var commits := Outcome(s, acts).value.commits;
    assert commits[i].key == commits[|s.commits|].key;
  }

  lemma BothCommit(s: State, q: nat, p: nat) returns (acts: seq<Action>)
    requires p < |s.procs| && q < |s.procs| && p != q && s.procs[p].key == s.procs[q].key
    requires s.procs[p].pc == s.procs[q].pc == Trading
    ensures Outcome(s, acts).Some? && !AtMostOncePerKey(Outcome(s, acts).value.commits)
    ensures forall i :: 0 <= i < |acts| ==> !acts[i].Flip?
  {
    acts := [CommitTrades(q), CommitTrades(p)];
    OutcomeTwo(s, CommitTrades(q), CommitTrades(p));
    var commits := Outcome(s, acts).value.commits;
    assert commits[|s.commits|].key == commits[|s.commits| + 1].key;
  }

  /** Flipping a run that is still trading lets both it and its retry commit. */
  lemma FlippingATradingRunTradesTwice(s: State, id: string) returns (acts: seq<Action>)
    requires Orderly(s) && CommitsOk(s) && id in s.table && s.table[id].status == Running
    requires Live(s, id) && !HasTraded(s, id)
    requires RunId(s.table[id].key, s.table[id].attempt + 1) !in s.table
    ensures FlipThenNoMore(s, id, acts) && !AtMostOncePerKey(Outcome(s, acts).value.commits)
  {
    var p :| 0 <= p < |s.procs| && s.procs[p].runId == id && (s.procs[p].pc == Trading || s.procs[p].pc == Traded);
    assert ProcessOk(s, s.procs[p]);
    var recovery := RecoveryStarts(s, id);
    var retried := Outcome(s, recovery).value;
    assert retried.procs[p] == s.procs[p];
    var both := BothCommit(retried, |s.procs|, p);
    NoMoreFlips(s, id, recovery, both);
    acts := recovery + both;
  }

  /** Whatever happens from here on, short of a careless manual edit, no branch and date trades twice. */
  ghost predicate TradesOnceFrom(s: State) {
    forall acts :: Careful(s, acts) && Outcome(s, acts).Some? ==> AtMostOncePerKey(Outcome(s, acts).value.commits)
  }

  /** Whatever happens from here on, short of an undisciplined manual edit, attempts stay contiguous. */
  ghost predicate ContiguousFrom(s: State) {
    forall acts :: Disciplined(s, acts) && Outcome(s, acts).Some? ==> TableOk(Outcome(s, acts).value.table)
  }

  /**
   Setting a running row to failed by hand keeps trading at most once if and only if the run is
   neither live nor traded.
   */
  lemma FlipIsSafeExactly(s: State, id: string)
    requires Orderly(s) && CommitsOk(s) && id in s.table && s.table[id].status == Running
    requires RunId(s.table[id].key, s.table[id].attempt + 1) !in s.table
    ensures TradesOnceFrom(Next(s, Flip(id))) <==> !Live(s, id) && !HasTraded(s, id)
  {
    var flipped := Next(s, Flip(id));
    if HasTraded(s, id) {
      var acts := FlippingATradedRunTradesTwice(s, id);
      AfterTheFlip(s, id, acts);
    } else if Live(s, id) {
      var acts := FlippingATradingRunTradesTwice(s, id);
      AfterTheFlip(s, id, acts);
    } else {
      SafeStep(s, Flip(id));
      forall acts | Careful(flipped, acts) && Outcome(flipped, acts).Some?
        ensures AtMostOncePerKey(Outcome(flipped, acts).value.commits)
      {
        CarefulRunsAreSafe(flipped, acts);
      }
    }
  }

  /** It keeps the attempts contiguous exactly if the run's process can no longer act on the row. */
  lemma FlipKeepsOrderExactly(s: State, id: string)
    requires Orderly(s) && id in s.table && s.table[id].status == Running
    requires RunId(s.table[id].key, s.table[id].attempt + 1) !in s.table
    ensures ContiguousFrom(Next(s, Flip(id))) <==> !Live(s, id)
  {
    var flipped := Next(s, Flip(id));
    if Live(s, id) {
      var acts := FlippingALiveRunBreaksOrder(s, id);
      AfterTheFlip(s, id, acts);
    } else {
      StepKeepsOrder(s, Flip(id));
      forall acts | Disciplined(flipped, acts) && Outcome(flipped, acts).Some?
        ensures TableOk(Outcome(flipped, acts).value.table)
      {
        DisciplinedRunsAreOrderly(flipped, acts);
      }
    }
  }

  /** No step of the list is a manual flip. */
  ghost predicate NoFlips(acts: seq<Action>) { forall i :: 0 <= i < |acts| ==> !acts[i].Flip? }

  lemma FirstDecides(key: Key) returns (acts: seq<Action>)
    ensures Outcome(EMPTY, acts) == Some(State(map[], [Process(key, false, Decided(1), "")], [])) && NoFlips(acts)
  {
    acts := [Launch(key, false), Read(0, None)];
    OutcomeTwo(EMPTY, Launch(key, false), Read(0, None));
    var launched := Next(EMPTY, Launch(key, false));
    assert launched.procs == [Process(key, false, Start, "")] && launched.table == map[];
    assert Enabled(launched, Read(0, None));
    assert Next(launched, Read(0, None)).procs == [Process(key, false, Decided(1), "")];
  }

  lemma FirstTrades(key: Key, s: State) returns (acts: seq<Action>)
    requires s == State(map[], [Process(key, false, Decided(1), "")], [])
    ensures var id := RunId(key, 1);
      Outcome(s, acts)
        == Some(State(map[id := Row(key, 1, Running)], [Process(key, false, Traded, id)], [Commit(key, id)]))
    ensures NoFlips(acts)
  {
    acts := [Insert(0), CommitTrades(0)];
    OutcomeTwo(s, Insert(0), CommitTrades(0));
    var id, inserted := RunId(key, 1), Next(s, Insert(0));
    assert inserted.procs == [Process(key, false, Trading, id)];
    var traded := Next(inserted, CommitTrades(0));
    assert traded.procs == [Process(key, false, Traded, id)] && traded.commits == [Commit(key, id)];
  }

  lemma FirstDies(s: State, p: Process) returns (acts: seq<Action>)
    requires s.procs == [p]
    ensures Outcome(s, acts) == Some(s.(procs := [p.(pc := Gone)])) && NoFlips(acts)
  {
    acts := [] + [Crash(0)];
    OutcomeAppend(s, [], Crash(0));
    assert Move(s, 0, Gone) == [p.(pc := Gone)];
  }

  lemma ThenWithoutFlips(s: State, acts: seq<Action>, more: seq<Action>) returns (all: seq<Action>)
    requires Outcome(s, acts).Some? && NoFlips(acts) && NoFlips(more)
    ensures Outcome(s, all) == Outcome(Outcome(s, acts).value, more) && NoFlips(all)
  {
    OutcomeConcat(s, acts, more);
    all := acts + more;
  }

  /** The state after a first run that has committed its trades and was killed. */
  lemma FirstRunKilled(key: Key) returns (acts: seq<Action>)
    ensures NoFlips(acts)
    ensures var id := RunId(key, 1);
      Outcome(EMPTY, acts)
        == Some(State(map[id := Row(key, 1, Running)], [Process(key, false, Gone, id)], [Commit(key, id)]))
  {
    var decide := FirstDecides(key);
    var trade := FirstTrades(key, Outcome(EMPTY, decide).value);
    acts := ThenWithoutFlips(EMPTY, decide, trade);
    var traded := Outcome(EMPTY, acts).value;
    var die := FirstDies(traded, Process(key, false, Traded, RunId(key, 1)));
    acts := ThenWithoutFlips(EMPTY, acts, die);
  }

  /** A first run that commits its trades and is killed before it writes its final status. */
  lemma TradedRunReachable(key: Key) returns (acts: seq<Action>)
    ensures Outcome(EMPTY, acts).Some? && forall i :: 0 <= i < |acts| ==> !acts[i].Flip?
    ensures var s, id := Outcome(EMPTY, acts).value, RunId(key, 1);
      && s.table == map[id := Row(key, 1, Running)] && HasTraded(s, id) && !Live(s, id)
      && Orderly(s) && CommitsOk(s)
  {
    acts := FirstRunKilled(key);
    assert Outcome(EMPTY, acts).value.commits[0].runId == RunId(key, 1);
    NoFlipsIsCareful(EMPTY, acts);
    CarefulRunsAreSafe(EMPTY, acts);
  }

  lemma RunIdsDiffer(key: Key)
    ensures RunId(key, 1) != RunId(key, 2)
  {
    if RunId(key, 1) == RunId(key, 2) {
      RunIdInjective(key, 1, 2);
    }
  }

  /** So one careless flip is enough: from the empty table a branch and date can be made to trade twice. */
  lemma OneFlipTradesTwice(key: Key) returns (acts: seq<Action>, flip: nat)
    ensures Outcome(EMPTY, acts).Some? && !AtMostOncePerKey(Outcome(EMPTY, acts).value.commits)
    ensures flip < |acts| && forall i :: 0 <= i < |acts| && acts[i].Flip? ==> i == flip
  {
    var first := TradedRunReachable(key);
    var s, id := Outcome(EMPTY, first).value, RunId(key, 1);
    RunIdsDiffer(key);
    var second := FlippingATradedRunTradesTwice(s, id);
    OutcomeConcat(EMPTY, first, second);
    acts, flip := first + second, |first|;
  }

  // ----- one process on its own -----------------------------------------------------

  /** A run may start: as the first attempt of its branch and date, or as a forced one after a failed latest one. */
  ghost predicate MayStart(table: Table, key: Key, forceRetry: bool, attempt: nat) {
    || (attempt == 1 && forall id :: id in table ==> table[id].key != key)
    || (attempt >= 1 && forceRetry
        && exists id :: IsLatest(table, key, Some(id)) && table[id] == Row(key, attempt - 1, Failed))
  }

  /** The table after a run that was allowed to start: one new row, under the id of its attempt. */
  ghost predicate Started(before: Table, after: Table, key: Key, forceRetry: bool, id: string, status: RunStatus) {
    && id !in before && id in after && MayStart(before, key, forceRetry, after[id].attempt)
    && id == RunId(key, after[id].attempt) && after == before[id := Row(key, after[id].attempt, status)]
  }

  /** What the run function does inside the trading transaction. */
  datatype Trades = TradesCommit | TradesRaise

  datatype Report =
    | Skipped(runId: string)
    | RaisedInFlight(runId: string)
    | RaisedManualIntervention(runId: string)
    | RaisedDuplicate(runId: string)
    | RanToCompletion(runId: string)
    | RaisedBookkeeping(runId: string)
    | RaisedPipeline(runId: string)

  /** The last two steps of a run alone: the trading transaction, then its final status unless that is lost. */
  lemma RunEnds(s: State, acts: seq<Action>, me: Process, trades: Trades, statusWritten: bool)
    returns (all: seq<Action>)
    requires Outcome(s, acts).Some? && Outcome(s, acts).value.procs == [me] && me.pc == Trading
    ensures Outcome(s, all).Some?
    ensures var before, after := Outcome(s, acts).value, Outcome(s, all).value;
      && after.commits == before.commits + (if trades == TradesCommit then [Commit(me.key, me.runId)] else [])
      && after.table ==
           if !statusWritten then before.table
           else SetStatus(before.table, me.runId, if trades == TradesCommit then Completed else Failed)
  {
    var traded := if trades == TradesCommit then CommitTrades(0) else Abort(0);
    var last := if !statusWritten then Crash(0)
                else if trades == TradesCommit then MarkCompleted(0) else MarkFailed(0);
    OutcomeTwo(Outcome(s, acts).value, traded, last);
    OutcomeConcat(s, acts, [traded, last]);
    all := acts + [traded, last];
  }

  class Runner {
    var rows: Table

    constructor (rows: Table)
      ensures this.rows == rows
    {
      this.rows := rows;
    }

    /** The row with the greatest attempt of a branch and date. */
    method FindLatest(key: Key) returns (latest: Option<string>)
      ensures IsLatest(rows, key, latest)
    {
      latest := None;
      var todo := rows.Keys;
      while todo != {}
        invariant todo <= rows.Keys
        invariant latest.Some? ==> latest.value in rows && rows[latest.value].key == key
        invariant latest == None ==> forall id :: id in rows && id !in todo ==> rows[id].key != key
        invariant latest.Some? ==> forall id :: id in rows && id !in todo && rows[id].key == key ==>
                    rows[id].attempt <= rows[latest.value].attempt
        decreases |todo|
      {
        var id :| id in todo;
        todo := todo - {id};
        if rows[id].key == key && (latest == None || rows[id].attempt > rows[latest.value].attempt) {
          latest := Some(id);
        }
      }
    }

    /** Inserts a running row unless the primary key is taken. */
    method InsertRunning(runId: string, key: Key, attempt: nat) returns (ok: bool)
      modifies this
      ensures ok == (runId !in old(rows))
      ensures rows == if ok then old(rows)[runId := Row(key, attempt, Running)] else old(rows)
    {
      ok := runId !in rows;
      if ok {
        rows := rows[runId := Row(key, attempt, Running)];
      }
    }

    /** Writes a final status; a missing row is an error. */
    method Mark(runId: string, status: RunStatus) returns (ok: bool)
      modifies this
      ensures ok == (runId in old(rows)) && rows == SetStatus(old(rows), runId, status)
    {
      ok := runId in rows;
      if ok {
        rows := rows[runId := rows[runId].(status := status)];
      }
    }

    /** Bookkeeping transaction 1: decide the attempt and insert the running row. */
    method BeginRun(key: Key, forceRetry: bool) returns (begun: Result<string, Report>, ghost acts: seq<Action>)
      modifies this
      ensures Outcome(State(old(rows), [], []), acts).Some?
      ensures var s := Outcome(State(old(rows), [], []), acts).value;
        && s.table == rows && s.commits == [] && |s.procs| == 1
        && (begun.Success? ==> s.procs == [Process(key, forceRetry, Trading, begun.value)])
      ensures match begun
        case Success(id) => Started(old(rows), rows, key, forceRetry, id, Running)
        case Failure(Skipped(id)) => IsLatest(rows, key, Some(id)) && rows == old(rows) && rows[id].status == Completed
        case Failure(RaisedInFlight(id)) =>
          IsLatest(rows, key, Some(id)) && rows == old(rows) && rows[id].status == Running
        case Failure(RaisedManualIntervention(id)) =>
          IsLatest(rows, key, Some(id)) && rows == old(rows) && rows[id].status == Failed && !forceRetry
        case Failure(RaisedDuplicate(id)) => id in old(rows) && rows == old(rows)
        case Failure(_) => false
    {
      ghost var s0 := State(rows, [], []);
      ghost var s1 := Next(s0, Launch(key, forceRetry));
      var latest := FindLatest(key);
      ghost var s2 := Next(s1, Read(0, latest));
      acts := [Launch(key, forceRetry), Read(0, latest)];
      OutcomeTwo(s0, Launch(key, forceRetry), Read(0, latest));
      match Decide(rows, latest, forceRetry) {
        case Skip => begun := Failure(Skipped(latest.value));
        case RunInFlight => begun := Failure(RaisedInFlight(latest.value));
        case ManualInterventionRequired => begun := Failure(RaisedManualIntervention(latest.value));
        case Attempt(attempt) =>
          var runId := RunId(key, attempt);
          OutcomeAppend(s0, acts, Insert(0));
          acts := acts + [Insert(0)];
          var inserted := InsertRunning(runId, key, attempt);
          begun := if inserted then Success(runId) else Failure(RaisedDuplicate(runId));
      }
    }

    /**
     One weekly run. `trades` is what the trading transaction does and `statusWritten` whether the last
     bookkeeping transaction gets through. The ghost result names the steps of the state machine it took:
     run alone, the method is one of its interleavings.
     */
    method Execute(key: Key, forceRetry: bool, trades: Trades, statusWritten: bool)
      returns (report: Report, ghost acts: seq<Action>)
      modifies this
      ensures Outcome(State(old(rows), [], []), acts).Some?
      ensures var s := Outcome(State(old(rows), [], []), acts).value;
        && s.table == rows
        && s.commits == match report
             case RanToCompletion(id) => [Commit(key, id)]
             case RaisedBookkeeping(id) => [Commit(key, id)]
             case _ => []
      ensures match report
        case RanToCompletion(_) => trades == TradesCommit && statusWritten
        case RaisedBookkeeping(_) => trades == TradesCommit && !statusWritten
        case RaisedPipeline(_) => trades == TradesRaise
        case _ => true
      ensures match report
        case Skipped(id) => IsLatest(rows, key, Some(id)) && rows == old(rows) && rows[id].status == Completed
        case RaisedInFlight(id) => IsLatest(rows, key, Some(id)) && rows == old(rows) && rows[id].status == Running
        case RaisedManualIntervention(id) =>
          IsLatest(rows, key, Some(id)) && rows == old(rows) && rows[id].status == Failed && !forceRetry
        case RaisedDuplicate(id) => id in old(rows) && rows == old(rows)
        case RanToCompletion(id) => Started(old(rows), rows, key, forceRetry, id, Completed)
        case RaisedBookkeeping(id) => Started(old(rows), rows, key, forceRetry, id, Running)
        case RaisedPipeline(id) =>
          Started(old(rows), rows, key, forceRetry, id, if statusWritten then Failed else Running)
    {
      ghost var s0 := State(rows, [], []);
      var begun;
      begun, acts := BeginRun(key, forceRetry);
      if begun.Failure? {
        return begun.error, acts;
      }
      var runId := begun.value;
      acts := RunEnds(s0, acts, Process(key, forceRetry, Trading, runId), trades, statusWritten);
      if statusWritten {
        var marked := Mark(runId, if trades == TradesCommit then Completed else Failed);
        assert marked;
      }
      report := if trades == TradesRaise then RaisedPipeline(runId)
                else if statusWritten then RanToCompletion(runId) else RaisedBookkeeping(runId);
    }
  }
}
