/** Repeated crashes before the first persist: what the write-ahead log keeps.
    Lines are appended behind whatever the file ends with, and replay stops at
    the first line that is not JSON. */
module LedgerCrashes {
  import opened Wrappers
  import opened LedgerModel
  import opened LedgerHistory

  /** What a crash leaves of the line that was being written: nothing, a part of
      it, or all of it but the newline. */
  datatype Tail = Nothing | Part | WithoutNewline(row: Row)

  datatype LogOp = Append(row: Row) | Crash(tail: Tail)

  /** The lines of the log, whether the last one lacks its newline, and the rows
      for which record() has returned. */
  datatype Log = Log(lines: seq<Option<Row>>, unfinished: bool, recorded: seq<Row>)

  const EMPTY_LOG := Log([], false, [])

  /** Text that runs on behind an unfinished line makes it unreadable. */
  function RunOn(lines: seq<Option<Row>>): seq<Option<Row>> {
    if lines == [] then [] else lines[..|lines| - 1] + [None]
  }

  function Step(s: Log, op: LogOp): Log {
    match op
    case Append(row) =>
      Log(if s.unfinished then RunOn(s.lines) else s.lines + [Some(row)], false, s.recorded + [row])
    case Crash(Nothing) => s
    case Crash(Part) => s.(lines := if s.unfinished then RunOn(s.lines) else s.lines + [None], unfinished := true)
    case Crash(WithoutNewline(row)) =>
      s.(lines := if s.unfinished then RunOn(s.lines) else s.lines + [Some(row)], unfinished := true)
  }

  function Run(s: Log, ops: seq<LogOp>): Log
    decreases |ops|
  {
    if ops == [] then s else Run(Step(s, ops[0]), ops[1..])
  }

  /** Some row is appended behind an unfinished line. */
  predicate AppendsBehindTear(s: Log, ops: seq<LogOp>)
    decreases |ops|
  {
    ops != [] && ((s.unfinished && ops[0].Append?) || AppendsBehindTear(Step(s, ops[0]), ops[1..]))
  }

  /** Every recorded row has its own line, in order. */
  ghost predicate Whole(s: Log) {
    && |s.lines| == |s.recorded| + (if s.unfinished then 1 else 0)
    && forall i :: 0 <= i < |s.recorded| ==> s.lines[i] == Some(s.recorded[i])
  }

  /** A recorded row is gone: a line that can no longer change is unreadable. */
  ghost predicate Lost(s: Log) {
    exists k :: 0 <= k < |s.lines| && k < |s.recorded| && s.lines[k] == None && (s.unfinished ==> k < |s.lines| - 1)
  }

  lemma {:induction false} DecodedAtLeast(lines: seq<Option<Row>>, rows: seq<Row>)
    requires |rows| <= |lines| && forall i :: 0 <= i < |rows| ==> lines[i] == Some(rows[i])
    ensures rows <= Decoded(lines)
    decreases |rows|
  {
    if rows != [] {
      forall i | 0 <= i < |rows| - 1 ensures lines[1..][i] == Some(rows[1..][i]) {
        var j := i + 1;
        assert lines[j] == Some(rows[j]);
      }
      DecodedAtLeast(lines[1..], rows[1..]);
    }
  }

  lemma {:induction false} DecodedAtMost(lines: seq<Option<Row>>, k: nat)
    requires k < |lines| && lines[k] == None
    ensures |Decoded(lines)| <= k
    decreases k
  {
    if k > 0 && lines[0].Some? {
      DecodedAtMost(lines[1..], k - 1);
    }
  }

  lemma LostStays(s: Log, op: LogOp)
    requires Lost(s)
    ensures Lost(Step(s, op))
  {
    var k :| 0 <= k < |s.lines| && k < |s.recorded| && s.lines[k] == None && (s.unfinished ==> k < |s.lines| - 1);
    assert Step(s, op).lines[k] == None;
  }

  lemma {:induction false} LostRun(s: Log, ops: seq<LogOp>)
    requires Lost(s)
    ensures Lost(Run(s, ops))
    decreases |ops|
  {
    hide Lost, Step;
    if ops != [] {
      LostStays(s, ops[0]);
      LostRun(Step(s, ops[0]), ops[1..]);
    }
  }

  lemma LostIsMissing(s: Log)
    requires Lost(s)
    ensures |Decoded(s.lines)| < |s.recorded|
  {
    var k :| 0 <= k < |s.lines| && k < |s.recorded| && s.lines[k] == None && (s.unfinished ==> k < |s.lines| - 1);
    DecodedAtMost(s.lines, k);
  }

  lemma AppendBehindTearLoses(s: Log, op: LogOp)
    requires Whole(s) && s.unfinished && op.Append?
    ensures Lost(Step(s, op))
  {
    assert Step(s, op).lines[|s.recorded|] == None;
  }

  lemma {:induction false} SurvivalIff(s: Log, ops: seq<LogOp>)
    requires Whole(s)
    ensures Run(s, ops).recorded <= Decoded(Run(s, ops).lines) <==> !AppendsBehindTear(s, ops)
    decreases |ops|
  {
    hide Lost, Decoded;
    if ops == [] {
      DecodedAtLeast(s.lines, s.recorded);
    } else if s.unfinished && ops[0].Append? {
      AppendBehindTearLoses(s, ops[0]);
      LostRun(Step(s, ops[0]), ops[1..]);
      LostIsMissing(Run(s, ops));
    } else {
      SurvivalIff(Step(s, ops[0]), ops[1..]);
    }
  }

  /** Over any number of crashes: replay brings back every recorded row, in order,
      if and only if no row was ever appended behind an unfinished line. */
  lemma RecordedRowsSurviveIff(ops: seq<LogOp>)
    ensures Run(EMPTY_LOG, ops).recorded <= Decoded(Run(EMPTY_LOG, ops).lines)
       <==> !AppendsBehindTear(EMPTY_LOG, ops)
  {
    SurvivalIff(EMPTY_LOG, ops);
  }

  /** The second crash: a tear, a row recorded after the recovery, and another
      crash bring back neither that row nor any later one. */
  lemma RowAfterTearIsLost(first: Row, second: Row, third: Row)
    ensures var s := Run(EMPTY_LOG, [Append(first), Crash(Part), Append(second), Append(third), Crash(Nothing)]);
      s.recorded == [first, second, third] && Decoded(s.lines) == [first]
  {
    var lines := [Some(first), None, Some(third)];
    assert lines[1..][0] == None;
    assert Run(EMPTY_LOG, [Append(first), Crash(Part), Append(second), Append(third), Crash(Nothing)])
        == Log(lines, false, [first, second, third]) by {
      var ops := [Append(first), Crash(Part), Append(second), Append(third), Crash(Nothing)];
      var s1 := Log([Some(first)], false, [first]);
      var s2 := Log([Some(first), None], true, [first]);
      var s3 := Log([Some(first), None], false, [first, second]);
      var s4 := Log(lines, false, [first, second, third]);
      assert Step(EMPTY_LOG, ops[0]) == s1 && Step(s1, ops[1]) == s2;
      assert Step(s2, ops[2]) == s3 && Step(s3, ops[3]) == s4 && Step(s4, ops[4]) == s4;
      FiveSteps(EMPTY_LOG, s1, s2, s3, s4, s4, ops);
    }
    assert Decoded(lines[1..]) == [];
  }

  lemma FiveSteps(s: Log, s1: Log, s2: Log, s3: Log, s4: Log, s5: Log, ops: seq<LogOp>)
    requires |ops| == 5 && Step(s, ops[0]) == s1 && Step(s1, ops[1]) == s2 && Step(s2, ops[2]) == s3
    requires Step(s3, ops[3]) == s4 && Step(s4, ops[4]) == s5
    ensures Run(s, ops) == s5
  {
    hide Step;
    assert ops[1..][1..] == ops[2..] && ops[2..][1..] == ops[3..] && ops[3..][1..] == ops[4..] && ops[4..][1..] == [];
    assert Run(s, ops) == Run(s1, ops[1..]) && Run(s1, ops[1..]) == Run(s2, ops[2..]);
    assert Run(s2, ops[2..]) == Run(s3, ops[3..]) && Run(s3, ops[3..]) == Run(s4, ops[4..]);
    assert Run(s4, ops[4..]) == Run(s5, []);
  }
}
