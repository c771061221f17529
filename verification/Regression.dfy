/** The performance database and the regression detector that reads it: scripts/performance_monitoring_dashboard.py. */
module Regression {
  import opened Outcomes

  datatype Row = Row(time: int, branch: string, rate: real, gaps: int, speed: real, memory: real)

  datatype Kind = SuccessRate | Gaps | Speed | Memory

  const PERFORMANCE_DROP := 0.1
  const MEMORY_GROWTH := 0.2

  predicate Clean(r: Row) {
    r.rate == 1.0 && r.gaps == 0
  }

  predicate Candidate(r: Row, branch: string) {
    r.branch == branch && Clean(r)
  }

  /** The answer to "newest clean row of the branch"; among rows of one time any may be returned. */
  ghost predicate IsBaseline(rows: seq<Row>, branch: string, b: Option<Row>) {
    if b.None? then forall i :: 0 <= i < |rows| ==> !Candidate(rows[i], branch)
    else b.value in rows && Candidate(b.value, branch) &&
         forall i :: 0 <= i < |rows| && Candidate(rows[i], branch) ==> rows[i].time <= b.value.time
  }

  // ---- The four comparisons ----

  function Change(now: real, before: real): real
    requires before > 0.0
  {
    (now - before) / before
  }

  predicate Worse(k: Kind, current: Row, b: Row) {
    match k
    case SuccessRate => current.rate < b.rate
    case Gaps => current.gaps > b.gaps
    case Speed => b.speed > 0.0 && Change(current.speed, b.speed) < -PERFORMANCE_DROP
    case Memory => b.memory > 0.0 && Change(current.memory, b.memory) > MEMORY_GROWTH
  }

  lemma {:induction false} ChangeTimes(now: real, before: real)
    requires before > 0.0
    ensures Change(now, before) * before == now - before
  {
  }

  lemma {:induction false} SameOrder(x: real, y: real, p: real)
    requires p > 0.0
    ensures x < y <==> x * p < y * p
  {
    if x < y {
      assert (y - x) * p > 0.0;
    } else {
      assert (x - y) * p >= 0.0;
    }
  }

  /** Worse means more than 10 percent slower, or more than 20 percent more memory. */
  lemma {:induction false} WorseByPercent(current: Row, b: Row)
    ensures Worse(Speed, current, b) <==> b.speed > 0.0 && 100.0 * current.speed < 90.0 * b.speed
    ensures Worse(Memory, current, b) <==> b.memory > 0.0 && 100.0 * current.memory > 120.0 * b.memory
  {
    if b.speed > 0.0 {
      ChangeTimes(current.speed, b.speed);
      SameOrder(Change(current.speed, b.speed), -PERFORMANCE_DROP, b.speed);
    }
    if b.memory > 0.0 {
      ChangeTimes(current.memory, b.memory);
      SameOrder(MEMORY_GROWTH, Change(current.memory, b.memory), b.memory);
    }
  }

  /** No row is worse than itself. */
  lemma {:induction false} NotWorseThanItself(k: Kind, r: Row)
    ensures !Worse(k, r, r)
  {
  }

  class Monitor {
    var rows: seq<Row>

    constructor ()
      ensures rows == []
    {
      rows := [];
    }

    method StoreMetrics(r: Row)
      modifies this
      ensures rows == old(rows) + [r]
    {
      rows := rows + [r];
    }

    method GetBaseline(branch: string) returns (b: Option<Row>)
      ensures IsBaseline(rows, branch, b)
      ensures b.Some? ==> b.value in rows && b.value.branch == branch && b.value.rate == 1.0 && b.value.gaps == 0
      ensures forall r :: r in rows && r.branch == branch && r.rate == 1.0 && r.gaps == 0 ==>
                b.Some? && r.time <= b.value.time
    {
      b := None;
      for i := 0 to |rows|
        invariant IsBaseline(rows[..i], branch, b)
      {
        if rows[i].branch == branch && rows[i].rate == 1.0 && rows[i].gaps == 0
          && (b.None? || b.value.time < rows[i].time) {
          b := Some(rows[i]);
        }
        assert rows[..i + 1] == rows[..i] + [rows[i]];
      }
      assert rows[..|rows|] == rows;
    }

    /** The baseline the report names, and the regressions found against it; `None` when there is no baseline. */
    method DetectRegression(current: Row) returns (found: Option<seq<Kind>>, baseline: Option<Row>)
      ensures IsBaseline(rows, current.branch, baseline)
      ensures found.None? <==> baseline.None?
      ensures found.Some? ==>
                var b := baseline.value;
                && (SuccessRate in found.value <==> current.rate < b.rate)
                && (Gaps in found.value <==> current.gaps > b.gaps)
                && (Speed in found.value <==> b.speed > 0.0 && 100.0 * current.speed < 90.0 * b.speed)
                && (Memory in found.value <==> b.memory > 0.0 && 100.0 * current.memory > 120.0 * b.memory)
      ensures found.Some? ==> forall k :: k in found.value <==> Worse(k, current, baseline.value)
    {
      var b := GetBaseline(current.branch);
      baseline := b;
      if b.None? {
        return None, b;
      }
      var regressions := [];
      if current.rate < b.value.rate {
        regressions := regressions + [SuccessRate];
      }
      if current.gaps > b.value.gaps {
        regressions := regressions + [Gaps];
      }
      if b.value.speed > 0.0 && (current.speed - b.value.speed) / b.value.speed < -PERFORMANCE_DROP {
        regressions := regressions + [Speed];
      }
      if b.value.memory > 0.0 && (current.memory - b.value.memory) / b.value.memory > MEMORY_GROWTH {
        regressions := regressions + [Memory];
      }
      WorseByPercent(current, b.value);
      found := Some(regressions);
    }

    /**
     A test run stores its row and is then compared. With a rate of at most 1 and no negative gap count, and
     newer than every stored clean row, it is reported exactly when it is not clean and an earlier clean row exists.
     */
    method RunAndCompare(current: Row) returns (found: Option<seq<Kind>>)
      requires current.rate <= 1.0 && current.gaps >= 0
      requires forall i :: 0 <= i < |rows| && Candidate(rows[i], current.branch) ==> rows[i].time < current.time
      modifies this
      ensures rows == old(rows) + [current]
      ensures (found.Some? && found.value != []) <==>
              !Clean(current) && exists i :: 0 <= i < |old(rows)| && Candidate(old(rows)[i], current.branch)
      ensures found.Some? && found.value != [] ==> SuccessRate in found.value || Gaps in found.value
    {
      ghost var before := rows;
      StoreMetrics(current);
      var b;
      found, b := DetectRegression(current);
      ReportedIff(before, current, b);
      if found.Some? && found.value != [] {
        assert found.value[0] in found.value;
        assert Worse(found.value[0], current, b.value);
      }
    }
  }

  /** The verdict as a fact about the stored rows and whichever baseline the query returns. */
  lemma {:induction false} ReportedIff(before: seq<Row>, current: Row, b: Option<Row>)
    requires current.rate <= 1.0 && current.gaps >= 0
    requires forall i :: 0 <= i < |before| && Candidate(before[i], current.branch) ==> before[i].time < current.time
    requires IsBaseline(before + [current], current.branch, b)
    ensures (b.Some? && exists k :: Worse(k, current, b.value)) <==>
            !Clean(current) && exists i :: 0 <= i < |before| && Candidate(before[i], current.branch)
    ensures b.Some? && !Clean(current) ==> Worse(SuccessRate, current, b.value) || Worse(Gaps, current, b.value)
    ensures Clean(current) ==> b == Some(current)
  {
    var rows := before + [current];
    if Clean(current) {
      assert rows[|before|] == current && Candidate(current, current.branch);
      assert b.Some?;
      var i :| 0 <= i < |rows| && rows[i] == b.value;
      forall k: Kind ensures !Worse(k, current, current) {
        NotWorseThanItself(k, current);
      }
    } else if b.Some? {
      var i :| 0 <= i < |rows| && rows[i] == b.value;
      assert i < |before| && Candidate(before[i], current.branch);
      assert Worse(SuccessRate, current, b.value) || Worse(Gaps, current, b.value);
    } else {
      assert forall i :: 0 <= i < |before| ==> rows[i] == before[i];
    }
  }

  /**
   A clean row is never reported, for speed, memory or anything else, however far it falls behind the baseline
   that stood before it was stored.
   */
  lemma {:induction false} CleanRowsHideRegressions(before: seq<Row>, current: Row, previous: Row, b: Option<Row>)
    requires Clean(current)
    requires forall i :: 0 <= i < |before| && Candidate(before[i], current.branch) ==> before[i].time < current.time
    requires IsBaseline(before, current.branch, Some(previous))
             && (Worse(Speed, current, previous) || Worse(Memory, current, previous))
    requires IsBaseline(before + [current], current.branch, b)
    ensures b == Some(current) && b != Some(previous) && forall k :: !Worse(k, current, b.value)
  {
    ReportedIff(before, current, b);
    forall k: Kind ensures !Worse(k, current, current) {
      NotWorseThanItself(k, current);
    }
  }
}
