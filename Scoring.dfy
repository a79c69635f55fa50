/**
 * The score of a list of findings: 90, less 25, 15, 8 or 2 for each critical, high, medium or low
 * finding, clamped to the range 0 to 100.
 */
module Scoring {
  import opened Review

  const BASE_SCORE := 90

  function Deduction(s: Severity): nat {
    match s
    case Critical => 25
    case High => 15
    case Medium => 8
    case Low => 2
  }

  /** The sum of the deductions of the findings. */
  function TotalDeduction(fs: seq<Finding>): nat
    decreases |fs|
  {
    if fs == [] then 0 else TotalDeduction(fs[..|fs| - 1]) + Deduction(fs[|fs| - 1].severity)
  }

  /** `Math.max(0, Math.min(100, x))`. */
  function Clamp(x: int): (r: int)
    ensures 0 <= r <= 100
    ensures 0 <= x <= 100 ==> r == x
    ensures x < 0 ==> r == 0
    ensures x > 100 ==> r == 100
  {
    var upper := if x < 100 then x else 100;
    if 0 < upper then upper else 0
  }

  /** The score of a list of findings: never above the base score, never negative. */
  function ScoreOf(fs: seq<Finding>): (score: int)
    ensures 0 <= score <= BASE_SCORE
  {
    Clamp(BASE_SCORE - TotalDeduction(fs))
  }

  /** The scoring loop that ends both rule sets. */
  method ComputeScore(results: seq<Finding>) returns (score: int)
    ensures score == ScoreOf(results)
  {
    score := BASE_SCORE;
    for i := 0 to |results|
      invariant score == BASE_SCORE - TotalDeduction(results[..i])
    {
      var r := results[i];
      if r.severity == Critical {
        score := score - 25;
      } else if r.severity == High {
        score := score - 15;
      } else if r.severity == Medium {
        score := score - 8;
      } else if r.severity == Low {
        score := score - 2;
      }
      assert results[..i + 1][..i] == results[..i];
    }
    assert results[..|results|] == results;
    score := if score < 100 then score else 100;
    score := if 0 < score then score else 0;
  }

  /** The number of findings of severity `s`. */
  function CountSeverity(fs: seq<Finding>, s: Severity): nat
    decreases |fs|
  {
    if fs == [] then 0
    else CountSeverity(fs[..|fs| - 1], s) + (if fs[|fs| - 1].severity == s then 1 else 0)
  }

  // ----- Lemmas -----

  /** Deductions add up over a concatenation. */
  lemma {:induction false} TotalDeductionAppend(fs: seq<Finding>, gs: seq<Finding>)
    ensures TotalDeduction(fs + gs) == TotalDeduction(fs) + TotalDeduction(gs)
    decreases |gs|
  {
    if gs == [] {
      assert fs + gs == fs;
    } else {
      var last := |gs| - 1;
      assert (fs + gs)[..|fs + gs| - 1] == fs + gs[..last];
      TotalDeductionAppend(fs, gs[..last]);
    }
  }

  /** Counting severities also adds up over a concatenation. */
  lemma {:induction false} CountSeverityAppend(fs: seq<Finding>, gs: seq<Finding>, s: Severity)
    ensures CountSeverity(fs + gs, s) == CountSeverity(fs, s) + CountSeverity(gs, s)
    decreases |gs|
  {
    if gs == [] {
      assert fs + gs == fs;
    } else {
      var last := |gs| - 1;
      assert (fs + gs)[..|fs + gs| - 1] == fs + gs[..last];
      CountSeverityAppend(fs, gs[..last], s);
    }
  }

  /** There are never more findings of one severity than findings. */
  lemma {:induction false} CountSeverityBound(fs: seq<Finding>, s: Severity)
    ensures CountSeverity(fs, s) <= |fs|
    ensures (forall f :: f in fs ==> f.severity != s) ==> CountSeverity(fs, s) == 0
    decreases |fs|
  {
    if fs != [] {
      var init := fs[..|fs| - 1];
      assert forall f :: f in init ==> f in fs;
      CountSeverityBound(init, s);
      assert fs[|fs| - 1] in fs;
    }
  }

  /** The deduction depends only on how many findings there are of each severity, not on their order. */
  lemma {:induction false} DeductionByCounts(fs: seq<Finding>)
    ensures TotalDeduction(fs) == 25 * CountSeverity(fs, Critical) + 15 * CountSeverity(fs, High)
                                  + 8 * CountSeverity(fs, Medium) + 2 * CountSeverity(fs, Low)
    decreases |fs|
  {
    if fs != [] {
      DeductionByCounts(fs[..|fs| - 1]);
    }
  }

  /** Adding findings never raises the score, and lowers it while it is still above zero. */
  lemma ScoreNeverRises(fs: seq<Finding>, gs: seq<Finding>)
    ensures ScoreOf(fs + gs) <= ScoreOf(fs)
    ensures gs != [] && ScoreOf(fs) > 0 ==> ScoreOf(fs + gs) < ScoreOf(fs)
  {
    TotalDeductionAppend(fs, gs);
    if gs != [] {
      assert TotalDeduction(gs) > 0 by {
        assert TotalDeduction(gs) >= Deduction(gs[|gs| - 1].severity);
      }
    }
  }

  /** The score is what is left of 90 after the deductions, and 0 exactly when they reach 90. */
  lemma ScoreFloor(fs: seq<Finding>)
    ensures ScoreOf(fs) == 0 <==> TotalDeduction(fs) >= BASE_SCORE
    ensures TotalDeduction(fs) < BASE_SCORE ==> ScoreOf(fs) == BASE_SCORE - TotalDeduction(fs)
  {
  }

  /** The worked values: nothing found scores 90, one critical 65, one low 88, four criticals 0. */
  lemma ScoreExamples(critical: Finding, low: Finding)
    requires critical.severity == Critical && low.severity == Low
    ensures ScoreOf([]) == 90
    ensures ScoreOf([critical]) == 65
    ensures ScoreOf([low]) == 88
    ensures ScoreOf([critical, critical, critical, critical]) == 0
  {
    var four := [critical, critical, critical, critical];
    assert [critical][..0] == [] && [low][..0] == [];
    assert TotalDeduction([critical]) == 25;
    var two := [critical, critical];
    assert two[..1] == [critical];
    assert TotalDeduction(two) == 50;
    TotalDeductionAppend(two, two);
    assert two + two == four;
  }
}
