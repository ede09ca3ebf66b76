/** The monthly depletion simulation of the retirement phase: each month the
    expense is withdrawn, the remaining balance grows by the monthly return,
    and the expense grows by the monthly inflation for the next month.

    After and Withdrawn are used with a constant twelve months per year. Their
    `decreases` clauses name the state `s` as a second component, which does
    not affect termination, so that the verifier does not unfold all twelve
    months when the count is that constant. */
module Depletion {
  import opened Numeric

  /** The state of a drawdown at the start of a month. */
  datatype Drawdown = Drawdown(balance: real, expense: real)

  /** How far below zero a balance may dip, after a withdrawal, before the
      portfolio counts as depleted. */
  const Tolerance: real := -1.0

  /** One month: withdraw at the start, grow at the end, inflate the expense. */
  function Month(s: Drawdown, monthlyInflation: real, monthlyReturn: real): Drawdown
  {
    Drawdown((s.balance - s.expense) * (1.0 + monthlyReturn), s.expense * (1.0 + monthlyInflation))
  }

  /** The withdrawal of this month leaves the balance at or above the tolerance. */
  predicate Solvent(s: Drawdown)
  {
    s.balance - s.expense >= Tolerance
  }

  /** The state after n months, with no depletion check. */
  function After(s: Drawdown, n: nat, monthlyInflation: real, monthlyReturn: real): Drawdown
    decreases n, s
  {
    if n == 0 then s else After(Month(s, monthlyInflation, monthlyReturn), n - 1, monthlyInflation, monthlyReturn)
  }

  /** The total expense withdrawn over the first n months. */
  function Withdrawn(s: Drawdown, n: nat, monthlyInflation: real, monthlyReturn: real): real
    decreases n, s
  {
    if n == 0 then 0.0
    else s.expense + Withdrawn(Month(s, monthlyInflation, monthlyReturn), n - 1, monthlyInflation, monthlyReturn)
  }

  /** The portfolio lasts `months` months (a non-positive horizon always lasts):
      the check runs after each withdrawal and before that month's growth. */
  predicate Survives(s: Drawdown, months: int, monthlyInflation: real, monthlyReturn: real)
    decreases if months > 0 then months else 0
  {
    months <= 0 || (Solvent(s) && Survives(Month(s, monthlyInflation, monthlyReturn), months - 1, monthlyInflation, monthlyReturn))
  }

  /** simulateDepletionMonthly: does `startPrincipal` cover `totalMonths` months? */
  method SimulateDepletionMonthly(startPrincipal: real, startExpense: real, totalMonths: int,
                                  monthlyInflation: real, monthlyReturn: real) returns (survived: bool)
    ensures survived == Survives(Drawdown(startPrincipal, startExpense), totalMonths, monthlyInflation, monthlyReturn)
    ensures totalMonths <= 0 ==> survived
  {
    var balance := startPrincipal;
    var expense := startExpense;
    var m := 0;
    while m < totalMonths
      invariant 0 <= m
      invariant Survives(Drawdown(balance, expense), totalMonths - m, monthlyInflation, monthlyReturn)
             == Survives(Drawdown(startPrincipal, startExpense), totalMonths, monthlyInflation, monthlyReturn)
      decreases totalMonths - m
    {
      ghost var next := Month(Drawdown(balance, expense), monthlyInflation, monthlyReturn);
      assert Survives(Drawdown(balance, expense), totalMonths - m, monthlyInflation, monthlyReturn)
          == (Solvent(Drawdown(balance, expense)) && Survives(next, totalMonths - m - 1, monthlyInflation, monthlyReturn));
      balance := balance - expense;
      if balance < Tolerance {
        return false;
      }
      balance := balance * (1.0 + monthlyReturn);
      expense := expense * (1.0 + monthlyInflation);
      assert Drawdown(balance, expense) == next;
      m := m + 1;
    }
    return true;
  }

  /** More capital never depletes sooner, as long as growth does not flip the
      sign of the balance (1 + monthlyReturn >= 0). */
  lemma {:induction false} SurvivesMonotone(p: real, q: real, expense: real, months: int,
                                            monthlyInflation: real, monthlyReturn: real)
    requires p <= q
    requires 1.0 + monthlyReturn >= 0.0
    requires Survives(Drawdown(p, expense), months, monthlyInflation, monthlyReturn)
    ensures Survives(Drawdown(q, expense), months, monthlyInflation, monthlyReturn)
    decreases if months > 0 then months else 0
  {
    if months > 0 {
      var g := 1.0 + monthlyReturn;
      assert Month(Drawdown(p, expense), monthlyInflation, monthlyReturn) == Drawdown((p - expense) * g, expense * (1.0 + monthlyInflation));
      assert Month(Drawdown(q, expense), monthlyInflation, monthlyReturn) == Drawdown((q - expense) * g, expense * (1.0 + monthlyInflation));
      assert (p - expense) * g <= (q - expense) * g by {
        assert (q - expense) * g - (p - expense) * g == (q - p) * g;
      }
      SurvivesMonotone((p - expense) * g, (q - expense) * g, expense * (1.0 + monthlyInflation),
                       months - 1, monthlyInflation, monthlyReturn);
    }
  }

  /** The survival check, unrolled: it holds exactly when no month of the
      horizon leaves the balance below the tolerance after its withdrawal. */
  lemma {:induction false} SurvivesIffEveryMonthSolvent(s: Drawdown, months: nat, monthlyInflation: real, monthlyReturn: real)
    ensures Survives(s, months, monthlyInflation, monthlyReturn)
        ==> forall k: nat :: k < months ==> Solvent(After(s, k, monthlyInflation, monthlyReturn))
    ensures (forall k: nat :: k < months ==> Solvent(After(s, k, monthlyInflation, monthlyReturn)))
        ==> Survives(s, months, monthlyInflation, monthlyReturn)
    decreases months
  {
    if months > 0 {
      var s' := Month(s, monthlyInflation, monthlyReturn);
      SurvivesIffEveryMonthSolvent(s', months - 1, monthlyInflation, monthlyReturn);
      if forall k: nat :: k < months ==> Solvent(After(s, k, monthlyInflation, monthlyReturn)) {
        assert After(s, 0, monthlyInflation, monthlyReturn) == s;
        assert Solvent(After(s, 0, monthlyInflation, monthlyReturn));
        forall k | 0 <= k < months - 1
          ensures Solvent(After(s', k, monthlyInflation, monthlyReturn))
        {
          assert Solvent(After(s, k + 1, monthlyInflation, monthlyReturn));
          assert After(s, k + 1, monthlyInflation, monthlyReturn) == After(s', k, monthlyInflation, monthlyReturn);
        }
        assert Survives(s', months - 1, monthlyInflation, monthlyReturn);
        assert Survives(s, months, monthlyInflation, monthlyReturn);
      }
      if Survives(s, months, monthlyInflation, monthlyReturn) {
        assert Solvent(s) && Survives(s', months - 1, monthlyInflation, monthlyReturn);
        forall k | 0 <= k < months
          ensures Solvent(After(s, k, monthlyInflation, monthlyReturn))
        {
          if k > 0 {
            assert Solvent(After(s', k - 1, monthlyInflation, monthlyReturn));
          } else {
            assert After(s, 0, monthlyInflation, monthlyReturn) == s;
          }
        }
        assert forall k: nat :: k < months ==> Solvent(After(s, k, monthlyInflation, monthlyReturn));
      }
      assert Survives(s, months, monthlyInflation, monthlyReturn)
        ==> forall k: nat :: k < months ==> Solvent(After(s, k, monthlyInflation, monthlyReturn));
      assert (forall k: nat :: k < months ==> Solvent(After(s, k, monthlyInflation, monthlyReturn)))
        ==> Survives(s, months, monthlyInflation, monthlyReturn);
    } else {
      assert Survives(s, months, monthlyInflation, monthlyReturn);
    }
  }

  /** The monthly expense after n months is the starting expense compounded
      by n months of inflation. */
  lemma {:induction false} ExpenseAfter(s: Drawdown, n: nat, monthlyInflation: real, monthlyReturn: real)
    ensures After(s, n, monthlyInflation, monthlyReturn).expense == s.expense * Pow(1.0 + monthlyInflation, n)
    decreases n
  {
    if n > 0 {
      var s' := Month(s, monthlyInflation, monthlyReturn);
      ExpenseAfter(s', n - 1, monthlyInflation, monthlyReturn);
      calc {
        After(s, n, monthlyInflation, monthlyReturn).expense;
        After(s', n - 1, monthlyInflation, monthlyReturn).expense;
        (s.expense * (1.0 + monthlyInflation)) * Pow(1.0 + monthlyInflation, n - 1);
        s.expense * ((1.0 + monthlyInflation) * Pow(1.0 + monthlyInflation, n - 1));
        s.expense * Pow(1.0 + monthlyInflation, n);
      }
    }
  }

  /** With a zero return nothing is earned: the balance falls by exactly what was withdrawn. */
  lemma {:induction false} ZeroReturnConservesCapital(s: Drawdown, n: nat, monthlyInflation: real)
    ensures After(s, n, monthlyInflation, 0.0).balance == s.balance - Withdrawn(s, n, monthlyInflation, 0.0)
    decreases n
  {
    if n > 0 {
      var s' := Month(s, monthlyInflation, 0.0);
      assert s' == Drawdown(s.balance - s.expense, s.expense * (1.0 + monthlyInflation));
      ZeroReturnConservesCapital(s', n - 1, monthlyInflation);
    }
  }

  /** With zero inflation and zero return, capital p covers n months of a
      non-negative expense e exactly when p - n * e stays at or above the tolerance. */
  lemma {:induction false} SurvivesAtZeroRates(p: real, e: real, months: int)
    requires e >= 0.0
    ensures Survives(Drawdown(p, e), months, 0.0, 0.0) <==> (months <= 0 || p - months as real * e >= Tolerance)
    decreases if months > 0 then months else 0
  {
    if months > 0 {
      SurvivesAtZeroRates(p - e, e, months - 1);
      assert Month(Drawdown(p, e), 0.0, 0.0) == Drawdown(p - e, e);
      assert p - e - (months - 1) as real * e == p - months as real * e;
      assert p - months as real * e <= p - e by {
        assert (months - 1) as real * e >= 0.0;
      }
    }
  }
}
