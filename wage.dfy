/** The career wage-growth curve: real (above-inflation) annual wage growth
    by age band. */
module WageGrowth {

  /** Real wage growth for a given age, as a fraction (0.08 is 8%). */
  function RealWageGrowthRate(age: int): (g: real)
    ensures 0.0 <= g <= 0.08
  {
    if age < 25 then 0.08
    else if age < 30 then 0.06
    else if age < 35 then 0.04
    else if age < 45 then 0.01
    else 0.00
  }

  /** The five bands and their rates. */
  lemma {:induction false} WageGrowthBands(age: int)
    ensures age < 25 ==> RealWageGrowthRate(age) == 0.08
    ensures 25 <= age < 30 ==> RealWageGrowthRate(age) == 0.06
    ensures 30 <= age < 35 ==> RealWageGrowthRate(age) == 0.04
    ensures 35 <= age < 45 ==> RealWageGrowthRate(age) == 0.01
    ensures 45 <= age ==> RealWageGrowthRate(age) == 0.0
  {
  }

  /** Growth never rises with age: the curve tapers off over a career. */
  lemma {:induction false} WageGrowthNonIncreasing(younger: int, older: int)
    requires younger <= older
    ensures RealWageGrowthRate(older) <= RealWageGrowthRate(younger)
  {
  }
}
