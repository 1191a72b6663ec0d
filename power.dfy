/** The power balance of one poll cycle (type `kostalPower` in kostal2influx.go):
    the watts drawn from the grid, fed into the grid, and produced and used
    on site. Go's float64 fields are modelled as mathematical reals: the code
    only compares them with 0 and adds them. */
module Power {
  import opened Wrappers

  /** Why a balance is rejected; the two Go error messages of `Error()`. */
  datatype PowerError =
    | Negative      // "invalid, power cannot be negative"
    | Inconsistent  // "inconsistent, either we are injecting ... or consuming ..."

  datatype KostalPower = KostalPower(gridConsumed: real, gridInjected: real, ownConsumed: real)
  {
    /** All three readings are non-negative. */
    predicate NonNegative() {
      gridConsumed >= 0.0 && gridInjected >= 0.0 && ownConsumed >= 0.0
    }

    /** Exactly one grid direction carries power and the other is zero. */
    predicate OneGridFlow() {
      (gridConsumed > 0.0 && gridInjected == 0.0) || (gridConsumed == 0.0 && gridInjected > 0.0)
    }

    /** The load in watts: grid draw plus own use while drawing from the grid,
        otherwise own use plus what is exported. */
    function Total(): (r: real)
      ensures Error() == None ==> r == ownConsumed + gridConsumed + gridInjected && r >= 0.0
    {
      if gridConsumed > 0.0 then gridConsumed + ownConsumed else ownConsumed + gridInjected
    }

    /** The first violated invariant, or None for a valid balance: first no
        negative reading, then not both grid directions zero nor both positive. */
    function Error(): (r: Option<PowerError>)
      ensures r == None <==> NonNegative() && OneGridFlow()
      ensures r == Some(Negative) <==> !NonNegative()
      ensures r == Some(Inconsistent) <==> NonNegative() && !OneGridFlow()
    {
      if ownConsumed < 0.0 || gridInjected < 0.0 || gridConsumed < 0.0 then
        Some(Negative)
      else if (gridInjected == 0.0 && gridConsumed == 0.0) || (gridInjected > 0.0 && gridConsumed > 0.0) then
        Some(Inconsistent)
      else
        None
    }
  }

  /** The all-zero balance that the scan starts from (Go's zero value). */
  const Zero := KostalPower(0.0, 0.0, 0.0)

  /** The error condition in the exact terms of the test table: an error iff a
      reading is negative, or both grid readings are zero, or both are positive. */
  lemma ErrorIff(k: KostalPower)
    ensures k.Error().Some? <==>
      (k.ownConsumed < 0.0 || k.gridInjected < 0.0 || k.gridConsumed < 0.0
       || (k.gridConsumed == 0.0 && k.gridInjected == 0.0)
       || (k.gridConsumed > 0.0 && k.gridInjected > 0.0))
  {
  }

  /** A valid balance: every reading is non-negative, exactly one grid reading is
      positive and the other is zero, and the total is the sum of all three. */
  lemma ValidBalance(k: KostalPower)
    requires k.Error() == None
    ensures k.gridConsumed >= 0.0 && k.gridInjected >= 0.0 && k.ownConsumed >= 0.0
    ensures (k.gridConsumed > 0.0) != (k.gridInjected > 0.0)
    ensures k.gridConsumed == 0.0 || k.gridInjected == 0.0
    ensures k.Total() == k.ownConsumed + k.gridConsumed + k.gridInjected
    ensures k.Total() >= k.ownConsumed && k.Total() > 0.0
  {
  }

  /** The starting balance is rejected: a cycle without any of the three power
      measurements emits no derived data. */
  lemma ZeroIsInconsistent()
    ensures Zero.Error() == Some(Inconsistent)
  {
  }

  /** The four cases of the power-calculation test. */
  lemma PowerCalculationCases()
    ensures KostalPower(1000.0, 0.0, 500.0).Error() == None
    ensures KostalPower(1000.0, 0.0, 500.0).Total() == 1500.0
    ensures KostalPower(0.0, 800.0, 300.0).Error() == None
    ensures KostalPower(0.0, 800.0, 300.0).Total() == 1100.0
    ensures KostalPower(-100.0, 0.0, 0.0).Error() == Some(Negative)
    ensures KostalPower(100.0, 100.0, 0.0).Error() == Some(Inconsistent)
  {
  }
}
