/** The borrower data form: the input checks of `handleSubmit` and the
    component state (`formState`, `hasData`, `hasComputedScore` and the three
    text fields) that `checkOnchainState`, `handleSubmit`, `handleEditData`
    and `handleResetData` update. The `BigInt` conversions of the fields
    are given as parameters, `None` standing for a conversion that throws;
    the outcome of the encryption and the transaction is a parameter too. */
module BorrowerForm {
  import opened Common

  /** Repayment-history scores run up to 100. */
  const MaxRepaymentScore: int := 100

  /** The panel the form shows. "editing" is a declared state that no
      handler ever enters. */
  datatype FormState = Initial | Submitted | Editing

  /** Why nothing was submitted, in the order the handler checks. */
  datatype DataError =
    | NoInstance        // FHE instance not initialised
    | NotConnected      // no wallet address
    | Unconvertible     // a `BigInt` conversion throws
    | ZeroIncome
    | RepaymentScoreTooHigh

  /** The three converted inputs that are encrypted and submitted. */
  datatype BorrowerData = BorrowerData(income: int, repaymentScore: int, liabilities: int)

  /** The guard chain of `handleSubmit`: instance, address, conversions,
      then income different from zero, then a repayment score of at most
      100. Negative values are not checked here. */
  function CheckData(hasInstance: bool, address: Option<string>,
                     income: Option<int>, repaymentScore: Option<int>, liabilities: Option<int>): (r: Result<BorrowerData, DataError>)
    ensures r == Err(NoInstance) <==> !hasInstance
    ensures r == Err(NotConnected) <==> hasInstance && !Connected(address)
    ensures r == Err(Unconvertible) <==>
      hasInstance && Connected(address) && (income.None? || repaymentScore.None? || liabilities.None?)
    ensures r == Err(ZeroIncome) <==>
      hasInstance && Connected(address) && income.Some? && repaymentScore.Some? && liabilities.Some?
      && income.value == 0
    ensures r == Err(RepaymentScoreTooHigh) <==>
      hasInstance && Connected(address) && income.Some? && repaymentScore.Some? && liabilities.Some?
      && income.value != 0 && repaymentScore.value > MaxRepaymentScore
    ensures r.Ok? <==>
      hasInstance && Connected(address) && income.Some? && repaymentScore.Some? && liabilities.Some?
      && income.value != 0 && repaymentScore.value <= MaxRepaymentScore
    ensures r.Ok? ==> r.value == BorrowerData(income.value, repaymentScore.value, liabilities.value)
  {
    if !hasInstance then Err(NoInstance)
    else if !Connected(address) then Err(NotConnected)
    else if income.None? || repaymentScore.None? || liabilities.None? then Err(Unconvertible)
    else if income.value == 0 then Err(ZeroIncome)
    else if repaymentScore.value > 100 then Err(RepaymentScoreTooHigh)
    else Ok(BorrowerData(income.value, repaymentScore.value, liabilities.value))
  }

  /** A repayment score of exactly 100 is accepted, 101 is not. */
  lemma RepaymentScoreBoundary(address: string, income: int)
    requires address != "" && income != 0
    ensures CheckData(true, Some(address), Some(income), Some(100), Some(0)).Ok?
    ensures CheckData(true, Some(address), Some(income), Some(101), Some(0)) == Err(RepaymentScoreTooHigh)
  {
  }

  class Form {
    var formState: FormState
    var hasData: bool
    var hasComputedScore: bool
    var income: string
    var repaymentScore: string
    var liabilities: string

    /** No handler moves the form into the "editing" panel. */
    predicate Valid()
      reads this
    {
      formState != Editing
    }

    /** The state when the component mounts. */
    constructor ()
      ensures Valid()
      ensures formState == Initial && !hasData && !hasComputedScore
      ensures income == "" && repaymentScore == "" && liabilities == ""
    {
      formState := Initial;
      hasData := false;
      hasComputedScore := false;
      income, repaymentScore, liabilities := "", "", "";
    }

    /** `checkOnchainState`: without an address, or when the ledger query
        fails (`reply == None`), nothing changes. Otherwise both flags take
        the ledger's answer, and the form shows the submitted panel when data
        was submitted or a score computed; when neither, the panel is kept. */
    method CheckOnchainState(address: Option<string>, reply: Option<(bool, bool)>)
      requires Valid()
      modifies this
      ensures Valid()
      ensures !Connected(address) || reply.None? ==>
        formState == old(formState) && hasData == old(hasData) && hasComputedScore == old(hasComputedScore)
      ensures Connected(address) && reply.Some? ==>
        hasData == reply.value.0 && hasComputedScore == reply.value.1
      ensures Connected(address) && reply.Some? && (reply.value.0 || reply.value.1) ==> formState == Submitted
      ensures Connected(address) && reply.Some? && !reply.value.0 && !reply.value.1 ==> formState == old(formState)
      ensures income == old(income) && repaymentScore == old(repaymentScore) && liabilities == old(liabilities)
    {
      if !Connected(address) || reply.None? {
        return;
      }
      var (submitted, computed) := reply.value;
      hasData := submitted;
      hasComputedScore := computed;
      if submitted && !computed {
        formState := Submitted;
      } else if computed {
        formState := Submitted;
      }
    }

    /** `handleSubmit`: the data is submitted exactly when `CheckData`
        accepts it. When it is and the transaction succeeds, `hasData`
        becomes true and the submitted panel is shown; the fields are
        cleared only when no data had been recorded before. Any rejection
        or failure leaves the state as it was. `hasComputedScore` is never
        touched, even though the ledger discards the old score. */
    method Submit(hasInstance: bool, address: Option<string>,
                  incomeValue: Option<int>, repaymentValue: Option<int>, liabilitiesValue: Option<int>,
                  txSucceeded: bool) returns (r: Result<BorrowerData, DataError>)
      requires Valid()
      modifies this
      ensures Valid()
      ensures r == CheckData(hasInstance, address, incomeValue, repaymentValue, liabilitiesValue)
      ensures r.Ok? && txSucceeded ==> hasData && formState == Submitted
      ensures r.Ok? && txSucceeded && !old(hasData) ==>
        income == "" && repaymentScore == "" && liabilities == ""
      ensures r.Ok? && txSucceeded && old(hasData) ==>
        income == old(income) && repaymentScore == old(repaymentScore) && liabilities == old(liabilities)
      ensures r.Err? || !txSucceeded ==>
        formState == old(formState) && hasData == old(hasData)
        && income == old(income) && repaymentScore == old(repaymentScore) && liabilities == old(liabilities)
      ensures hasComputedScore == old(hasComputedScore)
    {
      r := CheckData(hasInstance, address, incomeValue, repaymentValue, liabilitiesValue);
      if r.Err? || !txSucceeded {
        return;
      }
      var hadData := hasData;
      hasData := true;
      formState := Submitted;
      if !hadData {
        income, repaymentScore, liabilities := "", "", "";
      }
    }

    /** `handleEditData`: back to the initial panel, flags and fields kept. */
    method EditData()
      requires Valid()
      modifies this`formState
      ensures Valid()
      ensures formState == Initial
      ensures hasData == old(hasData) && hasComputedScore == old(hasComputedScore)
    {
      formState := Initial;
    }

    /** `handleResetData`: back to the initial panel with both flags cleared
        and all three fields emptied. */
    method ResetData()
      requires Valid()
      modifies this
      ensures Valid()
      ensures formState == Initial && !hasData && !hasComputedScore
      ensures income == "" && repaymentScore == "" && liabilities == ""
    {
      formState := Initial;
      hasData := false;
      hasComputedScore := false;
      income, repaymentScore, liabilities := "", "", "";
    }
  }
}
