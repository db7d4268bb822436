/** The checks the lender dashboard runs before it sends a new lending offer
    (`handleCreateOffer`), and the form reset after a successful creation.
    The form's strings are converted before any check: the converted
    values are given here, `None` standing for a conversion that throws
    (which ends the handler before any check and sends nothing). */
module LenderDashboard {
  import opened Common

  /** Score bounds of the scoring domain. */
  const MinCreditScore: int := 300
  const MaxCreditScore: int := 850
  /** 0.001 ether in wei: the smallest accepted maximum loan amount. */
  const MinMaxLoanWei: int := 1_000_000_000_000_000
  /** 10000 basis points are 100%. */
  const MaxBasisPoints: int := 10000

  /** What `parseFloat` makes of a non-empty funding text. */
  datatype FloatParse = NaN | Finite(value: real)

  /** The funding-amount field: left empty, or typed in and read with `parseFloat`. */
  datatype FundingField = Blank | Entered(parsed: FloatParse)

  /** The converted form: `BigInt` of the score, rate and collateral
      fields, `parseEther` of the maximum amount. */
  datatype OfferInput = OfferInput(
    minScore: Option<int>,
    maxAmountWei: Option<int>,
    interestRate: Option<int>,
    funding: FundingField,
    collateralPercentage: Option<int>)

  /** The parameters of an offer that passes the checks and is handed to
      the sending call. That call still converts the funding text to wei
      with `parseEther`, which throws for NaN, exponent notation or more
      than 18 decimals, and then nothing reaches the ledger. */
  datatype OfferParams = OfferParams(
    minScore: int,
    maxAmountWei: int,
    interestRate: int,
    funding: FundingField,
    collateralPercentage: int)

  /** Why no offer was sent, in the order the handler checks. */
  datatype OfferError =
    | NotReady             // no FHE instance or no connected address
    | Unconvertible        // a field's conversion throws
    | ScoreOutOfRange
    | MaxAmountTooSmall
    | RateOutOfRange
    | CollateralOutOfRange
    | InvalidFunding

  predicate ScoreOk(s: int) { MinCreditScore <= s <= MaxCreditScore }
  predicate MaxAmountOk(w: int) { w >= MinMaxLoanWei }
  predicate RateOk(r: int) { 0 < r <= MaxBasisPoints }
  predicate CollateralOk(c: int) { 0 <= c <= MaxBasisPoints }
  /** `!form.fundingAmount || parseFloat(form.fundingAmount) <= 0` is false.
      NaN is not `<= 0`, so a non-numeric text passes. */
  predicate FundingOk(f: FundingField)
  {
    f.Entered? && !(f.parsed.Finite? && f.parsed.value <= 0.0)
  }

  predicate Converted(input: OfferInput)
  {
    input.minScore.Some? && input.maxAmountWei.Some? && input.interestRate.Some?
    && input.collateralPercentage.Some?
  }

  /** The guard chain of `handleCreateOffer`. The first failing check
      decides the error and every earlier check has passed; the offer is
      handed to the sending call exactly when all checks pass, and then it
      carries the converted values unchanged. */
  function CheckOffer(hasInstance: bool, address: Option<string>, input: OfferInput): (r: Result<OfferParams, OfferError>)
    ensures r == Err(NotReady) <==> !hasInstance || !Connected(address)
    ensures r == Err(Unconvertible) <==> hasInstance && Connected(address) && !Converted(input)
    ensures r == Err(ScoreOutOfRange) <==>
      hasInstance && Connected(address) && Converted(input)
      && !ScoreOk(input.minScore.value)
    ensures r == Err(MaxAmountTooSmall) <==>
      hasInstance && Connected(address) && Converted(input)
      && ScoreOk(input.minScore.value) && !MaxAmountOk(input.maxAmountWei.value)
    ensures r == Err(RateOutOfRange) <==>
      hasInstance && Connected(address) && Converted(input)
      && ScoreOk(input.minScore.value) && MaxAmountOk(input.maxAmountWei.value)
      && !RateOk(input.interestRate.value)
    ensures r == Err(CollateralOutOfRange) <==>
      hasInstance && Connected(address) && Converted(input)
      && ScoreOk(input.minScore.value) && MaxAmountOk(input.maxAmountWei.value)
      && RateOk(input.interestRate.value) && !CollateralOk(input.collateralPercentage.value)
    ensures r == Err(InvalidFunding) <==>
      hasInstance && Connected(address) && Converted(input)
      && ScoreOk(input.minScore.value) && MaxAmountOk(input.maxAmountWei.value)
      && RateOk(input.interestRate.value) && CollateralOk(input.collateralPercentage.value)
      && !FundingOk(input.funding)
    ensures r.Ok? <==>
      hasInstance && Connected(address) && Converted(input)
      && ScoreOk(input.minScore.value) && MaxAmountOk(input.maxAmountWei.value)
      && RateOk(input.interestRate.value) && CollateralOk(input.collateralPercentage.value)
      && FundingOk(input.funding)
    ensures r.Ok? ==> r.value == OfferParams(input.minScore.value, input.maxAmountWei.value,
      input.interestRate.value, input.funding, input.collateralPercentage.value)
  {
    if !hasInstance || !Connected(address) then Err(NotReady)
    else if !Converted(input) then Err(Unconvertible)
    else
      var minScore := input.minScore.value;
      var maxAmount := input.maxAmountWei.value;
      var rate := input.interestRate.value;
      var collateral := input.collateralPercentage.value;
      if minScore < 300 || minScore > 850 then Err(ScoreOutOfRange)
      else if maxAmount < 1_000_000_000_000_000 then Err(MaxAmountTooSmall)
      else if rate <= 0 || rate > 10000 then Err(RateOutOfRange)
      else if collateral < 0 || collateral > 10000 then Err(CollateralOutOfRange)
      else if input.funding.Blank? || (input.funding.parsed.Finite? && input.funding.parsed.value <= 0.0)
      then Err(InvalidFunding)
      else Ok(OfferParams(minScore, maxAmount, rate, input.funding, collateral))
  }

  /** Every offer handed to the sending call lies inside the ledger's own bounds: a score
      threshold in [300, 850], a rate in (0, 10000] basis points, a
      collateral share in [0, 10000] and at least 0.001 ether of loan size. */
  lemma SentOfferWithinBounds(hasInstance: bool, address: Option<string>, input: OfferInput)
    requires CheckOffer(hasInstance, address, input).Ok?
    ensures var p := CheckOffer(hasInstance, address, input).value;
      300 <= p.minScore <= 850 && 0 < p.interestRate <= 10000
      && 0 <= p.collateralPercentage <= 10000 && p.maxAmountWei >= 1_000_000_000_000_000
  {
  }

  /** The boundary values 300, 850, 1, 10000, 0 and 0.001 ether are all accepted. */
  lemma BoundaryOfferAccepted(address: string, funding: real)
    requires address != "" && funding > 0.0
    ensures CheckOffer(true, Some(address),
      OfferInput(Some(300), Some(1_000_000_000_000_000), Some(1), Entered(Finite(funding)), Some(0))).Ok?
    ensures CheckOffer(true, Some(address),
      OfferInput(Some(850), Some(1_000_000_000_000_000), Some(10000), Entered(Finite(funding)), Some(10000))).Ok?
  {
  }

  /** A funding text that `parseFloat` reads as NaN passes the funding check:
      the conversion to wei that follows, inside the sending call, is what
      rejects it. */
  lemma NonNumericFundingPassesCheck(address: string)
    requires address != ""
    ensures CheckOffer(true, Some(address),
      OfferInput(Some(700), Some(1_000_000_000_000_000_000), Some(500), Entered(NaN), Some(100))).Ok?
  {
  }

  /** The form's text fields. */
  datatype OfferForm = OfferForm(
    minCreditScore: string,
    maxLoanAmount: string,
    interestRate: string,
    fundingAmount: string,
    collateralPercentage: string)

  /** The form as first shown and as reset: empty fields, collateral "100". */
  const InitialOfferForm: OfferForm := OfferForm("", "", "", "", "100")

  /** The form after a creation attempt: reset to the initial form when the
      offer was sent and its transaction succeeded, kept as typed otherwise
      (a rejected check or a failed transaction leaves the input in place). */
  function FormAfterCreate(form: OfferForm, check: Result<OfferParams, OfferError>, txSucceeded: bool): (next: OfferForm)
    ensures check.Ok? && txSucceeded ==>
      next.minCreditScore == "" && next.maxLoanAmount == "" && next.interestRate == ""
      && next.fundingAmount == "" && next.collateralPercentage == "100"
    ensures check.Err? || !txSucceeded ==> next == form
  {
    if check.Ok? && txSucceeded then InitialOfferForm else form
  }
}
