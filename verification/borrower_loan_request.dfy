/** The borrower's loan-request panel: the checks before a request is sent
    (`handleCreateRequest`), the form clearing after success, the status
    label of a request, and the listing of the borrower's own requests
    from the ledger's request table. */
module BorrowerLoanRequest {
  import opened Common

  /** Request durations are whole periods from 1 to 60. */
  const MinDuration: int := 1
  const MaxDuration: int := 60

  /** Why no request was sent, in the order the handler checks. */
  datatype RequestError =
    | NotReady          // no FHE instance or no connected address
    | NoCreditScore     // the borrower has not computed a score yet
    | Unconvertible     // `parseEther` or `BigInt` throws on the form text
    | NonPositiveAmount
    | DurationOutOfRange

  /** The plaintext parameters of a request that is sent. */
  datatype RequestParams = RequestParams(amountWei: int, duration: int)

  /** The guard chain of `handleCreateRequest`; the amount is given in wei
      as `parseEther` makes it, the duration as `BigInt` makes it. The
      score check comes before the amount and duration are looked at. */
  function CheckRequest(hasInstance: bool, address: Option<string>, hasScore: bool,
                        amountWei: Option<int>, duration: Option<int>): (r: Result<RequestParams, RequestError>)
    ensures r == Err(NotReady) <==> !hasInstance || !Connected(address)
    ensures r == Err(NoCreditScore) <==> hasInstance && Connected(address) && !hasScore
    ensures r == Err(Unconvertible) <==>
      hasInstance && Connected(address) && hasScore && (amountWei.None? || duration.None?)
    ensures r == Err(NonPositiveAmount) <==>
      hasInstance && Connected(address) && hasScore && amountWei.Some? && duration.Some?
      && amountWei.value <= 0
    ensures r == Err(DurationOutOfRange) <==>
      hasInstance && Connected(address) && hasScore && amountWei.Some? && duration.Some?
      && amountWei.value > 0 && !(MinDuration <= duration.value <= MaxDuration)
    ensures r.Ok? <==>
      hasInstance && Connected(address) && hasScore && amountWei.Some? && duration.Some?
      && amountWei.value > 0 && MinDuration <= duration.value <= MaxDuration
    ensures r.Ok? ==> r.value == RequestParams(amountWei.value, duration.value)
  {
    if !hasInstance || !Connected(address) then Err(NotReady)
    else if !hasScore then Err(NoCreditScore)
    else if amountWei.None? || duration.None? then Err(Unconvertible)
    else if amountWei.value <= 0 then Err(NonPositiveAmount)
    else if duration.value < 1 || duration.value > 60 then Err(DurationOutOfRange)
    else Ok(RequestParams(amountWei.value, duration.value))
  }

  /** Requests are only sent by borrowers with a computed score, and with a
      positive amount and a duration of 1 to 60 periods; 1 and 60 themselves
      are accepted. */
  lemma SentRequestWithinBounds(hasInstance: bool, address: Option<string>, hasScore: bool,
                                amountWei: Option<int>, duration: Option<int>)
    requires CheckRequest(hasInstance, address, hasScore, amountWei, duration).Ok?
    ensures hasScore
    ensures var p := CheckRequest(hasInstance, address, hasScore, amountWei, duration).value;
      p.amountWei > 0 && 1 <= p.duration <= 60
  {
  }

  /** The form's text fields. */
  datatype LoanForm = LoanForm(requestedAmount: string, duration: string)

  /** The form after a request attempt: both fields cleared when the request
      was sent and its transaction succeeded, kept as typed otherwise. */
  function FormAfterRequest(form: LoanForm, check: Result<RequestParams, RequestError>, txSucceeded: bool): (next: LoanForm)
    ensures check.Ok? && txSucceeded ==> next.requestedAmount == "" && next.duration == ""
    ensures check.Err? || !txSucceeded ==> next == form
  {
    if check.Ok? && txSucceeded then LoanForm("", "") else form
  }

  /** One row of the ledger's request table, as far as the listing reads it. */
  datatype LoanRecord = LoanRecord(
    borrower: string,
    plainRequestedAmount: int,
    plainDuration: int,
    isActive: bool,
    isFunded: bool)

  /** One entry of the borrower's list. */
  datatype BorrowerLoan = BorrowerLoan(id: int, borrower: string, amount: int, duration: int, status: string)

  /** The status label of a request: a funded request is "Funded" whether or
      not it is still active, an unfunded active one "Pending", the rest
      "Closed". */
  function StatusLabel(isFunded: bool, isActive: bool): (text: string)
    ensures text == "Funded" <==> isFunded
    ensures text == "Pending" <==> !isFunded && isActive
    ensures text == "Closed" <==> !isFunded && !isActive
  {
    if isFunded then "Funded" else if isActive then "Pending" else "Closed"
  }

  /** The list entry made from row `id` of the table. */
  function Entry(id: int, rec: LoanRecord): BorrowerLoan
  {
    BorrowerLoan(id, rec.borrower, rec.plainRequestedAmount, rec.plainDuration,
                 StatusLabel(rec.isFunded, rec.isActive))
  }

  /** The borrower's list built from the first `|rows|` table rows, `None`
      when reading some row failed (the list is then not replaced). A row is
      `None` when reading it throws. */
  function BorrowerLoans(rows: seq<Option<LoanRecord>>, address: string): (r: Option<seq<BorrowerLoan>>)
    ensures r.None? <==> exists i :: 0 <= i < |rows| && rows[i].None?
    ensures r.Some? ==> forall k :: 0 <= k < |r.value| ==>
      0 <= r.value[k].id < |rows| && rows[r.value[k].id].Some?
      && r.value[k] == Entry(r.value[k].id, rows[r.value[k].id].value)
      && SameAddress(r.value[k].borrower, address)
    ensures r.Some? ==> forall k, m :: 0 <= k < m < |r.value| ==> r.value[k].id < r.value[m].id
  {
    if rows == [] then Some([])
    else
      var n := |rows| - 1;
      var prefix := BorrowerLoans(rows[..n], address);
      assert forall i :: 0 <= i < n ==> rows[..n][i] == rows[i];
      if prefix.None? then None
      else if rows[n].None? then None
      else if Lower(rows[n].value.borrower) == Lower(address) then Some(prefix.value + [Entry(n, rows[n].value)])
      else prefix
  }

  /** Completeness of the listing: every row whose borrower is the address,
      compared case-insensitively, has its entry in the list. */
  lemma {:induction false} BorrowerLoansComplete(rows: seq<Option<LoanRecord>>, address: string, i: int)
    requires BorrowerLoans(rows, address).Some?
    requires 0 <= i < |rows| && rows[i].Some? && SameAddress(rows[i].value.borrower, address)
    ensures Entry(i, rows[i].value) in BorrowerLoans(rows, address).value
  {
    var n := |rows| - 1;
    assert rows[..n] + [rows[n]] == rows;
    if i < n {
      assert rows[..n][i] == rows[i];
      BorrowerLoansComplete(rows[..n], address, i);
    }
  }

  /** Reading rows past a failed one does not bring the list back. */
  lemma {:induction false} FailureIsFinal(rows: seq<Option<LoanRecord>>, address: string, k: int)
    requires 0 <= k <= |rows|
    requires BorrowerLoans(rows[..k], address).None?
    ensures BorrowerLoans(rows, address).None?
  {
    var i :| 0 <= i < |rows[..k]| && rows[..k][i].None?;
    assert rows[i].None?;
  }

  /** The loop of the listing effect: it reads the rows in id order, keeps
      those whose borrower matches the address and stops at the first row
      that cannot be read. */
  method ListBorrowerLoans(rows: seq<Option<LoanRecord>>, address: string) returns (r: Option<seq<BorrowerLoan>>)
    ensures r == BorrowerLoans(rows, address)
  {
    var loans: seq<BorrowerLoan> := [];
    var i := 0;
    while i < |rows|
      invariant 0 <= i <= |rows|
      invariant BorrowerLoans(rows[..i], address) == Some(loans)
    {
      assert rows[..i + 1][..i] == rows[..i];
      match rows[i]
      case None =>
        assert BorrowerLoans(rows[..i + 1], address).None?;
        FailureIsFinal(rows, address, i + 1);
        return None;
      case Some(rec) =>
        if Lower(rec.borrower) == Lower(address) {
          loans := loans + [Entry(i, rec)];
        }
      i := i + 1;
    }
    assert rows[..i] == rows;
    r := Some(loans);
  }
}
