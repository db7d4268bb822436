/** The marketplace page: reading the request and offer tables, the active
    filters, the enumeration of matched pairs, the authorisation checks in
    front of a match check and of funding, the per-loan offer selection,
    and the short form of an address. Amounts are exact integers. The page
    keeps the plaintext amounts, rate and collateral as decimal strings,
    "0" standing for a missing value, and an offer's available funds as the
    ether string `ethers.formatEther` makes of its wei amount; here the
    funds stay the wei integer. */
module Marketplace {
  import opened Common

  /** A loan request as the page keeps it. */
  datatype LoanRequest = LoanRequest(
    loanId: int,
    borrower: string,
    timestamp: int,
    isActive: bool,
    isFunded: bool,
    lender: string,
    plainRequestedAmount: int,
    plainDuration: int)

  /** A lender offer as the page keeps it; `availableFunds` is in wei. */
  datatype LenderOffer = LenderOffer(
    offerId: int,
    lender: string,
    availableFunds: int,
    isActive: bool,
    plainMaxLoanAmount: int,
    plainInterestRate: int,
    collateralPercentage: int)

  /** A (loan, offer) pair the ledger reports as matched. */
  datatype MatchedPair = MatchedPair(loanId: int, offerId: int, loan: LoanRequest, offer: LenderOffer)

  /** A request row as read from the ledger; a field the ledger leaves
      undefined is `None`. */
  datatype RawLoan = RawLoan(
    borrower: string,
    timestamp: int,
    isActive: bool,
    isFunded: bool,
    lender: Option<string>,
    plainRequestedAmount: Option<int>,
    plainDuration: Option<int>)

  /** An offer row as read from the ledger. */
  datatype RawOffer = RawOffer(
    lender: string,
    availableFunds: Option<int>,
    isActive: bool,
    plainMaxLoanAmount: Option<int>,
    plainInterestRate: Option<int>,
    collateralPercentage: Option<int>)

  /** `x || default` on an optional number: undefined becomes the default. */
  function OrZero(x: Option<int>): int
  {
    if x.Some? then x.value else 0
  }

  /** `s || ethers.ZeroAddress`: an undefined or empty lender becomes the zero address. */
  function OrZeroAddress(s: Option<string>): string
  {
    if s.Some? && s.value != "" then s.value else ZeroAddress
  }

  /** `validateLoanData`: no request for a missing row or a borrower that is
      not an address; otherwise the row's own values, with the lender
      defaulting to the zero address and the amount and duration to 0. */
  function ValidateLoan(raw: Option<RawLoan>, loanId: int): (r: Option<LoanRequest>)
    ensures r.None? <==> raw.None? || !IsAddress(raw.value.borrower)
    ensures r.Some? ==>
      var l := r.value;
      l.loanId == loanId && l.borrower == raw.value.borrower && l.timestamp == raw.value.timestamp
      && l.isActive == raw.value.isActive && l.isFunded == raw.value.isFunded
      && (raw.value.lender.None? || raw.value.lender.value == "" ==> l.lender == ZeroAddress)
      && (raw.value.lender.Some? && raw.value.lender.value != "" ==> l.lender == raw.value.lender.value)
      && (raw.value.plainRequestedAmount.None? ==> l.plainRequestedAmount == 0)
      && (raw.value.plainRequestedAmount.Some? ==> l.plainRequestedAmount == raw.value.plainRequestedAmount.value)
      && (raw.value.plainDuration.None? ==> l.plainDuration == 0)
      && (raw.value.plainDuration.Some? ==> l.plainDuration == raw.value.plainDuration.value)
  {
    if raw.None? || !IsAddress(raw.value.borrower) then None
    else
      var x := raw.value;
      Some(LoanRequest(loanId, x.borrower, x.timestamp, x.isActive, x.isFunded,
                       OrZeroAddress(x.lender), OrZero(x.plainRequestedAmount), OrZero(x.plainDuration)))
  }

  /** `validateOfferData`: no offer for a missing row or a lender that is not
      an address; otherwise the row's own values, missing numbers read as 0. */
  function ValidateOffer(raw: Option<RawOffer>, offerId: int): (r: Option<LenderOffer>)
    ensures r.None? <==> raw.None? || !IsAddress(raw.value.lender)
    ensures r.Some? ==>
      var o := r.value;
      o.offerId == offerId && o.lender == raw.value.lender && o.isActive == raw.value.isActive
      && (raw.value.availableFunds.None? ==> o.availableFunds == 0)
      && (raw.value.availableFunds.Some? ==> o.availableFunds == raw.value.availableFunds.value)
      && (raw.value.plainMaxLoanAmount.None? ==> o.plainMaxLoanAmount == 0)
      && (raw.value.plainMaxLoanAmount.Some? ==> o.plainMaxLoanAmount == raw.value.plainMaxLoanAmount.value)
      && (raw.value.plainInterestRate.None? ==> o.plainInterestRate == 0)
      && (raw.value.plainInterestRate.Some? ==> o.plainInterestRate == raw.value.plainInterestRate.value)
      && (raw.value.collateralPercentage.None? ==> o.collateralPercentage == 0)
      && (raw.value.collateralPercentage.Some? ==> o.collateralPercentage == raw.value.collateralPercentage.value)
  {
    if raw.None? || !IsAddress(raw.value.lender) then None
    else
      var x := raw.value;
      Some(LenderOffer(offerId, x.lender, OrZero(x.availableFunds), x.isActive,
                       OrZero(x.plainMaxLoanAmount), OrZero(x.plainInterestRate), OrZero(x.collateralPercentage)))
  }

  /** What one request row contributes to the page: nothing when it could
      not be read (`None`), when its borrower is the zero address, or when
      it does not validate. */
  function LoanFromRow(row: Option<RawLoan>, loanId: int): Option<LoanRequest>
  {
    if row.Some? && row.value.borrower != ZeroAddress then ValidateLoan(row, loanId) else None
  }

  /** What one offer row contributes to the page. */
  function OfferFromRow(row: Option<RawOffer>, offerId: int): Option<LenderOffer>
  {
    if row.Some? && row.value.lender != ZeroAddress then ValidateOffer(row, offerId) else None
  }

  /** The requests the page loads from rows 0 .. |rows|-1: every kept row in
      id order, each one the validation of its own row, with a well-formed
      borrower other than the zero address. */
  function LoadedLoans(rows: seq<Option<RawLoan>>): (loans: seq<LoanRequest>)
    ensures forall k :: 0 <= k < |loans| ==>
      0 <= loans[k].loanId < |rows| && LoanFromRow(rows[loans[k].loanId], loans[k].loanId) == Some(loans[k])
      && IsAddress(loans[k].borrower) && loans[k].borrower != ZeroAddress
    ensures forall k, m :: 0 <= k < m < |loans| ==> loans[k].loanId < loans[m].loanId
  {
    if rows == [] then []
    else
      var n := |rows| - 1;
      var prefix := LoadedLoans(rows[..n]);
      assert forall i :: 0 <= i < n ==> rows[..n][i] == rows[i];
      var row := LoanFromRow(rows[n], n);
      if row.Some? then prefix + [row.value] else prefix
  }

  /** No readable, valid request row is lost by the loading loop. */
  lemma {:induction false} LoadedLoansComplete(rows: seq<Option<RawLoan>>, i: int)
    requires 0 <= i < |rows| && LoanFromRow(rows[i], i).Some?
    ensures LoanFromRow(rows[i], i).value in LoadedLoans(rows)
  {
    var n := |rows| - 1;
    if i < n {
      assert rows[..n][i] == rows[i];
      LoadedLoansComplete(rows[..n], i);
    }
  }

  /** The offers the page loads from rows 0 .. |rows|-1. */
  function LoadedOffers(rows: seq<Option<RawOffer>>): (offers: seq<LenderOffer>)
    ensures forall k :: 0 <= k < |offers| ==>
      0 <= offers[k].offerId < |rows| && OfferFromRow(rows[offers[k].offerId], offers[k].offerId) == Some(offers[k])
      && IsAddress(offers[k].lender) && offers[k].lender != ZeroAddress
    ensures forall k, m :: 0 <= k < m < |offers| ==> offers[k].offerId < offers[m].offerId
  {
    if rows == [] then []
    else
      var n := |rows| - 1;
      var prefix := LoadedOffers(rows[..n]);
      assert forall i :: 0 <= i < n ==> rows[..n][i] == rows[i];
      var row := OfferFromRow(rows[n], n);
      if row.Some? then prefix + [row.value] else prefix
  }

  /** No readable, valid offer row is lost by the loading loop. */
  lemma {:induction false} LoadedOffersComplete(rows: seq<Option<RawOffer>>, i: int)
    requires 0 <= i < |rows| && OfferFromRow(rows[i], i).Some?
    ensures OfferFromRow(rows[i], i).value in LoadedOffers(rows)
  {
    var n := |rows| - 1;
    if i < n {
      assert rows[..n][i] == rows[i];
      LoadedOffersComplete(rows[..n], i);
    }
  }

  /** The request loop of `loadMarketplaceData`: a row that cannot be read
      is skipped and the loop goes on. */
  method LoadLoans(rows: seq<Option<RawLoan>>) returns (loans: seq<LoanRequest>)
    ensures loans == LoadedLoans(rows)
  {
    loans := [];
    var i := 0;
    while i < |rows|
      invariant 0 <= i <= |rows|
      invariant loans == LoadedLoans(rows[..i])
    {
      assert rows[..i + 1][..i] == rows[..i];
      var row := rows[i];
      if row.Some? && row.value.borrower != ZeroAddress {
        var validated := ValidateLoan(row, i);
        if validated.Some? {
          loans := loans + [validated.value];
        }
      }
      i := i + 1;
    }
    assert rows[..i] == rows;
  }

  /** The offer loop of `loadMarketplaceData`. */
  method LoadOffers(rows: seq<Option<RawOffer>>) returns (offers: seq<LenderOffer>)
    ensures offers == LoadedOffers(rows)
  {
    offers := [];
    var i := 0;
    while i < |rows|
      invariant 0 <= i <= |rows|
      invariant offers == LoadedOffers(rows[..i])
    {
      assert rows[..i + 1][..i] == rows[..i];
      var row := rows[i];
      if row.Some? && row.value.lender != ZeroAddress {
        var validated := ValidateOffer(row, i);
        if validated.Some? {
          offers := offers + [validated.value];
        }
      }
      i := i + 1;
    }
    assert rows[..i] == rows;
  }

  /** `Array.prototype.filter`: the elements satisfying `p`, in their order. */
  function Filter<T(==,!new)>(s: seq<T>, p: T -> bool): (r: seq<T>)
    ensures forall x :: x in r <==> x in s && p(x)
    ensures |r| <= |s|
  {
    if s == [] then []
    else
      var prefix := Filter(s[..|s| - 1], p);
      assert forall x :: x in s[..|s| - 1] ==> x in s;
      if p(s[|s| - 1]) then prefix + [s[|s| - 1]] else prefix
  }

  /** Filtering keeps the order: filtering a concatenation is concatenating
      the filtered parts. */
  lemma {:induction false} FilterAppend<T(!new)>(a: seq<T>, b: seq<T>, p: T -> bool)
    ensures Filter(a + b, p) == Filter(a, p) + Filter(b, p)
  {
    if b != [] {
      var n := |b| - 1;
      assert (a + b)[..|a + b| - 1] == a + b[..n];
      FilterAppend(a, b[..n], p);
    } else {
      assert a + b == a;
    }
  }

  /** The requests shown as open: active and not yet funded. */
  function ActiveLoans(loans: seq<LoanRequest>): (r: seq<LoanRequest>)
    ensures forall l :: l in r <==> l in loans && l.isActive && !l.isFunded
  {
    Filter(loans, (l: LoanRequest) => l.isActive && !l.isFunded)
  }

  /** The offers shown as open: active ones. */
  function ActiveOffers(offers: seq<LenderOffer>): (r: seq<LenderOffer>)
    ensures forall o :: o in r <==> o in offers && o.isActive
  {
    Filter(offers, (o: LenderOffer) => o.isActive)
  }

  /** The open lists keep the order of the loaded lists. */
  lemma ActiveListsKeepOrder(l1: seq<LoanRequest>, l2: seq<LoanRequest>, o1: seq<LenderOffer>, o2: seq<LenderOffer>)
    ensures ActiveLoans(l1 + l2) == ActiveLoans(l1) + ActiveLoans(l2)
    ensures ActiveOffers(o1 + o2) == ActiveOffers(o1) + ActiveOffers(o2)
  {
    FilterAppend(l1, l2, (l: LoanRequest) => l.isActive && !l.isFunded);
    FilterAppend(o1, o2, (o: LenderOffer) => o.isActive);
  }

  /** The ledger's answer for a pair is "matched". A pair whose query threw
      has no entry in `answers`. */
  predicate Recorded(answers: map<(int, int), bool>, loanId: int, offerId: int)
  {
    (loanId, offerId) in answers && answers[(loanId, offerId)]
  }

  /** A pair is enumerated when the loan is active and unfunded, the offer
      active, and the ledger answered "matched" for their ids. */
  predicate IsMatch(p: MatchedPair, loans: seq<LoanRequest>, offers: seq<LenderOffer>, answers: map<(int, int), bool>)
  {
    p.loan in loans && p.offer in offers
    && p.loan.isActive && !p.loan.isFunded && p.offer.isActive
    && p.loanId == p.loan.loanId && p.offerId == p.offer.offerId
    && Recorded(answers, p.loanId, p.offerId)
  }

  /** The pairs found for one loan, in offer order. */
  function PairsFor(loan: LoanRequest, offers: seq<LenderOffer>, answers: map<(int, int), bool>): (r: seq<MatchedPair>)
    ensures forall p :: p in r <==>
      p.loan == loan && p.offer in offers && p.offer.isActive
      && p.loanId == loan.loanId && p.offerId == p.offer.offerId && Recorded(answers, p.loanId, p.offerId)
  {
    if offers == [] then []
    else
      var n := |offers| - 1;
      var prefix := PairsFor(loan, offers[..n], answers);
      assert forall o :: o in offers[..n] ==> o in offers;
      var offer := offers[n];
      if offer.isActive && Recorded(answers, loan.loanId, offer.offerId)
      then prefix + [MatchedPair(loan.loanId, offer.offerId, loan, offer)]
      else prefix
  }

  /** The enumeration of `loadMatchedPairs`: loans in the outer order,
      offers in the inner order; exactly the pairs `IsMatch` describes. */
  function MatchedPairs(loans: seq<LoanRequest>, offers: seq<LenderOffer>, answers: map<(int, int), bool>): (r: seq<MatchedPair>)
    ensures forall p :: p in r <==> IsMatch(p, loans, offers, answers)
  {
    if loans == [] then []
    else
      var n := |loans| - 1;
      var prefix := MatchedPairs(loans[..n], offers, answers);
      assert forall l :: l in loans ==> l in loans[..n] || l == loans[n];
      assert forall l :: l in loans[..n] ==> l in loans;
      var loan := loans[n];
      if loan.isActive && !loan.isFunded then prefix + PairsFor(loan, offers, answers) else prefix
  }

  /** The inner order: the pairs of one loan follow the offer order. */
  lemma {:induction false} PairsForAppend(loan: LoanRequest, o1: seq<LenderOffer>, o2: seq<LenderOffer>, answers: map<(int, int), bool>)
    ensures PairsFor(loan, o1 + o2, answers) == PairsFor(loan, o1, answers) + PairsFor(loan, o2, answers)
  {
    if o2 != [] {
      var n := |o2| - 1;
      assert (o1 + o2)[..|o1 + o2| - 1] == o1 + o2[..n];
      PairsForAppend(loan, o1, o2[..n], answers);
    } else {
      assert o1 + o2 == o1;
    }
  }

  /** The outer order: all pairs of an earlier loan come before those of a
      later one. */
  lemma {:induction false} MatchedPairsAppend(l1: seq<LoanRequest>, l2: seq<LoanRequest>, offers: seq<LenderOffer>, answers: map<(int, int), bool>)
    ensures MatchedPairs(l1 + l2, offers, answers) == MatchedPairs(l1, offers, answers) + MatchedPairs(l2, offers, answers)
  {
    if l2 != [] {
      var n := |l2| - 1;
      assert (l1 + l2)[..|l1 + l2| - 1] == l1 + l2[..n];
      MatchedPairsAppend(l1, l2[..n], offers, answers);
    } else {
      assert l1 + l2 == l1;
    }
  }

  /** The nested loops of `loadMatchedPairs`. Only pairs of an active,
      unfunded loan and an active offer are queried; a query that throws is
      skipped and the loops go on. */
  method LoadMatchedPairs(loans: seq<LoanRequest>, offers: seq<LenderOffer>, answers: map<(int, int), bool>)
    returns (matched: seq<MatchedPair>)
    ensures matched == MatchedPairs(loans, offers, answers)
  {
    matched := [];
    var i := 0;
    while i < |loans|
      invariant 0 <= i <= |loans|
      invariant matched == MatchedPairs(loans[..i], offers, answers)
    {
      assert loans[..i + 1][..i] == loans[..i];
      var loan := loans[i];
      if loan.isActive && !loan.isFunded {
        ghost var before := matched;
        var j := 0;
        while j < |offers|
          invariant 0 <= j <= |offers|
          invariant matched == before + PairsFor(loan, offers[..j], answers)
        {
          assert offers[..j + 1][..j] == offers[..j];
          var offer := offers[j];
          if offer.isActive {
            var key := (loan.loanId, offer.offerId);
            if key in answers && answers[key] {
              matched := matched + [MatchedPair(loan.loanId, offer.offerId, loan, offer)];
            }
          }
          j := j + 1;
        }
        assert offers[..j] == offers;
      }
      i := i + 1;
    }
    assert loans[..i] == loans;
  }

  /** `Array.prototype.find`: the first element satisfying `p`. */
  function Find<T(==,!new)>(s: seq<T>, p: T -> bool): (r: Option<T>)
    ensures r.None? <==> forall x :: x in s ==> !p(x)
    ensures r.Some? ==> r.value in s && p(r.value)
    ensures r.Some? ==> exists k :: 0 <= k < |s| && s[k] == r.value && forall j :: 0 <= j < k ==> !p(s[j])
  {
    if s == [] then None
    else if p(s[0]) then Some(s[0])
    else
      var rest := Find(s[1..], p);
      assert forall x :: x in s ==> x == s[0] || x in s[1..];
      if rest.Some? then
        var k :| 0 <= k < |s[1..]| && s[1..][k] == rest.value && forall j :: 0 <= j < k ==> !p(s[1..][j]);
        assert s[k + 1] == rest.value;
        assert forall j :: 0 <= j < k + 1 ==> !p(s[j]) by {
          forall j | 0 <= j < k + 1 ensures !p(s[j]) {
            if j > 0 { assert s[j] == s[1..][j - 1]; }
          }
        }
        rest
      else rest
  }

  function FindLoan(loans: seq<LoanRequest>, loanId: int): Option<LoanRequest>
  {
    Find(loans, (l: LoanRequest) => l.loanId == loanId)
  }

  function FindOffer(offers: seq<LenderOffer>, offerId: int): Option<LenderOffer>
  {
    Find(offers, (o: LenderOffer) => o.offerId == offerId)
  }

  function FindPair(matched: seq<MatchedPair>, loanId: int, offerId: int): Option<MatchedPair>
  {
    Find(matched, (m: MatchedPair) => m.loanId == loanId && m.offerId == offerId)
  }

  /** What `handleMatch` does before asking for confirmation. */
  datatype MatchDecision =
    | MatchNotConnected
    | LoanOrOfferMissing
    | NotParticipant
    | ConfirmMatch(loan: LoanRequest, offer: LenderOffer)

  /** The guards of `handleMatch`: a connected address, a loan and an offer
      with the given ids, and a caller who is the loan's borrower or the
      offer's lender, compared case-insensitively. */
  function CheckMatch(address: Option<string>, loans: seq<LoanRequest>, offers: seq<LenderOffer>,
                      loanId: int, offerId: int): (d: MatchDecision)
    ensures d == MatchNotConnected <==> !Connected(address)
    ensures d == LoanOrOfferMissing <==>
      Connected(address)
      && ((forall l :: l in loans ==> l.loanId != loanId) || (forall o :: o in offers ==> o.offerId != offerId))
    ensures d == NotParticipant ==>
      FindLoan(loans, loanId).Some? && FindOffer(offers, offerId).Some?
      && !SameAddress(address.value, FindLoan(loans, loanId).value.borrower)
      && !SameAddress(address.value, FindOffer(offers, offerId).value.lender)
    ensures d.ConfirmMatch? ==>
      Connected(address)
      && d.loan in loans && d.loan.loanId == loanId && Some(d.loan) == FindLoan(loans, loanId)
      && d.offer in offers && d.offer.offerId == offerId && Some(d.offer) == FindOffer(offers, offerId)
      && (SameAddress(address.value, d.loan.borrower) || SameAddress(address.value, d.offer.lender))
  {
    if !Connected(address) then MatchNotConnected
    else
      var loan := FindLoan(loans, loanId);
      var offer := FindOffer(offers, offerId);
      if loan.None? || offer.None? then LoanOrOfferMissing
      else
        var isBorrower := Lower(address.value) == Lower(loan.value.borrower);
        var isLender := Lower(address.value) == Lower(offer.value.lender);
        if !isBorrower && !isLender then NotParticipant
        else ConfirmMatch(loan.value, offer.value)
  }

  /** Whether a loan card's "Check Match" is allowed for the connected
      address: the caller is the loan's borrower, or an offer is selected
      and the caller is that offer's lender. */
  function CanMatch(address: Option<string>, loan: LoanRequest, selected: Option<int>, offers: seq<LenderOffer>): bool
  {
    Connected(address)
    && (Lower(address.value) == Lower(loan.borrower)
        || (selected.Some? && FindOffer(offers, selected.value).Some?
            && Lower(FindOffer(offers, selected.value).value.lender) == Lower(address.value)))
  }

  /** The card's permission and the handler's authorisation agree: for a
      loan that the page finds under its own id and a selected offer that
      is among the loaded offers, the card allows the check exactly when
      `handleMatch` gets past its authorisation guard. When the selected
      offer is not among them the two differ: see
      `BorrowerCardWithUnloadedOffer`. */
  lemma CanMatchAgreesWithCheckMatch(address: Option<string>, loans: seq<LoanRequest>, offers: seq<LenderOffer>,
                                     loan: LoanRequest, offerId: int)
    requires FindLoan(loans, loan.loanId) == Some(loan)
    requires FindOffer(offers, offerId).Some?
    ensures CanMatch(address, loan, Some(offerId), offers) <==> CheckMatch(address, loans, offers, loan.loanId, offerId).ConfirmMatch?
  {
  }

  /** The one case where card and handler differ: the borrower's card still
      allows "Check Match" for a selected offer id that is not among the
      loaded offers, and the handler then answers "Loan or offer not found". */
  lemma BorrowerCardWithUnloadedOffer(address: string, loans: seq<LoanRequest>, offers: seq<LenderOffer>,
                                      loan: LoanRequest, offerId: int)
    requires address != "" && SameAddress(address, loan.borrower)
    requires FindLoan(loans, loan.loanId) == Some(loan)
    requires forall o :: o in offers ==> o.offerId != offerId
    ensures CanMatch(Some(address), loan, Some(offerId), offers)
    ensures CheckMatch(Some(address), loans, offers, loan.loanId, offerId) == LoanOrOfferMissing
  {
  }

  /** What `handleFundLoan` does before asking for confirmation. */
  datatype FundDecision =
    | FundNotConnected
    | NotLender
    | MatchMissing
    | ConfirmFunding(pair: MatchedPair)

  /** The guards of `handleFundLoan`: a connected address equal,
      case-insensitively, to the offer's lender, and a recorded pair with
      exactly these loan and offer ids. */
  function CheckFund(address: Option<string>, lenderAddress: string, matched: seq<MatchedPair>,
                     loanId: int, offerId: int): (d: FundDecision)
    ensures d == FundNotConnected <==> !Connected(address)
    ensures d == NotLender <==> Connected(address) && !SameAddress(address.value, lenderAddress)
    ensures d == MatchMissing <==>
      Connected(address) && SameAddress(address.value, lenderAddress)
      && forall m :: m in matched ==> !(m.loanId == loanId && m.offerId == offerId)
    ensures d.ConfirmFunding? ==>
      Connected(address) && SameAddress(address.value, lenderAddress)
      && d.pair in matched && d.pair.loanId == loanId && d.pair.offerId == offerId
      && Some(d.pair) == FindPair(matched, loanId, offerId)
  {
    if !Connected(address) then FundNotConnected
    else if Lower(address.value) != Lower(lenderAddress) then NotLender
    else
      var m := FindPair(matched, loanId, offerId);
      if m.None? then MatchMissing else ConfirmFunding(m.value)
  }

  /** Funding is only offered for a pair that the enumeration produced: the
      loan was active and unfunded, the offer active, and the ledger had
      answered "matched" for exactly these ids. */
  lemma FundingNeedsRecordedMatch(address: Option<string>, lenderAddress: string,
                                  loans: seq<LoanRequest>, offers: seq<LenderOffer>, answers: map<(int, int), bool>,
                                  loanId: int, offerId: int)
    requires CheckFund(address, lenderAddress, MatchedPairs(loans, offers, answers), loanId, offerId).ConfirmFunding?
    ensures var p := CheckFund(address, lenderAddress, MatchedPairs(loans, offers, answers), loanId, offerId).pair;
      p.loan in loans && p.offer in offers
      && p.loan.isActive && !p.loan.isFunded && p.offer.isActive
      && p.loan.loanId == loanId && p.offer.offerId == offerId
      && Recorded(answers, loanId, offerId)
  {
  }

  /** The lender-only rule at the Fund button's call site, which passes the
      pair's own offer lender: when loan ids and offer ids are distinct, as
      the loading loops make them, a confirmed funding of an enumerated pair
      funds exactly that pair, and the caller is its offer's lender. */
  lemma FundingGoesToOfferLender(address: Option<string>, loans: seq<LoanRequest>, offers: seq<LenderOffer>,
                                 answers: map<(int, int), bool>, m: MatchedPair)
    requires forall i, j :: 0 <= i < j < |loans| ==> loans[i].loanId < loans[j].loanId
    requires forall i, j :: 0 <= i < j < |offers| ==> offers[i].offerId < offers[j].offerId
    requires m in MatchedPairs(loans, offers, answers)
    requires CheckFund(address, m.offer.lender, MatchedPairs(loans, offers, answers), m.loanId, m.offerId).ConfirmFunding?
    ensures var p := CheckFund(address, m.offer.lender, MatchedPairs(loans, offers, answers), m.loanId, m.offerId).pair;
      p == m && SameAddress(address.value, p.offer.lender)
  {
    var p := CheckFund(address, m.offer.lender, MatchedPairs(loans, offers, answers), m.loanId, m.offerId).pair;
    assert IsMatch(p, loans, offers, answers) && IsMatch(m, loans, offers, answers);
    var a, b :| 0 <= a < |loans| && 0 <= b < |loans| && loans[a] == p.loan && loans[b] == m.loan;
    assert a == b;
    var c, d :| 0 <= c < |offers| && 0 <= d < |offers| && offers[c] == p.offer && offers[d] == m.offer;
    assert c == d;
  }

  /** `formatAddress`: "Invalid Address" for an empty or ill-formed address,
      otherwise its first six characters, "..." and its last four. */
  function FormatAddress(addr: string): (r: string)
    ensures !IsAddress(addr) ==> r == "Invalid Address"
    ensures IsAddress(addr) ==>
      |r| == 13 && r[..6] == addr[..6] && r[6..9] == "..." && r[9..] == addr[|addr| - 4..]
    ensures r == "Invalid Address" <==> !IsAddress(addr)
  {
    if addr == "" || !IsAddress(addr) then "Invalid Address"
    else
      AddressLength(addr);
      addr[..6] + "..." + addr[|addr| - 4..]
  }

  /** The empty string is never shown as an address. */
  lemma EmptyAddressIsInvalid()
    ensures FormatAddress("") == "Invalid Address"
  {
  }

  /** The page's choice of offer per loan card (`selectedMatches`). */
  class OfferSelection {
    var selected: map<int, int>

    /** Only non-negative offer ids are ever stored. */
    predicate Valid()
      reads this
    {
      forall loanId :: loanId in selected ==> selected[loanId] >= 0
    }

    /** The offer chosen for a loan card, if any. */
    function SelectedOffer(loanId: int): (r: Option<int>)
      reads this
      requires Valid()
      ensures r.Some? <==> loanId in selected
      ensures r.Some? ==> r.value == selected[loanId] && r.value >= 0
    {
      if loanId in selected then Some(selected[loanId]) else None
    }

    constructor ()
      ensures Valid() && selected == map[]
    {
      selected := map[];
    }

    /** The select's change handler: a non-negative offer id becomes the
        loan's selection, a negative one ("Select an offer...") removes it;
        other loans' selections are untouched. */
    method Choose(loanId: int, offerId: int)
      requires Valid()
      modifies this
      ensures Valid()
      ensures offerId >= 0 ==> selected == old(selected)[loanId := offerId]
      ensures offerId < 0 ==> selected == old(selected) - {loanId}
      ensures forall k :: k != loanId ==> (k in selected <==> k in old(selected))
      ensures forall k :: k != loanId && k in selected ==> selected[k] == old(selected)[k]
    {
      if offerId >= 0 {
        selected := selected[loanId := offerId];
      } else {
        selected := selected - {loanId};
      }
    }

    /** After a completed match check the loan's selection is cleared. */
    method Clear(loanId: int)
      requires Valid()
      modifies this
      ensures Valid()
      ensures selected == old(selected) - {loanId}
      ensures loanId !in selected
    {
      selected := selected - {loanId};
    }
  }
}
