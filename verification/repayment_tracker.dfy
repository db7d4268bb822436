/** Decision logic of the repayment tracker: the derived status of a
    repayment agreement, its badge colour, who is offered the payment
    form, when a payment attempt goes ahead, and the merge of the
    borrower's and the lender's agreement ids. Amounts are wei and the due
    date is in seconds, both as exact integers; the current time is a
    parameter in milliseconds. */
module RepaymentTracker {
  import opened Common

  /** What the ledger returns for one agreement. */
  datatype Agreement = Agreement(
    borrower: string,
    lender: string,
    principal: int,
    interestRate: int,
    totalRepayment: int,
    amountRepaid: int,
    dueDate: int,
    isActive: bool)

  /** The four statuses an agreement can be shown with. */
  datatype Status = Closed | Repaid | Overdue | Active

  /** The placeholder the status variable starts from before the chain runs. */
  const Unknown: string := "UNKNOWN"

  /** The label a status is displayed and compared with. */
  function Label(st: Status): string
  {
    match st
    case Closed => "CLOSED"
    case Repaid => "REPAID"
    case Overdue => "OVERDUE"
    case Active => "ACTIVE"
  }

  /** Every agreement is labelled with one of the four statuses, never the
      placeholder, and different statuses have different labels. */
  lemma LabelIsKnown(st: Status, other: Status)
    ensures Label(st) in {"CLOSED", "REPAID", "OVERDUE", "ACTIVE"}
    ensures Label(st) != Unknown
    ensures Label(st) == Label(other) <==> st == other
  {
  }

  /** The status derivation: inactive agreements are closed whatever their
      amounts; a fully repaid one is repaid even past its due date; an
      under-repaid one is overdue strictly after the due instant and
      active up to and including it. */
  function DeriveStatus(a: Agreement, nowMs: int): (st: Status)
    ensures st == Closed <==> !a.isActive
    ensures st == Repaid <==> a.isActive && a.amountRepaid >= a.totalRepayment
    ensures st == Overdue <==>
      a.isActive && a.amountRepaid < a.totalRepayment && nowMs > a.dueDate * 1000
    ensures st == Active <==>
      a.isActive && a.amountRepaid < a.totalRepayment && nowMs <= a.dueDate * 1000
  {
    if !a.isActive then Closed
    else if a.amountRepaid >= a.totalRepayment then Repaid
    else if nowMs > a.dueDate * 1000 then Overdue
    else Active
  }

  /** With the agreement fixed, time only moves a status from ACTIVE to
      OVERDUE: a later instant never turns an overdue agreement back into
      an active one, and closed or repaid agreements stay as they are. */
  lemma StatusMonotoneInTime(a: Agreement, t1: int, t2: int)
    requires t1 <= t2
    ensures DeriveStatus(a, t1) == Overdue ==> DeriveStatus(a, t2) == Overdue
    ensures DeriveStatus(a, t1) != Active ==> DeriveStatus(a, t2) == DeriveStatus(a, t1)
  {
  }

  const ActiveStyle: string := "bg-green-600/20 border-green-500/30 text-green-400"
  const OverdueStyle: string := "bg-yellow-600/20 border-yellow-500/30 text-yellow-400"
  const DefaultedStyle: string := "bg-red-600/20 border-red-500/30 text-red-400"
  const RepaidStyle: string := "bg-blue-600/20 border-blue-500/30 text-blue-400"
  const NeutralStyle: string := "bg-slate-600/20 border-slate-500/30 text-slate-400"

  /** `getStatusColor`: the badge style of a status string, compared after
      lower-casing; "closed" and every unrecognised string get the neutral
      style. */
  function StatusColor(status: string): (style: string)
    ensures Lower(status) !in {"active", "overdue", "defaulted", "repaid"} ==> style == NeutralStyle
    ensures Lower(status) == "active" ==> style == ActiveStyle
    ensures Lower(status) == "overdue" ==> style == OverdueStyle
    ensures Lower(status) == "defaulted" ==> style == DefaultedStyle
    ensures Lower(status) == "repaid" ==> style == RepaidStyle
  {
    var key := Lower(status);
    if key == "active" then ActiveStyle
    else if key == "overdue" then OverdueStyle
    else if key == "defaulted" then DefaultedStyle
    else if key == "repaid" then RepaidStyle
    else NeutralStyle
  }

  /** The colour depends only on the lower-cased status: "Active",
      "ACTIVE" and "active" get the same badge. */
  lemma StatusColorCaseInsensitive(status: string)
    ensures StatusColor(status) == StatusColor(Lower(status))
  {
    LowerIdempotent(status);
  }

  /** The badge each derived status actually gets. */
  lemma DerivedStatusColor(st: Status)
    ensures st == Active ==> StatusColor(Label(st)) == ActiveStyle
    ensures st == Overdue ==> StatusColor(Label(st)) == OverdueStyle
    ensures st == Repaid ==> StatusColor(Label(st)) == RepaidStyle
    ensures st == Closed ==> StatusColor(Label(st)) == NeutralStyle
  {
    match st
    case Active =>
      assert Lower("ACTIVE") == "active";
    case Overdue =>
      assert Lower("OVERDUE") == "overdue";
    case Repaid =>
      assert Lower("REPAID") == "repaid";
    case Closed =>
      assert Lower("CLOSED") == "closed";
  }

  /** Whether the payment form is rendered for an agreement: the connected
      address must be the borrower's, compared case-insensitively, and the
      status string must be exactly "ACTIVE". */
  function ShowsPaymentInput(borrower: string, address: Option<string>, status: string): (shown: bool)
    ensures shown ==> address.Some? && SameAddress(borrower, address.value)
    ensures shown ==> status == Label(Active)
    ensures address.Some? && SameAddress(borrower, address.value) && status == "ACTIVE" ==> shown
  {
    address.Some? && Lower(borrower) == Lower(address.value) && status == "ACTIVE"
  }

  /** Only the borrower of an ACTIVE agreement is offered the payment form;
      OVERDUE, REPAID and CLOSED agreements get none, even for the borrower. */
  lemma PaymentInputOnlyWhenActive(a: Agreement, nowMs: int, address: Option<string>)
    ensures ShowsPaymentInput(a.borrower, address, Label(DeriveStatus(a, nowMs))) <==>
      DeriveStatus(a, nowMs) == Active && address.Some? && SameAddress(a.borrower, address.value)
  {
    LabelIsKnown(DeriveStatus(a, nowMs), Active);
  }

  /** `handleMakePayment`'s guard: the amount entered for the agreement is
      sent only when an address is connected and that amount is non-empty;
      otherwise the attempt does nothing. */
  function PaymentToSend(address: Option<string>, amounts: map<int, string>, agreementId: int): (r: Option<string>)
    ensures r.Some? <==> Connected(address) && agreementId in amounts && amounts[agreementId] != ""
    ensures r.Some? ==> r.value == amounts[agreementId] && r.value != ""
  {
    if !Connected(address) || agreementId !in amounts || amounts[agreementId] == "" then None
    else Some(amounts[agreementId])
  }

  /** The entered amounts after a successful payment: the paid agreement's
      field is emptied, every other field is kept. */
  function AmountsAfterPayment(amounts: map<int, string>, agreementId: int): (next: map<int, string>)
    ensures agreementId in next && next[agreementId] == ""
    ensures forall id :: id != agreementId ==> (id in next <==> id in amounts)
    ensures forall id :: id != agreementId && id in amounts ==> next[id] == amounts[id]
  {
    amounts[agreementId := ""]
  }

  /** A paid amount is not sent a second time: right after a successful
      payment the same attempt does nothing until a new amount is typed. */
  lemma NoRepeatedPayment(address: Option<string>, amounts: map<int, string>, agreementId: int)
    ensures PaymentToSend(address, AmountsAfterPayment(amounts, agreementId), agreementId) == None
  {
  }

  /** No value occurs twice in `s`. */
  predicate Distinct(s: seq<int>)
  {
    forall i, j :: 0 <= i < j < |s| ==> s[i] != s[j]
  }

  /** The index of the first occurrence of `x` in `s`. */
  function FirstIndex(s: seq<int>, x: int): (i: nat)
    requires x in s
    ensures i < |s| && s[i] == x
    ensures forall j :: 0 <= j < i ==> s[j] != x
  {
    var init := s[..|s| - 1];
    if x in init then FirstIndex(init, x) else |s| - 1
  }

  /** `[...new Set(s)]`: the values of `s`, each kept once, in order of
      first occurrence. */
  function Dedup(s: seq<int>): (r: seq<int>)
    ensures forall x :: x in r <==> x in s
    ensures Distinct(r)
    ensures forall i, j :: 0 <= i < j < |r| ==> FirstIndex(s, r[i]) < FirstIndex(s, r[j])
    ensures |r| <= |s|
  {
    if s == [] then []
    else
      var init := s[..|s| - 1];
      var prefix := Dedup(init);
      var last := s[|s| - 1];
      assert forall y :: y in init ==> FirstIndex(s, y) == FirstIndex(init, y);
      if last in prefix then prefix
      else
        assert FirstIndex(s, last) == |s| - 1;
        prefix + [last]
  }

  /** A list without repetitions passes through the de-duplication unchanged. */
  lemma {:induction false} DedupKeepsDistinct(s: seq<int>)
    requires Distinct(s)
    ensures Dedup(s) == s
  {
    if s != [] {
      var init := s[..|s| - 1];
      assert Distinct(init);
      DedupKeepsDistinct(init);
      assert s[|s| - 1] !in init;
      assert init + [s[|s| - 1]] == s;
    }
  }

  /** A value of a repetition-free list occurs in it exactly once. */
  lemma {:induction false} DistinctOccursOnce(s: seq<int>, x: int)
    requires Distinct(s) && x in s
    ensures multiset(s)[x] == 1
  {
    var init := s[..|s| - 1];
    assert s == init + [s[|s| - 1]];
    assert Distinct(init);
    if s[|s| - 1] == x {
      assert x !in init;
      assert multiset(init)[x] == 0;
    } else {
      DistinctOccursOnce(init, x);
    }
  }

  /** The id list loaded for an address: the borrower's agreements followed
      by the lender's, with duplicates removed. */
  function MergeIds(borrowerIds: seq<int>, lenderIds: seq<int>): (ids: seq<int>)
    ensures forall x :: x in ids <==> x in borrowerIds || x in lenderIds
    ensures Distinct(ids)
  {
    Dedup(borrowerIds + lenderIds)
  }

  /** The merge lists every borrower id before any id that only the lender
      list has, and the borrower ids in their own order of first occurrence. */
  lemma MergedIdsBorrowerFirst(borrowerIds: seq<int>, lenderIds: seq<int>)
    ensures var ids := MergeIds(borrowerIds, lenderIds);
      forall i, j :: 0 <= i < j < |ids| && ids[j] in borrowerIds ==>
        ids[i] in borrowerIds && FirstIndex(borrowerIds, ids[i]) < FirstIndex(borrowerIds, ids[j])
    ensures var ids := MergeIds(borrowerIds, lenderIds);
      forall i, j :: 0 <= i < j < |ids| && ids[i] !in borrowerIds && ids[j] !in borrowerIds ==>
        ids[i] in lenderIds && ids[j] in lenderIds && FirstIndex(lenderIds, ids[i]) < FirstIndex(lenderIds, ids[j])
  {
    var all := borrowerIds + lenderIds;
    var ids := MergeIds(borrowerIds, lenderIds);
    forall x | x in borrowerIds
      ensures FirstIndex(all, x) == FirstIndex(borrowerIds, x)
    {
      FirstIndexInPrefix(borrowerIds, lenderIds, x);
    }
    forall x | x in lenderIds && x !in borrowerIds
      ensures FirstIndex(all, x) == |borrowerIds| + FirstIndex(lenderIds, x)
    {
      FirstIndexInSuffix(borrowerIds, lenderIds, x);
    }
    forall i, j | 0 <= i < j < |ids| && ids[j] in borrowerIds
      ensures ids[i] in borrowerIds
    {
      var k := FirstIndex(all, ids[i]);
      assert k < FirstIndex(all, ids[j]) < |borrowerIds|;
      assert all[k] == borrowerIds[k];
    }
  }

  /** An id that only the second list has is first found after the whole
      first list, at its own place in the second. */
  lemma FirstIndexInSuffix(a: seq<int>, b: seq<int>, x: int)
    requires x !in a && x in b
    ensures FirstIndex(a + b, x) == |a| + FirstIndex(b, x)
  {
    var s := a + b;
    var i := FirstIndex(b, x);
    assert s[|a| + i] == x;
    forall j | 0 <= j < |a| + i
      ensures s[j] != x
    {
      if j < |a| {
        assert s[j] == a[j];
      } else {
        assert s[j] == b[j - |a|];
      }
    }
    FirstIndexUnique(s, x, |a| + i);
  }

  /** The first occurrence is the only index holding `x` with no `x` before it. */
  lemma FirstIndexUnique(s: seq<int>, x: int, i: int)
    requires 0 <= i < |s| && s[i] == x
    requires forall j :: 0 <= j < i ==> s[j] != x
    ensures FirstIndex(s, x) == i
  {
  }

  /** An id of the first list is first found at the same place in the
      concatenation. */
  lemma FirstIndexInPrefix(a: seq<int>, b: seq<int>, x: int)
    requires x in a
    ensures FirstIndex(a + b, x) == FirstIndex(a, x)
  {
    assert (a + b)[FirstIndex(a, x)] == x;
  }

  /** Every id from either list is loaded exactly once. */
  lemma MergedIdsOnce(borrowerIds: seq<int>, lenderIds: seq<int>, x: int)
    requires x in borrowerIds || x in lenderIds
    ensures multiset(MergeIds(borrowerIds, lenderIds))[x] == 1
  {
    DistinctOccursOnce(MergeIds(borrowerIds, lenderIds), x);
  }

  /** An address that is only a borrower keeps its own order of agreements. */
  lemma BorrowerOnlyOrderKept(borrowerIds: seq<int>)
    requires Distinct(borrowerIds)
    ensures MergeIds(borrowerIds, []) == borrowerIds
  {
    assert borrowerIds + [] == borrowerIds;
    DedupKeepsDistinct(borrowerIds);
  }
}
