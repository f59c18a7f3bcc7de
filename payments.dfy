/** The payment ledger of js/payments.js: the records `savePaymentRecord`
    appends to `paymentDatabase`, the receipt number, the per-user and global
    statistics, and the payment data each provider path hands over. */
module Payments {
  import opened Seqs
  import opened Strings
  import opened Accounts
  import opened Catalog

  /** What a provider path passes to `handlePaymentSuccess`. */
  datatype PaymentData = PaymentData(
    listingId: string,
    listingTitle: string,
    amount: int,
    quantity: int,
    pricePerUnit: int,
    paymentMethod: string,
    paymentId: string,
    status: string)

  /** A ledger entry. `timestamp` and `createdAt` are both the time of saving
      (the first is stored as its ISO string in the source). */
  datatype PaymentRecord = PaymentRecord(
    id: string,
    receiptNumber: string,
    userId: string,
    userEmail: string,
    userName: string,
    listingId: string,
    listingTitle: string,
    amount: int,
    quantity: int,
    pricePerUnit: int,
    paymentMethod: string,
    paymentId: string,
    status: string,
    timestamp: int,
    createdAt: int)

  /** The local calendar date of `new Date()`: the full year, the month
      counted from 0 as `getMonth` does, and the day of the month. */
  datatype CalendarDate = CalendarDate(fullYear: nat, month: nat, day: nat)

  /** `generateReceiptNumber()`: "PC", the last two digits of the year, the
      month and the day padded to two digits, and the last six digits of the
      millisecond clock. */
  function ReceiptNumber(date: CalendarDate, now: nat): (r: string)
    ensures 8 <= |r| && r[..2] == "PC"
    ensures forall i :: 2 <= i < |r| ==> IsDecimalDigit(r[i])
  {
    var y := SliceFromEnd(Decimal(date.fullYear), 2);
    var m := PadStart(Decimal(date.month + 1), 2, '0');
    var d := PadStart(Decimal(date.day), 2, '0');
    var t := SliceFromEnd(Decimal(now), 6);
    SliceFromEndDigits(Decimal(date.fullYear), 2);
    PadStartDigits(Decimal(date.month + 1), 2);
    PadStartDigits(Decimal(date.day), 2);
    SliceFromEndDigits(Decimal(now), 6);
    FieldsAreDigits("PC", y, m, d, t);
    "PC" + y + m + d + t
  }

  /** A prefix followed by four digit fields has digits after the prefix. */
  lemma FieldsAreDigits(p: string, y: string, m: string, d: string, t: string)
    requires AllDecimal(y) && AllDecimal(m) && AllDecimal(d) && AllDecimal(t)
    ensures var r := p + y + m + d + t;
            forall i :: |p| <= i < |r| ==> IsDecimalDigit(r[i])
  {
    var r := p + y + m + d + t;
    forall i | |p| <= i < |r|
      ensures IsDecimalDigit(r[i])
    {
      var j := i - |p|;
      if j < |y| { assert r[i] == y[j]; }
      else if j < |y| + |m| { assert r[i] == m[j - |y|]; }
      else if j < |y| + |m| + |d| { assert r[i] == d[j - |y| - |m|]; }
      else { assert r[i] == t[j - |y| - |m| - |d|]; }
    }
  }

  /** A decimal of at most two digits padded to two. */
  lemma TwoDigitField(n: nat)
    requires n < 100
    ensures |PadStart(Decimal(n), 2, '0')| == 2
    ensures ValueOf(PadStart(Decimal(n), 2, '0'), 10) == n
  {
    NumberToStringLength(n, 10, 2);
    PadStartValue(Decimal(n), 2, 10);
    NumberToStringRoundTrip(n, 10);
  }

  /** The last `k` digits of a number with at least `k` digits. */
  lemma LastDigitsField(n: nat, k: nat)
    requires k >= 1 && n >= Pow(10, k - 1)
    ensures |SliceFromEnd(Decimal(n), k)| == k
    ensures ValueOf(SliceFromEnd(Decimal(n), k), 10) == n % Pow(10, k)
  {
    if k > 1 {
      NumberToStringLength(n, 10, k - 1);
    }
    LastDigits(n, 10, k);
  }

  /** The layout of a receipt number for a two-digit-or-longer year, a real
      month and day, and a clock of at least six digits: fourteen characters
      whose fields read back as the year modulo 100, the month from 1, the
      day and the clock modulo 10^6. */
  lemma ReceiptNumberLayout(date: CalendarDate, now: nat)
    requires date.fullYear >= 10 && date.month < 12 && 1 <= date.day <= 31
    requires now >= 100000
    ensures var r := ReceiptNumber(date, now);
            |r| == 14 && r[..2] == "PC" &&
            ValueOf(r[2..4], 10) == date.fullYear % 100 &&
            ValueOf(r[4..6], 10) == date.month + 1 &&
            ValueOf(r[6..8], 10) == date.day &&
            ValueOf(r[8..], 10) == now % 1000000
  {
    var y := SliceFromEnd(Decimal(date.fullYear), 2);
    var m := PadStart(Decimal(date.month + 1), 2, '0');
    var d := PadStart(Decimal(date.day), 2, '0');
    var t := SliceFromEnd(Decimal(now), 6);
    assert Pow(10, 1) == 10;
    assert Pow(10, 2) == 100;
    assert Pow(10, 5) == 100000;
    assert Pow(10, 6) == 1000000;
    LastDigitsField(date.fullYear, 2);
    TwoDigitField(date.month + 1);
    TwoDigitField(date.day);
    LastDigitsField(now, 6);
    FieldSlices("PC", y, m, d, t);
  }

  /** Where the five fields of a receipt number sit. */
  lemma FieldSlices(p: string, y: string, m: string, d: string, t: string)
    requires |p| == 2 && |y| == 2 && |m| == 2 && |d| == 2 && |t| == 6
    ensures var r := p + y + m + d + t;
            |r| == 14 && r[..2] == p && r[2..4] == y && r[4..6] == m && r[6..8] == d && r[8..] == t
  {
  }

  /** The record `savePaymentRecord` appends for `payer` at `now`. */
  function NewPaymentRecord(data: PaymentData, payer: User, date: CalendarDate, now: nat): (r: PaymentRecord)
    ensures DataOf(r) == data
    ensures r.userId == payer.id && r.userEmail == payer.email && r.userName == payer.name
    ensures r.id == "pay_" + Decimal(now) && r.receiptNumber == ReceiptNumber(date, now)
    ensures r.timestamp == now && r.createdAt == now
  {
    PaymentRecord("pay_" + Decimal(now), ReceiptNumber(date, now), payer.id, payer.email, payer.name,
                  data.listingId, data.listingTitle, data.amount, data.quantity, data.pricePerUnit,
                  data.paymentMethod, data.paymentId, data.status, now, now)
  }

  /** The payment fields of a record. */
  function DataOf(r: PaymentRecord): PaymentData
  {
    PaymentData(r.listingId, r.listingTitle, r.amount, r.quantity, r.pricePerUnit,
                r.paymentMethod, r.paymentId, r.status)
  }

  function PaidBy(userId: string): PaymentRecord -> bool
  {
    (p: PaymentRecord) => p.userId == userId
  }

  function PaidByOthers(userId: string): PaymentRecord -> bool
  {
    (p: PaymentRecord) => p.userId != userId
  }

  /** `getUserPayments(userId)`: the user's records, in ledger order. */
  function UserPayments(ledger: seq<PaymentRecord>, userId: string): (r: seq<PaymentRecord>)
    ensures forall i :: 0 <= i < |r| ==> r[i] in ledger && r[i].userId == userId
    ensures forall i :: 0 <= i < |ledger| && ledger[i].userId == userId ==> ledger[i] in r
    ensures IsSubsequence(r, ledger)
    ensures forall p: PaymentRecord :: p.userId == userId ==> multiset(r)[p] == multiset(ledger)[p]
    ensures forall p: PaymentRecord :: p.userId != userId ==> multiset(r)[p] == 0
  {
    var mine := PaidBy(userId);
    FilterIsSubsequence(ledger, mine);
    FilterKeepsCounts(ledger, mine);
    Filter(ledger, mine)
  }

  /** A user's payment count is the number of ledger positions holding one of their records. */
  lemma UserPaymentsCount(ledger: seq<PaymentRecord>, userId: string)
    ensures |UserPayments(ledger, userId)| == |set i | 0 <= i < |ledger| && ledger[i].userId == userId|
  {
    FilterLengthIsCount(ledger, PaidBy(userId), set i | 0 <= i < |ledger| && ledger[i].userId == userId);
  }

  /** Saving a record extends its payer's history by that record and leaves
      every other history as it was. */
  lemma UserPaymentsAfterSave(ledger: seq<PaymentRecord>, r: PaymentRecord, userId: string)
    ensures UserPayments(ledger + [r], userId) ==
              UserPayments(ledger, userId) + (if r.userId == userId then [r] else [])
    ensures IsSubsequence(UserPayments(ledger, userId), ledger)
  {
    FilterConcat(ledger, [r], PaidBy(userId));
    FilterSingle(r, PaidBy(userId));
    FilterIsSubsequence(ledger, PaidBy(userId));
  }

  datatype PaymentStats = PaymentStats(totalPayments: nat, totalAmount: int, totalCO2Offset: int)

  function AmountOf(): PaymentRecord -> int
  {
    (p: PaymentRecord) => p.amount
  }

  function QuantityPaid(): PaymentRecord -> int
  {
    (p: PaymentRecord) => p.quantity
  }

  /** `getPaymentStats()` over a ledger; the company dashboard applies the
      same sums to one user's payments. */
  function Stats(ledger: seq<PaymentRecord>): (r: PaymentStats)
    ensures r.totalPayments == |ledger|
    ensures (forall i :: 0 <= i < |ledger| ==> ledger[i].amount >= 0) ==> r.totalAmount >= 0
    ensures (forall i :: 0 <= i < |ledger| ==> ledger[i].quantity >= 0) ==> r.totalCO2Offset >= 0
    ensures ledger == [] ==> r == PaymentStats(0, 0, 0)
  {
    var amount := SumOf(ledger, AmountOf());
    var offset := SumOf(ledger, QuantityPaid());
    assert (forall i :: 0 <= i < |ledger| ==> ledger[i].amount >= 0) ==> amount >= 0 by {
      if forall i :: 0 <= i < |ledger| ==> ledger[i].amount >= 0 {
        SumOfNonnegative(ledger, AmountOf());
      }
    }
    assert (forall i :: 0 <= i < |ledger| ==> ledger[i].quantity >= 0) ==> offset >= 0 by {
      if forall i :: 0 <= i < |ledger| ==> ledger[i].quantity >= 0 {
        SumOfNonnegative(ledger, QuantityPaid());
      }
    }
    PaymentStats(|ledger|, amount, offset)
  }

  /** Saving one record adds one payment, its amount and its quantity. */
  lemma StatsAfterSave(ledger: seq<PaymentRecord>, r: PaymentRecord)
    ensures Stats(ledger + [r]) ==
              PaymentStats(Stats(ledger).totalPayments + 1, Stats(ledger).totalAmount + r.amount,
                           Stats(ledger).totalCO2Offset + r.quantity)
  {
    assert [r][..0] == [];
    SumOfConcat(ledger, [r], AmountOf());
    SumOfConcat(ledger, [r], QuantityPaid());
  }

  /** One user's totals and everyone else's add up to the ledger's totals. */
  lemma UserStatsPartition(ledger: seq<PaymentRecord>, userId: string)
    ensures var mine := Stats(UserPayments(ledger, userId));
            var others := Stats(Filter(ledger, PaidByOthers(userId)));
            mine.totalPayments + others.totalPayments == Stats(ledger).totalPayments &&
            mine.totalAmount + others.totalAmount == Stats(ledger).totalAmount &&
            mine.totalCO2Offset + others.totalCO2Offset == Stats(ledger).totalCO2Offset
  {
    FilterSplit(ledger, PaidBy(userId), PaidByOthers(userId));
    SumOfSplit(ledger, PaidBy(userId), PaidByOthers(userId), AmountOf());
    SumOfSplit(ledger, PaidBy(userId), PaidByOthers(userId), QuantityPaid());
  }

  // ---- Provider paths ----

  const RazorpayMethod: string := "Razorpay"
  const GooglePayMethod: string := "Google Pay"
  const BharatPeMethod: string := "BharatPe"
  const Completed: string := "completed"

  /** The total price of a listing: price per ton times tons. */
  function ListingAmount(l: Listing): int
  {
    l.price * l.quantity
  }

  /** The payment data every provider path builds for the listing it found,
      differing only in the method's name and the provider's payment id. */
  function ProviderPaymentData(listingId: string, l: Listing, paymentMethod: string, paymentId: string): (d: PaymentData)
    ensures d.amount == d.pricePerUnit * d.quantity
    ensures d.pricePerUnit == l.price && d.quantity == l.quantity && d.listingTitle == l.title
    ensures d.listingId == listingId && d.paymentMethod == paymentMethod && d.paymentId == paymentId
    ensures d.status == Completed
  {
    PaymentData(listingId, l.title, ListingAmount(l), l.quantity, l.price, paymentMethod, paymentId, Completed)
  }

  /** The amount handed to the Razorpay checkout, in paise. */
  function RazorpayCheckoutAmount(l: Listing): (paise: int)
    ensures paise == 100 * ProviderPaymentData(l.id, l, RazorpayMethod, "").amount
  {
    l.price * l.quantity * 100
  }

  /** The payment ids Google Pay and BharatPe paths make up at `now`. */
  function GooglePayId(now: nat): string { "gpay_" + Decimal(now) }

  function BharatPeId(now: nat): string { "bp_" + Decimal(now) }
}
