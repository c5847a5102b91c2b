/** The subsidy application page (src/app/apply-subsidy/page.tsx): a form of
    five text fields, a live eligibility estimate computed from them, and a
    submit handler that checks the form before raising the "submitting"
    flag. The two timer callbacks that end a submission are separate
    methods; their delays are not modelled. */
module SubsidyApplication {
  import opened JsStrings
  import opened JsNumbers
  import opened Options

  datatype Field = MonthlyIncome | MonthlyExpenses | ElectricityBill | PropertyTax | FamilyMembers

  predicate IsCurrency(field: Field) {
    field != FamilyMembers
  }

  /** The `FormData` record: every field holds the text the user typed. */
  datatype FormData = FormData(
    monthlyIncome: string,
    monthlyExpenses: string,
    electricityBill: string,
    propertyTax: string,
    familyMembers: string)
  {
    function Get(field: Field): string {
      match field
      case MonthlyIncome => monthlyIncome
      case MonthlyExpenses => monthlyExpenses
      case ElectricityBill => electricityBill
      case PropertyTax => propertyTax
      case FamilyMembers => familyMembers
    }

    /** `{ ...prev, [field]: value }`: the named field gets the value and
        every other field keeps its text. */
    function With(field: Field, value: string): (r: FormData)
      ensures r.Get(field) == value
      ensures forall other :: other != field ==> r.Get(other) == Get(other)
    {
      match field
      case MonthlyIncome => this.(monthlyIncome := value)
      case MonthlyExpenses => this.(monthlyExpenses := value)
      case ElectricityBill => this.(electricityBill := value)
      case PropertyTax => this.(propertyTax := value)
      case FamilyMembers => this.(familyMembers := value)
    }
  }

  const EmptyForm := FormData("", "", "", "", "")

  /** The currency fields are only ever written through the digit filter, so
      they hold digit strings. */
  predicate CurrencyFieldsAreDigits(f: FormData) {
    AllDigits(f.monthlyIncome) && AllDigits(f.monthlyExpenses) &&
    AllDigits(f.electricityBill) && AllDigits(f.propertyTax)
  }

  /** `parseFloat(s) || 0` on a digit string: the empty field counts as 0. */
  function Amount(s: string): nat
    requires AllDigits(s)
  {
    if s == [] then 0 else DecimalValue(s)
  }

  /** The amount of a currency field is the number JavaScript reads from it,
      the empty field included. */
  lemma AmountIsNumber(s: string)
    requires AllDigits(s)
    ensures ToNumber(s) == Finite(Amount(s) as real)
    ensures s != [] ==> ParseInt(s) == Some(Amount(s))
  {
    if s != [] {
      ToNumberDigits(s);
      ParseIntDigits(s);
    }
  }

  /** `calculateNetIncome`: income less expenses, electricity and property
      tax, without clamping. */
  function NetIncome(f: FormData): (r: int)
    requires CurrencyFieldsAreDigits(f)
  {
    Amount(f.monthlyIncome) - Amount(f.monthlyExpenses) - Amount(f.electricityBill) - Amount(f.propertyTax)
  }

  /** The deductions only ever lower the income, and with all three
      deduction fields empty the net income is the income itself. */
  lemma NetIncomeBounds(f: FormData)
    requires CurrencyFieldsAreDigits(f)
    ensures NetIncome(f) <= Amount(f.monthlyIncome)
    ensures f.monthlyExpenses == [] && f.electricityBill == [] && f.propertyTax == [] ==>
      NetIncome(f) == Amount(f.monthlyIncome)
  {
  }

  /** `parseInt(formData.familyMembers) || 0`: NaN becomes 0. */
  function FamilySize(f: FormData): int {
    match ParseInt(f.familyMembers)
    case None => 0
    case Some(n) => n
  }

  /** `familyMembers > 0 ? netIncome / familyMembers : netIncome`. */
  function PerPerson(net: int, members: int): (r: real)
    ensures members <= 0 ==> r == net as real
  {
    if members > 0 then net as real / members as real else net as real
  }

  /** With a positive family size, the per-person figure times the family
      size gives back the net income. */
  lemma PerPersonTimesMembers(net: int, members: int)
    requires members > 0
    ensures PerPerson(net, members) * members as real == net as real
  {
  }

  /** Net income per family member; with no positive family size the net
      income itself. */
  function IncomePerPerson(f: FormData): real
    requires CurrencyFieldsAreDigits(f)
  {
    PerPerson(NetIncome(f), FamilySize(f))
  }

  datatype Tier = SangatLayak | Layak | CukupLayak | PerluEvaluasi

  /** The tier thresholds of `getEligibilityStatus`, tested in order. */
  function TierOf(perPerson: real): Tier {
    if perPerson <= 500000.0 then SangatLayak
    else if perPerson <= 1000000.0 then Layak
    else if perPerson <= 1500000.0 then CukupLayak
    else PerluEvaluasi
  }

  /** 0 is the most eligible tier, 3 the least. */
  function Rank(t: Tier): nat {
    match t
    case SangatLayak => 0
    case Layak => 1
    case CukupLayak => 2
    case PerluEvaluasi => 3
  }

  /** The record `getEligibilityStatus` returns. */
  datatype EligibilityStatus = EligibilityStatus(status: string, color: string, bg: string)

  function StatusOf(t: Tier): EligibilityStatus {
    match t
    case SangatLayak => EligibilityStatus("Sangat Layak", "text-green-600", "bg-green-50")
    case Layak => EligibilityStatus("Layak", "text-blue-600", "bg-blue-50")
    case CukupLayak => EligibilityStatus("Cukup Layak", "text-yellow-600", "bg-yellow-50")
    case PerluEvaluasi => EligibilityStatus("Perlu Evaluasi", "text-red-600", "bg-red-50")
  }

  /** `getEligibilityStatus` on the current form. */
  function GetEligibilityStatus(f: FormData): (r: EligibilityStatus)
    requires CurrencyFieldsAreDigits(f)
    ensures r.status in {"Sangat Layak", "Layak", "Cukup Layak", "Perlu Evaluasi"}
    ensures r.status == "Sangat Layak" <==> IncomePerPerson(f) <= 500000.0
    ensures r.status == "Layak" <==> 500000.0 < IncomePerPerson(f) <= 1000000.0
    ensures r.status == "Cukup Layak" <==> 1000000.0 < IncomePerPerson(f) <= 1500000.0
    ensures r.status == "Perlu Evaluasi" <==> 1500000.0 < IncomePerPerson(f)
  {
    StatusOf(TierOf(IncomePerPerson(f)))
  }

  /** Each tier is exactly one band of per-person income. */
  lemma TierBands(p: real)
    ensures TierOf(p) == SangatLayak <==> p <= 500000.0
    ensures TierOf(p) == Layak <==> 500000.0 < p <= 1000000.0
    ensures TierOf(p) == CukupLayak <==> 1000000.0 < p <= 1500000.0
    ensures TierOf(p) == PerluEvaluasi <==> 1500000.0 < p
  {
  }

  /** The labels tell the tiers apart. */
  lemma StatusDistinguishesTiers(s: Tier, t: Tier)
    ensures StatusOf(s).status == StatusOf(t).status <==> s == t
  {
  }

  /** A lower per-person income never gives a less eligible tier. */
  lemma TierMonotone(p: real, q: real)
    requires p <= q
    ensures Rank(TierOf(p)) <= Rank(TierOf(q))
  {
  }

  lemma TierBoundaries()
    ensures TierOf(500000.0) == SangatLayak && TierOf(500001.0) == Layak
    ensures TierOf(1000000.0) == Layak && TierOf(1000001.0) == CukupLayak
    ensures TierOf(1500000.0) == CukupLayak && TierOf(1500001.0) == PerluEvaluasi
  {
  }

  /** The tier of a family size of at least one, decided without division:
      `net / members <= T` exactly when `net <= T * members`. */
  function TierOfShares(net: int, members: int): Tier
    requires members > 0
  {
    if net <= 500000 * members then SangatLayak
    else if net <= 1000000 * members then Layak
    else if net <= 1500000 * members then CukupLayak
    else PerluEvaluasi
  }

  lemma QuotientAtMost(net: int, members: int, t: int)
    requires members > 0
    ensures net as real / members as real <= t as real <==> net <= t * members
  {
    var m := members as real;
    var q := net as real / m;
    assert q * m == net as real;
    if q <= t as real {
      assert q * m <= t as real * m;
    } else {
      assert q * m > t as real * m;
    }
  }

  lemma TierOfSharesAgrees(net: int, members: int)
    requires members > 0
    ensures TierOf(PerPerson(net, members)) == TierOfShares(net, members)
  {
    QuotientAtMost(net, members, 500000);
    QuotientAtMost(net, members, 1000000);
    QuotientAtMost(net, members, 1500000);
  }

  /** With no positive family size (empty, unreadable, zero or negative) the
      per-person figure is the net income itself. */
  lemma PerPersonFallback(f: FormData)
    requires CurrencyFieldsAreDigits(f)
    requires ParseInt(f.familyMembers).None? || ParseInt(f.familyMembers).value <= 0
    ensures IncomePerPerson(f) == NetIncome(f) as real
  {
  }

  /** An empty form counts as a net income of 0, which is "Sangat Layak". */
  lemma EmptyFormEstimate()
    ensures CurrencyFieldsAreDigits(EmptyForm)
    ensures NetIncome(EmptyForm) == 0 && IncomePerPerson(EmptyForm) == 0.0
    ensures GetEligibilityStatus(EmptyForm).status == "Sangat Layak"
  {
  }

  /** Net income is not clamped at zero. */
  lemma NetIncomeMayBeNegative()
    ensures CurrencyFieldsAreDigits(FormData("1", "2", "", "", "1"))
    ensures NetIncome(FormData("1", "2", "", "", "1")) == -1
  {
    assert DecimalValue("1") == 1 && DecimalValue("2") == 2;
  }

  /** `validateForm`: every field, trimmed, is non-empty. */
  predicate ValidateForm(f: FormData) {
    Trim(f.monthlyIncome) != [] && Trim(f.monthlyExpenses) != [] &&
    Trim(f.electricityBill) != [] && Trim(f.propertyTax) != [] &&
    Trim(f.familyMembers) != []
  }

  /** The form validates exactly when every field holds a character that is
      not whitespace. */
  lemma ValidateFormIff(f: FormData)
    ensures ValidateForm(f) <==>
      !AllWhitespace(f.monthlyIncome) && !AllWhitespace(f.monthlyExpenses) &&
      !AllWhitespace(f.electricityBill) && !AllWhitespace(f.propertyTax) &&
      !AllWhitespace(f.familyMembers)
  {
    TrimEmptyIff(f.monthlyIncome);
    TrimEmptyIff(f.monthlyExpenses);
    TrimEmptyIff(f.electricityBill);
    TrimEmptyIff(f.propertyTax);
    TrimEmptyIff(f.familyMembers);
  }

  /** A currency field passes validation exactly when it is non-empty. */
  lemma DigitFieldFilled(s: string)
    requires AllDigits(s)
    ensures Trim(s) != [] <==> s != []
  {
    TrimEmptyIff(s);
    if s != [] {
      assert !IsWhitespace(s[0]);
    }
  }

  datatype SubmitOutcome = Incomplete | TooFewMembers | Accepted

  /** The two guards of `handleSubmit`, in order. `parseInt(...) < 1` is
      false for NaN, so only a readable count below 1 is refused. */
  function SubmitDecision(f: FormData): SubmitOutcome {
    if !ValidateForm(f) then Incomplete
    else if ParseInt(f.familyMembers).Some? && ParseInt(f.familyMembers).value < 1 then TooFewMembers
    else Accepted
  }

  /** A form whose five fields are non-empty digit strings, with a family
      size of at least one, is accepted. */
  lemma FilledFormAccepted(f: FormData)
    requires CurrencyFieldsAreDigits(f) && AllDigits(f.familyMembers)
    requires forall field :: f.Get(field) != []
    requires DecimalValue(f.familyMembers) >= 1
    ensures SubmitDecision(f) == Accepted
  {
    assert f.Get(MonthlyIncome) != [] && f.Get(MonthlyExpenses) != [] && f.Get(ElectricityBill) != [];
    assert f.Get(PropertyTax) != [] && f.Get(FamilyMembers) != [];
    DigitFieldFilled(f.monthlyIncome);
    DigitFieldFilled(f.monthlyExpenses);
    DigitFieldFilled(f.electricityBill);
    DigitFieldFilled(f.propertyTax);
    DigitFieldFilled(f.familyMembers);
    ParseIntDigits(f.familyMembers);
  }

  /** An accepted form whose family size reads as a number divides the net
      income by at least one member. */
  lemma AcceptedDividesByMembers(f: FormData)
    requires CurrencyFieldsAreDigits(f)
    requires SubmitDecision(f) == Accepted && ParseInt(f.familyMembers).Some?
    ensures FamilySize(f) >= 1
    ensures IncomePerPerson(f) == NetIncome(f) as real / FamilySize(f) as real
  {
  }

  /** The amounts of the worked example below, read as round numbers. */
  lemma ExampleAmounts()
    ensures DecimalValue("2500000") == 2500000 && DecimalValue("1800000") == 1800000
    ensures DecimalValue("350000") == 350000 && DecimalValue("150000") == 150000
  {
    assert DecimalValue("2500000") == 2500000 by {
      TrailingZerosValue("25", 5, 10);
      assert "25" + Zeros(5) == "2500000";
    }
    assert DecimalValue("1800000") == 1800000 by {
      TrailingZerosValue("18", 5, 10);
      assert "18" + Zeros(5) == "1800000";
    }
    assert DecimalValue("350000") == 350000 by {
      TrailingZerosValue("35", 4, 10);
      assert "35" + Zeros(4) == "350000";
    }
    assert DecimalValue("150000") == 150000 by {
      TrailingZerosValue("15", 4, 10);
      assert "15" + Zeros(4) == "150000";
    }
  }

  /** The worked example: 2,500,000 - 1,800,000 - 350,000 - 150,000 =
      200,000 for four people, 50,000 each, "Sangat Layak". */
  lemma WorkedExample()
    ensures CurrencyFieldsAreDigits(FormData("2500000", "1800000", "350000", "150000", "4"))
    ensures NetIncome(FormData("2500000", "1800000", "350000", "150000", "4")) == 200000
    ensures IncomePerPerson(FormData("2500000", "1800000", "350000", "150000", "4")) == 50000.0
    ensures GetEligibilityStatus(FormData("2500000", "1800000", "350000", "150000", "4")).status == "Sangat Layak"
  {
    var f := FormData("2500000", "1800000", "350000", "150000", "4");
    ExampleAmounts();
    ParseIntDigits("4");
    assert DecimalValue("4") == 4;
    assert FamilySize(f) == 4;
  }

  /** The page's state: the form and the two submission flags. */
  class SubsidyApplicationPage {
    var formData: FormData
    var isSubmitting: bool
    var isSubmitted: bool

    predicate Valid()
      reads this
    {
      CurrencyFieldsAreDigits(formData)
    }

    constructor ()
      ensures Valid()
      ensures formData == EmptyForm && !isSubmitting && !isSubmitted
    {
      formData := EmptyForm;
      isSubmitting := false;
      isSubmitted := false;
    }

    /** `handleInputChange`, wired to the family-members field; a currency
        field may only receive digits, as its own handler guarantees. */
    method HandleInputChange(field: Field, value: string)
      requires Valid()
      requires IsCurrency(field) ==> AllDigits(value)
      modifies this
      ensures Valid()
      ensures formData == old(formData).With(field, value)
      ensures isSubmitting == old(isSubmitting) && isSubmitted == old(isSubmitted)
    {
      formData := formData.With(field, value);
    }

    /** `handleCurrencyInput`: store the digits of the typed text. */
    method HandleCurrencyInput(field: Field, value: string)
      requires Valid()
      modifies this
      ensures Valid()
      ensures formData == old(formData).With(field, KeepDigits(value))
      ensures isSubmitting == old(isSubmitting) && isSubmitted == old(isSubmitted)
    {
      formData := formData.With(field, KeepDigits(value));
    }

    /** `handleSubmit` up to the start of the simulated request: a refused
        form changes nothing. */
    method HandleSubmit() returns (outcome: SubmitOutcome)
      requires Valid()
      modifies this
      ensures Valid()
      ensures outcome == SubmitDecision(formData)
      ensures formData == old(formData) && isSubmitted == old(isSubmitted)
      ensures isSubmitting == (outcome == Accepted || old(isSubmitting))
    {
      outcome := SubmitDecision(formData);
      if outcome == Accepted {
        isSubmitting := true;
      }
    }

    /** The first timer callback: the request has "completed". */
    method FinishSubmission()
      requires Valid()
      modifies this
      ensures Valid()
      ensures !isSubmitting && isSubmitted && formData == old(formData)
    {
      isSubmitting := false;
      isSubmitted := true;
    }

    /** The second timer callback: clear the form and the success screen. */
    method ResetAfterSubmission()
      modifies this
      ensures Valid()
      ensures formData == EmptyForm && !isSubmitted && isSubmitting == old(isSubmitting)
    {
      formData := EmptyForm;
      isSubmitted := false;
    }

    /** A whole submission with both callbacks run: an accepted form ends
        empty with both flags down; a refused one leaves everything as it
        was. */
    method SubmitAndComplete() returns (outcome: SubmitOutcome)
      requires Valid()
      modifies this
      ensures Valid()
      ensures outcome == SubmitDecision(old(formData))
      ensures outcome == Accepted ==> formData == EmptyForm && !isSubmitting && !isSubmitted
      ensures outcome != Accepted ==>
        formData == old(formData) && isSubmitting == old(isSubmitting) && isSubmitted == old(isSubmitted)
    {
      outcome := HandleSubmit();
      if outcome == Accepted {
        FinishSubmission();
        ResetAfterSubmission();
      }
    }
  }
}
