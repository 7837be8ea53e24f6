// The savings form (components/savings/SavingForm.tsx): the amount shown
// with dots between groups of three digits while the raw digits are kept,
// and the submit guard with its `submitting` flag.
module SavingForm {
  import opened Wrappers
  import opened Text
  import opened Calendar
  import opened Records
  import TransactionForm

  /** formatVND: the digits of the input, leading zeros kept, with a dot before every later group of three; '' when there are none. */
  function FormatVnd(value: string): (r: string)
    ensures KeepDigits(value) == "" <==> r == ""
  {
    var num := KeepDigits(value);
    if num == "" then "" else GroupThousands(num)
  }

  /**
   * Up to three digits are shown as they are; more have the shape
   * ^\d{1,3}(\.\d{3})+$; deleting the dots gives back exactly the digits
   * of the input, and formatting the shown text again changes nothing.
   */
  lemma FormatVndFacts(value: string)
    ensures |KeepDigits(value)| <= 3 ==> FormatVnd(value) == KeepDigits(value)
    ensures |KeepDigits(value)| > 3 ==> IsDotGrouped(FormatVnd(value))
    ensures RemoveChar(FormatVnd(value), '.') == KeepDigits(value)
    ensures FormatVnd(FormatVnd(value)) == FormatVnd(value)
  {
    var num := KeepDigits(value);
    UngroupThousands(num);
    if |num| > 3 {
      GroupedShape(num);
    }
    if num != "" {
      TransactionForm.KeepDigitsOfGrouped(num);
    } else {
      assert KeepDigits("") == "";
      RemoveCharAbsent("", '.');
    }
  }

  /** Formatting the digits of an input is formatting the input. */
  lemma FormatVndOfDigits(value: string)
    ensures FormatVnd(KeepDigits(value)) == FormatVnd(value)
  {
    KeepDigitsOfDigits(KeepDigits(value));
  }

  /** A call made to onSubmit: the draft, and whether `submitting` was set while it ran. */
  datatype SubmitCall = SubmitCall(data: SavingDraft, submitting: bool)

  class SavingFormState {
    var date: string
    /** The raw digits of the amount. */
    var amount: string
    /** The amount as shown. */
    var displayAmount: string
    var note: string
    var kind: SavingType
    var submitting: bool
    /** The calls made to onSubmit so far, oldest first. */
    var calls: seq<SubmitCall>

    /** The amount shown is always the formatted raw digits. */
    predicate Valid()
      reads this
    {
      AllDigits(amount) && displayAmount == FormatVnd(amount)
    }

    /**
     * The form as its effect fills it: from the saving being edited, or
     * with today's date (given) and everything else empty for a new one.
     */
    constructor (saving: Option<SavingTransaction>, today: string, isoDay: Date -> string)
      ensures Valid() && !submitting && calls == []
      ensures saving.Some? ==> date == isoDay(saving.value.date) && amount == NatToString(saving.value.amount)
                               && note == saving.value.note && kind == saving.value.kind
      ensures saving.None? ==> date == today && amount == "" && displayAmount == "" && note == "" && kind == Deposit
    {
      if saving.Some? {
        var s := saving.value;
        date := isoDay(s.date);
        amount := NatToString(s.amount);
        displayAmount := FormatVnd(NatToString(s.amount));
        note := s.note;
        kind := s.kind;
        KeepDigitsOfDigits(NatToString(s.amount));
      } else {
        date := today;
        amount := "";
        displayAmount := "";
        note := "";
        kind := Deposit;
      }
      submitting := false;
      calls := [];
    }

    /** handleAmountChange: the digits typed are kept raw and shown formatted. */
    method HandleAmountChange(value: string)
      modifies this
      ensures Valid()
      ensures amount == KeepDigits(value) && displayAmount == FormatVnd(value)
      ensures date == old(date) && note == old(note) && kind == old(kind)
      ensures submitting == old(submitting) && calls == old(calls)
    {
      var raw := KeepDigits(value);
      amount := raw;
      displayAmount := FormatVnd(raw);
      FormatVndOfDigits(value);
    }

    /**
     * handleSubmit: with an empty amount or date nothing happens;
     * otherwise onSubmit is called once with `submitting` set, and the flag
     * is cleared afterwards whether or not the call failed (a failure is
     * passed on to the caller).
     */
    method HandleSubmit(dateOf: string -> Date, fails: bool) returns (called: bool, raised: bool)
      requires Valid()
      modifies this
      ensures called <==> old(amount) != "" && old(date) != ""
      ensures !called ==> !raised && calls == old(calls) && submitting == old(submitting)
      ensures called ==> raised == fails && !submitting
      ensures called ==> calls == old(calls) + [SubmitCall(SavingDraft(dateOf(old(date)), DigitsValue(old(amount)), old(note), old(kind)), true)]
      ensures Valid() && date == old(date) && amount == old(amount) && displayAmount == old(displayAmount)
      ensures note == old(note) && kind == old(kind)
    {
      if amount == "" || date == "" {
        return false, false;
      }
      submitting := true;
      calls := calls + [SubmitCall(SavingDraft(dateOf(date), DigitsValue(amount), note, kind), submitting)];
      submitting := false;
      called, raised := true, fails;
    }
  }

  /** The amount submitted for a saving being edited is the saving's own amount. */
  lemma EditedAmountKept(s: SavingTransaction)
    ensures DigitsValue(NatToString(s.amount)) == s.amount
    ensures FormatVnd(NatToString(s.amount)) == GroupThousands(NatToString(s.amount))
  {
    NatToStringValue(s.amount);
    KeepDigitsOfDigits(NatToString(s.amount));
  }
}
