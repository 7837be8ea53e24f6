// The add/edit transaction form (components/transactions/TransactionForm.tsx):
// the category lists per type, the last selections remembered in local
// storage, the amount field's formatting and parsing, and the form state
// with its submit guard.
module TransactionForm {
  import opened Wrappers
  import opened Text
  import opened Calendar
  import opened Seqs
  import opened Records
  import SheetCells

  /** The four income category names, in their order on the form. */
  const IncomeCategories: seq<string> := ["Lương tháng", "Freelancer", "Được tặng", "Khoản thu khác"]

  const DefaultExpenseCategory := "Ăn uống"
  const DefaultIncomeCategory := "Lương tháng"

  predicate NotIncomeCategory(c: string) { c !in IncomeCategories }

  /** getCategoriesForType: the four income names, or the category list without them. */
  function CategoriesForType(kind: TxType): seq<string>
  {
    if kind == Income then IncomeCategories else Filter(Categories, NotIncomeCategory)
  }

  /**
   * The expense list keeps the order of the category list; the two lists
   * share no name and between them hold every name of the category list
   * and no other.
   */
  lemma CategoryListsFacts()
    ensures IsSubsequence(CategoriesForType(Expense), Categories)
    ensures forall c :: c in CategoriesForType(Income) ==> c !in CategoriesForType(Expense)
    ensures forall c :: c in Categories <==> c in CategoriesForType(Income) || c in CategoriesForType(Expense)
  {
    FilterSubsequence(Categories, NotIncomeCategory);
    IncomeNamesListed();
    ExpenseNamesListed();
  }

  lemma IncomeNamesListed()
    ensures forall c :: c in IncomeCategories ==> c in Categories
  {
    assert Categories[17] == IncomeCategories[0];
    assert Categories[12] == IncomeCategories[1];
    assert Categories[18] == IncomeCategories[2];
    assert Categories[23] == IncomeCategories[3];
  }

  lemma ExpenseNamesListed()
    ensures forall c :: c in CategoriesForType(Expense) <==> c in Categories && c !in IncomeCategories
  {
    var e := CategoriesForType(Expense);
    FilterMembers(Categories, NotIncomeCategory);
    forall c | c in e ensures c in Categories && c !in IncomeCategories {
      var i :| 0 <= i < |e| && e[i] == c;
    }
    forall c | c in Categories && c !in IncomeCategories ensures c in e {
      var i :| 0 <= i < |Categories| && Categories[i] == c;
    }
  }

  /** What local storage holds under the three last-selection keys (None for a missing key). */
  datatype LastSelections = LastSelections(date: Option<string>, category: Option<string>, kind: Option<string>)

  function TypeName(kind: TxType): string { if kind == Income then "income" else "expense" }

  /** getLastCategory: the saved category if it is non-empty and was saved with this type, else the type's default. */
  function LastCategory(saved: LastSelections, kind: TxType): (r: string)
    ensures r != ""
  {
    if saved.category.Some? && saved.category.value != "" && saved.kind == Some(TypeName(kind)) then saved.category.value
    else if kind == Expense then DefaultExpenseCategory
    else DefaultIncomeCategory
  }

  /** getLastType: the saved type if it is one of the two names, else expense. */
  function LastType(saved: LastSelections): (r: TxType)
    ensures r == Income <==> saved.kind == Some("income")
  {
    if saved.kind == Some("income") then Income else Expense
  }

  /** getLastDate: the saved date text if there is one, else today's (given). */
  function LastDate(saved: LastSelections, today: string): (r: string)
    ensures saved.date.Some? && saved.date.value != "" ==> r == saved.date.value
    ensures (saved.date.None? || saved.date.value == "") ==> r == today
  {
    if saved.date.Some? && saved.date.value != "" then saved.date.value else today
  }

  /**
   * The saved category is used exactly when it is non-empty and its type
   * matches; with no usable saved category the default is the type's own,
   * which is on that type's list.
   */
  lemma LastCategoryFacts(saved: LastSelections, kind: TxType)
    ensures !(saved.category.Some? && saved.category.value != "" && saved.kind == Some(TypeName(kind)))
            ==> LastCategory(saved, kind) in CategoriesForType(kind)
  {
    FilterMembers(Categories, NotIncomeCategory);
    assert Categories[0] == DefaultExpenseCategory;
    assert IncomeCategories[0] == DefaultIncomeCategory;
  }

  /** The category chosen when the type changes: the saved one if it is on the new list, else the list's first. */
  function SwitchedCategory(saved: LastSelections, kind: TxType): string
  {
    var cats := CategoriesForType(kind);
    var s := LastCategory(saved, kind);
    if s in cats then s else cats[0]
  }

  /** After a type switch the category is always on the new type's list. */
  lemma SwitchedCategoryOnList(saved: LastSelections, kind: TxType)
    ensures SwitchedCategory(saved, kind) in CategoriesForType(kind)
    ensures LastCategory(saved, kind) in CategoriesForType(kind) ==> SwitchedCategory(saved, kind) == LastCategory(saved, kind)
  {
    FilterMembers(Categories, NotIncomeCategory);
    assert Categories[0] in CategoriesForType(Expense);
  }

  /** toLocaleString('vi-VN') of a whole number: its digits grouped in threes by dots. */
  function Grouped(n: nat): string { GroupThousands(NatToString(n)) }

  /** formatAmountInput: the digits of the input, read as a number and grouped; '' when there are none. */
  function FormatAmountInput(value: string): (r: string)
    ensures KeepDigits(value) == "" <==> r == ""
  {
    var numericValue := KeepDigits(value);
    if numericValue == "" then "" else Grouped(DigitsValue(numericValue))
  }

  /** parseAmount: dots and commas removed, the leading number read; no number, or zero, is 0. */
  function ParseAmount(amount: string): int
  {
    match LeadingInt(RemoveChar(RemoveChar(amount, '.'), ','))
    case None => 0
    case Some(n) => n
  }

  lemma KeepDigitsOfGrouped(d: string)
    requires AllDigits(d)
    ensures KeepDigits(GroupThousands(d)) == d
  {
    var g := GroupThousands(d);
    SheetCells.GroupedChars(d);
    GroupedDigitsOrDots(g);
    UngroupThousands(d);
  }

  lemma {:induction false} GroupedDigitsOrDots(s: string)
    requires forall i :: 0 <= i < |s| ==> IsDigit(s[i]) || s[i] == '.'
    ensures KeepDigits(s) == RemoveChar(s, '.')
  {
    if |s| > 0 {
      GroupedDigitsOrDots(s[..|s| - 1]);
    }
  }

  /**
   * The amount a formatted field parses back to is the number its digits
   * spelled, and formatting a formatted field again changes nothing.
   */
  lemma FormatThenParse(value: string)
    ensures ParseAmount(FormatAmountInput(value)) == if KeepDigits(value) == "" then 0 else DigitsValue(KeepDigits(value))
    ensures FormatAmountInput(FormatAmountInput(value)) == FormatAmountInput(value)
  {
    var digits := KeepDigits(value);
    if digits != "" {
      var n := DigitsValue(digits);
      GroupedParse(n);
      KeepDigitsOfGrouped(NatToString(n));
      NatToStringValue(n);
    } else {
      assert RemoveChar(RemoveChar("", '.'), ',') == "" by { RemoveCharAbsent("", '.'); RemoveCharAbsent("", ','); }
    }
  }

  /** A grouped whole number parses back to itself: the amount shown when editing reads as the stored amount. */
  lemma GroupedParse(n: nat)
    ensures ParseAmount(Grouped(n)) == n
  {
    var d := NatToString(n);
    UngroupThousands(d);
    forall i | 0 <= i < |d| ensures d[i] != ',' { assert IsDigit(d[i]); }
    RemoveCharAbsent(d, ',');
    LeadingIntOfNatToString(n);
  }

  /** The form's fields, the amount as the text shown. */
  datatype FormData = FormData(kind: TxType, amount: string, category: string, date: string, description: string)

  /** The key of the field updateFormData changes. */
  datatype Field = TypeField | AmountField | CategoryField | DateField | DescriptionField

  /** The form's initial fields: the edited transaction's, or the last selections with an empty amount. */
  function InitialForm(transaction: Option<Transaction>, saved: LastSelections, today: string, isoDay: Date -> string): (f: FormData)
    ensures transaction.None? ==> f.amount == "" && f.description == "" && f.category == LastCategory(saved, f.kind)
    ensures transaction.Some? ==> ParseAmount(f.amount) == transaction.value.amount
  {
    match transaction
    case Some(t) =>
      GroupedParse(t.amount);
      FormData(t.kind, Grouped(t.amount), t.category, isoDay(t.date), t.description)
    case None =>
      var lastType := LastType(saved);
      FormData(lastType, "", LastCategory(saved, lastType), LastDate(saved, today), "")
  }

  /** updateFormData: the field takes the value; a type change also picks the category, an amount is formatted. */
  function UpdatedForm(prev: FormData, field: Field, value: string, saved: LastSelections): (f: FormData)
    requires field == TypeField ==> value == "income" || value == "expense"
    ensures field == TypeField ==> f.kind == (if value == "income" then Income else Expense)
                                   && f.category in CategoriesForType(f.kind)
    ensures field != TypeField ==> f.kind == prev.kind
    ensures field == AmountField ==> f.amount == FormatAmountInput(value)
    ensures field != AmountField ==> f.amount == prev.amount
    ensures field == CategoryField ==> f.category == value
    ensures field != CategoryField && field != TypeField ==> f.category == prev.category
    ensures f.date == (if field == DateField then value else prev.date)
    ensures f.description == (if field == DescriptionField then value else prev.description)
  {
    match field
    case TypeField =>
      var kind := if value == "income" then Income else Expense;
      SwitchedCategoryOnList(saved, kind);
      prev.(kind := kind, category := SwitchedCategory(saved, kind))
    case AmountField => prev.(amount := FormatAmountInput(value))
    case CategoryField => prev.(category := value)
    case DateField => prev.(date := value)
    case DescriptionField => prev.(description := value)
  }

  class TransactionFormState {
    var formData: FormData
    /** Local storage under the last-selection keys. */
    var saved: LastSelections
    /** The drafts handed to onSubmit so far. */
    var submitted: seq<TransactionDraft>
    /** Whether onCancel has been called. */
    var closed: bool

    constructor (transaction: Option<Transaction>, saved: LastSelections, today: string, isoDay: Date -> string)
      ensures formData == InitialForm(transaction, saved, today, isoDay)
      ensures this.saved == saved && submitted == [] && !closed
    {
      formData := InitialForm(transaction, saved, today, isoDay);
      this.saved := saved;
      submitted := [];
      closed := false;
    }

    method UpdateFormData(field: Field, value: string)
      requires field == TypeField ==> value == "income" || value == "expense"
      modifies this
      ensures formData == UpdatedForm(old(formData), field, value, saved)
      ensures saved == old(saved) && submitted == old(submitted) && closed == old(closed)
    {
      formData := UpdatedForm(formData, field, value, saved);
    }

    /** The backdrop or the close button: onCancel, and nothing else. */
    method Cancel()
      modifies this
      ensures closed
      ensures formData == old(formData) && saved == old(saved) && submitted == old(submitted)
    {
      closed := true;
    }

    /**
     * handleSubmit: an amount that parses to 0 or less stops everything
     * (nothing saved, nothing submitted); otherwise the selections are
     * saved, the draft is submitted once and the form closes.
     */
    method HandleSubmit(dateOf: string -> Date) returns (accepted: bool)
      modifies this
      ensures accepted <==> ParseAmount(old(formData).amount) > 0
      ensures !accepted ==> saved == old(saved) && submitted == old(submitted) && closed == old(closed)
      ensures accepted ==>
        var f := old(formData);
        saved == LastSelections(Some(f.date), Some(f.category), Some(TypeName(f.kind)))
        && submitted == old(submitted) + [TransactionDraft(dateOf(f.date), ParseAmount(f.amount) as nat, f.category, f.description, f.kind)]
        && closed
      ensures formData == old(formData)
    {
      var amount := ParseAmount(formData.amount);
      if amount <= 0 {
        return false;
      }
      saved := LastSelections(Some(formData.date), Some(formData.category), Some(TypeName(formData.kind)));
      submitted := submitted + [TransactionDraft(dateOf(formData.date), amount as nat, formData.category, formData.description, formData.kind)];
      closed := true;
      accepted := true;
    }
  }
}
