// The category management page (app/categories/page.tsx): the list loaded
// from local storage or the defaults, written back whenever it changes and
// is non-empty, the tab filter, add and edit through one form, and the
// two-click delete.
module CategoriesPage {
  import opened Wrappers
  import opened Text
  import opened Seqs
  import opened Records
  import opened ExcelParser

  const DefaultColor := "#6366f1"

  /** The names of the default categories, twenty expense names then four income names. */
  const DefaultNames: seq<string> := [
    "Ăn uống", "Nấu ăn/siêu thị", "Mua sắm", "Sức khoẻ", "Hoá đơn (ĐT, net, cc...)", "Trả nợ",
    "Đi lại: Đổ xăng", "Đi lại: Taxi", "Đi lại: Thuê xe", "Đi lại: Sửa xe", "Làm đẹp",
    "Tiệc tùng/vui chơi", "Thú cưng", "Học tập", "Làm việc", "Quà tặng", "Tiền học kitty",
    "Bảo hiểm", "Sửa nhà", "Du lịch",
    "Lương tháng", "Freelancer", "Được tặng", "Khoản thu khác"]

  const DefaultColors: seq<string> := [
    "#ef4444", "#f97316", "#ec4899", "#22c55e", "#3b82f6", "#a855f7", "#eab308", "#f59e0b",
    "#fbbf24", "#a1a1aa", "#f472b6", "#8b5cf6", "#84cc16", "#06b6d4", "#6366f1", "#d946ef",
    "#14b8a6", "#64748b", "#78716c", "#0ea5e9",
    "#22c55e", "#10b981", "#34d399", "#6ee7b7"]

  /** DEFAULT_CATEGORIES: the i-th entry has ID i + 1. */
  function DefaultCategories(): seq<Category>
  {
    seq(24, i requires 0 <= i < 24 =>
      Category(NatToString(i + 1), DefaultNames[i], if i < 20 then Expense else Income, DefaultColors[i]))
  }

  predicate IsExpenseCategory(c: Category) { c.kind == Expense }
  predicate IsIncomeCategory(c: Category) { c.kind == Income }

  /** No two entries share an ID. */
  lemma NumberTextsDiffer(a: nat, b: nat)
    requires a != b
    ensures NatToString(a) != NatToString(b)
  {
    NatToStringValue(a);
    NatToStringValue(b);
  }

  /** The defaults: 24 entries with distinct IDs. */
  lemma DefaultIdsDistinct()
    ensures |DefaultCategories()| == 24
    ensures forall i, j :: 0 <= i < j < 24 ==> DefaultCategories()[i].id != DefaultCategories()[j].id
  {
    forall i, j | 0 <= i < j < 24 ensures DefaultCategories()[i].id != DefaultCategories()[j].id {
      NumberTextsDiffer(i + 1, j + 1);
    }
  }

  /** The first 20 defaults are the expense categories and the last 4 the income ones. */
  lemma DefaultKinds()
    ensures Filter(DefaultCategories(), IsExpenseCategory) == DefaultCategories()[..20]
    ensures Filter(DefaultCategories(), IsIncomeCategory) == DefaultCategories()[20..]
    ensures |Filter(DefaultCategories(), IsExpenseCategory)| == 20 && |Filter(DefaultCategories(), IsIncomeCategory)| == 4
  {
    var d := DefaultCategories();
    assert d == d[..20] + d[20..];
    FilterAppend(d[..20], d[20..], IsExpenseCategory);
    FilterAll(d[..20], IsExpenseCategory);
    FilterNone(d[20..], IsExpenseCategory);
    FilterAppend(d[..20], d[20..], IsIncomeCategory);
    FilterNone(d[..20], IsIncomeCategory);
    FilterAll(d[20..], IsIncomeCategory);
  }

  /** The first load: the stored list, or the defaults when nothing is stored or it fails to parse. */
  function Loaded(stored: StoredList): (r: seq<Category>)
    ensures stored.ParsedList? ==> r == stored.categories
    ensures !stored.ParsedList? ==> r == DefaultCategories()
  {
    if stored.ParsedList? then stored.categories else DefaultCategories()
  }

  /** The save effect: a non-empty list is written back, an empty one is not. */
  function Persisted(stored: StoredList, categories: seq<Category>): (r: StoredList)
    ensures |categories| > 0 ==> r == ParsedList(categories)
    ensures |categories| == 0 ==> r == stored
  {
    if |categories| > 0 then ParsedList(categories) else stored
  }

  /** A non-empty list survives a reload unchanged; an empty one is never written. */
  lemma PersistThenLoad(stored: StoredList, categories: seq<Category>)
    ensures |categories| > 0 ==> Loaded(Persisted(stored, categories)) == categories
    ensures |categories| == 0 ==> Loaded(Persisted(stored, categories)) == Loaded(stored)
  {
  }

  /** `c.type === activeTab`. */
  function OfTab(tab: TxType): Category -> bool { (c: Category) => c.kind == tab }

  /** `c.id !== id`. */
  function OtherThan(id: string): Category -> bool { (c: Category) => c.id != id }

  /** The category form's fields. */
  datatype CategoryForm = CategoryForm(name: string, kind: TxType, color: string)

  const EmptyForm: CategoryForm := CategoryForm("", Expense, DefaultColor)

  /** The edit: every category with the edited ID takes the form's name, type and colour; the rest are untouched. */
  function Edited(categories: seq<Category>, id: string, form: CategoryForm): (r: seq<Category>)
    ensures |r| == |categories|
    ensures forall i :: 0 <= i < |r| ==> r[i].id == categories[i].id
    ensures forall i :: 0 <= i < |r| && categories[i].id != id ==> r[i] == categories[i]
  {
    seq(|categories|, i requires 0 <= i < |categories| =>
      if categories[i].id == id then categories[i].(name := form.name, kind := form.kind, color := form.color)
      else categories[i])
  }

  /** After an edit the categories with that ID carry the form's fields. */
  lemma EditedFacts(categories: seq<Category>, id: string, form: CategoryForm)
    ensures forall i :: 0 <= i < |categories| && categories[i].id == id ==>
      var c := Edited(categories, id, form)[i];
      c.name == form.name && c.kind == form.kind && c.color == form.color
    ensures forall c :: c in Edited(categories, id, form) && c.id != id ==> c in categories
  {
    var r := Edited(categories, id, form);
    forall c | c in r && c.id != id ensures c in categories {
      var i :| 0 <= i < |r| && r[i] == c;
    }
  }

  /** A delete leaves exactly the categories with another ID, in order. */
  lemma DeleteFacts(categories: seq<Category>, id: string)
    ensures var kept := Filter(categories, OtherThan(id));
      (forall c :: c in kept <==> c in categories && c.id != id)
      && IsSubsequence(kept, categories)
  {
    var kept := Filter(categories, OtherThan(id));
    FilterMembers(categories, OtherThan(id));
    FilterSubsequence(categories, OtherThan(id));
    forall c | c in kept ensures c in categories && c.id != id {
      var i :| 0 <= i < |kept| && kept[i] == c;
    }
  }

  lemma TabFacts(categories: seq<Category>, tab: TxType)
    ensures var r := Filter(categories, OfTab(tab));
      (forall c :: c in r <==> c in categories && c.kind == tab) && IsSubsequence(r, categories)
  {
    var r := Filter(categories, OfTab(tab));
    FilterMembers(categories, OfTab(tab));
    FilterSubsequence(categories, OfTab(tab));
    forall c | c in r ensures c in categories && c.kind == tab {
      var i :| 0 <= i < |r| && r[i] == c;
    }
  }

  class CategoriesPageState {
    var categories: seq<Category>
    var activeTab: TxType
    var showForm: bool
    var editingCategory: Option<Category>
    var formData: CategoryForm
    /** The ID clicked once for deletion, if any. */
    var deleteConfirm: Option<string>
    /** Local storage under the category key. */
    var stored: StoredList

    /** The page after its load effect and the save effect that follows it. */
    constructor (stored: StoredList)
      ensures categories == Loaded(stored) && this.stored == Persisted(stored, Loaded(stored))
      ensures activeTab == Expense && !showForm && editingCategory == None && formData == EmptyForm
      ensures deleteConfirm == None
    {
      categories := Loaded(stored);
      this.stored := Persisted(stored, Loaded(stored));
      activeTab := Expense;
      showForm := false;
      editingCategory := None;
      formData := EmptyForm;
      deleteConfirm := None;
    }

    /** filteredCategories: the categories of the active tab's type. */
    function FilteredCategories(): (r: seq<Category>)
      reads this
      ensures forall c :: c in r <==> c in categories && c.kind == activeTab
      ensures IsSubsequence(r, categories)
    {
      TabFacts(categories, activeTab);
      Filter(categories, OfTab(activeTab))
    }

    method SetActiveTab(tab: TxType)
      modifies this
      ensures activeTab == tab
      ensures categories == old(categories) && stored == old(stored) && showForm == old(showForm)
      ensures editingCategory == old(editingCategory) && formData == old(formData) && deleteConfirm == old(deleteConfirm)
    {
      activeTab := tab;
    }

    /**
     * handleSubmit: the edited category's fields replaced (same length) or
     * a new one appended with the given ID (one longer); then the form
     * closes and resets, and the list is saved.
     */
    method HandleSubmit(newId: string)
      modifies this
      ensures old(editingCategory).Some? ==> categories == Edited(old(categories), old(editingCategory).value.id, old(formData))
      ensures old(editingCategory).None? ==>
        categories == old(categories) + [Category(newId, old(formData).name, old(formData).kind, old(formData).color)]
      ensures stored == Persisted(old(stored), categories)
      ensures !showForm && editingCategory == None && formData == EmptyForm
      ensures activeTab == old(activeTab) && deleteConfirm == old(deleteConfirm)
    {
      if editingCategory.Some? {
        categories := Edited(categories, editingCategory.value.id, formData);
      } else {
        categories := categories + [Category(newId, formData.name, formData.kind, formData.color)];
      }
      stored := Persisted(stored, categories);
      showForm := false;
      editingCategory := None;
      formData := EmptyForm;
    }

    method HandleEdit(c: Category)
      modifies this
      ensures editingCategory == Some(c) && formData == CategoryForm(c.name, c.kind, c.color) && showForm
      ensures categories == old(categories) && stored == old(stored)
      ensures activeTab == old(activeTab) && deleteConfirm == old(deleteConfirm)
    {
      editingCategory := Some(c);
      formData := CategoryForm(c.name, c.kind, c.color);
      showForm := true;
    }

    /**
     * handleDelete: a click on the ID already marked removes its categories
     * and clears the mark; a click on any other ID only marks that one.
     */
    method HandleDelete(id: string)
      modifies this
      ensures old(deleteConfirm) == Some(id) ==>
        categories == Filter(old(categories), OtherThan(id)) && deleteConfirm == None
        && stored == Persisted(old(stored), categories)
      ensures old(deleteConfirm) != Some(id) ==>
        categories == old(categories) && deleteConfirm == Some(id) && stored == old(stored)
      ensures activeTab == old(activeTab) && showForm == old(showForm)
      ensures editingCategory == old(editingCategory) && formData == old(formData)
    {
      if deleteConfirm == Some(id) {
        categories := Filter(categories, OtherThan(id));
        stored := Persisted(stored, categories);
        deleteConfirm := None;
      } else {
        deleteConfirm := Some(id);
      }
    }

    /** handleAddNew: an empty form preset to the active tab's type. */
    method HandleAddNew()
      modifies this
      ensures editingCategory == None && formData == CategoryForm("", activeTab, DefaultColor) && showForm
      ensures categories == old(categories) && stored == old(stored)
      ensures activeTab == old(activeTab) && deleteConfirm == old(deleteConfirm)
    {
      editingCategory := None;
      formData := CategoryForm("", activeTab, DefaultColor);
      showForm := true;
    }

    /** The type buttons, the name field and the colour pickers replace the form's fields. */
    method SetFormData(form: CategoryForm)
      modifies this
      ensures formData == form
      ensures categories == old(categories) && stored == old(stored) && showForm == old(showForm)
      ensures activeTab == old(activeTab) && editingCategory == old(editingCategory) && deleteConfirm == old(deleteConfirm)
    {
      formData := form;
    }

    /** The backdrop and the cancel button close the form; the edit target and the fields stay. */
    method CloseForm()
      modifies this
      ensures !showForm
      ensures categories == old(categories) && stored == old(stored) && formData == old(formData)
      ensures activeTab == old(activeTab) && editingCategory == old(editingCategory) && deleteConfirm == old(deleteConfirm)
    {
      showForm := false;
    }

    /** The three-second timer after a first delete click clears the mark, whichever ID it now holds. */
    method DeleteConfirmExpired()
      modifies this
      ensures deleteConfirm == None
      ensures categories == old(categories) && stored == old(stored) && showForm == old(showForm)
      ensures activeTab == old(activeTab) && editingCategory == old(editingCategory) && formData == old(formData)
    {
      deleteConfirm := None;
    }
  }
}
