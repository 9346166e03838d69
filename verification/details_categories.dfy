/** The category select of the transaction editor: custom categories listed before the default
    ones, the `custom_` value prefix and its removal on submit, and the icon lookup of the list. */
module DetailsCategories {
  import opened Wrappers
  import opened Strings

  const CustomPrefix := "custom_"
  const IncomeIcon := "/icons/incomeColor.svg"
  const ExpenseIcon := "/icons/expensesColor.svg"

  datatype Language = Pt | En

  /** A custom category as the categories endpoint returns it. */
  datatype CustomCategory = CustomCategory(
    id: string, name: string, nameEn: Option<string>, icon: string, catType: string)

  /** One entry of the category select; `value` is what the edit form submits. The caption of a
      default option is its translation key: the translation table is outside the model. */
  datatype CategoryOption = CategoryOption(value: string, caption: string, icon: string)

  /** The options offered for each transaction type. */
  datatype OptionTable = OptionTable(income: seq<CategoryOption>, expense: seq<CategoryOption>)

  /** `v.startsWith('custom_') ? v.replace('custom_', '') : v`. The first occurrence of the
      prefix in such a value is the prefix itself, so only the leading one is removed. */
  function StripCustom(v: string): (r: string)
    ensures StartsWith(v, CustomPrefix) ==> v == CustomPrefix + r
    ensures !StartsWith(v, CustomPrefix) ==> r == v
  {
    if StartsWith(v, CustomPrefix) then v[|CustomPrefix|..] else v
  }

  /** A value whose first letter is not 'c' is left as it is. */
  lemma PlainValue(v: string)
    requires |v| > 0 && v[0] != 'c'
    ensures StripCustom(v) == v
  {
    if |v| >= |CustomPrefix| {
      assert v[..|CustomPrefix|][0] != CustomPrefix[0];
    }
  }

  /** Tagging an id and stripping the tag gives the id back. */
  lemma StripTagged(id: string)
    ensures StripCustom(CustomPrefix + id) == id
  {
    assert (CustomPrefix + id)[..|CustomPrefix|] == CustomPrefix;
    assert (CustomPrefix + id)[|CustomPrefix|..] == id;
  }

  // ---------------------------------------------------------------- options

  function DefaultIncome(): seq<CategoryOption> {
    [CategoryOption("salary", "Salary", IncomeIcon),
     CategoryOption("investment", "Investment", "/icons/investiments.svg"),
     CategoryOption("other", "Other", IncomeIcon)]
  }

  function DefaultExpense(): seq<CategoryOption> {
    [CategoryOption("food", "Food", "/icons/food.svg"),
     CategoryOption("home", "Home", "/icons/house.svg"),
     CategoryOption("education", "Education", "/icons/education.svg"),
     CategoryOption("leisure", "Leisure", "/icons/leisure.svg"),
     CategoryOption("market", "Market", "/icons/market.svg"),
     CategoryOption("clothing", "Clothing", "/icons/clothing.svg"),
     CategoryOption("health", "Health", "/icons/health.svg"),
     CategoryOption("transport", "Transport", "/icons/transport.svg"),
     CategoryOption("travel", "Travel", "/icons/travel.svg"),
     CategoryOption("other", "Other", ExpenseIcon)]
  }

  /** The caption of a custom category: its name in Portuguese, otherwise `nameEn || name`. */
  function Label(c: CustomCategory, lang: Language): string {
    if lang == Pt then c.name else OrElse(c.nameEn, c.name)
  }

  function CustomOption(c: CustomCategory, lang: Language): CategoryOption {
    CategoryOption(CustomPrefix + c.id, Label(c, lang), c.icon)
  }

  /** The custom categories of type `t`, in order, as options. */
  function CustomOptions(cats: seq<CustomCategory>, t: string, lang: Language): (r: seq<CategoryOption>)
    ensures |r| <= |cats|
    ensures forall i :: 0 <= i < |r| ==> StartsWith(r[i].value, CustomPrefix)
    ensures forall o :: o in r ==> exists c :: c in cats && c.catType == t && o == CustomOption(c, lang)
    ensures forall c :: c in cats && c.catType == t ==> CustomOption(c, lang) in r
  {
    if |cats| == 0 then []
    else
      var head := if cats[0].catType == t then [CustomOption(cats[0], lang)] else [];
      assert forall c :: c in cats ==> c == cats[0] || c in cats[1..];
      head + CustomOptions(cats[1..], t, lang)
  }

  /** `loadCategoryOptions`: for each type, that type's custom categories and then its
      defaults. */
  function LoadOptions(cats: seq<CustomCategory>, lang: Language): (r: OptionTable)
    ensures |r.income| >= |DefaultIncome()| && |r.expense| >= |DefaultExpense()|
    ensures r.income[|r.income| - |DefaultIncome()|..] == DefaultIncome()
    ensures r.expense[|r.expense| - |DefaultExpense()|..] == DefaultExpense()
    ensures forall i :: 0 <= i < |r.income| - |DefaultIncome()| ==>
              StartsWith(r.income[i].value, CustomPrefix)
    ensures forall i :: 0 <= i < |r.expense| - |DefaultExpense()| ==>
              StartsWith(r.expense[i].value, CustomPrefix)
    ensures forall c :: c in cats && c.catType == "INCOME" ==> CustomOption(c, lang) in r.income
    ensures forall c :: c in cats && c.catType == "EXPENSE" ==> CustomOption(c, lang) in r.expense
  {
    OptionTable(CustomOptions(cats, "INCOME", lang) + DefaultIncome(),
                CustomOptions(cats, "EXPENSE", lang) + DefaultExpense())
  }

  // ---------------------------------------------------------------- lookup

  /** `options.find(o => strip(o.value) === key)`: the first option whose stripped value is
      `key`. */
  function Find(opts: seq<CategoryOption>, key: string): (r: Option<CategoryOption>)
    ensures r.Some? ==> exists i :: 0 <= i < |opts| && opts[i] == r.value
                          && forall j :: 0 <= j < i ==> StripCustom(opts[j].value) != key
    ensures r.Some? ==> StripCustom(r.value.value) == key
    ensures r.None? <==> forall i :: 0 <= i < |opts| ==> StripCustom(opts[i].value) != key
  {
    if |opts| == 0 then None
    else if StripCustom(opts[0].value) == key then Some(opts[0])
    else
      var r := Find(opts[1..], key);
      assert r.Some? ==> exists i :: 0 <= i < |opts| && opts[i] == r.value
                           && forall j :: 0 <= j < i ==> StripCustom(opts[j].value) != key by {
        if r.Some? {
          var i :| 0 <= i < |opts[1..]| && opts[1..][i] == r.value
                   && forall j :: 0 <= j < i ==> StripCustom(opts[1..][j].value) != key;
          assert opts[i + 1] == r.value;
          assert forall j :: 0 <= j < i + 1 ==> StripCustom(opts[j].value) != key by {
            forall j | 0 <= j < i + 1
              ensures StripCustom(opts[j].value) != key
            {
              if j > 0 {
                assert opts[j] == opts[1..][j - 1];
              }
            }
          }
        }
      }
      assert r.None? ==> forall i :: 0 <= i < |opts| ==> StripCustom(opts[i].value) != key by {
        if r.None? {
          forall i | 0 <= i < |opts|
            ensures StripCustom(opts[i].value) != key
          {
            if i > 0 {
              assert opts[i] == opts[1..][i - 1];
            }
          }
        }
      }
      r
  }

  /** Searching a concatenation searches the first part, then the second. */
  lemma {:induction false} FindAppend(a: seq<CategoryOption>, b: seq<CategoryOption>, key: string)
    ensures Find(a + b, key) == if Find(a, key).Some? then Find(a, key) else Find(b, key)
  {
    if |a| > 0 {
      assert (a + b)[1..] == a[1..] + b;
      FindAppend(a[1..], b, key);
    } else {
      assert a + b == b;
    }
  }

  /** The edit form's initial category: the matching option's value when the stored category
      is some option's id, otherwise the stored category itself. */
  function EditValue(category: string, table: OptionTable): (v: string)
    ensures Find(table.income + table.expense, category).None? ==> v == category
    ensures Find(table.income + table.expense, category).Some? ==>
              v == Find(table.income + table.expense, category).value.value
    ensures StripCustom(v) == category || v == category
  {
    match Find(table.income + table.expense, category)
    case Some(o) => o.value
    case None => category
  }

  /** The category the edit form submits: the value with its `custom_` prefix removed. */
  function SubmitValue(v: string): (r: string)
    ensures |r| <= |v|
    ensures StartsWith(v, CustomPrefix) <==> |r| < |v|
    ensures StartsWith(v, CustomPrefix) ==> v == CustomPrefix + r
    ensures !StartsWith(v, CustomPrefix) ==> r == v
  {
    StripCustom(v)
  }

  /** Opening a stored transaction in the editor and submitting it unchanged stores the same
      category again, for any stored category that does not itself start with the prefix. */
  lemma EditSubmitRoundTrip(category: string, table: OptionTable)
    requires !StartsWith(category, CustomPrefix)
    ensures SubmitValue(EditValue(category, table)) == category
  {
  }

  // ---------------------------------------------------------------- icons

  /** The `categoryIcons` table (its `other` entry is never reached by the lookup). */
  function IconTable(key: string): Option<string> {
    if key == "food" then Some("/icons/food.svg")
    else if key == "home" then Some("/icons/house.svg")
    else if key == "education" then Some("/icons/education.svg")
    else if key == "leisure" then Some("/icons/leisure.svg")
    else if key == "market" then Some("/icons/market.svg")
    else if key == "clothing" then Some("/icons/clothing.svg")
    else if key == "health" then Some("/icons/health.svg")
    else if key == "transport" then Some("/icons/transport.svg")
    else if key == "travel" then Some("/icons/travel.svg")
    else if key == "salary" then Some(IncomeIcon)
    else if key == "investment" then Some("/icons/investiments.svg")
    else if key == "other" then Some(ExpenseIcon)
    else None
  }

  /** The icon of a transaction type: the income icon exactly for INCOME. */
  function TypeIcon(txType: Option<string>): string {
    if txType == Some("INCOME") then IncomeIcon else ExpenseIcon
  }

  /** `getCategoryIcon` as written: the first option of either type whose stripped value is the
      stripped category wins; only then does "other" go by the transaction type; otherwise the
      lowercase table, with the type icon as fallback. */
  function CategoryIcon(category: string, txType: Option<string>, table: OptionTable): (icon: string)
    ensures || icon == TypeIcon(txType)
            || IconTable(ToLower(category)) == Some(icon)
            || exists o :: o in table.income + table.expense && o.icon == icon
    ensures Find(table.income + table.expense, StripCustom(category)).None? ==>
              icon == TypeIcon(txType) || IconTable(ToLower(category)) == Some(icon)
    ensures Find(table.income + table.expense, StripCustom(category)).None? && ToLower(category) == "other" ==>
              icon == TypeIcon(txType)
    ensures Find(table.income + table.expense, StripCustom(category)).None? && ToLower(category) != "other" ==>
              icon == IconTable(ToLower(category)).GetOr(TypeIcon(txType))
  {
    match Find(table.income + table.expense, StripCustom(category))
    case Some(o) => o.icon
    case None =>
      var lower := ToLower(category);
      if lower == "other" then TypeIcon(txType)
      else IconTable(lower).GetOr(TypeIcon(txType))
  }

  lemma FoundIcon(category: string, txType: Option<string>, table: OptionTable)
    requires Find(table.income + table.expense, StripCustom(category)).Some?
    ensures CategoryIcon(category, txType, table)
            == Find(table.income + table.expense, StripCustom(category)).value.icon
  {
  }

  /** A transaction in a custom category shows that category's icon, whichever the language,
      as long as the category's id is not also a default value. */
  lemma CustomIcon(cats: seq<CustomCategory>, lang: Language, c: CustomCategory, txType: Option<string>)
    requires c in cats && (c.catType == "INCOME" || c.catType == "EXPENSE")
    requires forall d :: d in cats && d.id == c.id ==> d.icon == c.icon
    requires forall o :: o in DefaultIncome() + DefaultExpense() ==> StripCustom(o.value) != c.id
    requires !StartsWith(c.id, CustomPrefix)
    ensures CategoryIcon(c.id, txType, LoadOptions(cats, lang)) == c.icon
  {
    var table := LoadOptions(cats, lang);
    var all := table.income + table.expense;
    var own := CustomOption(c, lang);
    StripTagged(c.id);
    assert own in all;
    var found := Find(all, c.id);
    assert found.Some?;
    var o := found.value;
    assert o in all;
    var incomeCustom := CustomOptions(cats, "INCOME", lang);
    var expenseCustom := CustomOptions(cats, "EXPENSE", lang);
    assert all == incomeCustom + DefaultIncome() + expenseCustom + DefaultExpense();
    assert o !in DefaultIncome() + DefaultExpense();
    assert o in incomeCustom || o in expenseCustom;
    var d :| d in cats && o == CustomOption(d, lang);
    StripTagged(d.id);
    FoundIcon(c.id, txType, table);
  }

  /** An EXPENSE transaction in the default category "other" shows the income icon: the income
      default "other" is found before the lookup reaches the type check. */
  lemma OtherExpenseShowsIncomeIcon(cats: seq<CustomCategory>, lang: Language)
    requires forall c :: c in cats ==> c.id != "other"
    ensures CategoryIcon("other", Some("EXPENSE"), LoadOptions(cats, lang)) == IncomeIcon
  {
    var incomeCustom := CustomOptions(cats, "INCOME", lang);
    var expenseCustom := CustomOptions(cats, "EXPENSE", lang);
    var table := LoadOptions(cats, lang);
    PlainValue("other");
    NoCustomIs(incomeCustom, cats, "INCOME", lang, "other");
    assert table.income + table.expense == incomeCustom + (DefaultIncome() + table.expense);
    FindAppend(incomeCustom, DefaultIncome() + table.expense, "other");
    DefaultIncomeFindsOther(table.expense);
  }

  /** No custom option is found under a key that is no custom category's id. */
  lemma NoCustomIs(opts: seq<CategoryOption>, cats: seq<CustomCategory>, t: string, lang: Language,
                   key: string)
    requires opts == CustomOptions(cats, t, lang)
    requires forall c :: c in cats ==> c.id != key
    ensures Find(opts, key).None?
  {
    forall i | 0 <= i < |opts|
      ensures StripCustom(opts[i].value) != key
    {
      assert opts[i] in opts;
      var c :| c in cats && c.catType == t && opts[i] == CustomOption(c, lang);
      StripTagged(c.id);
    }
  }

  lemma DefaultIncomeFindsOther(rest: seq<CategoryOption>)
    ensures Find(DefaultIncome() + rest, "other") == Some(CategoryOption("other", "Other", IncomeIcon))
  {
    var opts := DefaultIncome() + rest;
    PlainValue("salary");
    PlainValue("investment");
    PlainValue("other");
    assert opts[0].value == "salary" && opts[1].value == "investment";
    assert opts[2] == CategoryOption("other", "Other", IncomeIcon);
    assert opts[1..][1..] == opts[2..];
  }

  /** A category that no option's value strips to, such as the caption "Food" of a default
      option, is looked up in the icon table by its lower-case form. */
  lemma CaptionFallsBackToTable(cats: seq<CustomCategory>, lang: Language, txType: Option<string>)
    requires forall c :: c in cats ==> c.id != "Food"
    ensures CategoryIcon("Food", txType, LoadOptions(cats, lang)) == "/icons/food.svg"
  {
    var table := LoadOptions(cats, lang);
    PlainValue("Food");
    NoOptionIsCaption(cats, lang);
    LowerFood();
    assert Find(table.income + table.expense, StripCustom("Food")).None?;
  }

  lemma NoOptionIsCaption(cats: seq<CustomCategory>, lang: Language)
    requires forall c :: c in cats ==> c.id != "Food"
    ensures var table := LoadOptions(cats, lang);
            Find(table.income + table.expense, "Food").None?
  {
    var incomeCustom := CustomOptions(cats, "INCOME", lang);
    var expenseCustom := CustomOptions(cats, "EXPENSE", lang);
    var table := LoadOptions(cats, lang);
    NoCustomIs(incomeCustom, cats, "INCOME", lang, "Food");
    NoCustomIs(expenseCustom, cats, "EXPENSE", lang, "Food");
    DefaultsLackCaption();
    FindNoneAppend(incomeCustom, DefaultIncome(), "Food");
    FindNoneAppend(expenseCustom, DefaultExpense(), "Food");
    FindNoneAppend(table.income, table.expense, "Food");
  }

  lemma FindNoneAppend(a: seq<CategoryOption>, b: seq<CategoryOption>, key: string)
    requires Find(a, key).None? && Find(b, key).None?
    ensures Find(a + b, key).None?
  {
    FindAppend(a, b, key);
  }

  lemma DefaultsLackCaption()
    ensures Find(DefaultIncome(), "Food").None? && Find(DefaultExpense(), "Food").None?
  {
    forall o | o in DefaultIncome() + DefaultExpense()
      ensures StripCustom(o.value) != "Food"
    {
      assert o.value != "Food" && o.value != CustomPrefix + "Food";
    }
  }

  lemma LowerFood()
    ensures ToLower("Food") == "food"
  {
    assert ToLower("Food")[0] == 'f';
  }

  /** The lookup as evidently intended: "other" goes by the transaction type before the option
      search, and every other category is looked up as before. */
  function CategoryIconFixed(category: string, txType: Option<string>, table: OptionTable): (icon: string)
    ensures ToLower(category) == "other" ==> icon == TypeIcon(txType)
    ensures ToLower(category) != "other" ==> icon == CategoryIcon(category, txType, table)
  {
    if ToLower(category) == "other" then TypeIcon(txType) else CategoryIcon(category, txType, table)
  }

  /** With the corrected lookup, "other" shows the expense icon on an EXPENSE transaction and the
      income icon on an INCOME one, whatever options are loaded. */
  lemma OtherFollowsType(cats: seq<CustomCategory>, lang: Language)
    ensures CategoryIconFixed("other", Some("EXPENSE"), LoadOptions(cats, lang)) == ExpenseIcon
    ensures CategoryIconFixed("other", Some("INCOME"), LoadOptions(cats, lang)) == IncomeIcon
  {
    assert ToLower("other") == "other";
  }
}
