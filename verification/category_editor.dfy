/** The custom-category editor: the form, its save guard and the request it sends, editing an
    existing category, resetting, and the split of the list by type. */
module CategoryEditor {
  import opened Wrappers
  import opened Strings
  import CategoriesApi

  /** A category as the editor receives it from the listing. */
  datatype EditorCategory = EditorCategory(
    id: string, name: string, nameEn: Option<string>, icon: string, catType: string)

  datatype FormData = FormData(name: string, nameEn: string, icon: string, catType: string)

  /** The editor: the category being edited, if any, and the form. */
  datatype Editor = Editor(editing: Option<EditorCategory>, form: FormData)

  const DefaultIcon := "/icons/expensesColor.svg"
  const EmptyForm := FormData("", "", DefaultIcon, "EXPENSE")

  /** `resetForm`: nothing is being edited and the form holds its defaults. */
  function ResetForm(): (e: Editor)
    ensures e.editing.None?
    ensures e.form.name == "" && e.form.nameEn == "" && e.form.icon == DefaultIcon
    ensures e.form.catType == "EXPENSE"
  {
    Editor(None, EmptyForm)
  }

  /** `handleEdit`: the category becomes the one being edited and its fields fill the form, the
      English name falling back to the name. */
  function HandleEdit(c: EditorCategory): (e: Editor)
    ensures e.editing == Some(c)
    ensures e.form.name == c.name && e.form.icon == c.icon && e.form.catType == c.catType
    ensures c.nameEn.Some? && c.nameEn.value != "" ==> e.form.nameEn == c.nameEn.value
    ensures c.nameEn.None? || c.nameEn.value == "" ==> e.form.nameEn == c.name
  {
    Editor(Some(c), FormData(c.name, OrElse(c.nameEn, c.name), c.icon, c.catType))
  }

  /** What `handleSave` does first: refuse a blank name, or send the form to the category's own
      path when editing and to the collection otherwise. */
  datatype SaveRequest =
    | NameRequired
    | Put(path: string, body: FormData)
    | Post(path: string, body: FormData)

  function SaveRequestOf(e: Editor): (r: SaveRequest)
    ensures r == NameRequired <==> IsBlank(e.form.name)
    ensures r.Put? <==> !IsBlank(e.form.name) && e.editing.Some?
    ensures r.Put? ==> r.path == "/api/categories/" + e.editing.value.id && r.body == e.form
    ensures r.Post? ==> r.path == "/api/categories" && r.body == e.form
  {
    if IsBlank(e.form.name) then NameRequired
    else if e.editing.Some? then Put("/api/categories/" + e.editing.value.id, e.form)
    else Post("/api/categories", e.form)
  }

  /** The editor after the save: reset when the request was sent and succeeded, unchanged
      otherwise. */
  function AfterSave(e: Editor, succeeded: bool): (r: Editor)
    ensures SaveRequestOf(e) == NameRequired ==> r == e
    ensures SaveRequestOf(e) != NameRequired && succeeded ==> r == ResetForm()
    ensures !succeeded ==> r == e
  {
    if SaveRequestOf(e) != NameRequired && succeeded then ResetForm() else e
  }

  /** The JSON body the endpoint receives from the form. */
  function BodyOf(form: FormData): CategoriesApi.Body {
    CategoriesApi.Body(Some(form.name), Some(form.nameEn), Some(form.icon), Some(form.catType))
  }

  /** A name that is not blank is not empty. */
  lemma NotBlankNotEmpty(s: string)
    requires !IsBlank(s)
    ensures s != ""
  {
  }

  /** Every POST the editor sends passes the endpoint's required-field check, as long as an icon
      and a type are chosen; an empty English name is stored as the name. */
  lemma PostIsAccepted(e: Editor, store: seq<CategoriesApi.Category>, user: string, newId: string,
                       now: int)
    requires SaveRequestOf(e).Post?
    requires e.form.icon != "" && e.form.catType != ""
    ensures var (r, _) := CategoriesApi.Create(store, Some(user), Some(BodyOf(e.form)), newId, now, false);
            && r.Created?
            && r.category.name == e.form.name
            && (e.form.nameEn == "" ==> r.category.nameEn == e.form.name)
  {
    NotBlankNotEmpty(e.form.name);
  }

  /** A freshly reset form cannot be saved: its name is empty. */
  lemma ResetFormNeedsName()
    ensures SaveRequestOf(ResetForm()) == NameRequired
  {
  }

  // ---------------------------------------------------------------- the two lists

  /** `categories.filter(c => c.type === t)`. */
  function OfType(cats: seq<EditorCategory>, t: string): (r: seq<EditorCategory>)
    ensures forall i :: 0 <= i < |r| ==> r[i].catType == t
    ensures multiset(r) <= multiset(cats)
    ensures forall c :: c in cats && c.catType == t ==> c in r
  {
    if |cats| == 0 then []
    else
      assert cats == [cats[0]] + cats[1..];
      (if cats[0].catType == t then [cats[0]] else []) + OfType(cats[1..], t)
  }

  predicate KnownTypes(cats: seq<EditorCategory>) {
    forall i :: 0 <= i < |cats| ==> cats[i].catType == "INCOME" || cats[i].catType == "EXPENSE"
  }

  /** When every category is INCOME or EXPENSE, the income and expense lists together hold each
      category exactly once. */
  lemma {:induction false} TypesPartition(cats: seq<EditorCategory>)
    requires KnownTypes(cats)
    ensures multiset(OfType(cats, "INCOME")) + multiset(OfType(cats, "EXPENSE")) == multiset(cats)
  {
    if |cats| > 0 {
      assert cats == [cats[0]] + cats[1..];
      TypesPartition(cats[1..]);
    }
  }
}
