/**
 * The category admin page of the Next.js app: its slug generator, the slug
 * fallback of a submit, and the dialog's form state. The requests are
 * returned as values; their responses come back as the `ok` flag of
 * `SubmitCompleted`.
 */
module AdminCategories {
  import opened Wrappers
  import opened Text
  import Seqs
  import Dashes

  // ---- generateSlug ----

  /** The characters the first replacement keeps: `[a-z0-9 -]`. */
  predicate IsAllowed(c: char) { IsLowerAlnum(c) || c == ' ' || c == '-' }

  predicate IsHyphen(c: char) { c == '-' }

  /** The characters of this page's slugs: `[a-z0-9-]`. */
  predicate IsSlugChar(c: char) { IsLowerAlnum(c) || c == '-' }

  /** The lower-cased name without the characters outside `[a-z0-9 -]`. */
  function SlugSource(name: string): (kept: string)
    ensures forall i :: 0 <= i < |kept| ==> IsAllowed(kept[i])
  {
    Seqs.Filter(Lower(name), IsAllowed)
  }

  predicate IsSpace(c: char) { c == ' ' }

  lemma SlugCharsAreNotWhitespace(m: string)
    requires forall i :: 0 <= i < |m| ==> IsSlugChar(m[i])
    ensures forall i :: 0 <= i < |m| ==> !IsJsWhitespace(m[i])
  {
  }

  /**
   * `replace(/\s+/g, "-")`: each run of whitespace as one hyphen. The only
   * whitespace the first replacement leaves is the space, so the runs are runs
   * of spaces (`WhitespaceRunsAreSpaceRuns`).
   */
  function SpacesToHyphens(name: string): (d: string)
    ensures forall i :: 0 <= i < |d| ==> IsSlugChar(d[i])
  {
    var kept := SlugSource(name);
    var d := Dashes.Dashed(kept, IsSpace);
    Dashes.DashedKeepsAlphabet(kept, IsSpace, IsAllowed);
    d
  }

  /** On what the first replacement leaves, whitespace runs and space runs are the same runs. */
  lemma WhitespaceRunsAreSpaceRuns(name: string)
    ensures Dashes.Dashed(SlugSource(name), IsJsWhitespace) == SpacesToHyphens(name)
  {
    var kept := SlugSource(name);
    assert forall i :: 0 <= i < |kept| ==> (IsJsWhitespace(kept[i]) <==> IsSpace(kept[i])) by {
      forall i | 0 <= i < |kept| ensures IsJsWhitespace(kept[i]) <==> IsSpace(kept[i]) {
        assert IsAllowed(kept[i]);
      }
    }
    Dashes.DashedAgree(kept, IsJsWhitespace, IsSpace);
  }

  /** Each run of hyphens as one hyphen; nothing in it is whitespace. */
  function MergedHyphens(name: string): (m: string)
    ensures forall i :: 0 <= i < |m| ==> IsSlugChar(m[i])
    ensures Dashes.NoDoubleHyphen(m)
    ensures Trim(m) == m
  {
    var d := SpacesToHyphens(name);
    var m := Dashes.Dashed(d, IsHyphen);
    Dashes.DashedKeepsAlphabet(d, IsHyphen, IsSlugChar);
    Dashes.DashedSingleHyphens(d, IsHyphen);
    SlugCharsAreNotWhitespace(m);
    TrimNoWhitespace(m);
    m
  }

  /**
   * `generateSlug`: lower-case, drop everything outside `[a-z0-9 -]`, turn
   * runs of whitespace and then runs of hyphens into one hyphen; the final
   * `trim` finds nothing to remove, so hyphens at the edges stay.
   */
  function GenerateSlug(name: string): (r: string)
    ensures forall i :: 0 <= i < |r| ==> IsSlugChar(r[i])
    ensures Dashes.NoDoubleHyphen(r)
  {
    Trim(MergedHyphens(name))
  }

  /** A string over the slug alphabet without doubled hyphens: what `GenerateSlug` produces. */
  predicate IsCleanSlug(r: string) {
    (forall i :: 0 <= i < |r| ==> IsSlugChar(r[i])) && Dashes.NoDoubleHyphen(r)
  }

  lemma SlugSourceOfClean(r: string)
    requires IsCleanSlug(r)
    ensures SlugSource(r) == r
  {
    LowerOfLowered(r);
    assert forall c :: c in r ==> IsAllowed(c);
    Seqs.FilterAll(r, IsAllowed);
  }

  lemma SpacesToHyphensOfClean(r: string)
    requires IsCleanSlug(r)
    ensures SpacesToHyphens(r) == r
  {
    SlugSourceOfClean(r);
    assert forall i :: 0 <= i < |r| ==> !IsSpace(r[i]);
    Dashes.DashedOfFree(r, IsSpace);
  }

  lemma MergedHyphensOfClean(r: string)
    requires IsCleanSlug(r)
    ensures MergedHyphens(r) == r
  {
    SpacesToHyphensOfClean(r);
    Dashes.DashedOfSingleHyphens(r, IsHyphen);
  }

  /** A slug generated from a generated slug is the same slug. */
  lemma GenerateSlugIdempotent(name: string)
    ensures GenerateSlug(GenerateSlug(name)) == GenerateSlug(name)
  {
    var r := GenerateSlug(name);
    MergedHyphensOfClean(r);
  }

  /** A name that starts with a space or a hyphen gives a slug that starts with a hyphen: the edges are not cleaned. */
  lemma LeadingHyphenKept(name: string)
    requires name != [] && (name[0] == ' ' || name[0] == '-')
    ensures GenerateSlug(name) != [] && GenerateSlug(name)[0] == '-'
  {
    var l := Lower(name);
    assert l[0] == name[0];
    assert Seqs.Filter(l, IsAllowed) == [l[0]] + Seqs.Filter(l[1..], IsAllowed);
    var kept := SlugSource(name);
    assert kept[0] == name[0];
    var d := SpacesToHyphens(name);
    assert d[0] == '-';
  }

  /** A non-empty run of lower-case letters and digits. */
  predicate IsWord(w: string) {
    w != [] && forall i :: 0 <= i < |w| ==> IsLowerAlnum(w[i])
  }

  lemma SpacedHyphenSource(a: string, b: string)
    requires IsWord(a) && IsWord(b)
    ensures SlugSource(a + " - " + b) == a + " - " + b
  {
    var s := a + " - " + b;
    assert forall i :: 0 <= i < |s| ==> IsAllowed(s[i]) by {
      forall i | 0 <= i < |s| ensures IsAllowed(s[i]) {
        if i >= |a| + 3 { assert s[i] == b[i - |a| - 3]; }
        else if i < |a| { assert s[i] == a[i]; }
      }
    }
    LowerOfLowered(s);
    Seqs.FilterAll(s, IsAllowed);
  }

  lemma WordHasNoSpace(w: string)
    requires IsWord(w)
    ensures forall i :: 0 <= i < |w| ==> !IsSpace(w[i])
  {
  }

  lemma SpaceWord(b: string)
    requires IsWord(b)
    ensures Dashes.Dashed([' '] + b, IsSpace) == "-" + b
  {
    WordHasNoSpace(b);
    Dashes.DashedOfFree(b, IsSpace);
    Dashes.DashedSepHead(' ', b, IsSpace);
  }

  lemma HyphenSpaceWord(b: string)
    requires IsWord(b)
    ensures Dashes.Dashed(['-'] + ([' '] + b), IsSpace) == "--" + b
  {
    SpaceWord(b);
    Dashes.DashedCons('-', [' '] + b, IsSpace);
    HyphenTwice(b, Dashes.Dashed([' '] + b, IsSpace));
  }

  lemma HyphenTwice(b: string, d: string)
    requires d == "-" + b
    ensures ['-'] + d == "--" + b
  {
  }

  lemma HyphenBefore(b: string, d: string, e: string)
    requires d == "--" + b && e == ['-'] + d
    ensures e == "---" + b
  {
  }

  lemma SpacedHyphenTail(b: string)
    requires IsWord(b)
    ensures Dashes.Dashed(" - " + b, IsSpace) == "---" + b
  {
    var u := ['-'] + ([' '] + b);
    var s := [' '] + u;
    assert " - " + b == s;
    HyphenSpaceWord(b);
    Dashes.DashedSepHead(' ', u, IsSpace);
    HyphenBefore(b, Dashes.Dashed(u, IsSpace), Dashes.Dashed(s, IsSpace));
  }

  lemma WordHasNoHyphen(w: string)
    requires IsWord(w)
    ensures forall i :: 0 <= i < |w| ==> !IsHyphen(w[i])
  {
  }

  lemma Regrouped(a: string, x: string, b: string, d: string, e: string)
    requires d == x + b && e == a + d
    ensures e == a + x + b
  {
  }

  lemma SpacedHyphenDashed(a: string, b: string)
    requires IsWord(a) && IsWord(b)
    ensures Dashes.Dashed(a + " - " + b, IsSpace) == a + "---" + b
  {
    var t := " - " + b;
    var s := a + t;
    assert a + " - " + b == s;
    WordHasNoSpace(a);
    SpacedHyphenTail(b);
    Dashes.DashedFreePrefix(a, t, IsSpace);
    Regrouped(a, "---", b, Dashes.Dashed(t, IsSpace), Dashes.Dashed(s, IsSpace));
  }

  lemma TripleHyphenMerged(a: string, b: string)
    requires IsWord(a) && IsWord(b)
    ensures Dashes.Dashed(a + "---" + b, IsHyphen) == a + "-" + b
  {
    var t := "---" + b;
    var s := a + t;
    assert a + "---" + b == s;
    WordHasNoHyphen(a);
    WordHasNoHyphen(b);
    Dashes.DashedOfFree(b, IsHyphen);
    Dashes.DashedFreePrefix(a, t, IsHyphen);
    Dashes.DashedRun("---", b, IsHyphen);
    Regrouped(a, "-", b, Dashes.Dashed(t, IsHyphen), Dashes.Dashed(s, IsHyphen));
  }

  /** Spaces and an existing hyphen between two words merge into one hyphen. */
  lemma SpacedHyphenSlug(a: string, b: string)
    requires IsWord(a) && IsWord(b)
    ensures GenerateSlug(a + " - " + b) == a + "-" + b
  {
    SpacedHyphenSource(a, b);
    SpacedHyphenDashed(a, b);
    assert SpacesToHyphens(a + " - " + b) == a + "---" + b;
    TripleHyphenMerged(a, b);
    assert MergedHyphens(a + " - " + b) == a + "-" + b;
  }

  // ---- the form ----

  datatype AdminCategory = AdminCategory(
    id: string,
    name: string,
    slug: string,
    description: Option<string>,
    parentId: Option<string>,
    createdAt: string)

  datatype CategoryForm = CategoryForm(name: string, slug: string, description: string)

  /** `{ name: "", slug: "", description: "" }` */
  const EmptyForm := CategoryForm("", "", "")

  /** The slug a submit sends: the typed one, or one generated from the name when the field is empty. */
  function SubmittedSlug(form: CategoryForm): (r: string)
    ensures form.slug != "" ==> r == form.slug
    ensures form.slug == "" ==> forall i :: 0 <= i < |r| ==> IsSlugChar(r[i])
    ensures form.slug == "" ==> Dashes.NoDoubleHyphen(r)
    ensures r == "" ==> form.slug == ""
  {
    if form.slug != "" then form.slug else GenerateSlug(form.name)
  }

  /** An empty slug field is filled with the slug of the name, whatever was typed before. */
  lemma SubmittedSlugOfEmpty(form: CategoryForm)
    requires form.slug == ""
    ensures SubmittedSlug(form) == GenerateSlug(form.name)
    ensures SubmittedSlug(form.(slug := SubmittedSlug(form))) == SubmittedSlug(form)
  {
    GenerateSlugIdempotent(form.name);
  }

  datatype CategoryRequest = CategoryRequest(httpMethod: string, url: string, body: CategoryForm)

  /** What `handleSubmit` sends: a PUT to the edited category, otherwise a POST to the collection. */
  function SubmitRequest(editing: Option<AdminCategory>, form: CategoryForm): (r: CategoryRequest)
    ensures r.httpMethod == "PUT" <==> editing.Some?
    ensures r.httpMethod == "POST" <==> editing.None?
    ensures editing.Some? ==> r.url == "/api/admin/categories/" + editing.value.id
    ensures editing.None? ==> r.url == "/api/admin/categories"
    ensures r.body.name == form.name && r.body.description == form.description
    ensures r.body.slug == SubmittedSlug(form)
  {
    var body := form.(slug := SubmittedSlug(form));
    match editing
    case Some(c) => CategoryRequest("PUT", "/api/admin/categories/" + c.id, body)
    case None => CategoryRequest("POST", "/api/admin/categories", body)
  }

  /** `handleDelete`: without confirmation nothing is sent. */
  function DeleteRequest(id: string, confirmed: bool): (r: Option<string>)
    ensures r.Some? <==> confirmed
    ensures r.Some? ==> r.value == "/api/admin/categories/" + id
  {
    if confirmed then Some("/api/admin/categories/" + id) else None
  }

  class CategoriesPage {
    var isDialogOpen: bool
    var editingCategory: Option<AdminCategory>
    var formData: CategoryForm

    constructor ()
      ensures !isDialogOpen && editingCategory.None? && formData == EmptyForm
    {
      isDialogOpen := false;
      editingCategory := None;
      formData := EmptyForm;
    }

    /** The "Add Category" button. */
    method AddCategoryClicked()
      modifies this
      ensures isDialogOpen && editingCategory.None? && formData == EmptyForm
    {
      editingCategory := None;
      formData := EmptyForm;
      isDialogOpen := true;
    }

    /** The dialog's "Cancel" button. */
    method CancelClicked()
      modifies this
      ensures !isDialogOpen && editingCategory.None? && formData == EmptyForm
    {
      isDialogOpen := false;
      editingCategory := None;
      formData := EmptyForm;
    }

    /** `handleEdit(category)`: a missing description is edited as "". */
    method HandleEdit(category: AdminCategory)
      modifies this
      ensures editingCategory == Some(category) && isDialogOpen
      ensures formData == CategoryForm(category.name, category.slug, category.description.GetOr(""))
    {
      editingCategory := Some(category);
      formData := CategoryForm(category.name, category.slug, category.description.GetOr(""));
      isDialogOpen := true;
    }

    /** `handleNameChange`: a slug already there is kept; an empty one is derived from the name. */
    method HandleNameChange(name: string)
      modifies this`formData
      ensures formData.name == name && formData.description == old(formData).description
      ensures old(formData).slug != "" ==> formData.slug == old(formData).slug
      ensures old(formData).slug == "" ==> formData.slug == GenerateSlug(name)
    {
      formData := formData.(name := name, slug := if formData.slug != "" then formData.slug else GenerateSlug(name));
    }

    /** The slug field's `onChange`. */
    method HandleSlugChange(slug: string)
      modifies this`formData
      ensures formData == old(formData).(slug := slug)
    {
      formData := formData.(slug := slug);
    }

    /** The description field's `onChange`. */
    method HandleDescriptionChange(description: string)
      modifies this`formData
      ensures formData == old(formData).(description := description)
    {
      formData := formData.(description := description);
    }

    /** The request `handleSubmit` sends; sending changes no state. */
    method HandleSubmit() returns (request: CategoryRequest)
      ensures request == SubmitRequest(editingCategory, formData)
    {
      request := SubmitRequest(editingCategory, formData);
    }

    /** The response of the submit: on success the dialog closes and the form resets; on failure only an alert is shown. */
    method SubmitCompleted(ok: bool)
      modifies this
      ensures ok ==> !isDialogOpen && editingCategory.None? && formData == EmptyForm
      ensures !ok ==> isDialogOpen == old(isDialogOpen) && editingCategory == old(editingCategory) && formData == old(formData)
    {
      if ok {
        isDialogOpen := false;
        editingCategory := None;
        formData := EmptyForm;
      }
    }
  }
}
