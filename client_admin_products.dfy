/**
 * The product dialog of the Vite client's admin page: the slug generator,
 * the form's default and edit values, and the tracking of images uploaded
 * while the dialog is open so that they can be deleted again when the dialog
 * is cancelled. Each handler is a method over the page's state; network
 * requests are returned as values instead of being sent.
 */
module ClientAdminProducts {
  import opened Wrappers
  import opened Text
  import opened Numbers
  import Seqs
  import Dashes
  import opened Storage

  // ---- generateSlug ----

  predicate IsSlugBreak(c: char) { !IsLowerAlnum(c) }

  function DropLeadingHyphen(t: string): string {
    if t != [] && t[0] == '-' then t[1..] else t
  }

  function DropTrailingHyphen(a: string): string {
    if a != [] && a[|a| - 1] == '-' then a[..|a| - 1] else a
  }

  /** `.replace(/(^-|-$)/g, '')`: one hyphen at each edge is removed. */
  function TrimEdgeHyphens(t: string): string {
    DropTrailingHyphen(DropLeadingHyphen(t))
  }

  predicate IsSlugChar(c: char) { IsLowerAlnum(c) || c == '-' }

  predicate SlugChars(t: string) { forall i :: 0 <= i < |t| ==> IsSlugChar(t[i]) }

  /** A slug of this page: lower-case letters, digits and single inner hyphens. */
  predicate IsCleanSlug(r: string) {
    && SlugChars(r)
    && Dashes.NoDoubleHyphen(r)
    && (r == [] || (r[0] != '-' && r[|r| - 1] != '-'))
  }

  lemma SliceKeepsShape(t: string, lo: int, hi: int)
    requires SlugChars(t) && Dashes.NoDoubleHyphen(t)
    requires 0 <= lo <= hi <= |t|
    ensures SlugChars(t[lo..hi]) && Dashes.NoDoubleHyphen(t[lo..hi])
  {
    assert forall i :: 0 <= i < hi - lo ==> t[lo..hi][i] == t[lo + i];
  }

  lemma DropLeadingFacts(t: string)
    requires SlugChars(t) && Dashes.NoDoubleHyphen(t)
    ensures var a := DropLeadingHyphen(t);
      SlugChars(a) && Dashes.NoDoubleHyphen(a) && (a == [] || a[0] != '-')
  {
    if t != [] && t[0] == '-' {
      SliceKeepsShape(t, 1, |t|);
      if |t| > 1 {
        assert t[1..][0] == t[1];
      }
    } else {
      assert t[0..|t|] == t;
    }
  }

  lemma DropTrailingFacts(a: string)
    requires SlugChars(a) && Dashes.NoDoubleHyphen(a) && (a == [] || a[0] != '-')
    ensures IsCleanSlug(DropTrailingHyphen(a))
  {
    if a != [] && a[|a| - 1] == '-' {
      SliceKeepsShape(a, 0, |a| - 1);
      if |a| > 1 {
        var r := a[..|a| - 1];
        assert r[0] == a[0] && r[|r| - 1] == a[|a| - 2];
      }
    }
  }

  /** `generateSlug(name)` */
  function GenerateSlug(name: string): (r: string)
    ensures IsCleanSlug(r)
  {
    var d := Dashes.Dashed(Lower(name), IsSlugBreak);
    Dashes.DashedAlphabet(Lower(name), IsSlugBreak);
    Dashes.DashedSingleHyphens(Lower(name), IsSlugBreak);
    assert forall i :: 0 <= i < |d| ==> d[i] in d;
    DropLeadingFacts(d);
    DropTrailingFacts(DropLeadingHyphen(d));
    TrimEdgeHyphens(d)
  }

  /** A slug is its own slug. */
  lemma GenerateSlugIdempotent(name: string)
    ensures GenerateSlug(GenerateSlug(name)) == GenerateSlug(name)
  {
    var r := GenerateSlug(name);
    LowerOfLowered(r);
    Dashes.DashedOfSingleHyphens(r, IsSlugBreak);
  }

  lemma DropLeadingKeeps(t: string)
    ensures Seqs.Filter(DropLeadingHyphen(t), IsLowerAlnum) == Seqs.Filter(t, IsLowerAlnum)
  {
    if t != [] && t[0] == '-' {
      assert t == [t[0]] + t[1..];
      Seqs.FilterConcat([t[0]], t[1..], IsLowerAlnum);
    }
  }

  lemma DropTrailingKeeps(a: string)
    ensures Seqs.Filter(DropTrailingHyphen(a), IsLowerAlnum) == Seqs.Filter(a, IsLowerAlnum)
  {
    if a != [] && a[|a| - 1] == '-' {
      var b := a[..|a| - 1];
      assert a == b + [a[|a| - 1]];
      Seqs.FilterConcat(b, [a[|a| - 1]], IsLowerAlnum);
    }
  }

  /** The letters and digits of the lower-cased name all survive, in order; everything else became hyphens. */
  lemma GenerateSlugKeepsAlnum(name: string)
    ensures Seqs.Filter(GenerateSlug(name), IsLowerAlnum) == Seqs.Filter(Lower(name), IsLowerAlnum)
  {
    var d := Dashes.Dashed(Lower(name), IsSlugBreak);
    Dashes.DashedKeeps(Lower(name), IsSlugBreak, IsLowerAlnum);
    DropLeadingKeeps(d);
    DropTrailingKeeps(DropLeadingHyphen(d));
  }

  // ---- the form ----

  datatype ProductForm = ProductForm(
    name: string,
    slug: string,
    description: string,
    price: string,
    originalPrice: string,
    brand: string,
    categoryId: string,
    imageUrl: string,
    rating: string,
    inStock: bool,
    featured: bool,
    specifications: string)

  /** The initial form and the one `resetForm` restores. */
  const EmptyForm := ProductForm("", "", "", "", "", "", "", "", "0", true, false, "")

  /** `id.toString()` */
  function IdString(id: int): string {
    if id >= 0 then DecimalString(id) else "-" + DecimalString(-id)
  }

  /** The form `handleEdit` fills in: absent or empty optional fields take their defaults. */
  function EditForm(p: Product): (f: ProductForm)
    ensures f.description == (if p.description.Some? then p.description.value else "")
    ensures f.rating == (if p.rating.Some? && p.rating.value != "" then p.rating.value else "0")
    ensures f.inStock <==> p.inStock == Some(true)
    ensures f.featured <==> p.featured == Some(true)
    ensures f.originalPrice == p.originalPrice.GetOr("")
    ensures f.specifications == p.specifications.GetOr("")
    ensures f.categoryId == IdString(p.categoryId)
    ensures (f.name, f.slug, f.price, f.brand, f.imageUrl) == (p.name, p.slug, p.price, p.brand, p.imageUrl)
  {
    ProductForm(
      p.name, p.slug, p.description.GetOr(""), p.price, p.originalPrice.GetOr(""), p.brand,
      IdString(p.categoryId), p.imageUrl,
      if p.rating.Some? && p.rating.value != "" then p.rating.value else "0",
      p.inStock == Some(true), p.featured == Some(true), p.specifications.GetOr(""))
  }

  /** The category id `handleSubmit` sends: `None` for `undefined`, `Some(None)` for `NaN`. */
  function SubmittedCategoryId(categoryId: string): (r: Option<Option<int>>)
    ensures r.None? <==> categoryId == ""
  {
    if categoryId == "" then None else Some(ToNumber(categoryId))
  }

  /** An edit form left untouched sends the product's own category id back. */
  lemma EditFormKeepsCategory(p: Product)
    requires p.categoryId >= 0
    ensures SubmittedCategoryId(EditForm(p).categoryId) == Some(Some(p.categoryId))
  {
    ToNumberRoundTrip(p.categoryId);
  }

  datatype ProductRequest =
    | Create(data: ProductForm, categoryId: Option<Option<int>>)
    | Update(id: int, data: ProductForm, categoryId: Option<Option<int>>)

  const Cloudinary := "cloudinary.com"

  /** Whether the image `onChange` records `url` as an upload to clean up. */
  function TracksUpload(url: string, editing: bool, original: string): (r: bool)
    ensures r ==> url != "" && Contains(url, Cloudinary)
    ensures r ==> !editing || url != original
    ensures url != "" && Contains(url, Cloudinary) && !editing ==> r
  {
    if url != "" && Contains(url, Cloudinary) then
      if editing then url != original else true
    else false
  }

  /** What `handleDialogClose(false)` deletes from Cloudinary. */
  function CloseDeletes(tracked: string, editing: bool, original: string): (r: Option<string>)
    ensures r.Some? ==> r.value == tracked && tracked != "" && Contains(tracked, Cloudinary)
    ensures r.Some? && editing ==> tracked != original
  {
    if editing then
      if tracked != "" && tracked != original && Contains(tracked, Cloudinary) then Some(tracked) else None
    else
      if tracked != "" && Contains(tracked, Cloudinary) then Some(tracked) else None
  }

  /** The page's cleanup field only ever holds an upload that the close handler would delete. */
  predicate CleanupTracked(tracked: string, editing: bool, original: string) {
    tracked == "" || (Contains(tracked, Cloudinary) && (editing ==> tracked != original))
  }

  /** Any upload tracked under the invariant is deleted on close, and nothing else. */
  lemma CloseDeletesTracked(tracked: string, editing: bool, original: string)
    requires CleanupTracked(tracked, editing, original)
    ensures CloseDeletes(tracked, editing, original) == if tracked != "" then Some(tracked) else None
  {
  }

  /** What a successful PUT deletes: the old image when it was on Cloudinary and was replaced. */
  function ReplacedImage(current: Option<Product>, newUrl: string): (r: Option<string>)
    ensures r.Some? <==>
      current.Some? && current.value.imageUrl != "" && current.value.imageUrl != newUrl &&
      Contains(current.value.imageUrl, Cloudinary)
    ensures r.Some? ==> r.value == current.value.imageUrl
  {
    match current
    case Some(p) =>
      if p.imageUrl != "" && p.imageUrl != newUrl && Contains(p.imageUrl, Cloudinary) then Some(p.imageUrl) else None
    case None => None
  }

  predicate HasId(id: int, p: Product) { p.id == id }

  /** The update mutation: the product found by id before the PUT decides the deletion. */
  function UpdateDeletes(products: seq<Product>, id: int, newUrl: string): (r: Option<string>)
    ensures r.Some? ==> exists i :: 0 <= i < |products| && products[i].id == id && products[i].imageUrl == r.value
    ensures r.Some? ==> r.value != newUrl && Contains(r.value, Cloudinary)
    ensures (forall i :: 0 <= i < |products| ==> products[i].id != id) ==> r.None?
  {
    var current := Seqs.Find(products, p => HasId(id, p));
    ReplacedImage(current, newUrl)
  }

  /** Keeping the image never deletes it. */
  lemma UnchangedImageKept(products: seq<Product>, id: int, url: string)
    requires forall i :: 0 <= i < |products| && products[i].id == id ==> products[i].imageUrl == url
    ensures UpdateDeletes(products, id, url).None?
  {
  }

  class ProductDialog {
    var isDialogOpen: bool
    var editingProduct: Option<Product>
    var isImageUploading: bool
    var uploadedImageForCleanup: string
    var originalImageUrl: string
    var formData: ProductForm

    predicate Valid()
      reads this
    {
      CleanupTracked(uploadedImageForCleanup, editingProduct.Some?, originalImageUrl)
    }

    constructor ()
      ensures Valid()
      ensures !isDialogOpen && editingProduct.None? && !isImageUploading
      ensures uploadedImageForCleanup == "" && originalImageUrl == "" && formData == EmptyForm
    {
      isDialogOpen := false;
      editingProduct := None;
      isImageUploading := false;
      uploadedImageForCleanup := "";
      originalImageUrl := "";
      formData := EmptyForm;
    }

    /** `resetForm` */
    method ResetForm()
      modifies this`formData, this`isImageUploading, this`uploadedImageForCleanup, this`originalImageUrl
      ensures Valid()
      ensures formData == EmptyForm && !isImageUploading
      ensures uploadedImageForCleanup == "" && originalImageUrl == ""
    {
      formData := EmptyForm;
      isImageUploading := false;
      uploadedImageForCleanup := "";
      originalImageUrl := "";
    }

    /** The "Add Product" button, before the dialog opens. */
    method AddProductClicked()
      modifies this`formData, this`isImageUploading, this`uploadedImageForCleanup, this`originalImageUrl,
        this`editingProduct
      ensures Valid()
      ensures formData == EmptyForm && !isImageUploading && editingProduct.None?
      ensures uploadedImageForCleanup == "" && originalImageUrl == ""
    {
      ResetForm();
      editingProduct := None;
    }

    /** `handleNameChange`: the slug follows the name, also while editing. */
    method HandleNameChange(value: string)
      modifies this`formData
      ensures formData == old(formData).(name := value, slug := GenerateSlug(value))
    {
      formData := formData.(name := value, slug := GenerateSlug(value));
    }

    /** The image field's `onChange(url)`. */
    method OnImageChange(url: string)
      requires Valid()
      modifies this`formData, this`uploadedImageForCleanup
      ensures Valid()
      ensures formData == old(formData).(imageUrl := url)
      ensures uploadedImageForCleanup ==
        if TracksUpload(url, editingProduct.Some?, originalImageUrl) then url else old(uploadedImageForCleanup)
    {
      formData := formData.(imageUrl := url);
      if TracksUpload(url, editingProduct.Some?, originalImageUrl) {
        uploadedImageForCleanup := url;
      }
    }

    /** `handleEdit(product)` */
    method HandleEdit(product: Product)
      modifies this
      ensures Valid()
      ensures editingProduct == Some(product) && originalImageUrl == product.imageUrl
      ensures uploadedImageForCleanup == "" && formData == EditForm(product) && isDialogOpen
      ensures isImageUploading == old(isImageUploading)
    {
      editingProduct := Some(product);
      originalImageUrl := product.imageUrl;
      uploadedImageForCleanup := "";
      formData := EditForm(product);
      isDialogOpen := true;
    }

    /**
     * `handleDialogClose(open)`: on closing, the tracked upload is deleted
     * (`deleted`) and the whole dialog state is reset.
     */
    method HandleDialogClose(open: bool) returns (deleted: Option<string>)
      requires Valid()
      modifies this
      ensures Valid()
      ensures isDialogOpen == open
      ensures open ==> deleted.None? && formData == old(formData) && editingProduct == old(editingProduct)
      ensures open ==> uploadedImageForCleanup == old(uploadedImageForCleanup) && originalImageUrl == old(originalImageUrl)
      ensures open ==> isImageUploading == old(isImageUploading)
      ensures !open ==> deleted == if old(uploadedImageForCleanup) != "" then Some(old(uploadedImageForCleanup)) else None
      ensures !open ==> formData == EmptyForm && editingProduct.None? && !isImageUploading
      ensures !open ==> uploadedImageForCleanup == "" && originalImageUrl == ""
    {
      deleted := None;
      if !open {
        deleted := CloseDeletes(uploadedImageForCleanup, editingProduct.Some?, originalImageUrl);
        CloseDeletesTracked(uploadedImageForCleanup, editingProduct.Some?, originalImageUrl);
        ResetForm();
        editingProduct := None;
      }
      isDialogOpen := open;
    }

    /** `handleSubmit`: nothing is sent while an image is uploading. */
    method HandleSubmit() returns (request: Option<ProductRequest>)
      ensures isImageUploading ==> request.None?
      ensures !isImageUploading && editingProduct.None? ==>
        request == Some(Create(formData, SubmittedCategoryId(formData.categoryId)))
      ensures !isImageUploading && editingProduct.Some? ==>
        request == Some(Update(editingProduct.value.id, formData, SubmittedCategoryId(formData.categoryId)))
    {
      if isImageUploading {
        return None;
      }
      var categoryId := SubmittedCategoryId(formData.categoryId);
      if editingProduct.Some? {
        request := Some(Update(editingProduct.value.id, formData, categoryId));
      } else {
        request := Some(Create(formData, categoryId));
      }
    }

    /** The create mutation's `onSuccess`. */
    method CreateSucceeded()
      modifies this
      ensures Valid()
      ensures !isDialogOpen && formData == EmptyForm && !isImageUploading
      ensures uploadedImageForCleanup == "" && originalImageUrl == ""
      ensures editingProduct == old(editingProduct)
    {
      uploadedImageForCleanup := "";
      isDialogOpen := false;
      ResetForm();
    }

    /** The update mutation's `onSuccess`. */
    method UpdateSucceeded()
      modifies this
      ensures Valid()
      ensures !isDialogOpen && formData == EmptyForm && !isImageUploading && editingProduct.None?
      ensures uploadedImageForCleanup == "" && originalImageUrl == ""
    {
      uploadedImageForCleanup := "";
      isDialogOpen := false;
      editingProduct := None;
      ResetForm();
    }

    /** `onUploadStateChange` */
    method SetImageUploading(uploading: bool)
      modifies this`isImageUploading
      ensures isImageUploading == uploading
    {
      isImageUploading := uploading;
    }
  }
}
