/**
 * The older product page of the Vite client (`admin-products`). It shares
 * the slug generator, the empty form and the edit form with the newer page
 * but has no image tracking, and it sends the form exactly as typed.
 */
module LegacyAdminProducts {
  import opened Wrappers
  import opened Numbers
  import opened Storage
  import ClientAdminProducts

  type ProductForm = ClientAdminProducts.ProductForm

  /** The mutation a submit starts: `data` is the form, unconverted. */
  datatype LegacyRequest =
    | CreateProduct(data: ProductForm)
    | UpdateProduct(id: string, data: ProductForm)

  /** The id in an update's URL reads back as the product's id. */
  lemma UpdateIdRoundTrip(id: nat)
    ensures ParseInt(ClientAdminProducts.IdString(id)) == Some(id)
  {
    ParseIntRoundTrip(id);
  }

  class ProductEditor {
    var isDialogOpen: bool
    var editingProduct: Option<Product>
    var formData: ProductForm

    constructor ()
      ensures !isDialogOpen && editingProduct.None? && formData == ClientAdminProducts.EmptyForm
    {
      isDialogOpen := false;
      editingProduct := None;
      formData := ClientAdminProducts.EmptyForm;
    }

    /** `resetForm`: back to the initial form. */
    method ResetForm()
      modifies this`formData
      ensures formData == ClientAdminProducts.EmptyForm
    {
      formData := ClientAdminProducts.EmptyForm;
    }

    /** The "Add Product" trigger. */
    method AddProductClicked()
      modifies this`formData, this`editingProduct
      ensures formData == ClientAdminProducts.EmptyForm && editingProduct.None?
    {
      ResetForm();
      editingProduct := None;
    }

    /** The dialog's `onOpenChange`. */
    method SetDialogOpen(open: bool)
      modifies this`isDialogOpen
      ensures isDialogOpen == open
    {
      isDialogOpen := open;
    }

    /** `handleNameChange`: the slug follows the name, also while editing. */
    method HandleNameChange(value: string)
      modifies this`formData
      ensures formData == old(formData).(name := value, slug := ClientAdminProducts.GenerateSlug(value))
      ensures ClientAdminProducts.IsCleanSlug(formData.slug)
    {
      formData := formData.(name := value, slug := ClientAdminProducts.GenerateSlug(value));
    }

    /** `handleEdit(product)` */
    method HandleEdit(product: Product)
      modifies this
      ensures editingProduct == Some(product) && formData == ClientAdminProducts.EditForm(product) && isDialogOpen
    {
      editingProduct := Some(product);
      formData := ClientAdminProducts.EditForm(product);
      isDialogOpen := true;
    }

    /** `handleSubmit`: an update of the product being edited, otherwise a create. */
    method HandleSubmit() returns (request: LegacyRequest)
      ensures editingProduct.None? ==> request == CreateProduct(formData)
      ensures editingProduct.Some? ==>
        request == UpdateProduct(ClientAdminProducts.IdString(editingProduct.value.id), formData)
      ensures request.data == formData
    {
      if editingProduct.Some? {
        request := UpdateProduct(ClientAdminProducts.IdString(editingProduct.value.id), formData);
      } else {
        request := CreateProduct(formData);
      }
    }

    /** The create mutation's `onSuccess`; the edited product is not cleared. */
    method CreateSucceeded()
      modifies this`isDialogOpen, this`formData
      ensures !isDialogOpen && formData == ClientAdminProducts.EmptyForm
    {
      isDialogOpen := false;
      ResetForm();
    }

    /** The update mutation's `onSuccess`. */
    method UpdateSucceeded()
      modifies this
      ensures !isDialogOpen && editingProduct.None? && formData == ClientAdminProducts.EmptyForm
    {
      isDialogOpen := false;
      editingProduct := None;
      ResetForm();
    }
  }
}
