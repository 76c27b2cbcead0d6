/**
 * The Products page as a state machine: the component's state fields, the
 * remote `products` table it writes to, and one method per handler. Every
 * backend call is replaced by the reply it gets (`Reply`), passed in; the
 * notifications the page raises are appended to `toasts`.
 */
module Products {
  import opened Wrappers
  import opened Auth
  import opened ProductRecords

  /** The backend's answer to one query: success, or an error carrying its message. */
  datatype Reply = Ok | Failed(message: string)

  /** A transient notification. */
  datatype Toast = Success(text: string) | Error(text: string)

  const LoginRequired := "You must be logged in to manage products"
  const FetchFailed := "Error fetching products"
  const NotOwner := "You can only edit your own products"
  const Updated := "Product updated successfully"
  const Created := "Product created successfully"
  const Deleted := "Product deleted successfully"
  /** The message of the TypeError raised by reading `id` of a `null` user. */
  const NullUserId := "Cannot read properties of null (reading 'id')"

  /** The user owns the product: `product.farmer_id === user?.id`. */
  predicate Owns(user: Option<User>, p: Product)
    ensures user.None? ==> !Owns(user, p)
  {
    user.Some? && user.value.id == p.farmerId
  }

  /** Everything a handler can change, apart from the notifications. */
  datatype Snapshot = Snapshot(
    products: seq<Product>,
    categories: seq<string>,
    loading: bool,
    searchTerm: string,
    selectedCategory: string,
    isModalOpen: bool,
    editingProduct: Option<Product>,
    user: Option<User>,
    formData: Form,
    table: seq<Product>,
    nextId: nat)

  class ProductsPage {
    // component state
    var products: seq<Product>
    var categories: seq<string>
    var loading: bool
    var searchTerm: string
    var selectedCategory: string
    var isModalOpen: bool
    var editingProduct: Option<Product>
    var user: Option<User>
    var formData: Form
    var toasts: seq<Toast>
    // the remote `products` table, newest row first, and its id sequence
    var table: seq<Product>
    var nextId: nat

    ghost predicate Valid()
      reads this
    {
      && UniqueIds(table)
      && (forall row :: row in table ==> row.id < nextId)
      && categories == UniqueCategories(products)
      && (editingProduct.Some? ==> isModalOpen)
    }

    function Snap(): Snapshot
      reads this
    {
      Snapshot(products, categories, loading, searchTerm, selectedCategory,
               isModalOpen, editingProduct, user, formData, table, nextId)
    }

    /** The rows the table shows: `filteredProducts`. */
    function Visible(): (shown: seq<Product>)
      reads this
      ensures |shown| <= |products|
      ensures forall p :: p in shown <==> p in products && Matches(p, searchTerm, selectedCategory)
    {
      Filter(products, searchTerm, selectedCategory)
    }

    /** The page as first rendered, over a table whose ids are a key below `idSequence`. */
    constructor (initialTable: seq<Product>, idSequence: nat)
      requires UniqueIds(initialTable)
      requires forall row :: row in initialTable ==> row.id < idSequence
      ensures Valid()
      ensures products == [] && categories == [] && loading
      ensures searchTerm == "" && selectedCategory == ""
      ensures !isModalOpen && editingProduct.None? && user.None? && formData == EmptyForm
      ensures toasts == [] && table == initialTable && nextId == idSequence
    {
      products, categories, loading := [], [], true;
      searchTerm, selectedCategory := "", "";
      isModalOpen, editingProduct, user, formData := false, None, None, EmptyForm;
      toasts := [];
      table, nextId := initialTable, idSequence;
    }

    /** The mount effect that reads the signed-in user; a thrown call is not caught and sets nothing. */
    method LoadUser(session: Session)
      requires Valid()
      modifies this
      ensures Valid()
      ensures user == (if session.Resolved? then session.user else old(user))
      ensures Snap() == old(Snap()).(user := user) && toasts == old(toasts)
    {
      if session.Resolved? {
        user := session.user;
      }
    }

    /**
     * `fetchProducts`: on success the list becomes the table and the category
     * list is rebuilt from it; on failure both stay and an error is shown.
     * Either way loading ends.
     */
    method FetchProducts(reply: Reply)
      requires Valid()
      modifies this
      ensures Valid()
      ensures !loading
      ensures reply.Ok? ==> products == table && categories == UniqueCategories(table)
      ensures reply.Failed? ==> products == old(products) && categories == old(categories)
      ensures toasts == old(toasts) + (if reply.Ok? then [] else [Error(FetchFailed)])
      ensures Snap() == old(Snap()).(products := products, categories := categories, loading := false)
    {
      if reply.Ok? {
        products := table;
        categories := UniqueCategories(table);
      } else {
        toasts := toasts + [Error(FetchFailed)];
      }
      loading := false;
    }

    /** Typing in the search box. */
    method SetSearchTerm(term: string)
      requires Valid()
      modifies this
      ensures Valid()
      ensures Snap() == old(Snap()).(searchTerm := term) && toasts == old(toasts)
    {
      searchTerm := term;
    }

    /** Picking a category; "" is "All Categories". */
    method SetSelectedCategory(category: string)
      requires Valid()
      modifies this
      ensures Valid()
      ensures Snap() == old(Snap()).(selectedCategory := category) && toasts == old(toasts)
    {
      selectedCategory := category;
    }

    /** Typing in one of the modal's three fields. */
    method SetFormData(form: Form)
      requires Valid()
      modifies this
      ensures Valid()
      ensures Snap() == old(Snap()).(formData := form) && toasts == old(toasts)
    {
      formData := form;
    }

    /** The "Add Product" button: a blank form in a modal that creates. */
    method OpenAddModal()
      requires Valid()
      modifies this
      ensures Valid()
      ensures isModalOpen && editingProduct.None? && formData == EmptyForm
      ensures Snap() == old(Snap()).(isModalOpen := true, editingProduct := None, formData := EmptyForm)
      ensures toasts == old(toasts)
    {
      editingProduct := None;
      formData := EmptyForm;
      isModalOpen := true;
    }

    /** The modal's "Cancel" button: closes the modal and forgets the product; the form keeps its text. */
    method CancelModal()
      requires Valid()
      modifies this
      ensures Valid()
      ensures !isModalOpen && editingProduct.None?
      ensures Snap() == old(Snap()).(isModalOpen := false, editingProduct := None) && toasts == old(toasts)
    {
      isModalOpen := false;
      editingProduct := None;
    }

    /**
     * `handleEdit`: a product the user does not own (or any product when no
     * user is signed in) is refused with an error and nothing else changes;
     * otherwise the modal opens on a copy of the product's fields.
     */
    method HandleEdit(p: Product)
      requires Valid()
      modifies this
      ensures Valid()
      ensures !Owns(old(user), p) ==> Snap() == old(Snap()) && toasts == old(toasts) + [Error(NotOwner)]
      ensures Owns(old(user), p) ==>
                && editingProduct == Some(p) && formData == FormOf(p) && isModalOpen
                && Snap() == old(Snap()).(editingProduct := Some(p), formData := FormOf(p), isModalOpen := true)
                && toasts == old(toasts)
    {
      if !Owns(user, p) {
        toasts := toasts + [Error(NotOwner)];
        return;
      }
      editingProduct := Some(p);
      formData := FormOf(p);
      isModalOpen := true;
    }

    /**
     * The write `handleSubmit` sends once a user is signed in, assuming the
     * store accepts it: an update of the product being edited, scoped to the
     * user's rows, or an insert of a new row owned by the user.
     */
    method SaveForm(now: string)
      requires Valid() && user.Some?
      modifies this
      ensures Valid()
      ensures old(editingProduct).Some? ==>
                && table == UpdateOwned(old(table), old(editingProduct).value.id, old(user).value.id, old(formData), now)
                && nextId == old(nextId)
                && toasts == old(toasts) + [Success(Updated)]
      ensures old(editingProduct).None? ==>
                && table == [NewRow(old(nextId), old(formData), old(user).value.id, now)] + old(table)
                && nextId == old(nextId) + 1
                && toasts == old(toasts) + [Success(Created)]
      ensures Snap() == old(Snap()).(table := table, nextId := nextId)
    {
      var owner := user.value.id;
      if editingProduct.Some? {
        UpdatePreservesUniqueIds(table, editingProduct.value.id, owner, formData, now);
        table := UpdateOwned(table, editingProduct.value.id, owner, formData, now);
        toasts := toasts + [Success(Updated)];
      } else {
        var row := NewRow(nextId, formData, owner, now);
        InsertPreservesUniqueIds(table, row, nextId);
        table := [row] + table;
        nextId := nextId + 1;
        toasts := toasts + [Success(Created)];
      }
    }

    /**
     * `handleSubmit`. With no user: an error, nothing else. Otherwise the
     * write (an update of the edited product scoped to the user's rows, or an
     * insert of a new row owned by the user) either fails, leaving everything
     * but the notifications as it was, or succeeds: the modal closes, the form
     * is cleared and the list is fetched again (`refetch` is that fetch's reply).
     */
    method HandleSubmit(reply: Reply, now: string, refetch: Reply)
      requires Valid()
      modifies this
      ensures Valid()
      ensures old(user).None? ==>
                Snap() == old(Snap()) && toasts == old(toasts) + [Error(LoginRequired)]
      ensures old(user).Some? && reply.Failed? ==>
                Snap() == old(Snap()) && toasts == old(toasts) + [Error(reply.message)]
      ensures old(user).Some? && reply.Ok? ==>
                && !isModalOpen && editingProduct.None? && formData == EmptyForm && !loading
                && user == old(user) && searchTerm == old(searchTerm)
                && selectedCategory == old(selectedCategory)
                && (refetch.Ok? ==> products == table && categories == UniqueCategories(table))
                && (refetch.Failed? ==> products == old(products) && categories == old(categories))
      ensures old(user).Some? && reply.Ok? && old(editingProduct).Some? ==>
                && table == UpdateOwned(old(table), old(editingProduct).value.id, old(user).value.id, old(formData), now)
                && nextId == old(nextId)
                && toasts == old(toasts) + [Success(Updated)] + (if refetch.Ok? then [] else [Error(FetchFailed)])
      ensures old(user).Some? && reply.Ok? && old(editingProduct).None? ==>
                && table == [NewRow(old(nextId), old(formData), old(user).value.id, now)] + old(table)
                && nextId == old(nextId) + 1
                && toasts == old(toasts) + [Success(Created)] + (if refetch.Ok? then [] else [Error(FetchFailed)])
    {
      if user.None? {
        toasts := toasts + [Error(LoginRequired)];
        return;
      }
      if reply.Failed? {
        toasts := toasts + [Error(reply.message)];
        return;
      }
      SaveForm(now);
      CloseAndRefetch(refetch);
    }

    /** After a successful write: the modal closes, the form is cleared and the list is fetched again. */
    method CloseAndRefetch(refetch: Reply)
      requires Valid()
      modifies this
      ensures Valid()
      ensures !isModalOpen && editingProduct.None? && formData == EmptyForm && !loading
      ensures refetch.Ok? ==> products == table && categories == UniqueCategories(table)
      ensures refetch.Failed? ==> products == old(products) && categories == old(categories)
      ensures toasts == old(toasts) + (if refetch.Ok? then [] else [Error(FetchFailed)])
      ensures Snap() == old(Snap()).(isModalOpen := false, editingProduct := None, formData := EmptyForm,
                                     products := products, categories := categories, loading := false)
    {
      isModalOpen := false;
      editingProduct := None;
      formData := EmptyForm;
      FetchProducts(refetch);
    }

    /**
     * `handleDelete`. A declined confirmation does nothing. With no user,
     * reading `user.id` throws inside the `try`, so only an error is shown.
     * Otherwise the delete, scoped to the id and the user's rows, either
     * fails with its message or succeeds and the list is fetched again.
     */
    method HandleDelete(id: nat, confirmed: bool, reply: Reply, refetch: Reply)
      requires Valid()
      modifies this
      ensures Valid()
      ensures !confirmed ==> Snap() == old(Snap()) && toasts == old(toasts)
      ensures confirmed && old(user).None? ==>
                Snap() == old(Snap()) && toasts == old(toasts) + [Error(NullUserId)]
      ensures confirmed && old(user).Some? && reply.Failed? ==>
                Snap() == old(Snap()) && toasts == old(toasts) + [Error(reply.message)]
      ensures confirmed && old(user).Some? && reply.Ok? ==>
                && table == DeleteOwned(old(table), id, old(user).value.id)
                && nextId == old(nextId) && !loading
                && Snap() == old(Snap()).(table := table, products := products, categories := categories, loading := false)
                && (refetch.Ok? ==> products == table && categories == UniqueCategories(table))
                && (refetch.Failed? ==> products == old(products) && categories == old(categories))
                && toasts == old(toasts) + [Success(Deleted)] + (if refetch.Ok? then [] else [Error(FetchFailed)])
    {
      if !confirmed {
        return;
      }
      if user.None? {
        toasts := toasts + [Error(NullUserId)];
        return;
      }
      if reply.Failed? {
        toasts := toasts + [Error(reply.message)];
        return;
      }
      var owner := user.value.id;
      DeletePreservesUniqueIds(table, id, owner);
      DeleteRemovesOnlyTargets(table, id, owner);
      table := DeleteOwned(table, id, owner);
      toasts := toasts + [Success(Deleted)];
      FetchProducts(refetch);
    }
  }
}
