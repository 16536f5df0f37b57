/**
 * The administrator's package editor: a seven-field form opened blank or prefilled from a
 * package, and the save that validates it and sends a create or an update.
 */
module AdminPackages {
  import opened Wrappers
  import opened Text
  import opened Numbers
  import opened Prices
  import opened Entities

  /** The form's fields, as the editor holds them. */
  datatype PackageForm = PackageForm(
    name: string,
    amount: string,
    price: string,
    originalPrice: string,
    description: string,
    isFeatured: bool,
    isActive: bool)

  /** `resetForm`: every text empty, not featured, active. */
  const BlankForm: PackageForm := PackageForm("", "", "", "", "", false, true)

  /**
   * `openEditModal`'s prefill: the package's values as text, an absent original price or
   * description as an empty field.
   */
  function EditForm(pkg: Package): (f: PackageForm)
    ensures f.name == pkg.name && f.isFeatured == pkg.isFeatured && f.isActive == pkg.isActive
    ensures f.originalPrice == "" <==> pkg.originalPrice.None?
    ensures f.description == "" <==> pkg.description.None? || pkg.description.value == ""
    ensures f.amount != "" && f.price != ""
  {
    PackageForm(
      pkg.name,
      IntToString(pkg.amount),
      CentsToString(pkg.price),
      OriginalPriceText(pkg.originalPrice),
      pkg.description.GetOr(""),
      pkg.isFeatured,
      pkg.isActive)
  }

  /** The original-price field of the prefilled form: empty when the package has none. */
  function OriginalPriceText(originalPrice: Option<int>): (text: string)
    ensures text == "" <==> originalPrice.None?
  {
    if originalPrice.Some? then CentsToString(originalPrice.value) else ""
  }

  /** The `original_price` sent: `null` for an empty field, else what `parseFloat` reads (`None` is NaN). */
  datatype PriceField = NullPrice | PriceNumber(parsed: Option<real>)

  /** The columns a save sends. */
  datatype PackagePayload = PackagePayload(
    name: string,
    amount: Option<int>,
    price: Option<real>,
    originalPrice: PriceField,
    description: string,
    isFeatured: bool,
    isActive: bool)

  /** What a save does: nothing (a required field is empty), create a package, or update one. */
  datatype SaveRequest = Rejected | Create(payload: PackagePayload) | Update(id: string, payload: PackagePayload)

  /** `formOriginalPrice ? parseFloat(formOriginalPrice) : null`. */
  function OriginalPriceField(text: string): (r: PriceField)
    ensures r == NullPrice <==> text == ""
  {
    if text != "" then PriceNumber(ParseFloat(text)) else NullPrice
  }

  /** The payload built from the form. */
  function Payload(f: PackageForm): (p: PackagePayload)
    ensures p.name == f.name && p.description == f.description
    ensures p.isFeatured == f.isFeatured && p.isActive == f.isActive
    ensures p.originalPrice == NullPrice <==> f.originalPrice == ""
    ensures p.amount == ParseInt(f.amount) && p.price == ParseFloat(f.price)
  {
    PackagePayload(
      f.name,
      ParseInt(f.amount),
      ParseFloat(f.price),
      OriginalPriceField(f.originalPrice),
      f.description,
      f.isFeatured,
      f.isActive)
  }

  /**
   * `handleSave`'s decision: reject when the name, amount or price field is empty; otherwise
   * update the package being edited, or create one when none is.
   */
  function SaveRequestFor(f: PackageForm, editing: Option<Package>): (r: SaveRequest)
    ensures r == Rejected <==> f.name == "" || f.amount == "" || f.price == ""
    ensures r.Update? <==> r != Rejected && editing.Some?
    ensures r.Update? ==> r.id == editing.value.id
    ensures r.Create? <==> r != Rejected && editing.None?
    ensures r != Rejected ==> r.payload == Payload(f)
  {
    if f.name == "" || f.amount == "" || f.price == "" then Rejected
    else if editing.Some? then Update(editing.value.id, Payload(f))
    else Create(Payload(f))
  }

  function OwnOriginalPrice(originalPrice: Option<int>): PriceField
  {
    if originalPrice.None? then NullPrice else PriceNumber(Some(Units(originalPrice.value)))
  }

  /** The payload that writes a package's own values back. */
  function OwnPayload(pkg: Package): PackagePayload
  {
    PackagePayload(
      pkg.name,
      Some(pkg.amount),
      Some(Units(pkg.price)),
      OwnOriginalPrice(pkg.originalPrice),
      pkg.description.GetOr(""),
      pkg.isFeatured,
      pkg.isActive)
  }

  /** An original price survives the trip through its text field. */
  lemma {:induction false} OriginalPriceReadsBack(originalPrice: Option<int>)
    ensures OriginalPriceField(OriginalPriceText(originalPrice)) == OwnOriginalPrice(originalPrice)
  {
    if originalPrice.Some? {
      var cents := originalPrice.value;
      assert OriginalPriceText(originalPrice) == CentsToString(cents);
      assert OwnOriginalPrice(originalPrice) == PriceNumber(Some(Units(cents)));
      OriginalFieldOfCents(cents);
    }
  }

  lemma {:induction false} OriginalFieldOfCents(cents: int)
    ensures OriginalPriceField(CentsToString(cents)) == PriceNumber(Some(Units(cents)))
  {
    ParseFloatOfCentsToString(cents);
  }

  /** The prefilled form, field by field. */
  lemma EditFormFields(pkg: Package)
    ensures var f := EditForm(pkg);
            && f.name == pkg.name && f.description == pkg.description.GetOr("")
            && f.isFeatured == pkg.isFeatured && f.isActive == pkg.isActive
            && f.amount == IntToString(pkg.amount) && f.price == CentsToString(pkg.price)
            && f.originalPrice == OriginalPriceText(pkg.originalPrice)
  {
  }

  /** Two payloads with the same seven columns are the same payload. */
  lemma SamePayload(p: PackagePayload, q: PackagePayload)
    requires p.name == q.name && p.description == q.description
    requires p.isFeatured == q.isFeatured && p.isActive == q.isActive
    requires p.amount == q.amount && p.price == q.price && p.originalPrice == q.originalPrice
    ensures p == q
  {
  }

  /** The prefilled amount field parses back to the package's amount. */
  lemma EditAmountParses(pkg: Package)
    ensures ParseInt(EditForm(pkg).amount) == Some(pkg.amount)
  {
    ParseIntOfIntToString(pkg.amount);
  }

  /** The prefilled price field parses back to the package's price. */
  lemma EditPriceParses(pkg: Package)
    ensures ParseFloat(EditForm(pkg).price) == Some(Units(pkg.price))
  {
    ParseFloatOfCentsToString(pkg.price);
  }

  /** The prefilled original-price field is sent as the package's original price. */
  lemma EditOriginalParses(pkg: Package)
    ensures OriginalPriceField(EditForm(pkg).originalPrice) == OwnOriginalPrice(pkg.originalPrice)
  {
    OriginalPriceReadsBack(pkg.originalPrice);
  }

  lemma AmountSaved(f: PackageForm, pkg: Package)
    requires ParseInt(f.amount) == Some(pkg.amount)
    ensures Payload(f).amount == OwnPayload(pkg).amount
  {
  }

  lemma PriceSaved(f: PackageForm, pkg: Package)
    requires ParseFloat(f.price) == Some(Units(pkg.price))
    ensures Payload(f).price == OwnPayload(pkg).price
  {
  }

  lemma OriginalSaved(f: PackageForm, pkg: Package)
    requires OriginalPriceField(f.originalPrice) == OwnOriginalPrice(pkg.originalPrice)
    ensures Payload(f).originalPrice == OwnPayload(pkg).originalPrice
  {
  }

  /** The fields copied without conversion are saved as they are. */
  lemma CopiedFieldsSaved(f: PackageForm, pkg: Package)
    requires f.name == pkg.name && f.description == pkg.description.GetOr("")
    requires f.isFeatured == pkg.isFeatured && f.isActive == pkg.isActive
    ensures var p, q := Payload(f), OwnPayload(pkg);
            && p.name == q.name && p.description == q.description
            && p.isFeatured == q.isFeatured && p.isActive == q.isActive
  {
  }

  /** The amount and the prices survive the trip through the form's text. */
  lemma {:induction false} EditFormReadsBack(pkg: Package)
    ensures Payload(EditForm(pkg)) == OwnPayload(pkg)
  {
    var f := EditForm(pkg);
    EditFormFields(pkg);
    EditAmountParses(pkg);
    EditPriceParses(pkg);
    EditOriginalParses(pkg);
    AmountSaved(f, pkg);
    PriceSaved(f, pkg);
    OriginalSaved(f, pkg);
    CopiedFieldsSaved(f, pkg);
    SamePayload(Payload(f), OwnPayload(pkg));
  }

  /** Opening a package and saving it untouched sends an update of that package with its own values. */
  lemma {:induction false} UntouchedEditKeepsValues(pkg: Package)
    requires pkg.name != ""
    ensures SaveRequestFor(EditForm(pkg), Some(pkg)) == Update(pkg.id, OwnPayload(pkg))
  {
    EditFormReadsBack(pkg);
  }

  /** A blank form is never saved. */
  lemma BlankFormRejected(editing: Option<Package>)
    ensures SaveRequestFor(BlankForm, editing) == Rejected
  {
  }

  /** The editor screen's state. */
  class PackageEditor {
    var modalVisible: bool
    var editingPackage: Option<Package>
    var formName: string
    var formAmount: string
    var formPrice: string
    var formOriginalPrice: string
    var formDescription: string
    var formIsFeatured: bool
    var formIsActive: bool

    /** The seven form fields as one value. */
    function Form(): PackageForm
      reads this
    {
      PackageForm(formName, formAmount, formPrice, formOriginalPrice, formDescription, formIsFeatured, formIsActive)
    }

    constructor ()
      ensures Form() == BlankForm && !modalVisible && editingPackage.None?
    {
      modalVisible := false;
      editingPackage := None;
      formName := "";
      formAmount := "";
      formPrice := "";
      formOriginalPrice := "";
      formDescription := "";
      formIsFeatured := false;
      formIsActive := true;
    }

    /** `resetForm`: the seven fields back to their initial values, nothing else touched. */
    method ResetForm()
      modifies this
      ensures Form() == BlankForm
      ensures modalVisible == old(modalVisible) && editingPackage == old(editingPackage)
    {
      formName := "";
      formAmount := "";
      formPrice := "";
      formOriginalPrice := "";
      formDescription := "";
      formIsFeatured := false;
      formIsActive := true;
    }

    /** `openCreateModal`: no package being edited, a blank form, the modal open. */
    method OpenCreateModal()
      modifies this
      ensures editingPackage.None? && Form() == BlankForm && modalVisible
    {
      editingPackage := None;
      ResetForm();
      modalVisible := true;
    }

    /** `openEditModal(pkg)`: the package remembered, the form prefilled from it, the modal open. */
    method OpenEditModal(pkg: Package)
      modifies this
      ensures editingPackage == Some(pkg) && Form() == EditForm(pkg) && modalVisible
    {
      editingPackage := Some(pkg);
      formName := pkg.name;
      formAmount := IntToString(pkg.amount);
      formPrice := CentsToString(pkg.price);
      formOriginalPrice := OriginalPriceText(pkg.originalPrice);
      formDescription := pkg.description.GetOr("");
      formIsFeatured := pkg.isFeatured;
      formIsActive := pkg.isActive;
      modalVisible := true;
    }

    /**
     * `handleSave`: the request sent for the current form (none when rejected); only a
     * successful create or update closes the modal and resets the form. The service's
     * answer is the parameter `succeeded`.
     */
    method HandleSave(succeeded: bool) returns (request: SaveRequest)
      modifies this
      ensures request == SaveRequestFor(old(Form()), old(editingPackage))
      ensures editingPackage == old(editingPackage)
      ensures request != Rejected && succeeded ==> !modalVisible && Form() == BlankForm
      ensures request == Rejected || !succeeded ==> modalVisible == old(modalVisible) && Form() == old(Form())
    {
      request := SaveRequestFor(Form(), editingPackage);
      if request == Rejected {
        return;
      }
      if succeeded {
        modalVisible := false;
        ResetForm();
      }
    }
  }
}
