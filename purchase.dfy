/**
 * Buying a package from the catalogue or home screen: the featured package the home screen
 * puts first, and the steps a confirmed purchase goes through (insert the completed order,
 * raise the buyer's total, notify, close the modal, tell the buyer). The two screens carry
 * the same purchase handler; it is modelled once.
 */
module Purchase {
  import opened Wrappers
  import opened Entities
  import opened Orders

  /** Index of the package `data.find(pkg => pkg.is_featured)` returns: the first featured one. */
  function FeaturedIndex(data: seq<Package>): (r: Option<nat>)
    ensures r.Some? ==> r.value < |data| && data[r.value].isFeatured
    ensures r.Some? ==> forall j :: 0 <= j < r.value ==> !data[j].isFeatured
    ensures r.None? <==> forall j :: 0 <= j < |data| ==> !data[j].isFeatured
  {
    if data == [] then None
    else if data[0].isFeatured then Some(0)
    else match FeaturedIndex(data[1..])
      case None => None
      case Some(i) => Some(i + 1)
  }

  /**
   * `data.find(pkg => pkg.is_featured) || data[0]`: the first featured package, else the
   * first package, and nothing for an empty list (the hero section is then hidden).
   */
  function FeaturedPackage(data: seq<Package>): (r: Option<Package>)
    ensures r.Some? <==> data != []
    ensures (exists i :: 0 <= i < |data| && data[i].isFeatured) ==>
              r.Some? && r.value.isFeatured
              && exists i :: 0 <= i < |data| && data[i] == r.value && forall j :: 0 <= j < i ==> !data[j].isFeatured
    ensures data != [] && (forall j :: 0 <= j < |data| ==> !data[j].isFeatured) ==> r == Some(data[0])
  {
    match FeaturedIndex(data)
    case Some(i) => Some(data[i])
    case None => if data == [] then None else Some(data[0])
  }

  /** Whether the home screen shows its hero section. */
  predicate HeroShown(data: seq<Package>)
  {
    FeaturedPackage(data).Some?
  }

  /** The hero section is hidden exactly when there are no packages. */
  lemma HeroHiddenIffEmpty(data: seq<Package>)
    ensures !HeroShown(data) <==> data == []
  {
  }

  /** What the purchase handler does, in order. */
  datatype Effect =
    | InsertOrder(record: OrderInsert)
    | UpdateTotalSpent(total: int)
    | NotifyRecharge(phoneNumber: string, amount: int)
    | CloseModal
    | ShowSuccess(amount: int, phoneNumber: string)
    | ShowError(message: string)

  const DefaultPurchaseError: string := "No se pudo completar la compra"

  /** `(profile?.total_spent || 0) + price`. */
  function NewTotal(profile: Option<Profile>, price: int): (total: int)
    ensures profile.None? || profile.value.totalSpent.None? ==> total == price
    ensures profile.Some? && profile.value.totalSpent.Some? ==> total == profile.value.totalSpent.value + price
  {
    var spent := if profile.Some? then profile.value.totalSpent.GetOr(0) else 0;
    spent + price
  }

  /** The message shown for a failed insert: the error's own, or the default when it has none. */
  function ErrorText(message: string): (r: string)
    ensures r != []
    ensures message != [] ==> r == message
  {
    if message == "" then DefaultPurchaseError else message
  }

  /**
   * The steps of `handleConfirmPurchase` for `pkg` bought by `userId` for `phoneNumber`,
   * given the insert's outcome (`insertError` holds the error's message when it failed).
   */
  function PurchaseEffects(userId: string, profile: Option<Profile>, pkg: Package, phoneNumber: string,
                           now: string, insertError: Option<string>): (r: seq<Effect>)
    ensures |r| >= 2 && r[0] == InsertOrder(DirectPurchaseRecord(userId, pkg.id, phoneNumber, pkg.price, now))
    ensures insertError.Some? <==> |r| == 2
    ensures insertError.Some? ==> r[1] == ShowError(ErrorText(insertError.value))
    ensures insertError.None? ==>
              r[1..] == [UpdateTotalSpent(NewTotal(profile, pkg.price)), NotifyRecharge(phoneNumber, pkg.amount),
                         CloseModal, ShowSuccess(pkg.amount, phoneNumber)]
  {
    [InsertOrder(DirectPurchaseRecord(userId, pkg.id, phoneNumber, pkg.price, now))]
    + match insertError
      case Some(m) => [ShowError(ErrorText(m))]
      case None =>
        [UpdateTotalSpent(NewTotal(profile, pkg.price)), NotifyRecharge(phoneNumber, pkg.amount),
         CloseModal, ShowSuccess(pkg.amount, phoneNumber)]
  }

  /** The total is written, and the buyer notified, exactly when the insert succeeded. */
  lemma TotalOnlyAfterInsert(userId: string, profile: Option<Profile>, pkg: Package, phoneNumber: string,
                             now: string, insertError: Option<string>)
    ensures var r := PurchaseEffects(userId, profile, pkg, phoneNumber, now, insertError);
            && ((exists i :: 0 <= i < |r| && r[i].UpdateTotalSpent?) <==> insertError.None?)
            && ((exists i :: 0 <= i < |r| && r[i].NotifyRecharge?) <==> insertError.None?)
            && (insertError.Some? ==> r[|r| - 1].ShowError?)
  {
    var r := PurchaseEffects(userId, profile, pkg, phoneNumber, now, insertError);
    if insertError.None? {
      assert r[1].UpdateTotalSpent? && r[2].NotifyRecharge?;
    }
  }

  /** On success the total is written before the notification, which comes before the modal closes. */
  lemma TotalBeforeNotifyBeforeClose(userId: string, profile: Option<Profile>, pkg: Package, phoneNumber: string,
                                     now: string)
    ensures var r := PurchaseEffects(userId, profile, pkg, phoneNumber, now, None);
            forall i, j :: 0 <= i < |r| && 0 <= j < |r| && r[i].UpdateTotalSpent? && (r[j].NotifyRecharge? || r[j] == CloseModal) ==> i < j
  {
    var r := PurchaseEffects(userId, profile, pkg, phoneNumber, now, None);
    assert r[1..] == [r[1], r[2], r[3], r[4]];
  }

  /** The recorded order charges the package's price to the number confirmed, and raises the total by it. */
  lemma PurchaseChargesPrice(userId: string, profile: Option<Profile>, pkg: Package, phoneNumber: string, now: string)
    ensures var r := PurchaseEffects(userId, profile, pkg, phoneNumber, now, None);
            && r[0].record.amount == pkg.price && r[0].record.phoneNumber == phoneNumber
            && r[1].total - (if profile.Some? then profile.value.totalSpent.GetOr(0) else 0) == pkg.price
  {
  }

  /** The screen state the handler touches, and the log of what it has done. */
  class PurchaseScreen {
    var selectedPackage: Option<Package>
    var modalVisible: bool
    var effects: seq<Effect>

    constructor ()
      ensures selectedPackage.None? && !modalVisible && effects == []
    {
      selectedPackage := None;
      modalVisible := false;
      effects := [];
    }

    /** `handleBuyPackage`: remember the package and open the purchase modal. */
    method BuyPackage(pkg: Package)
      modifies this
      ensures selectedPackage == Some(pkg) && modalVisible && effects == old(effects)
    {
      selectedPackage := Some(pkg);
      modalVisible := true;
    }

    /**
     * `handleConfirmPurchase(phoneNumber)`: insert the completed order; if that fails, show
     * the error and stop; otherwise write the new total, notify, close the modal and show
     * the success message.
     */
    method ConfirmPurchase(userId: string, profile: Option<Profile>, phoneNumber: string, now: string,
                           insertError: Option<string>)
      requires selectedPackage.Some?
      modifies this
      ensures selectedPackage == old(selectedPackage)
      ensures effects == old(effects)
                         + PurchaseEffects(userId, profile, selectedPackage.value, phoneNumber, now, insertError)
      ensures modalVisible == (insertError.Some? && old(modalVisible))
    {
      var pkg := selectedPackage.value;
      effects := effects + [InsertOrder(DirectPurchaseRecord(userId, pkg.id, phoneNumber, pkg.price, now))];
      if insertError.Some? {
        effects := effects + [ShowError(ErrorText(insertError.value))];
        return;
      }
      effects := effects + [UpdateTotalSpent(NewTotal(profile, pkg.price))];
      effects := effects + [NotifyRecharge(phoneNumber, pkg.amount)];
      modalVisible := false;
      effects := effects + [CloseModal];
      effects := effects + [ShowSuccess(pkg.amount, phoneNumber)];
    }
  }
}
