/**
 * The rows the app reads from its backend tables, as the screens see them. Money is in
 * integer cents; a nullable column is an `Option`.
 */
module Entities {
  import opened Wrappers

  /** A row of `packages`: a top-up of `amount` CUP sold for `price` cents. */
  datatype Package = Package(
    id: string,
    name: string,
    amount: int,
    price: int,
    originalPrice: Option<int>,
    description: Option<string>,
    isFeatured: bool,
    isActive: bool)

  /** A row of `profiles`; `favoriteNumbers` is `None` when the column holds no array. */
  datatype Profile = Profile(
    id: string,
    name: Option<string>,
    email: Option<string>,
    phone: Option<string>,
    role: Option<string>,
    totalSpent: Option<int>,
    favoriteNumbers: Option<seq<string>>)

  /** `profile?.role === 'admin'`: an absent profile is not an administrator. */
  predicate IsAdminProfile(profile: Option<Profile>)
  {
    profile.Some? && profile.value.role == Some("admin")
  }

  /**
   * A row of `orders` joined with its buyer's profile and its package, as the administrator's
   * order list fetches it; the joined columns are absent when the join finds nothing.
   */
  datatype OrderRow = OrderRow(
    id: string,
    status: string,
    amount: int,
    phoneNumber: Option<string>,
    profileName: Option<string>,
    profileEmail: Option<string>,
    packageName: Option<string>)
}
