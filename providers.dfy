/** The provider table of the admin console: delete, Active/Inactive toggle,
    add with a fresh id, and the status column filter. */
module Providers {
  import opened Wrappers
  import Records

  /** A provider. Providers added through the form have no category and no
      join date, because the form does not ask for them. */
  datatype Provider = Provider(
    id: int, name: string, email: string, phone: string,
    category: Option<string>, joinDate: Option<string>, status: string)

  /** The values the Add User form yields: its four registered fields. */
  datatype ProviderForm = ProviderForm(name: string, email: string, phone: string, status: string)

  function ProviderId(p: Provider): int { p.id }

  const InitialProviders: seq<Provider> := [
    Provider(1, "John Doe", "john@example.com", "+91 9876543210", Some("Saloon"), Some("2025-06-15"), "Active"),
    Provider(2, "Jane Smith", "jane@example.com", "+91 9123456780", Some("Health Care"), Some("2025-02-10"), "Inactive"),
    Provider(3, "Michael Johnson", "michael@example.com", "+91 7894561230", Some("Pet Clinic"), Some("2024-12-01"), "Active"),
    Provider(4, "Emily Davis", "emily@example.com", "+91 7012345678", Some("Spa"), Some("2025-07-20"), "Active"),
    Provider(5, "William Brown", "william@example.com", "+91 8096543212", Some("Automotive Car"), Some("2025-03-05"), "Inactive"),
    Provider(6, "Sophia Lee", "sophia@example.com", "+91 9988776655", Some("Retail/Designer"), Some("2025-04-17"), "Active")
  ]

  /** The toggle button's rewrite of one provider. */
  function ToggleProvider(p: Provider): Provider
  {
    p.(status := Records.FlipStatus(p.status))
  }

  /** Toggling id `id` flips Active to Inactive and anything else to Active on
      exactly the providers with that id, changes nothing else about them, and
      leaves every other provider as it is; toggling twice restores providers
      that were Active or Inactive. */
  lemma ToggleSpec(providers: seq<Provider>, id: int)
    ensures var r := Records.UpdateWhere(providers, ProviderId, id, ToggleProvider);
      && |r| == |providers|
      && (forall i :: 0 <= i < |providers| && providers[i].id == id ==>
            && (r[i].status == "Inactive" <==> providers[i].status == "Active")
            && (r[i].status == "Active" <==> providers[i].status != "Active")
            && r[i].(status := providers[i].status) == providers[i])
      && (forall i :: 0 <= i < |providers| && providers[i].id != id ==> r[i] == providers[i])
      && ((forall i :: 0 <= i < |providers| && providers[i].id == id ==>
             providers[i].status == "Active" || providers[i].status == "Inactive")
          ==> Records.UpdateWhere(r, ProviderId, id, ToggleProvider) == providers)
  {
    if forall i :: 0 <= i < |providers| && providers[i].id == id ==>
         providers[i].status == "Active" || providers[i].status == "Inactive"
    {
      Records.UpdateTwice(providers, ProviderId, id, ToggleProvider);
    }
  }

  /** The id of a new provider: one more than the largest id, or 1 for an
      empty list. It is larger than every id in the list. */
  function NextId(providers: seq<Provider>): (r: int)
    ensures forall p :: p in providers ==> p.id < r
    ensures providers == [] ==> r == 1
    ensures providers != [] ==> exists p :: p in providers && p.id == r - 1
  {
    if |providers| == 0 then 1 else Records.MaxKeyAtLeast(providers, ProviderId, providers[0].id) + 1
  }

  /** The provider the Add User form creates: a fresh id and the form's fields. */
  function NewProvider(providers: seq<Provider>, values: ProviderForm): Provider
  {
    Provider(NextId(providers), values.name, values.email, values.phone, None, None, values.status)
  }

  /** Adding appends one provider with the form's fields, no category and no
      join date, whose id is new, so distinct ids stay distinct. */
  lemma AddSpec(providers: seq<Provider>, values: ProviderForm)
    ensures var r := providers + [NewProvider(providers, values)];
      && |r| == |providers| + 1 && r[..|providers|] == providers
      && r[|providers|].name == values.name && r[|providers|].email == values.email
      && r[|providers|].phone == values.phone && r[|providers|].status == values.status
      && r[|providers|].category == None && r[|providers|].joinDate == None
      && (forall p :: p in providers ==> p.id != r[|providers|].id)
      && (Records.DistinctKeys(providers, ProviderId) ==> Records.DistinctKeys(r, ProviderId))
  {
    if Records.DistinctKeys(providers, ProviderId) {
      Records.AppendFreshDistinct(providers, ProviderId, NewProvider(providers, values));
    }
  }

  /** The status column's `onFilter` test for the selected value. */
  function HasStatus(value: string): Provider -> bool
  {
    (p: Provider) => p.status == value
  }

  /** The status filter keeps exactly the providers whose status is the
      selected value, in their order, and keeps them all when every provider
      has that status. */
  lemma StatusFilterSpec(providers: seq<Provider>, value: string)
    ensures forall p :: p in Records.Keep(providers, HasStatus(value)) <==> p in providers && p.status == value
    ensures Records.IsSubsequence(Records.Keep(providers, HasStatus(value)), providers)
    ensures Records.Keep(providers, HasStatus(value)) == providers <==>
            forall i :: 0 <= i < |providers| ==> providers[i].status == value
  {
    Records.KeepIsSubsequence(providers, HasStatus(value));
    Records.KeepAllIff(providers, HasStatus(value));
  }

  /** The providers management page's state. Ids stay distinct. */
  class ProvidersManagement {
    var users: seq<Provider>
    var isModalOpen: bool

    ghost predicate Valid()
      reads this
    {
      Records.DistinctKeys(users, ProviderId)
    }

    constructor ()
      ensures Valid() && users == InitialProviders && !isModalOpen
    {
      users := InitialProviders;
      isModalOpen := false;
    }

    /** The modal's cancel handler. */
    method SetModalOpen(open: bool)
      modifies this`isModalOpen
      ensures isModalOpen == open
    {
      isModalOpen := open;
    }

    /** Removes the providers with id `id`. */
    method HandleDelete(id: int)
      requires Valid()
      modifies this`users
      ensures Valid()
      ensures users == Records.Without(old(users), ProviderId, id)
    {
      Records.WithoutSpec(users, ProviderId, id);
      users := Records.Without(users, ProviderId, id);
    }

    /** Flips the status of the providers with id `id`. */
    method HandleToggleStatus(id: int)
      requires Valid()
      modifies this`users
      ensures Valid()
      ensures users == Records.UpdateWhere(old(users), ProviderId, id, ToggleProvider)
    {
      Records.UpdateDistinct(users, ProviderId, id, ToggleProvider);
      users := Records.UpdateWhere(users, ProviderId, id, ToggleProvider);
    }

    /** Appends the provider made from the validated form values and closes
        the modal. */
    method HandleAddUser(values: ProviderForm)
      requires Valid()
      modifies this`users, this`isModalOpen
      ensures Valid()
      ensures users == old(users) + [NewProvider(old(users), values)] && !isModalOpen
    {
      AddSpec(users, values);
      users := users + [NewProvider(users, values)];
      isModalOpen := false;
    }
  }
}
