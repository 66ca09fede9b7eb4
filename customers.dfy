/** The customer table of the admin console: delete, Active/Inactive toggle,
    approve, disapprove, add with a fresh id, and the search and status filter
    the table is drawn from. */
module Customers {
  import opened Text
  import Records

  datatype Customer = Customer(
    id: int, name: string, email: string, phone: string, status: string, approved: bool)

  /** The values the Add User form yields: its four registered fields. */
  datatype CustomerForm = CustomerForm(name: string, email: string, phone: string, status: string)

  function CustomerId(u: Customer): int { u.id }

  const InitialUsers: seq<Customer> := [
    Customer(1, "John Doe", "john@example.com", "+91xxxxxxxxx78", "Active", false),
    Customer(2, "Jane Smith", "jane@example.com", "+91xxxxxxxxx78", "Inactive", false),
    Customer(3, "Michael Johnson", "michael@example.com", "+91xxxxxxxxx78", "Active", true),
    Customer(4, "Emily Davis", "emily@example.com", "+91xxxxxxxxx78", "Active", false),
    Customer(5, "William Brown", "william@example.com", "+91xxxxxxxxx78", "Inactive", true)
  ]

  /** The toggle button's rewrite of one user. */
  function ToggleUser(u: Customer): Customer
  {
    u.(status := Records.FlipStatus(u.status))
  }

  /** The approve button's rewrite of one user. */
  function ApproveUser(u: Customer): Customer
  {
    u.(approved := true)
  }

  /** The disapprove button's rewrite of one user. */
  function DisapproveUser(u: Customer): Customer
  {
    u.(approved := false)
  }

  /** Toggling id `id` flips the status of exactly the users with that id and
      changes nothing else about them; every other user is unchanged. */
  lemma ToggleSpec(users: seq<Customer>, id: int)
    ensures var r := Records.UpdateWhere(users, CustomerId, id, ToggleUser);
      && |r| == |users|
      && (forall i :: 0 <= i < |users| && users[i].id == id ==>
            && (r[i].status == "Inactive" <==> users[i].status == "Active")
            && (r[i].status == "Active" <==> users[i].status != "Active")
            && r[i].(status := users[i].status) == users[i])
      && (forall i :: 0 <= i < |users| && users[i].id != id ==> r[i] == users[i])
  {
  }

  /** Toggling the same id twice restores the list when the users with that
      id are Active or Inactive. */
  lemma ToggleTwice(users: seq<Customer>, id: int)
    requires forall i :: 0 <= i < |users| && users[i].id == id ==>
               users[i].status == "Active" || users[i].status == "Inactive"
    ensures Records.UpdateWhere(Records.UpdateWhere(users, CustomerId, id, ToggleUser), CustomerId, id, ToggleUser) == users
  {
    Records.UpdateTwice(users, CustomerId, id, ToggleUser);
  }

  /** Approve marks exactly the users with that id approved, changes nothing
      else, and approving twice is approving once. */
  lemma ApproveSpec(users: seq<Customer>, id: int)
    ensures var r := Records.UpdateWhere(users, CustomerId, id, ApproveUser);
      && |r| == |users|
      && (forall i :: 0 <= i < |users| && users[i].id == id ==>
            r[i].approved && r[i].(approved := users[i].approved) == users[i])
      && (forall i :: 0 <= i < |users| && users[i].id != id ==> r[i] == users[i])
      && Records.UpdateWhere(r, CustomerId, id, ApproveUser) == r
  {
    Records.UpdateIdempotent(users, CustomerId, id, ApproveUser);
  }

  /** Disapprove clears the approval of exactly the users with that id,
      changes nothing else, and disapproving twice is disapproving once. */
  lemma DisapproveSpec(users: seq<Customer>, id: int)
    ensures var r := Records.UpdateWhere(users, CustomerId, id, DisapproveUser);
      && |r| == |users|
      && (forall i :: 0 <= i < |users| && users[i].id == id ==>
            !r[i].approved && r[i].(approved := users[i].approved) == users[i])
      && (forall i :: 0 <= i < |users| && users[i].id != id ==> r[i] == users[i])
      && Records.UpdateWhere(r, CustomerId, id, DisapproveUser) == r
  {
    Records.UpdateIdempotent(users, CustomerId, id, DisapproveUser);
  }

  /** The id of a new user: one more than the largest id, or 1 for an empty
      list. It is larger than every id in the list. */
  function NextId(users: seq<Customer>): (r: int)
    ensures forall u :: u in users ==> u.id < r
    ensures users == [] ==> r == 1
    ensures users != [] ==> exists u :: u in users && u.id == r - 1
  {
    if |users| == 0 then 1 else Records.MaxKeyAtLeast(users, CustomerId, users[0].id) + 1
  }

  /** The user the Add User form creates: the form's fields, a fresh id, and
      not approved. */
  function NewUser(users: seq<Customer>, values: CustomerForm): Customer
  {
    Customer(NextId(users), values.name, values.email, values.phone, values.status, false)
  }

  /** Adding appends one user with the form's fields, not approved, whose id
      is new, so distinct ids stay distinct. */
  lemma AddSpec(users: seq<Customer>, values: CustomerForm)
    ensures var r := users + [NewUser(users, values)];
      && |r| == |users| + 1 && r[..|users|] == users
      && r[|users|].name == values.name && r[|users|].email == values.email
      && r[|users|].phone == values.phone && r[|users|].status == values.status
      && !r[|users|].approved
      && (forall u :: u in users ==> u.id != r[|users|].id)
      && (Records.DistinctKeys(users, CustomerId) ==> Records.DistinctKeys(r, CustomerId))
  {
    if Records.DistinctKeys(users, CustomerId) {
      Records.AppendFreshDistinct(users, CustomerId, NewUser(users, values));
    }
  }

  /** The row test of the customer table: the status filter is "All" or the
      user's status, and the lower-cased search text occurs in the lower-cased
      name, email or phone. */
  predicate Visible(u: Customer, searchText: string, statusFilter: string)
  {
    && (statusFilter == "All" || u.status == statusFilter)
    && (|| Includes(Lower(u.name), Lower(searchText))
        || Includes(Lower(u.email), Lower(searchText))
        || Includes(Lower(u.phone), Lower(searchText)))
  }

  function VisibleFor(searchText: string, statusFilter: string): Customer -> bool
  {
    (u: Customer) => Visible(u, searchText, statusFilter)
  }

  /** The users the table shows. */
  function Filtered(users: seq<Customer>, searchText: string, statusFilter: string): seq<Customer>
  {
    Records.Keep(users, VisibleFor(searchText, statusFilter))
  }

  /** A user is shown exactly when it passes the status filter and the search
      text stands somewhere in its lower-cased name, email or phone; the shown
      users keep the list's order. */
  lemma FilteredSpec(users: seq<Customer>, searchText: string, statusFilter: string)
    ensures forall u :: u in Filtered(users, searchText, statusFilter) <==>
      && u in users
      && (statusFilter == "All" || u.status == statusFilter)
      && (|| (exists k :: OccursAt(Lower(u.name), Lower(searchText), k))
          || (exists k :: OccursAt(Lower(u.email), Lower(searchText), k))
          || (exists k :: OccursAt(Lower(u.phone), Lower(searchText), k)))
    ensures Records.IsSubsequence(Filtered(users, searchText, statusFilter), users)
  {
    forall u | u in users
      ensures Visible(u, searchText, statusFilter) <==>
        && (statusFilter == "All" || u.status == statusFilter)
        && (|| (exists k :: OccursAt(Lower(u.name), Lower(searchText), k))
            || (exists k :: OccursAt(Lower(u.email), Lower(searchText), k))
            || (exists k :: OccursAt(Lower(u.phone), Lower(searchText), k)))
    {
      IncludesAt(Lower(u.name), Lower(searchText));
      IncludesAt(Lower(u.email), Lower(searchText));
      IncludesAt(Lower(u.phone), Lower(searchText));
    }
    Records.KeepIsSubsequence(users, VisibleFor(searchText, statusFilter));
  }

  /** With "All" selected and an empty search the table shows every user. */
  lemma FilteredShowsAll(users: seq<Customer>)
    ensures Filtered(users, "", "All") == users
  {
    forall i | 0 <= i < |users| ensures Visible(users[i], "", "All") {
      IncludesEmpty(Lower(users[i].name));
    }
    Records.KeepAllIff(users, VisibleFor("", "All"));
  }

  /** The Status column's `onFilter` test for the selected value. */
  function HasStatus(value: string): Customer -> bool
  {
    (u: Customer) => u.status == value
  }

  /** The Approval column's `onFilter` test for the selected value. */
  function HasApproval(value: bool): Customer -> bool
  {
    (u: Customer) => u.approved == value
  }

  /** The column filters keep exactly the rows with the selected status or
      approval, in their order; the two approval values split the rows. */
  lemma ColumnFiltersSpec(rows: seq<Customer>, status: string, approved: bool)
    ensures forall u :: u in Records.Keep(rows, HasStatus(status)) <==> u in rows && u.status == status
    ensures forall u :: u in Records.Keep(rows, HasApproval(approved)) <==> u in rows && u.approved == approved
    ensures Records.IsSubsequence(Records.Keep(rows, HasStatus(status)), rows)
    ensures Records.IsSubsequence(Records.Keep(rows, HasApproval(approved)), rows)
    ensures |Records.Keep(rows, HasApproval(true))| + |Records.Keep(rows, HasApproval(false))| == |rows|
  {
    Records.KeepIsSubsequence(rows, HasStatus(status));
    Records.KeepIsSubsequence(rows, HasApproval(approved));
    Records.KeepSplit(rows, HasApproval(true), HasApproval(false));
  }

  /** The customer management page's state: the users, the search text and
      the selected status. Ids stay distinct. */
  class CustomerManagement {
    var users: seq<Customer>
    var searchText: string
    var statusFilter: string
    var isModalOpen: bool

    ghost predicate Valid()
      reads this
    {
      Records.DistinctKeys(users, CustomerId)
    }

    constructor ()
      ensures Valid()
      ensures users == InitialUsers && searchText == "" && statusFilter == "All" && !isModalOpen
    {
      users := InitialUsers;
      searchText := "";
      statusFilter := "All";
      isModalOpen := false;
    }

    /** The modal's cancel handler. */
    method SetModalOpen(open: bool)
      modifies this`isModalOpen
      ensures isModalOpen == open
    {
      isModalOpen := open;
    }

    /** Removes the users with id `id`. */
    method HandleDelete(id: int)
      requires Valid()
      modifies this`users
      ensures Valid()
      ensures users == Records.Without(old(users), CustomerId, id)
    {
      Records.WithoutSpec(users, CustomerId, id);
      users := Records.Without(users, CustomerId, id);
    }

    /** Flips the status of the users with id `id`. */
    method HandleToggleStatus(id: int)
      requires Valid()
      modifies this`users
      ensures Valid()
      ensures users == Records.UpdateWhere(old(users), CustomerId, id, ToggleUser)
    {
      Records.UpdateDistinct(users, CustomerId, id, ToggleUser);
      users := Records.UpdateWhere(users, CustomerId, id, ToggleUser);
    }

    /** Marks the users with id `id` approved. */
    method HandleApprove(id: int)
      requires Valid()
      modifies this`users
      ensures Valid()
      ensures users == Records.UpdateWhere(old(users), CustomerId, id, ApproveUser)
    {
      Records.UpdateDistinct(users, CustomerId, id, ApproveUser);
      users := Records.UpdateWhere(users, CustomerId, id, ApproveUser);
    }

    /** Marks the users with id `id` not approved. */
    method HandleDisapprove(id: int)
      requires Valid()
      modifies this`users
      ensures Valid()
      ensures users == Records.UpdateWhere(old(users), CustomerId, id, DisapproveUser)
    {
      Records.UpdateDistinct(users, CustomerId, id, DisapproveUser);
      users := Records.UpdateWhere(users, CustomerId, id, DisapproveUser);
    }

    /** Appends the user made from the validated form values and closes the
        modal. */
    method HandleAddUser(values: CustomerForm)
      requires Valid()
      modifies this`users, this`isModalOpen
      ensures Valid()
      ensures users == old(users) + [NewUser(old(users), values)] && !isModalOpen
    {
      AddSpec(users, values);
      users := users + [NewUser(users, values)];
      isModalOpen := false;
    }

    /** The search box's change handler. */
    method SetSearchText(text: string)
      modifies this`searchText
      ensures searchText == text
    {
      searchText := text;
    }

    /** The status select's change handler. */
    method SetStatusFilter(value: string)
      modifies this`statusFilter
      ensures statusFilter == value
    {
      statusFilter := value;
    }

    /** The rows the table shows for the current state. */
    function FilteredUsers(): seq<Customer>
      reads this
    {
      Filtered(users, searchText, statusFilter)
    }
  }
}
