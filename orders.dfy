/** The orders table of the admin console: delete, the status tag colour, the
    amount sorter, the category and status column filters, and the details
    modal. */
module Orders {
  import opened Wrappers
  import Records

  datatype Order = Order(
    id: int, orderNumber: string, customerName: string, providerName: string,
    category: string, status: string, orderDate: string, totalAmount: int)

  function OrderId(o: Order): int { o.id }

  const InitialOrders: seq<Order> := [
    Order(1, "ORD-1001", "John Doe", "Saloon", "Beauty", "Completed", "2025-07-20", 1500),
    Order(2, "ORD-1002", "Jane Smith", "Health Care", "Medical", "Pending", "2025-08-10", 2300),
    Order(3, "ORD-1003", "Michael Johnson", "Spa", "Wellness", "Cancelled", "2025-07-25", 800),
    Order(4, "ORD-1004", "Emily Davis", "Pet Clinic", "Pet Care", "Completed", "2025-06-18", 1200),
    Order(5, "ORD-1005", "William Brown", "Automotive Car", "Repair", "Pending", "2025-08-01", 4500)
  ]

  /** The colour of an order's status tag. Each of the three known statuses
      has its own colour and every other status gets "default". */
  function StatusColor(status: string): (color: string)
    ensures color == "green" <==> status == "Completed"
    ensures color == "orange" <==> status == "Pending"
    ensures color == "red" <==> status == "Cancelled"
    ensures color == "default" <==> status != "Completed" && status != "Pending" && status != "Cancelled"
  {
    if status == "Completed" then "green"
    else if status == "Pending" then "orange"
    else if status == "Cancelled" then "red"
    else "default"
  }

  /** The Total Amount column's sorter: negative, zero or positive as the
      first amount is smaller than, equal to or larger than the second. */
  function CompareAmount(a: Order, b: Order): (r: int)
    ensures r < 0 <==> a.totalAmount < b.totalAmount
    ensures r == 0 <==> a.totalAmount == b.totalAmount
    ensures r > 0 <==> a.totalAmount > b.totalAmount
  {
    a.totalAmount - b.totalAmount
  }

  /** The sorter is a consistent comparison: swapping its arguments negates
      it, and it is transitive. */
  lemma CompareAmountConsistent(a: Order, b: Order, c: Order)
    ensures CompareAmount(a, b) == -CompareAmount(b, a)
    ensures CompareAmount(a, b) <= 0 && CompareAmount(b, c) <= 0 ==> CompareAmount(a, c) <= 0
  {
  }

  /** The Category column's `onFilter` test for the selected value. */
  function HasCategory(value: string): Order -> bool
  {
    (o: Order) => o.category == value
  }

  /** The Status column's `onFilter` test for the selected value. */
  function HasStatus(value: string): Order -> bool
  {
    (o: Order) => o.status == value
  }

  /** Each column filter keeps exactly the orders whose field equals the
      selected value, in their order. */
  lemma ColumnFiltersSpec(orders: seq<Order>, value: string)
    ensures forall o :: o in Records.Keep(orders, HasCategory(value)) <==> o in orders && o.category == value
    ensures Records.IsSubsequence(Records.Keep(orders, HasCategory(value)), orders)
    ensures forall o :: o in Records.Keep(orders, HasStatus(value)) <==> o in orders && o.status == value
    ensures Records.IsSubsequence(Records.Keep(orders, HasStatus(value)), orders)
  {
    Records.KeepIsSubsequence(orders, HasCategory(value));
    Records.KeepIsSubsequence(orders, HasStatus(value));
  }

  /** The details modal: whether it is open and which order it shows. */
  datatype ModalState = ModalState(isModalOpen: bool, selectedOrder: Option<Order>)

  /** A click on View for an order, or on Close. */
  datatype ModalEvent = Show(order: Order) | Close

  /** The modal is open exactly when it has an order to show. */
  predicate ModalConsistent(m: ModalState)
  {
    m.isModalOpen <==> m.selectedOrder.Some?
  }

  /** What `showOrderDetails` and `handleModalClose` do to the modal. */
  function ModalStep(m: ModalState, e: ModalEvent): ModalState
  {
    match e
    case Show(order) => ModalState(true, Some(order))
    case Close => ModalState(false, None)
  }

  /** The modal after a sequence of clicks. */
  function ModalRun(m: ModalState, events: seq<ModalEvent>): ModalState
    decreases |events|
  {
    if events == [] then m else ModalRun(ModalStep(m, events[0]), events[1..])
  }

  /** From a consistent start, every sequence of View and Close clicks leaves
      the modal open exactly when an order is selected, and the last click
      decides which. */
  lemma {:induction false} ModalRunConsistent(m: ModalState, events: seq<ModalEvent>)
    requires ModalConsistent(m)
    ensures ModalConsistent(ModalRun(m, events))
    ensures events != [] && events[|events| - 1].Show? ==>
              ModalRun(m, events) == ModalState(true, Some(events[|events| - 1].order))
    ensures events != [] && events[|events| - 1].Close? ==>
              ModalRun(m, events) == ModalState(false, None)
    decreases |events|
  {
    if events != [] {
      ModalRunConsistent(ModalStep(m, events[0]), events[1..]);
    }
  }

  /** The orders page's state: the orders and the details modal. Ids stay
      distinct and the modal is open exactly when an order is selected. */
  class OrdersPage {
    var orders: seq<Order>
    var isModalOpen: bool
    var selectedOrder: Option<Order>

    ghost predicate Valid()
      reads this
    {
      Records.DistinctKeys(orders, OrderId) && ModalConsistent(ModalState(isModalOpen, selectedOrder))
    }

    constructor ()
      ensures Valid()
      ensures orders == InitialOrders && !isModalOpen && selectedOrder == None
    {
      orders := InitialOrders;
      isModalOpen := false;
      selectedOrder := None;
    }

    /** Opens the details modal on `order`. */
    method ShowOrderDetails(order: Order)
      requires Valid()
      modifies this`isModalOpen, this`selectedOrder
      ensures Valid()
      ensures ModalState(isModalOpen, selectedOrder) ==
              ModalStep(old(ModalState(isModalOpen, selectedOrder)), Show(order))
    {
      selectedOrder := Some(order);
      isModalOpen := true;
    }

    /** Closes the details modal and forgets the selection. */
    method HandleModalClose()
      requires Valid()
      modifies this`isModalOpen, this`selectedOrder
      ensures Valid()
      ensures ModalState(isModalOpen, selectedOrder) ==
              ModalStep(old(ModalState(isModalOpen, selectedOrder)), Close)
    {
      isModalOpen := false;
      selectedOrder := None;
    }

    /** Removes the orders with id `id`. */
    method HandleDelete(id: int)
      requires Valid()
      modifies this`orders
      ensures Valid()
      ensures orders == Records.Without(old(orders), OrderId, id)
    {
      Records.WithoutSpec(orders, OrderId, id);
      orders := Records.Without(orders, OrderId, id);
    }
  }
}
