/** The discount ranges page: add a range with a fresh id, edit a range by
    merging the form values into it, delete, and cancel either modal. */
module Discounts {
  import opened Wrappers
  import Records

  datatype DiscountRange = DiscountRange(id: int, min: int, max: int, discount: int)

  /** The values the Add and Edit forms yield: their three registered fields. */
  datatype RangeForm = RangeForm(min: int, max: int, discount: int)

  function RangeId(r: DiscountRange): int { r.id }

  const InitialRanges: seq<DiscountRange> := [
    DiscountRange(1, 0, 500, 5),
    DiscountRange(2, 501, 1000, 7)
  ]

  /** What the number inputs let through: prices of at least 0 and a
      percentage from 0 to 100. Nothing relates min to max. */
  predicate FormInBounds(values: RangeForm)
  {
    values.min >= 0 && values.max >= 0 && 0 <= values.discount <= 100
  }

  predicate InBounds(r: DiscountRange)
  {
    r.min >= 0 && r.max >= 0 && 0 <= r.discount <= 100
  }

  /** The invariant of the list: distinct ids and every range in bounds. */
  ghost predicate ListValid(list: seq<DiscountRange>)
  {
    Records.DistinctKeys(list, RangeId) && forall r :: r in list ==> InBounds(r)
  }

  /** `Math.max(0, ...ids) + 1`: at least 1 and larger than every id. */
  function NextRangeId(list: seq<DiscountRange>): (r: int)
    ensures r >= 1
    ensures forall x :: x in list ==> x.id < r
    ensures r == 1 || exists x :: x in list && x.id == r - 1
  {
    Records.MaxKeyAtLeast(list, RangeId, 0) + 1
  }

  /** `{ ...values, id }`: the form values with the computed id written last. */
  function NewRange(list: seq<DiscountRange>, values: RangeForm): DiscountRange
  {
    DiscountRange(NextRangeId(list), values.min, values.max, values.discount)
  }

  /** `{ ...item, ...values }`: the edited item with the form values merged in. */
  function Merge(values: RangeForm): DiscountRange -> DiscountRange
  {
    (item: DiscountRange) => item.(min := values.min, max := values.max, discount := values.discount)
  }

  /** The three changes the OK buttons and the Delete button make. */
  datatype RangeOp = Add(values: RangeForm) | Edit(editId: int, values: RangeForm) | Delete(deleteId: int)

  function Apply(list: seq<DiscountRange>, op: RangeOp): seq<DiscountRange>
  {
    match op
    case Add(values) => list + [NewRange(list, values)]
    case Edit(editId, values) => Records.UpdateWhere(list, RangeId, editId, Merge(values))
    case Delete(deleteId) => Records.Without(list, RangeId, deleteId)
  }

  /** Adding appends the form values under an id that is at least 1 and not
      in the list; the old list is the prefix. */
  lemma AddSpec(list: seq<DiscountRange>, values: RangeForm)
    ensures var r := Apply(list, Add(values));
      && |r| == |list| + 1 && r[..|list|] == list
      && r[|list|] == DiscountRange(r[|list|].id, values.min, values.max, values.discount)
      && r[|list|].id >= 1
      && (forall x :: x in list ==> x.id != r[|list|].id)
      && (Records.DistinctKeys(list, RangeId) ==> Records.DistinctKeys(r, RangeId))
      && (ListValid(list) && FormInBounds(values) ==> ListValid(r))
  {
    if Records.DistinctKeys(list, RangeId) {
      Records.AppendFreshDistinct(list, RangeId, NewRange(list, values));
    }
  }

  /** Editing merges the form values into exactly the items with that id,
      keeping their id; length, positions and every other item are unchanged. */
  lemma EditSpec(list: seq<DiscountRange>, editId: int, values: RangeForm)
    ensures var r := Apply(list, Edit(editId, values));
      && |r| == |list|
      && (forall i :: 0 <= i < |list| && list[i].id == editId ==>
            r[i] == DiscountRange(editId, values.min, values.max, values.discount))
      && (forall i :: 0 <= i < |list| && list[i].id != editId ==> r[i] == list[i])
      && (Records.DistinctKeys(list, RangeId) ==> Records.DistinctKeys(r, RangeId))
      && (ListValid(list) && FormInBounds(values) ==> ListValid(r))
  {
    var r := Apply(list, Edit(editId, values));
    if Records.DistinctKeys(list, RangeId) {
      Records.UpdateDistinct(list, RangeId, editId, Merge(values));
    }
    if ListValid(list) && FormInBounds(values) {
      forall x | x in r ensures InBounds(x) {
        var i :| 0 <= i < |r| && r[i] == x;
      }
    }
  }

  /** Deleting removes exactly the items with that id and keeps the rest in
      their order. */
  lemma DeleteSpec(list: seq<DiscountRange>, deleteId: int)
    ensures var r := Apply(list, Delete(deleteId));
      && (forall x :: x in r <==> x in list && x.id != deleteId)
      && Records.IsSubsequence(r, list)
      && (Records.DistinctKeys(list, RangeId) ==> Records.DistinctKeys(r, RangeId))
      && (ListValid(list) ==> ListValid(r))
  {
    Records.WithoutSpec(list, RangeId, deleteId);
  }

  /** The list after a sequence of changes. */
  function Replay(list: seq<DiscountRange>, ops: seq<RangeOp>): seq<DiscountRange>
    decreases |ops|
  {
    if ops == [] then list else Replay(Apply(list, ops[0]), ops[1..])
  }

  /** The form values a change carries are in bounds. */
  predicate OpInBounds(op: RangeOp)
  {
    !op.Delete? ==> FormInBounds(op.values)
  }

  /** Any sequence of add, edit and delete keeps ids distinct and ranges in
      bounds. */
  lemma {:induction false} ReplayKeepsValid(list: seq<DiscountRange>, ops: seq<RangeOp>)
    requires ListValid(list)
    requires forall i :: 0 <= i < |ops| ==> OpInBounds(ops[i])
    ensures ListValid(Replay(list, ops))
    decreases |ops|
  {
    if ops != [] {
      match ops[0] {
        case Add(values) => AddSpec(list, values);
        case Edit(editId, values) => EditSpec(list, editId, values);
        case Delete(deleteId) => DeleteSpec(list, deleteId);
      }
      ReplayKeepsValid(Apply(list, ops[0]), ops[1..]);
    }
  }

  /** The initial ranges satisfy the invariant, so every list the page can
      reach does. */
  lemma InitialValid(ops: seq<RangeOp>)
    requires forall i :: 0 <= i < |ops| ==> OpInBounds(ops[i])
    ensures ListValid(Replay(InitialRanges, ops))
  {
    ReplayKeepsValid(InitialRanges, ops);
  }

  /** The discount page's state: the ranges, the two modals and the range
      being edited. */
  class SetDiscount {
    var list: seq<DiscountRange>
    var isAddModal: bool
    var isEditModal: bool
    var currentEdit: Option<DiscountRange>

    /** Ids stay distinct; bounds are kept by every change whose form
        values are in bounds (`ReplayKeepsValid`). */
    ghost predicate Valid()
      reads this
    {
      Records.DistinctKeys(list, RangeId)
    }

    constructor ()
      ensures Valid() && ListValid(list)
      ensures list == InitialRanges && !isAddModal && !isEditModal && currentEdit == None
    {
      list := InitialRanges;
      isAddModal, isEditModal := false, false;
      currentEdit := None;
    }

    method ShowAddModal()
      modifies this`isAddModal
      ensures isAddModal
    {
      isAddModal := true;
    }

    /** Appends the validated form values under a fresh id and closes the
      Add modal. */
    method HandleAddOk(values: RangeForm)
      requires Valid()
      modifies this`list, this`isAddModal
      ensures Valid()
      ensures old(ListValid(list)) && FormInBounds(values) ==> ListValid(list)
      ensures list == Apply(old(list), Add(values)) && !isAddModal
    {
      AddSpec(list, values);
      list := list + [NewRange(list, values)];
      isAddModal := false;
    }

    /** Closes the Add modal; the list is unchanged. */
    method HandleAddCancel()
      modifies this`isAddModal
      ensures list == old(list) && !isAddModal
    {
      isAddModal := false;
    }

    /** Opens the Edit modal on `record`. */
    method ShowEditModal(record: DiscountRange)
      modifies this`currentEdit, this`isEditModal
      ensures currentEdit == Some(record) && isEditModal
    {
      currentEdit := Some(record);
      isEditModal := true;
    }

    /** Merges the validated form values into the item with the id of the
      range being edited and closes the Edit modal. */
    method HandleEditOk(values: RangeForm)
      requires Valid()
      requires currentEdit.Some?
      modifies this`list, this`isEditModal
      ensures Valid()
      ensures old(ListValid(list)) && FormInBounds(values) ==> ListValid(list)
      ensures list == Apply(old(list), Edit(currentEdit.value.id, values)) && !isEditModal
    {
      EditSpec(list, currentEdit.value.id, values);
      list := Records.UpdateWhere(list, RangeId, currentEdit.value.id, Merge(values));
      isEditModal := false;
    }

    /** Closes the Edit modal; the list is unchanged. */
    method HandleEditCancel()
      modifies this`isEditModal
      ensures list == old(list) && !isEditModal
    {
      isEditModal := false;
    }

    /** Removes the items with id `id`. */
    method HandleDelete(id: int)
      requires Valid()
      modifies this`list
      ensures Valid()
      ensures old(ListValid(list)) ==> ListValid(list)
      ensures list == Apply(old(list), Delete(id))
    {
      DeleteSpec(list, id);
      list := Records.Without(list, RangeId, id);
    }
  }
}
