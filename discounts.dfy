/** The discount service (src/restaurateur/discount/discount.service.ts):
    discounts, the applicability table linking a discount to menu items, the
    validations run before a discount is written, and the replacement of a
    discount's applicability rows. */
module Discounts {
  import opened Common

  datatype DiscountType = Percentage | FixedAmount

  /** The `type` field of a request body: one of the two enumeration
      members or any other string. */
  datatype TypeInput = PercentageInput | FixedAmountInput | OtherType(s: string)

  /** A stored discount; instants are milliseconds since the epoch. */
  datatype Discount = Discount(
    name: string,
    description: Option<string>,
    dtype: DiscountType,
    value: real,
    startDate: Option<int>,
    endDate: Option<int>,
    isActive: bool)

  /** One entry of a request's `applicableTo` list, fields as JavaScript
      sees them. */
  datatype ApplicableEntry = ApplicableEntry(
    menuItemId: JsNum,
    minQuantity: JsNum,
    minAmount: JsNum,
    customerType: Option<string>)

  /** A row of the applicability table. */
  datatype ApplicableRow = ApplicableRow(discountId: int, entry: ApplicableEntry)

  datatype CreateDiscountRequest = CreateDiscountRequest(
    name: string,
    description: Option<string>,
    dtype: Option<TypeInput>,
    value: real,
    startDate: Option<int>,
    endDate: Option<int>,
    isActive: bool,
    applicableTo: Option<seq<ApplicableEntry>>)

  /** An update request; every field may be absent. */
  datatype UpdateDiscountRequest = UpdateDiscountRequest(
    name: Option<string>,
    description: Option<string>,
    dtype: Option<TypeInput>,
    value: Option<real>,
    startDate: Option<int>,
    endDate: Option<int>,
    isActive: Option<bool>,
    applicableTo: Option<seq<ApplicableEntry>>)

  /** The date check: refused only when both instants are present and the
      start is not before the end. */
  predicate ValidWindow(startDate: Option<int>, endDate: Option<int>)
  {
    !(startDate.Some? && endDate.Some? && startDate.value >= endDate.value)
  }

  /** The type check: the enumeration member named by the request, or
      nothing for an absent or unknown type. */
  function ParseType(t: Option<TypeInput>): (r: Option<DiscountType>)
    ensures r == Some(Percentage) <==> t == Some(PercentageInput)
    ensures r == Some(FixedAmount) <==> t == Some(FixedAmountInput)
    ensures r.None? <==> t.None? || t.value.OtherType?
  {
    match t
    case Some(PercentageInput) => Some(Percentage)
    case Some(FixedAmountInput) => Some(FixedAmount)
    case _ => None
  }

  /** The condition `isValidApplicableTo` asks of one entry; `customerTypes`
      is the set of values of the customer-type enumeration. */
  predicate ValidEntry(e: ApplicableEntry, customerTypes: set<string>)
  {
    && Truthy(e.menuItemId)
    && AtLeastZero(e.minQuantity)
    && AtLeastZero(e.minAmount)
    && e.customerType.Some? && e.customerType.value in customerTypes
  }

  /** `isValidApplicableTo`: `Array.prototype.every`, checking the entries
      front to back and stopping at the first that fails. */
  function IsValidApplicableTo(entries: seq<ApplicableEntry>, customerTypes: set<string>): bool
  {
    if |entries| == 0 then true
    else ValidEntry(entries[0], customerTypes) && IsValidApplicableTo(entries[1..], customerTypes)
  }

  /** The list is valid exactly when every entry is; the empty list is
      valid. */
  lemma {:induction false} ValidApplicableToIffAll(entries: seq<ApplicableEntry>, customerTypes: set<string>)
    ensures IsValidApplicableTo(entries, customerTypes)
            <==> forall i :: 0 <= i < |entries| ==> ValidEntry(entries[i], customerTypes)
  {
    if |entries| > 0 {
      ValidApplicableToIffAll(entries[1..], customerTypes);
      assert forall i :: 1 <= i < |entries| ==> entries[i] == entries[1..][i - 1];
    }
  }

  /** The validations shared by create and update, in their order: the date
      window, the type, then the applicability list. An absent list is
      dereferenced by the check and fails. */
  function CheckRequest(startDate: Option<int>, endDate: Option<int>, dtype: Option<TypeInput>,
                        applicableTo: Option<seq<ApplicableEntry>>, customerTypes: set<string>)
    : (r: Result<(DiscountType, seq<ApplicableEntry>)>)
    ensures !ValidWindow(startDate, endDate) ==> r == Err(BadRequest)
    ensures ParseType(dtype).None? ==> r == Err(BadRequest)
    ensures ValidWindow(startDate, endDate) && ParseType(dtype).Some? && applicableTo.None? ==> r == Err(InternalError)
    ensures r.Ok? <==> && ValidWindow(startDate, endDate) && ParseType(dtype).Some?
                       && applicableTo.Some?
                       && forall i :: 0 <= i < |applicableTo.value| ==> ValidEntry(applicableTo.value[i], customerTypes)
    ensures r.Ok? ==> r.value == (ParseType(dtype).value, applicableTo.value)
    ensures r.Err? ==> r.error == BadRequest || (r.error == InternalError && applicableTo.None?)
  {
    if !ValidWindow(startDate, endDate) then Err(BadRequest)
    else match ParseType(dtype)
      case None => Err(BadRequest)
      case Some(t) =>
        if applicableTo.None? then Err(InternalError)
        else
          ValidApplicableToIffAll(applicableTo.value, customerTypes);
          if !IsValidApplicableTo(applicableTo.value, customerTypes) then Err(BadRequest)
          else Ok((t, applicableTo.value))
  }

  /** The rows that belong to discount `d`, in table order. */
  function RowsOf(rows: seq<ApplicableRow>, d: int): seq<ApplicableRow>
  {
    if |rows| == 0 then []
    else (if rows[0].discountId == d then [rows[0]] else []) + RowsOf(rows[1..], d)
  }

  /** `deleteMany({ where: { discountId } })`: the rows of every other
      discount, in table order. */
  function RowsNotOf(rows: seq<ApplicableRow>, d: int): seq<ApplicableRow>
  {
    if |rows| == 0 then []
    else (if rows[0].discountId != d then [rows[0]] else []) + RowsNotOf(rows[1..], d)
  }

  /** One row per entry, linking each to discount `d`. */
  function RowsFor(d: int, entries: seq<ApplicableEntry>): (r: seq<ApplicableRow>)
    ensures |r| == |entries|
    ensures forall i :: 0 <= i < |r| ==> r[i] == ApplicableRow(d, entries[i])
  {
    seq(|entries|, i requires 0 <= i < |entries| => ApplicableRow(d, entries[i]))
  }

  lemma {:induction false} RowsOfAppend(a: seq<ApplicableRow>, b: seq<ApplicableRow>, d: int)
    ensures RowsOf(a + b, d) == RowsOf(a, d) + RowsOf(b, d)
  {
    if |a| > 0 {
      RowsOfAppend(a[1..], b, d);
      assert (a + b)[1..] == a[1..] + b;
    } else {
      assert a + b == b;
    }
  }

  lemma {:induction false} RowsOfRowsNotOf(rows: seq<ApplicableRow>, d: int, d': int)
    ensures RowsOf(RowsNotOf(rows, d), d) == []
    ensures d' != d ==> RowsOf(RowsNotOf(rows, d), d') == RowsOf(rows, d')
  {
    if |rows| > 0 {
      RowsOfRowsNotOf(rows[1..], d, d');
      var head := if rows[0].discountId != d then [rows[0]] else [];
      RowsOfAppend(head, RowsNotOf(rows[1..], d), d);
      RowsOfAppend(head, RowsNotOf(rows[1..], d), d');
    }
  }

  lemma {:induction false} RowsOfRowsFor(d: int, entries: seq<ApplicableEntry>, d': int)
    ensures RowsOf(RowsFor(d, entries), d') == if d' == d then RowsFor(d, entries) else []
  {
    if |entries| > 0 {
      var rs := RowsFor(d, entries);
      RowsOfRowsFor(d, entries[1..], d');
      assert rs[1..] == RowsFor(d, entries[1..]);
    }
  }

  /** After the applicability rows of `d` are replaced by `entries`, the
      rows of `d` are exactly one per entry, in the entries' order, and the
      rows of every other discount are those it had before. */
  lemma ApplicabilityReplaced(rows: seq<ApplicableRow>, d: int, entries: seq<ApplicableEntry>, d': int)
    ensures RowsOf(RowsNotOf(rows, d) + RowsFor(d, entries), d) == RowsFor(d, entries)
    ensures d' != d ==> RowsOf(RowsNotOf(rows, d) + RowsFor(d, entries), d') == RowsOf(rows, d')
  {
    RowsOfAppend(RowsNotOf(rows, d), RowsFor(d, entries), d);
    RowsOfAppend(RowsNotOf(rows, d), RowsFor(d, entries), d');
    RowsOfRowsNotOf(rows, d, d');
    RowsOfRowsFor(d, entries, d);
    RowsOfRowsFor(d, entries, d');
  }

  /** The foreign key of an applicability row: the entry's menu item id is
      a whole number naming a row of the menu-item table `menuItems`. */
  predicate Linkable(e: ApplicableEntry, menuItems: set<int>)
  {
    e.menuItemId.Num? && e.menuItemId.v == e.menuItemId.v.Floor as real
    && e.menuItemId.v.Floor in menuItems
  }

  predicate AllLinkable(entries: seq<ApplicableEntry>, menuItems: set<int>)
  {
    forall i :: 0 <= i < |entries| ==> Linkable(entries[i], menuItems)
  }

  /** The entries whose row creation succeeds, in list order. The creations
      are all started before any is awaited, so one that violates the
      foreign key does not stop the others. */
  function Linked(entries: seq<ApplicableEntry>, menuItems: set<int>): (r: seq<ApplicableEntry>)
    ensures |r| <= |entries|
  {
    if |entries| == 0 then []
    else
      var init := entries[..|entries| - 1];
      var last := entries[|entries| - 1];
      Linked(init, menuItems) + (if Linkable(last, menuItems) then [last] else [])
  }

  /** Only linkable entries get a row, and each of them is one of the
      request's entries. */
  lemma {:induction false} LinkedMembers(entries: seq<ApplicableEntry>, menuItems: set<int>)
    ensures forall e :: e in Linked(entries, menuItems) ==> e in entries && Linkable(e, menuItems)
  {
    if |entries| > 0 {
      var init := entries[..|entries| - 1];
      LinkedMembers(init, menuItems);
      assert forall e :: e in init ==> e in entries;
    }
  }

  /** Every row is created exactly when every entry names an existing menu
      item. */
  lemma {:induction false} LinkedAll(entries: seq<ApplicableEntry>, menuItems: set<int>)
    ensures Linked(entries, menuItems) == entries <==> AllLinkable(entries, menuItems)
  {
    if |entries| > 0 {
      var init := entries[..|entries| - 1];
      var last := entries[|entries| - 1];
      LinkedAll(init, menuItems);
      assert entries == init + [last];
      if AllLinkable(entries, menuItems) {
        assert AllLinkable(init, menuItems) by {
          forall i | 0 <= i < |init| ensures Linkable(init[i], menuItems) {
            assert init[i] == entries[i];
          }
        }
      }
      if Linked(entries, menuItems) == entries {
        forall i | 0 <= i < |entries| ensures Linkable(entries[i], menuItems) {
          assert entries[i] in Linked(entries, menuItems);
        }
      }
    }
  }

  /** One more entry: its row is added exactly when it is linkable. */
  lemma LinkedStep(entries: seq<ApplicableEntry>, i: int, menuItems: set<int>)
    requires 0 <= i < |entries|
    ensures Linked(entries[..i + 1], menuItems)
            == Linked(entries[..i], menuItems) + (if Linkable(entries[i], menuItems) then [entries[i]] else [])
    ensures AllLinkable(entries[..i + 1], menuItems)
            <==> AllLinkable(entries[..i], menuItems) && Linkable(entries[i], menuItems)
  {
    assert entries[..i + 1][..i] == entries[..i];
    if AllLinkable(entries[..i], menuItems) && Linkable(entries[i], menuItems) {
      forall j | 0 <= j < i + 1 ensures Linkable(entries[j], menuItems) {
      }
      assert forall j :: 0 <= j < i + 1 ==> entries[..i + 1][j] == entries[j];
    }
    if AllLinkable(entries[..i + 1], menuItems) {
      assert entries[..i + 1][i] == entries[i];
      forall j | 0 <= j < i ensures Linkable(entries[..i][j], menuItems) {
        assert entries[..i][j] == entries[..i + 1][j];
      }
    }
  }

  lemma RowsForAppend(d: int, a: seq<ApplicableEntry>, b: seq<ApplicableEntry>)
    ensures RowsFor(d, a + b) == RowsFor(d, a) + RowsFor(d, b)
  {
  }

  /** The fields an update writes over a stored discount. The type has
      passed the type check, so it is always written. */
  function Updated(prev: Discount, req: UpdateDiscountRequest, t: DiscountType): Discount
  {
    Discount(
      if req.name.Some? then req.name.value else prev.name,
      if req.description.Some? then req.description else prev.description,
      t,
      if req.value.Some? then req.value.value else prev.value,
      if req.startDate.Some? then req.startDate else prev.startDate,
      if req.endDate.Some? then req.endDate else prev.endDate,
      if req.isActive.Some? then req.isActive.value else prev.isActive)
  }

  class DiscountStore {
    var discounts: map<int, Discount>
    var rows: seq<ApplicableRow>
    var nextId: int

    ghost predicate Valid()
      reads this
    {
      1 <= nextId && forall id :: id in discounts ==> 1 <= id < nextId
    }

    constructor ()
      ensures Valid() && discounts == map[] && rows == [] && nextId == 1
    {
      discounts := map[];
      rows := [];
      nextId := 1;
    }

    /** `findDiscountById`: the discount, or NotFound. */
    function FindDiscountById(id: int): (r: Result<Discount>)
      reads this
      ensures r.Ok? <==> id in discounts
      ensures r.Ok? ==> r.value == discounts[id]
      ensures r.Err? ==> r.error == NotFound
    {
      if id in discounts then Ok(discounts[id]) else Err(NotFound)
    }

    /** `updateDiscountApplicableTo`: delete every row of the discount, then
        create one row per entry (the concurrent creations are taken in list
        order). A row whose menu item does not exist violates the foreign
        key: it is not created, the others are, and the call fails. */
    method UpdateDiscountApplicableTo(d: int, entries: seq<ApplicableEntry>, menuItems: set<int>)
      returns (r: Result<()>)
      modifies this`rows
      ensures rows == RowsNotOf(old(rows), d) + RowsFor(d, Linked(entries, menuItems))
      ensures r.Ok? <==> AllLinkable(entries, menuItems)
      ensures r.Err? ==> r.error == InternalError
    {
      rows := RowsNotOf(rows, d);
      ghost var base := rows;
      var failed := false;
      var i := 0;
      while i < |entries|
        invariant 0 <= i <= |entries|
        invariant rows == base + RowsFor(d, Linked(entries[..i], menuItems))
        invariant !failed <==> AllLinkable(entries[..i], menuItems)
      {
        LinkedStep(entries, i, menuItems);
        if Linkable(entries[i], menuItems) {
          RowsForAppend(d, Linked(entries[..i], menuItems), [entries[i]]);
          rows := rows + [ApplicableRow(d, entries[i])];
        } else {
          failed := true;
        }
        i := i + 1;
      }
      assert entries[..i] == entries;
      r := if failed then Err(InternalError) else Ok(());
    }

    /** `createDiscount`: after the validations pass, the discount is stored
        under a fresh id and then linked to the given entries; a failed link
        leaves the discount and the rows created so far in place. */
    method CreateDiscount(req: CreateDiscountRequest, customerTypes: set<string>, menuItems: set<int>)
      returns (r: Result<(int, Discount)>)
      requires Valid()
      modifies this
      ensures Valid()
      ensures var check := CheckRequest(req.startDate, req.endDate, req.dtype, req.applicableTo, customerTypes);
              && (check.Err? ==> && r == Err(check.error)
                                 && discounts == old(discounts) && rows == old(rows) && nextId == old(nextId))
              && (check.Ok? ==>
                    var id := old(nextId);
                    && (r.Ok? <==> AllLinkable(req.applicableTo.value, menuItems))
                    && (r.Err? ==> r.error == InternalError)
                    && discounts == old(discounts)[id := Discount(req.name, req.description, ParseType(req.dtype).value,
                                                                   req.value, req.startDate, req.endDate, req.isActive)]
                    && rows == RowsNotOf(old(rows), id) + RowsFor(id, Linked(req.applicableTo.value, menuItems))
                    && nextId == old(nextId) + 1)
      ensures r.Ok? ==>
                && r.value.0 == old(nextId) && r.value.0 !in old(discounts)
                && r.value.1 == discounts[r.value.0]
                && rows == RowsNotOf(old(rows), r.value.0) + RowsFor(r.value.0, req.applicableTo.value)
    {
      var check := CheckRequest(req.startDate, req.endDate, req.dtype, req.applicableTo, customerTypes);
      if check.Err? {
        return Err(check.error);
      }
      var (t, entries) := check.value;
      var id := nextId;
      var discount := Discount(req.name, req.description, t, req.value, req.startDate, req.endDate, req.isActive);
      discounts := discounts[id := discount];
      nextId := nextId + 1;
      var linked := UpdateDiscountApplicableTo(id, entries, menuItems);
      LinkedAll(entries, menuItems);
      if linked.Err? {
        return Err(linked.error);
      }
      r := Ok((id, discount));
    }

    /** `updateDiscount`: the validations, then NotFound for an unknown id;
        otherwise the given fields are written, the applicability rows are
        replaced, and the answer is the record as read before the update. A
        failed link leaves the written fields and the rows created so far. */
    method UpdateDiscount(id: int, req: UpdateDiscountRequest, customerTypes: set<string>, menuItems: set<int>)
      returns (r: Result<Discount>)
      requires Valid()
      modifies this`discounts, this`rows
      ensures Valid()
      ensures var check := CheckRequest(req.startDate, req.endDate, req.dtype, req.applicableTo, customerTypes);
              && (check.Err? ==> r == Err(check.error) && discounts == old(discounts) && rows == old(rows))
              && (check.Ok? ==> (r == Err(NotFound) <==> id !in old(discounts)))
              && (check.Ok? && id in old(discounts) ==>
                    && (r.Ok? <==> AllLinkable(req.applicableTo.value, menuItems))
                    && (r.Err? ==> r.error == InternalError)
                    && discounts == old(discounts)[id := Updated(old(discounts)[id], req, ParseType(req.dtype).value)]
                    && rows == RowsNotOf(old(rows), id) + RowsFor(id, Linked(req.applicableTo.value, menuItems)))
      ensures r.Err? && r.error != InternalError ==> discounts == old(discounts) && rows == old(rows)
      ensures r.Ok? ==>
                && r.value == old(discounts)[id]
                && rows == RowsNotOf(old(rows), id) + RowsFor(id, req.applicableTo.value)
    {
      var check := CheckRequest(req.startDate, req.endDate, req.dtype, req.applicableTo, customerTypes);
      if check.Err? {
        return Err(check.error);
      }
      var (t, entries) := check.value;
      var found := FindDiscountById(id);
      if found.Err? {
        return Err(found.error);
      }
      discounts := discounts[id := Updated(found.value, req, t)];
      var linked := UpdateDiscountApplicableTo(id, entries, menuItems);
      LinkedAll(entries, menuItems);
      if linked.Err? {
        return Err(linked.error);
      }
      r := Ok(found.value);
    }

    /** `deleteDiscount`: NotFound for an unknown id, otherwise the discount
        is removed. */
    method DeleteDiscount(id: int) returns (r: Result<()>)
      requires Valid()
      modifies this`discounts
      ensures Valid()
      ensures id !in old(discounts) <==> r == Err(NotFound)
      ensures id in old(discounts) ==> r.Ok?
      ensures r.Err? ==> discounts == old(discounts)
      ensures r.Ok? ==> discounts == old(discounts) - {id}
    {
      var found := FindDiscountById(id);
      if found.Err? {
        return Err(found.error);
      }
      discounts := discounts - {id};
      r := Ok(());
    }
  }
}
