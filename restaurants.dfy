/** The restaurant side of the restaurateur service
    (src/restaurateur/restaurateur.service.ts): registering a restaurant
    (which promotes its owner), the owner and status gates on restaurants and
    menus, the approval requests, and the approval state machine that
    moves a request and its restaurant between PENDING, APPROVED, REJECTED
    and BLOCKED. */
module Restaurants {
  import opened Common
  import opened Roles
  import opened Users

  datatype RestaurantStatus = Pending | Approved | Rejected | Blocked

  /** The fields of `RegisterRestaurantDto` (and `UpdateRestaurantDto`). */
  datatype RestaurantInfo = RestaurantInfo(
    name: string,
    address: string,
    email: string,
    phoneNumber: string,
    openingHours: string,
    cuisineType: string)

  datatype Restaurant = Restaurant(ownerId: int, info: RestaurantInfo, status: RestaurantStatus)

  datatype RestaurantRequest = RestaurantRequest(restaurantId: int, status: RestaurantStatus)

  datatype Menu = Menu(restaurantId: int, ownerId: int, name: string, description: Option<string>)

  datatype MenuItemRow = MenuItemRow(menuId: int, name: string, price: real)

  /** The class-validator constraints of `RegisterRestaurantDto`: every field
      non-empty, the e-mail an e-mail address and the phone number a phone
      number; the two format checks are parameters. */
  predicate ValidInfo(info: RestaurantInfo, isEmail: string -> bool, isPhoneNumber: string -> bool)
  {
    && info.name != "" && info.address != "" && info.email != "" && info.phoneNumber != ""
    && info.openingHours != "" && info.cuisineType != ""
    && isEmail(info.email) && isPhoneNumber(info.phoneNumber)
  }

  // ---------------------------------------------------------------------------
  // The approval state machine.

  /** What `updateRestaurantStatus` does with a request: write the new status
      to the request and its restaurant, do nothing and succeed, or throw. */
  datatype Decision = Apply | NoOp | Refuse

  /** The transitions that write: PENDING or REJECTED to APPROVED, PENDING
      to REJECTED, APPROVED to BLOCKED. */
  predicate AllowedTransition(current: RestaurantStatus, requested: RestaurantStatus)
  {
    || (requested == Approved && (current == Pending || current == Rejected))
    || (requested == Rejected && current == Pending)
    || (requested == Blocked && current == Approved)
  }

  /** The branch structure of `updateRestaurantStatus`. Requesting the status
      a request already has is a silent no-op for the three statuses that can
      be requested; PENDING can never be requested; every other pair throws. */
  function Decide(current: RestaurantStatus, requested: RestaurantStatus): (d: Decision)
    ensures d == Apply <==> AllowedTransition(current, requested)
    ensures d == NoOp <==> current == requested && requested != Pending
    ensures requested == Pending ==> d == Refuse
  {
    match requested
    case Approved =>
      if current == Pending || current == Rejected then Apply
      else if current == Blocked then Refuse
      else NoOp
    case Rejected =>
      if current == Pending then Apply
      else if current == Blocked || current == Approved then Refuse
      else NoOp
    case Blocked =>
      if current == Approved then Apply
      else if current == Rejected || current == Pending then Refuse
      else NoOp
    case Pending => Refuse
  }

  /** The whole effect of `updateRestaurantStatus` on the request and
      restaurant tables, and its answer. */
  datatype StatusOutcome = StatusOutcome(
    result: Result<RestaurantRequest>,
    requests: map<int, RestaurantRequest>,
    restaurants: map<int, Restaurant>)

  function StatusTransition(requests: map<int, RestaurantRequest>, restaurants: map<int, Restaurant>,
                            requestId: int, newStatus: RestaurantStatus): (o: StatusOutcome)
    ensures o.result.Err? ==> o.result.error == InternalError
    ensures requestId !in requests ==> o == StatusOutcome(Err(InternalError), requests, restaurants)
    ensures requestId in requests && Decide(requests[requestId].status, newStatus) == Refuse ==>
              o == StatusOutcome(Err(InternalError), requests, restaurants)
    ensures requestId in requests && Decide(requests[requestId].status, newStatus) == NoOp ==>
              o == StatusOutcome(Ok(requests[requestId]), requests, restaurants)
    ensures requestId in requests && Decide(requests[requestId].status, newStatus) == Apply ==>
              var rq := requests[requestId];
              && o.requests == requests[requestId := rq.(status := newStatus)]
              && (rq.restaurantId in restaurants <==> o.result.Ok?)
              && (o.result.Ok? ==>
                    && o.result.value == rq.(status := newStatus)
                    && o.restaurants == restaurants[rq.restaurantId := restaurants[rq.restaurantId].(status := newStatus)])
              && (o.result.Err? ==> o.restaurants == restaurants)
  {
    if requestId !in requests then StatusOutcome(Err(InternalError), requests, restaurants)
    else
      var rq := requests[requestId];
      match Decide(rq.status, newStatus)
      case Refuse => StatusOutcome(Err(InternalError), requests, restaurants)
      case NoOp => StatusOutcome(Ok(rq), requests, restaurants)
      case Apply =>
        var requests' := requests[requestId := rq.(status := newStatus)];
        if rq.restaurantId !in restaurants then StatusOutcome(Err(InternalError), requests', restaurants)
        else
          var restaurants' := restaurants[rq.restaurantId := restaurants[rq.restaurantId].(status := newStatus)];
          StatusOutcome(Ok(rq.(status := newStatus)), requests', restaurants')
  }

  /** The request and its restaurant show the same status. */
  predicate Synchronized(requests: map<int, RestaurantRequest>, restaurants: map<int, Restaurant>, requestId: int)
  {
    && requestId in requests
    && requests[requestId].restaurantId in restaurants
    && restaurants[requests[requestId].restaurantId].status == requests[requestId].status
  }

  /** A write that succeeds leaves the request and its restaurant with the
      requested status, and touches no other request or restaurant. */
  lemma SuccessfulWriteSynchronizes(requests: map<int, RestaurantRequest>, restaurants: map<int, Restaurant>,
                                    requestId: int, newStatus: RestaurantStatus)
    requires requestId in requests && Decide(requests[requestId].status, newStatus) == Apply
    ensures var o := StatusTransition(requests, restaurants, requestId, newStatus);
            o.result.Ok? ==>
              && Synchronized(o.requests, o.restaurants, requestId)
              && o.requests[requestId].status == newStatus
              && (forall k :: k in requests && k != requestId ==> k in o.requests && o.requests[k] == requests[k])
              && (forall k :: k in restaurants && k != requests[requestId].restaurantId ==>
                    k in o.restaurants && o.restaurants[k] == restaurants[k])
  {
  }

  /** A no-op answers success without looking at the restaurant: an old
      REJECTED request of a restaurant approved since through a newer request
      is "rejected" again, successfully, while the restaurant stays
      APPROVED. So success does not imply that the two statuses agree. */
  lemma StaleRequestNoOp()
    ensures var info := RestaurantInfo("r", "a", "e", "p", "h", "c");
            var restaurants := map[1 := Restaurant(7, info, Approved)];
            var requests := map[1 := RestaurantRequest(1, Rejected), 2 := RestaurantRequest(1, Approved)];
            var o := StatusTransition(requests, restaurants, 1, Rejected);
            && o.result.Ok?
            && !Synchronized(o.requests, o.restaurants, 1)
  {
  }

  /** The decision reads only the request's status, never the
      restaurant's: approving an old REJECTED request succeeds and sets its
      restaurant to APPROVED whatever that restaurant's status was, so a
      BLOCKED restaurant is unblocked this way. */
  lemma StaleRequestUnblocks(requests: map<int, RestaurantRequest>, restaurants: map<int, Restaurant>,
                             requestId: int)
    requires requestId in requests && requests[requestId].status == Rejected
    requires requests[requestId].restaurantId in restaurants
    requires restaurants[requests[requestId].restaurantId].status == Blocked
    ensures var o := StatusTransition(requests, restaurants, requestId, Approved);
            && o.result.Ok?
            && o.restaurants[requests[requestId].restaurantId].status == Approved
  {
  }

  /** Some element of a non-empty set. */
  method PickOne(s0: set<int>) returns (y: int)
    requires s0 != {}
    ensures y in s0
  {
    if forall x :: x !in s0 {
      assert false;
    }
    y :| y in s0;
  }

  // ---------------------------------------------------------------------------
  // The store.

  class RestaurantStore {
    var restaurants: map<int, Restaurant>
    var requests: map<int, RestaurantRequest>
    var menus: map<int, Menu>
    /** The menu-item table; `Orders` and `Discounts` take the same table
        as a parameter (a price catalogue, a set of ids). */
    var menuItems: map<int, MenuItemRow>
    var nextRestaurantId: int
    var nextRequestId: int
    var nextMenuId: int

    ghost predicate Valid()
      reads this
    {
      && 1 <= nextRestaurantId && 1 <= nextRequestId && 1 <= nextMenuId
      && (forall id :: id in restaurants ==> 1 <= id < nextRestaurantId)
      && (forall id :: id in requests ==> 1 <= id < nextRequestId)
      && (forall id :: id in menus ==> 1 <= id < nextMenuId)
    }

    constructor ()
      ensures Valid()
      ensures restaurants == map[] && requests == map[] && menus == map[] && menuItems == map[]
    {
      restaurants := map[];
      requests := map[];
      menus := map[];
      menuItems := map[];
      nextRestaurantId := 1;
      nextRequestId := 1;
      nextMenuId := 1;
    }

    /** `register`: BadRequest when the form fails validation; connecting an
        owner that does not exist fails before anything is written;
        otherwise the restaurant is created PENDING, and then its owner is
        promoted to RESTAURATEUR unless an ADMINISTRATOR. An owner without a
        role, or a missing RESTAURATEUR role row, fails after the restaurant
        was created. */
    method Register(info: RestaurantInfo, ownerId: int, t: UserTable,
                    isEmail: string -> bool, isPhoneNumber: string -> bool)
      returns (r: Result<int>)
      requires Valid() && t.Valid()
      modifies this`restaurants, this`nextRestaurantId, t`users
      ensures Valid() && t.Valid()
      ensures !ValidInfo(info, isEmail, isPhoneNumber) || ownerId !in old(t.users) ==>
                && r == Err(if !ValidInfo(info, isEmail, isPhoneNumber) then BadRequest else InternalError)
                && restaurants == old(restaurants) && nextRestaurantId == old(nextRestaurantId)
                && t.users == old(t.users)
      ensures ValidInfo(info, isEmail, isPhoneNumber) && ownerId in old(t.users) ==>
                var id := old(nextRestaurantId);
                var role := old(t.users)[ownerId].role;
                && id !in old(restaurants)
                && restaurants == old(restaurants)[id := Restaurant(ownerId, info, Pending)]
                && nextRestaurantId == id + 1
                && (role.None? ==> r == Err(InternalError) && t.users == old(t.users))
                && (role == Some(Administrator) ==> r == Ok(id) && t.users == old(t.users))
                && (role.Some? && role.value != Administrator ==>
                      if Restaurateur in t.roles then
                        r == Ok(id) && t.users == old(t.users)[ownerId := old(t.users)[ownerId].(role := Some(Restaurateur))]
                      else
                        r == Err(InternalError) && t.users == old(t.users))
    {
      if !ValidInfo(info, isEmail, isPhoneNumber) {
        return Err(BadRequest);
      }
      if ownerId !in t.users {
        return Err(InternalError);
      }
      var id := nextRestaurantId;
      restaurants := restaurants[id := Restaurant(ownerId, info, Pending)];
      nextRestaurantId := nextRestaurantId + 1;
      var user := t.users[ownerId];
      if user.role.None? {
        return Err(InternalError);
      }
      if user.role.value != Administrator {
        if Restaurateur !in t.roles {
          return Err(InternalError);
        }
        t.SetRole(ownerId, Restaurateur);
      }
      r := Ok(id);
    }

    /** `getUserRestaurants`: NotFound for an unknown user; the APPROVED
        restaurants, all of them for an ADMINISTRATOR and the owned ones for
        a RESTAURATEUR; BadRequest for every other role, and a user without a
        role makes the role lookup throw. */
    function GetUserRestaurants(userId: int, t: UserTable): (r: Result<set<int>>)
      reads this, t
      ensures userId !in t.users <==> r == Err(NotFound)
      ensures userId in t.users && t.users[userId].role.None? ==> r == Err(InternalError)
      ensures userId in t.users && t.users[userId].role.Some? ==>
                var role := t.users[userId].role.value;
                && (role == Administrator ==>
                      r.Ok? && forall id :: id in r.value <==> id in restaurants && restaurants[id].status == Approved)
                && (role == Restaurateur ==>
                      r.Ok? && forall id :: id in r.value <==>
                        id in restaurants && restaurants[id].status == Approved && restaurants[id].ownerId == userId)
                && (role != Administrator && role != Restaurateur ==> r == Err(BadRequest))
    {
      if userId !in t.users then Err(NotFound)
      else match t.users[userId].role
        case None => Err(InternalError)
        case Some(role) =>
          if role == Administrator then
            Ok(set id | id in restaurants && restaurants[id].status == Approved)
          else if role == Restaurateur then
            Ok(set id | id in restaurants && restaurants[id].status == Approved && restaurants[id].ownerId == userId)
          else Err(BadRequest)
    }

    /** `switchRestaurant`: the restaurant only when it exists, belongs to
        the owner and is APPROVED; NotFound otherwise. */
    function SwitchRestaurant(ownerId: int, restaurantId: int): (r: Result<Restaurant>)
      reads this
      ensures r.Ok? <==> restaurantId in restaurants && restaurants[restaurantId].ownerId == ownerId
                         && restaurants[restaurantId].status == Approved
      ensures r.Ok? ==> r.value == restaurants[restaurantId]
      ensures r.Err? ==> r.error == NotFound
    {
      if restaurantId in restaurants && restaurants[restaurantId].status == Approved
         && restaurants[restaurantId].ownerId == ownerId
      then Ok(restaurants[restaurantId])
      else Err(NotFound)
    }

    /** The gate of `updateRestaurant` and `deleteRestaurant`: NotFound, then
        Forbidden for anyone but the owner. */
    function OwnerGate(restaurantId: int, ownerId: int): (r: Result<Restaurant>)
      reads this
      ensures restaurantId !in restaurants <==> r == Err(NotFound)
      ensures restaurantId in restaurants ==>
                (r == Err(Forbidden) <==> restaurants[restaurantId].ownerId != ownerId)
      ensures r.Ok? ==> r.value == restaurants[restaurantId]
    {
      if restaurantId !in restaurants then Err(NotFound)
      else if restaurants[restaurantId].ownerId != ownerId then Err(Forbidden)
      else Ok(restaurants[restaurantId])
    }

    /** `updateRestaurant`: the owner replaces the restaurant's details; the
        status and owner are kept. */
    method UpdateRestaurant(restaurantId: int, ownerId: int, info: RestaurantInfo) returns (r: Result<Restaurant>)
      requires Valid()
      modifies this`restaurants
      ensures Valid()
      ensures old(OwnerGate(restaurantId, ownerId)).Err? ==>
                r == old(OwnerGate(restaurantId, ownerId)) && restaurants == old(restaurants)
      ensures old(OwnerGate(restaurantId, ownerId)).Ok? ==>
                && r == Ok(old(restaurants)[restaurantId].(info := info))
                && restaurants == old(restaurants)[restaurantId := r.value]
    {
      var gate := OwnerGate(restaurantId, ownerId);
      if gate.Err? {
        return gate;
      }
      var updated := gate.value.(info := info);
      restaurants := restaurants[restaurantId := updated];
      r := Ok(updated);
    }

    /** `deleteRestaurant`: the owner removes the restaurant. */
    method DeleteRestaurant(restaurantId: int, ownerId: int) returns (r: Result<()>)
      requires Valid()
      modifies this`restaurants
      ensures Valid()
      ensures old(OwnerGate(restaurantId, ownerId)).Err? ==>
                r == Err(old(OwnerGate(restaurantId, ownerId)).error) && restaurants == old(restaurants)
      ensures old(OwnerGate(restaurantId, ownerId)).Ok? ==>
                r == Ok(()) && restaurants == old(restaurants) - {restaurantId}
    {
      var gate := OwnerGate(restaurantId, ownerId);
      if gate.Err? {
        return Err(gate.error);
      }
      restaurants := restaurants - {restaurantId};
      r := Ok(());
    }

    /** `submitRestaurantRequest`: NotFound, then Unauthorized for anyone but
        the owner; otherwise a new PENDING request for the restaurant, and
        the restaurant itself goes back to PENDING. */
    method SubmitRestaurantRequest(restaurantId: int, ownerId: int) returns (r: Result<int>)
      requires Valid()
      modifies this`requests, this`nextRequestId, this`restaurants
      ensures Valid()
      ensures restaurantId !in old(restaurants) <==> r == Err(NotFound)
      ensures restaurantId in old(restaurants) ==>
                (r == Err(Unauthorized) <==> old(restaurants)[restaurantId].ownerId != ownerId)
      ensures r.Ok? <==> restaurantId in old(restaurants) && old(restaurants)[restaurantId].ownerId == ownerId
      ensures r.Err? ==> requests == old(requests) && restaurants == old(restaurants)
                         && nextRequestId == old(nextRequestId)
      ensures r.Ok? ==>
                && r.value == old(nextRequestId) && r.value !in old(requests)
                && requests == old(requests)[r.value := RestaurantRequest(restaurantId, Pending)]
                && nextRequestId == old(nextRequestId) + 1
                && restaurants == old(restaurants)[restaurantId := old(restaurants)[restaurantId].(status := Pending)]
                && Synchronized(requests, restaurants, r.value)
    {
      if restaurantId !in restaurants {
        return Err(NotFound);
      }
      if restaurants[restaurantId].ownerId != ownerId {
        return Err(Unauthorized);
      }
      var id := nextRequestId;
      requests := requests[id := RestaurantRequest(restaurantId, Pending)];
      nextRequestId := nextRequestId + 1;
      restaurants := restaurants[restaurantId := restaurants[restaurantId].(status := Pending)];
      r := Ok(id);
    }

    /** `updateRestaurantStatus`: decides on the request's current status,
        then writes the request and then its restaurant. */
    method UpdateRestaurantStatus(requestId: int, newStatus: RestaurantStatus) returns (r: Result<RestaurantRequest>)
      requires Valid()
      modifies this`requests, this`restaurants
      ensures Valid()
      ensures StatusOutcome(r, requests, restaurants)
              == StatusTransition(old(requests), old(restaurants), requestId, newStatus)
    {
      if requestId !in requests {
        return Err(InternalError);
      }
      var current := requests[requestId];
      var decision := Decide(current.status, newStatus);
      if decision == Refuse {
        return Err(InternalError);
      }
      if decision == NoOp {
        return Ok(current);
      }
      requests := requests[requestId := current.(status := newStatus)];
      if current.restaurantId !in restaurants {
        return Err(InternalError);
      }
      restaurants := restaurants[current.restaurantId := restaurants[current.restaurantId].(status := newStatus)];
      r := Ok(requests[requestId]);
    }

    /** `createMenu`: NotFound, then BadRequest unless the restaurant is
        APPROVED; there is no ownership check, and connecting an owner that
        does not exist fails in the database. */
    method CreateMenu(ownerId: int, restaurantId: int, name: string, description: Option<string>, t: UserTable)
      returns (r: Result<int>)
      requires Valid()
      modifies this`menus, this`nextMenuId
      ensures Valid()
      ensures restaurantId !in old(restaurants) <==> r == Err(NotFound)
      ensures restaurantId in old(restaurants) && restaurants[restaurantId].status != Approved ==> r == Err(BadRequest)
      ensures r.Ok? <==> restaurantId in restaurants && restaurants[restaurantId].status == Approved && ownerId in t.users
      ensures restaurantId in old(restaurants) && restaurants[restaurantId].status == Approved && ownerId !in t.users
              ==> r == Err(InternalError)
      ensures r.Err? ==> menus == old(menus) && nextMenuId == old(nextMenuId)
      ensures r.Ok? ==> && r.value == old(nextMenuId) && r.value !in old(menus)
                        && menus == old(menus)[r.value := Menu(restaurantId, ownerId, name, description)]
                        && nextMenuId == old(nextMenuId) + 1
    {
      if restaurantId !in restaurants {
        return Err(NotFound);
      }
      if restaurants[restaurantId].status != Approved {
        return Err(BadRequest);
      }
      if ownerId !in t.users {
        return Err(InternalError);
      }
      var id := nextMenuId;
      menus := menus[id := Menu(restaurantId, ownerId, name, description)];
      nextMenuId := nextMenuId + 1;
      r := Ok(id);
    }

    /** The loop of `deleteMenu`: each item of the menu is deleted in turn;
        the items of other menus are left as they were. */
    method DeleteItemsOf(menuId: int)
      modifies this`menuItems
      ensures forall id :: id in menuItems <==> id in old(menuItems) && old(menuItems)[id].menuId != menuId
      ensures forall id :: id in menuItems ==> menuItems[id] == old(menuItems)[id]
    {
      var pending := set id | id in menuItems && menuItems[id].menuId == menuId;
      while pending != {}
        invariant pending <= menuItems.Keys
        invariant forall id :: id in pending ==> menuItems[id].menuId == menuId
        invariant forall id :: id in menuItems <==>
                    id in old(menuItems) && (old(menuItems)[id].menuId != menuId || id in pending)
        invariant forall id :: id in menuItems ==> menuItems[id] == old(menuItems)[id]
        decreases |pending|
      {
        var id := PickOne(pending);
        menuItems := menuItems - {id};
        pending := pending - {id};
      }
    }

    /** `deleteMenu`: NotFound, then BadRequest when the menu belongs to
        another restaurant; otherwise each of the menu's items is deleted,
        one at a time, and then the menu. Items of other menus stay. */
    method DeleteMenu(restaurantId: int, menuId: int) returns (r: Result<()>)
      requires Valid()
      modifies this`menus, this`menuItems
      ensures Valid()
      ensures menuId !in old(menus) <==> r == Err(NotFound)
      ensures menuId in old(menus) ==> (r == Err(BadRequest) <==> old(menus)[menuId].restaurantId != restaurantId)
      ensures r.Ok? <==> menuId in old(menus) && old(menus)[menuId].restaurantId == restaurantId
      ensures r.Err? ==> menus == old(menus) && menuItems == old(menuItems)
      ensures r.Ok? ==>
                && menus == old(menus) - {menuId}
                && (forall id :: id in menuItems <==> id in old(menuItems) && old(menuItems)[id].menuId != menuId)
                && (forall id :: id in menuItems ==> menuItems[id] == old(menuItems)[id])
    {
      if menuId !in menus {
        return Err(NotFound);
      }
      if menus[menuId].restaurantId != restaurantId {
        return Err(BadRequest);
      }
      DeleteItemsOf(menuId);
      menus := menus - {menuId};
      r := Ok(());
    }
  }
}
