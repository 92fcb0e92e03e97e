/**
 * The catalogue records of the service app and the booking creation of
 * BookingCreateSerializer: the total price is the package price plus the
 * prices of the listed addons that are active, and exactly those addons
 * are attached to the new booking.
 *
 * Prices are integers in minor currency units (fils); times are integers.
 */
module ServiceSerializers {
  import opened Wrappers
  import opened Tables

  datatype Service = Service(id: nat, name: string, serviceType: string, description: string, isActive: bool)

  datatype Package = Package(id: nat, serviceId: nat, name: string, price: int, isActive: bool)

  datatype Addon = Addon(id: nat, serviceId: nat, name: string, price: int, isActive: bool)

  datatype BookingStatus = Pending | Confirmed | InProgress | Completed | Cancelled

  datatype Booking = Booking(
    id: nat, serviceId: nat, packageId: nat, addonIds: set<nat>,
    customerName: string, customerEmail: string, customerPhone: string,
    address: string, bookingDate: int, specialRequests: string,
    totalPrice: int, status: BookingStatus, createdAt: int)

  /** The validated booking request. The client may also send a status or
      a total price; the create serializer does not take them. */
  datatype BookingRequest = BookingRequest(
    serviceId: nat, packageId: nat, addonIds: seq<int>,
    customerName: string, customerEmail: string, customerPhone: string,
    address: string, bookingDate: int, specialRequests: string,
    clientStatus: Option<string>, clientTotalPrice: Option<int>)

  predicate IsSelected(a: Addon, ids: seq<int>) { a.isActive && a.id as int in ids }

  /** Addon.objects.filter(id__in=addon_ids, is_active=True) when the list
      is not empty, else no addon. */
  function SelectedAddons(addons: seq<Addon>, ids: seq<int>): (r: seq<Addon>)
    ensures forall a :: a in r <==> a in addons && IsSelected(a, ids)
    ensures ids == [] ==> r == []
  {
    if ids == [] then [] else Filter(addons, (a: Addon) => IsSelected(a, ids))
  }

  /** sum(addon.price for addon in addons) */
  function SumPrices(addons: seq<Addon>): int {
    if addons == [] then 0 else addons[0].price + SumPrices(addons[1..])
  }

  /** The ids of a list of addons, as the many-to-many relation stores them. */
  function IdsOf(addons: seq<Addon>): (r: set<nat>)
    ensures forall x :: x in r <==> exists a :: a in addons && a.id == x
  {
    set a | a in addons :: a.id
  }

  /** The selection depends only on which active addons' ids are listed,
      not on how the list is written. */
  lemma {:induction false} SelectionDependsOnActiveIds(addons: seq<Addon>, ids1: seq<int>, ids2: seq<int>)
    requires forall a :: a in addons && a.isActive ==> (a.id as int in ids1 <==> a.id as int in ids2)
    ensures SelectedAddons(addons, ids1) == SelectedAddons(addons, ids2)
  {
    if ids1 == [] {
      NothingListedNothingSelected(addons, ids2);
    } else if ids2 == [] {
      NothingListedNothingSelected(addons, ids1);
    } else {
      FilterCongruent(addons, (a: Addon) => IsSelected(a, ids1), (a: Addon) => IsSelected(a, ids2));
    }
  }

  /** A list naming no active addon selects nothing, as the empty list
      does: the two branches of the selection agree there. */
  lemma NothingListedNothingSelected(addons: seq<Addon>, ids: seq<int>)
    requires forall a :: a in addons && a.isActive ==> a.id as int !in ids
    ensures SelectedAddons(addons, ids) == SelectedAddons(addons, [])
  {
    var r := SelectedAddons(addons, ids);
    if r != [] {
      assert false;
    }
  }

  /** An id listed twice counts once. */
  lemma RepeatedIdCountsOnce(addons: seq<Addon>, ids: seq<int>, x: int)
    requires x in ids
    ensures SelectedAddons(addons, ids + [x]) == SelectedAddons(addons, ids)
  {
    SelectionDependsOnActiveIds(addons, ids + [x], ids);
  }

  /** An id that names no active addon (missing, or inactive) adds nothing. */
  lemma InactiveOrMissingIdAddsNothing(addons: seq<Addon>, ids: seq<int>, x: int)
    requires forall a :: a in addons && a.id as int == x ==> !a.isActive
    ensures SelectedAddons(addons, ids + [x]) == SelectedAddons(addons, ids)
  {
    SelectionDependsOnActiveIds(addons, ids + [x], ids);
  }

  /** Every listed active addon is attached, whichever service it belongs
      to: the selection does not look at the booked service. */
  lemma ListedActiveAddonAttached(addons: seq<Addon>, ids: seq<int>, a: Addon)
    requires a in addons && a.isActive && a.id as int in ids
    ensures a.id in IdsOf(SelectedAddons(addons, ids))
  {
  }

  /** The total price of a booking of `package` with the listed addons. */
  function TotalPrice(package: Package, addons: seq<Addon>, ids: seq<int>): int {
    package.price + SumPrices(SelectedAddons(addons, ids))
  }

  /** With no addons listed, the total is the package price. */
  lemma NoAddonsPackagePrice(package: Package, addons: seq<Addon>)
    ensures TotalPrice(package, addons, []) == package.price
  {
  }

  /** The bookings table. */
  class BookingStore {
    var bookings: seq<Booking>
    var nextId: nat

    ghost predicate Valid()
      reads this
    {
      forall i :: 0 <= i < |bookings| ==> bookings[i].id < nextId
    }

    constructor ()
      ensures Valid() && bookings == []
    {
      bookings := [];
      nextId := 1;
    }

    /** BookingCreateSerializer.create: the booking is saved with the
        computed total and status pending, then its addon relation is set
        to the selected addons. */
    method CreateBooking(req: BookingRequest, package: Package, addons: seq<Addon>, now: int)
      returns (b: Booking)
      requires Valid()
      requires package.id == req.packageId
      modifies this
      ensures Valid()
      ensures b.totalPrice == TotalPrice(package, addons, req.addonIds)
      ensures b.addonIds == IdsOf(SelectedAddons(addons, req.addonIds))
      ensures b.status == Pending && b.createdAt == now && b.id == old(nextId)
      ensures b.serviceId == req.serviceId && b.packageId == req.packageId
      ensures b.customerName == req.customerName && b.customerEmail == req.customerEmail
      ensures b.customerPhone == req.customerPhone && b.address == req.address
      ensures b.bookingDate == req.bookingDate && b.specialRequests == req.specialRequests
      ensures bookings == old(bookings) + [b] && nextId == old(nextId) + 1
    {
      var selected := SelectedAddons(addons, req.addonIds);
      var total := package.price + SumPrices(selected);
      b := Booking(nextId, req.serviceId, req.packageId, {},
                   req.customerName, req.customerEmail, req.customerPhone,
                   req.address, req.bookingDate, req.specialRequests,
                   total, Pending, now);
      bookings := bookings + [b];
      nextId := nextId + 1;
      if selected != [] {
        b := b.(addonIds := IdsOf(selected));
        bookings := bookings[|bookings| - 1 := b];
      }
    }
  }
}
