/**
 * The service endpoints: the list of active services with an optional
 * type filter, the detail of one active service, the booking list for
 * signed-in callers (newest first, with an optional email filter) and
 * the booking submission.
 */
module ServiceViews {
  import opened Wrappers
  import opened Text
  import opened Tables
  import opened ServiceSerializers

  // ---------------------------------------------------------------------
  // ServiceListAPIView.get

  /** The active services, restricted to one type when a non-empty
      `service_type` parameter is given. */
  function ServiceList(services: seq<Service>, serviceType: Option<string>): (r: seq<Service>)
    ensures forall s :: s in r <==>
      s in services && s.isActive
      && (serviceType.None? || serviceType.value == "" || s.serviceType == serviceType.value)
    ensures |r| <= |services|
  {
    var active := Filter(services, (s: Service) => s.isActive);
    if serviceType.Some? && serviceType.value != "" then
      Filter(active, (s: Service) => s.serviceType == serviceType.value)
    else active
  }

  // ---------------------------------------------------------------------
  // ServiceDetailAPIView.get

  datatype DetailError = NotFound

  /** get_object_or_404(Service, pk=pk, is_active=True) */
  function ServiceDetail(services: seq<Service>, pk: nat): (r: Result<Service, DetailError>)
    ensures r.Success? ==> r.value in services && r.value.id == pk && r.value.isActive
    ensures r.Failure? <==> forall s :: s in services ==> !(s.id == pk && s.isActive)
  {
    match FirstIndex(services, (s: Service) => s.id == pk && s.isActive)
    case None => Failure(NotFound)
    case Some(i) => Success(services[i])
  }

  // ---------------------------------------------------------------------
  // BookingCreateAPIView.get

  /** The filter as written: customer_email iexact OR icontains. */
  predicate EmailMatches(b: Booking, email: string) {
    Lower(b.customerEmail) == Lower(email) || ContainsIgnoreCase(b.customerEmail, email)
  }

  /** The iexact half adds nothing: an equal address also contains it. */
  lemma IexactIsIcontains(b: Booking, email: string)
    ensures EmailMatches(b, email) <==> ContainsIgnoreCase(b.customerEmail, email)
  {
    if Lower(b.customerEmail) == Lower(email) {
      assert OccursAt(Lower(b.customerEmail), Lower(email), 0);
    }
  }

  /** The newest-first ordering key of order_by('-created_at'). */
  function NewestFirst(b: Booking): int { -b.createdAt }

  datatype BookingListResponse = Unauthorized | Bookings(items: seq<Booking>)
  {
    function Status(): int {
      match this
      case Unauthorized => 401
      case Bookings(_) => 200
    }
  }

  /** Whether the list keeps a booking: no email parameter (or an empty
      one), or the customer email contains it, ignoring case. */
  predicate Listed(b: Booking, email: Option<string>) {
    email.None? || email.value == "" || ContainsIgnoreCase(b.customerEmail, email.value)
  }

  /** Every booking, newest first, restricted to those whose customer email
      contains the parameter, ignoring case, when a non-empty one is given;
      401 to a caller who is not signed in. Each kept booking appears as
      often as in the table. */
  function BookingList(bookings: seq<Booking>, authenticated: bool, email: Option<string>)
    : (r: BookingListResponse)
    ensures r.Unauthorized? <==> !authenticated
    ensures r.Bookings? ==> SortedBy(r.items, NewestFirst)
    ensures r.Bookings? ==> forall b :: b in r.items <==> b in bookings && Listed(b, email)
    ensures r.Bookings? ==>
      multiset(r.items) == multiset(Filter(bookings, (b: Booking) => Listed(b, email)))
  {
    if !authenticated then Unauthorized
    else
      var ordered := SortBy(bookings, NewestFirst);
      var kept := KeepListed(ordered, email);
      var listed := Filter(bookings, (b: Booking) => Listed(b, email));
      assert multiset(kept) == multiset(listed) by {
        forall b ensures multiset(kept)[b] == multiset(listed)[b] { }
      }
      assert forall b :: b in kept <==> b in bookings && Listed(b, email) by {
        forall b ensures b in kept <==> b in bookings && Listed(b, email) {
          assert b in kept <==> multiset(kept)[b] > 0;
          assert b in bookings <==> multiset(bookings)[b] > 0;
        }
      }
      Bookings(kept)
  }

  /** The filter(customer_email__iexact=...) step on the sorted rows: the
      rows the list keeps, in their order. */
  function KeepListed(ordered: seq<Booking>, email: Option<string>): (r: seq<Booking>)
    requires SortedBy(ordered, NewestFirst)
    ensures SortedBy(r, NewestFirst)
    ensures forall b :: multiset(r)[b] == if Listed(b, email) then multiset(ordered)[b] else 0
  {
    if email.Some? && email.value != "" then
      forall b ensures EmailMatches(b, email.value) <==> Listed(b, email) {
        IexactIsIcontains(b, email.value);
      }
      FilterKeepsSorted(ordered, (b: Booking) => EmailMatches(b, email.value), NewestFirst);
      Filter(ordered, (b: Booking) => EmailMatches(b, email.value))
    else ordered
  }

  // ---------------------------------------------------------------------
  // BookingCreateAPIView.post

  datatype BookingPostResponse = BookingCreated(booking: Booking) | BookingRejected
  {
    function Status(): int {
      match this
      case BookingCreated(_) => 201
      case BookingRejected => 400
    }
  }

  /** The service and package the request names exist (inactive ones
      included), and the other fields pass the serializer's field checks
      (`fieldsOk`). */
  predicate BookingRequestValid(services: seq<Service>, packages: seq<Package>, req: BookingRequest, fieldsOk: bool) {
    fieldsOk
    && (exists i | 0 <= i < |services| :: services[i].id == req.serviceId)
    && (exists j | 0 <= j < |packages| :: packages[j].id == req.packageId)
  }

  /** BookingCreateAPIView.post: a valid request creates one booking and
      answers 201; an invalid one answers 400 and creates nothing. */
  method BookingPost(store: BookingStore, services: seq<Service>, packages: seq<Package>,
                     addons: seq<Addon>, req: BookingRequest, fieldsOk: bool, now: int)
    returns (resp: BookingPostResponse)
    requires store.Valid()
    modifies store
    ensures store.Valid()
    ensures resp.BookingCreated? <==> BookingRequestValid(services, packages, req, fieldsOk)
    ensures resp.BookingRejected? ==> store.bookings == old(store.bookings) && store.nextId == old(store.nextId)
    ensures resp.BookingCreated? ==>
      var package := packages[FirstIndex(packages, (p: Package) => p.id == req.packageId).value];
      && store.bookings == old(store.bookings) + [resp.booking]
      && store.nextId == old(store.nextId) + 1
      && resp.booking.id == old(store.nextId) && resp.booking.createdAt == now
      && resp.booking.serviceId == req.serviceId && resp.booking.packageId == req.packageId
      && resp.booking.customerName == req.customerName
      && resp.booking.customerEmail == req.customerEmail
      && resp.booking.customerPhone == req.customerPhone && resp.booking.address == req.address
      && resp.booking.bookingDate == req.bookingDate
      && resp.booking.specialRequests == req.specialRequests
      && resp.booking.totalPrice == TotalPrice(package, addons, req.addonIds)
      && resp.booking.status == Pending
      && resp.booking.addonIds == IdsOf(SelectedAddons(addons, req.addonIds))
  {
    if !BookingRequestValid(services, packages, req, fieldsOk) {
      return BookingRejected;
    }
    var k := FirstIndex(packages, (p: Package) => p.id == req.packageId);
    var b := store.CreateBooking(req, packages[k.value], addons, now);
    resp := BookingCreated(b);
  }
}
