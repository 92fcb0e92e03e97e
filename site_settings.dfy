/**
 * The site settings application: the single contact-information record,
 * created with its defaults on first read, its working-hours summary,
 * and the newsletter subscription with one row per address.
 */
module SiteSettings {
  import opened Wrappers

  datatype ContactInfo = ContactInfo(
    id: nat, createdAt: int,
    companyName: string, tagline: string,
    phoneNumber: string, whatsappNumber: string,
    address: string, building: string, office: string,
    monFriHours: string, saturdayHours: string, sundayHours: string,
    emergencyAvailable: bool,
    facebookUrl: string, instagramUrl: string, linkedinUrl: string,
    twitterUrl: string, youtubeUrl: string,
    copyrightText: string)

  const DefaultTagline: string :=
    "Your trusted cleaning and pest control partner in Dubai. 15+ years of excellence from Egypt to the UAE, serving thousands of satisfied customers."
  /** The copyright default, with the two characters its source file holds
      before the year. */
  const DefaultCopyright: string := "\U{00C2}\U{00A9} 2024 Bright Scope Dubai. All rights reserved."

  /** The record ContactInfo.objects.create() saves: every field at its
      model default, the social links blank. */
  function DefaultContactInfo(id: nat, now: int): (c: ContactInfo)
    ensures c.id == id && c.createdAt == now
    ensures c.companyName == "Bright Scope UAE" && c.tagline == DefaultTagline && c.copyrightText == DefaultCopyright
    ensures c.address == "Business Bay, Dubai, UAE" && c.building == "Building XYZ" && c.office == "Office 123"
    ensures c.phoneNumber == "+971 XXX XXX XXX" && c.whatsappNumber == "+971 XXX XXX XXX"
    ensures c.monFriHours == "8:00 AM - 8:00 PM"
    ensures c.saturdayHours == "9:00 AM - 6:00 PM"
    ensures c.sundayHours == "10:00 AM - 5:00 PM"
    ensures c.emergencyAvailable
    ensures c.facebookUrl == c.instagramUrl == c.linkedinUrl == c.twitterUrl == c.youtubeUrl == ""
  {
    ContactInfo(
      id, now, "Bright Scope UAE",
      DefaultTagline,
      "+971 XXX XXX XXX", "+971 XXX XXX XXX",
      "Business Bay, Dubai, UAE", "Building XYZ", "Office 123",
      "8:00 AM - 8:00 PM", "9:00 AM - 6:00 PM", "10:00 AM - 5:00 PM",
      true, "", "", "", "", "",
      DefaultCopyright)
  }

  /** The working_hours entry of the serialized record: exactly the keys
      monday_friday, saturday and sunday, each holding its stored text. */
  function WorkingHours(c: ContactInfo): (m: map<string, string>)
    ensures m.Keys == {"monday_friday", "saturday", "sunday"}
    ensures m["monday_friday"] == c.monFriHours
    ensures m["saturday"] == c.saturdayHours && m["sunday"] == c.sundayHours
  {
    map["monday_friday" := c.monFriHours, "saturday" := c.saturdayHours, "sunday" := c.sundayHours]
  }

  /** The serialized record: its fields and the working-hours summary. */
  datatype ContactInfoView = ContactInfoView(info: ContactInfo, workingHours: map<string, string>)

  function Serialize(c: ContactInfo): (v: ContactInfoView)
    ensures v.info == c && v.workingHours == WorkingHours(c)
  {
    ContactInfoView(c, WorkingHours(c))
  }

  /** The row `.first()` returns under the ordering '-created_at': one with
      the latest creation time, the earliest such in table order. */
  function NewestIndex(rows: seq<ContactInfo>): (k: nat)
    requires rows != []
    ensures k < |rows|
    ensures forall j :: 0 <= j < |rows| ==> rows[j].createdAt <= rows[k].createdAt
    ensures forall j :: 0 <= j < k ==> rows[j].createdAt < rows[k].createdAt
  {
    if |rows| == 1 then 0
    else
      var k := NewestIndex(rows[1..]) + 1;
      if rows[0].createdAt >= rows[k].createdAt then 0 else k
  }

  datatype ListResponse =
    | ListOk(body: ContactInfoView)   // 200
    | ListFailed                      // 500: an exception while reading or creating
  {
    function Status(): int {
      if ListOk? then 200 else 500
    }
  }

  class ContactInfoTable {
    var rows: seq<ContactInfo>
    var nextId: nat

    ghost predicate Valid()
      reads this
    {
      forall i :: 0 <= i < |rows| ==> rows[i].id < nextId
    }

    constructor ()
      ensures Valid() && rows == []
    {
      rows := [];
      nextId := 1;
    }

    /** ContactInfoViewSet.list: the newest record, or a fresh record with
        the defaults when there is none; `fault` stands for an exception
        raised by the database, which the view turns into a 500. */
    method List(fault: bool, now: int) returns (resp: ListResponse)
      requires Valid()
      modifies this
      ensures Valid()
      ensures fault ==> resp == ListFailed && rows == old(rows) && nextId == old(nextId)
      ensures !fault ==> rows != [] && resp.ListOk?
      ensures !fault && old(rows) != [] ==>
        resp == ListOk(Serialize(old(rows)[NewestIndex(old(rows))]))
        && rows == old(rows) && nextId == old(nextId)
      ensures !fault && old(rows) == [] ==>
        resp == ListOk(Serialize(DefaultContactInfo(old(nextId), now)))
        && rows == [DefaultContactInfo(old(nextId), now)] && nextId == old(nextId) + 1
    {
      if fault {
        return ListFailed;
      }
      var info: ContactInfo;
      if rows == [] {
        info := DefaultContactInfo(nextId, now);
        rows := [info];
        nextId := nextId + 1;
      } else {
        info := rows[NewestIndex(rows)];
      }
      resp := ListOk(Serialize(info));
    }
  }

  datatype Subscriber = Subscriber(id: nat, email: string, createdAt: int)

  ghost predicate UniqueEmails(subs: seq<Subscriber>) {
    forall i, j :: 0 <= i < j < |subs| ==> subs[i].email != subs[j].email
  }

  function SubscriberIndex(subs: seq<Subscriber>, email: string): (r: Option<nat>)
    ensures r.Some? ==> r.value < |subs| && subs[r.value].email == email
    ensures r.None? ==> forall i :: 0 <= i < |subs| ==> subs[i].email != email
  {
    if subs == [] then None
    else if subs[0].email == email then Some(0)
    else match SubscriberIndex(subs[1..], email)
      case None => None
      case Some(k) => Some(k + 1)
  }

  datatype SubscribeResponse =
    | Subscribed(email: string)   // 201
    | SubscribeInvalid            // 400: the serializer refused the data
    | SubscribeFailed             // 500: an exception while saving
  {
    function Status(): int {
      match this
      case Subscribed(_) => 201
      case SubscribeInvalid => 400
      case SubscribeFailed => 500
    }
  }

  class SubscriberTable {
    var subscribers: seq<Subscriber>
    var nextId: nat

    /** The unique constraint on email; new ids are fresh. */
    ghost predicate Valid()
      reads this
    {
      UniqueEmails(subscribers) && forall i :: 0 <= i < |subscribers| ==> subscribers[i].id < nextId
    }

    constructor ()
      ensures Valid() && subscribers == []
    {
      subscribers := [];
      nextId := 1;
    }

    /** NewsletterSubscriberSerializer.create: get_or_create by email. An
        address already subscribed returns its row and adds nothing; a new
        one is appended. Either way the returned row has the given address. */
    method GetOrCreate(email: string, now: int) returns (s: Subscriber)
      requires Valid()
      modifies this
      ensures Valid()
      ensures s.email == email
      ensures SubscriberIndex(old(subscribers), email).Some? ==>
        s == old(subscribers)[SubscriberIndex(old(subscribers), email).value]
        && subscribers == old(subscribers) && nextId == old(nextId)
      ensures SubscriberIndex(old(subscribers), email).None? ==>
        s == Subscriber(old(nextId), email, now)
        && subscribers == old(subscribers) + [s] && nextId == old(nextId) + 1
    {
      var k := SubscriberIndex(subscribers, email);
      if k.Some? {
        s := subscribers[k.value];
      } else {
        s := Subscriber(nextId, email, now);
        subscribers := subscribers + [s];
        nextId := nextId + 1;
      }
    }

    /** ContactInfoViewSet.subscribe: `valid` is the serializer's verdict on
        the request (email syntax, and that the address is not already
        stored), `fault` an exception raised while saving; `email` is the
        validated, stripped address. Since the validator and get-or-create
        make the same lookup, the 201 that leaves the table unchanged needs
        a concurrent insert between the two. A valid request
        answers 201 with the address; a refused one 400; a fault 500, with
        nothing stored. */
    method Subscribe(email: string, valid: bool, fault: bool, now: int) returns (resp: SubscribeResponse)
      requires Valid()
      modifies this
      ensures Valid()
      ensures !valid ==> resp == SubscribeInvalid
      ensures valid && fault ==> resp == SubscribeFailed
      ensures valid && !fault ==> resp == Subscribed(email)
      ensures resp.Subscribed? ==> exists i :: 0 <= i < |subscribers| && subscribers[i].email == email
      ensures resp.Subscribed? && SubscriberIndex(old(subscribers), email).Some? ==>
        subscribers == old(subscribers) && nextId == old(nextId)
      ensures resp.Subscribed? && SubscriberIndex(old(subscribers), email).None? ==>
        subscribers == old(subscribers) + [Subscriber(old(nextId), email, now)]
        && nextId == old(nextId) + 1
      ensures !resp.Subscribed? ==> subscribers == old(subscribers) && nextId == old(nextId)
      ensures |old(subscribers)| <= |subscribers| <= |old(subscribers)| + 1
    {
      if !valid {
        return SubscribeInvalid;
      }
      if fault {
        return SubscribeFailed;
      }
      var s := GetOrCreate(email, now);
      resp := Subscribed(s.email);
      assert subscribers[|subscribers| - 1] == s || s in old(subscribers);
    }
  }
}
