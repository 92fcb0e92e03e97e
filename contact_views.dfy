/**
 * The contact endpoints: a form submission stored in the submission log,
 * and the read-only contact information (active contact methods in
 * display order, every office location, the resolved language).
 */
module ContactViews {
  import opened Wrappers
  import opened Text
  import opened Tables
  import opened ContactSerializers

  /** 201 with the stored submission, or 400 with the errors. */
  datatype PostResponse = SubmissionCreated(saved: Submission) | SubmissionRejected(errors: SubmissionErrors)
  {
    function Status(): int {
      match this
      case SubmissionCreated(_) => 201
      case SubmissionRejected(_) => 400
    }
  }

  /** The row serializer.save() inserts: the validated data, unresolved,
      stamped with the time of the request. */
  function Stored(data: SubmissionData, now: int): (s: Submission)
    ensures s.email == data.email && s.message == data.message && s.fullName == data.fullName
    ensures s.phone == data.phone && s.serviceType == data.serviceType
    ensures !s.isResolved && s.createdAt == now
  {
    Submission(data.fullName, data.phone, data.email, data.serviceType, data.message, false, now)
  }

  class SubmissionLog {
    var submissions: seq<Submission>

    constructor ()
      ensures submissions == []
    {
      submissions := [];
    }

    /** ContactSubmissionCreateView.post: a valid submission is stored once
        and returned; an invalid one stores nothing. */
    method Post(input: SubmissionInput, emailSyntaxOk: bool, now: int) returns (resp: PostResponse)
      modifies this
      ensures resp.SubmissionRejected? <==> ValidateSubmission(old(submissions), input, emailSyntaxOk, now).Failure?
      ensures resp.SubmissionRejected? ==>
        submissions == old(submissions)
        && resp.errors == ValidateSubmission(old(submissions), input, emailSyntaxOk, now).error
      ensures resp.SubmissionCreated? ==>
        resp.saved == Stored(ValidateSubmission(old(submissions), input, emailSyntaxOk, now).value, now)
        && submissions == old(submissions) + [resp.saved]
    {
      var v := ValidateSubmission(submissions, input, emailSyntaxOk, now);
      if v.Failure? {
        return SubmissionRejected(v.error);
      }
      var row := Stored(v.value, now);
      submissions := submissions + [row];
      resp := SubmissionCreated(row);
    }
  }

  /** Posting the same form again within 24 hours is refused as a
      duplicate: the first post is in the log when the second is checked. */
  lemma RepostWithinDayRefused(log: seq<Submission>, input: SubmissionInput, emailSyntaxOk: bool,
                               now: int, later: int)
    requires ValidateSubmission(log, input, emailSyntaxOk, now).Success?
    requires now <= later <= now + DuplicateWindow
    ensures ValidateSubmission(log + [Stored(ValidateSubmission(log, input, emailSyntaxOk, now).value, now)],
                               input, emailSyntaxOk, later)
            == Failure(DuplicateSubmission)
  {
    var data := ValidatedData(input, emailSyntaxOk);
    assert ValidateSubmission(log, input, emailSyntaxOk, now).value == data;
    var log' := log + [Stored(data, now)];
    ResubmissionRefused(log', data, later, |log|);
    assert ValidateSubmission(log', input, emailSyntaxOk, later) == ValidateObject(log', data, later);
  }

  // ---------------------------------------------------------------------
  // ContactInfoView.get

  /** The position of a method type in alphabetical order of its stored
      name: "email" < "phone" < "whatsapp". */
  function MethodRank(t: MethodType): (r: int)
    ensures 0 <= r < 3
  {
    match t
    case EmailMethod => 0
    case PhoneMethod => 1
    case WhatsappMethod => 2
  }

  /** The ordering ['order', 'method_type'] as one integer. */
  function Key(order: int, t: MethodType): int {
    order * 3 + MethodRank(t)
  }

  /** The key of a stored method, and of its rendered view. */
  function MethodKey(m: ContactMethod): int { Key(m.order, m.methodType) }

  function MethodViewKey(v: ContactMethodView): int { Key(v.order, v.methodType) }

  /** Comparing keys is comparing by order, then by method type. */
  lemma {:induction false} MethodKeyIsLexicographic(a: ContactMethod, b: ContactMethod)
    ensures MethodKey(a) < MethodKey(b) <==>
      a.order < b.order || (a.order == b.order && MethodRank(a.methodType) < MethodRank(b.methodType))
  {
    var ra, rb := MethodRank(a.methodType), MethodRank(b.methodType);
    if a.order < b.order {
      assert a.order * 3 + ra < (a.order + 1) * 3 <= b.order * 3 + rb;
    } else if a.order > b.order {
      assert b.order * 3 + rb < (b.order + 1) * 3 <= a.order * 3 + ra;
    }
  }

  datatype ContactInfo = ContactInfo(
    methods: seq<ContactMethodView>, locations: seq<OfficeLocationView>, currentLanguage: Lang)

  predicate IsActiveMethod(m: ContactMethod) { m.isActive }

  /** ContactMethod.objects.filter(is_active=True) under the model's
      ordering: exactly the active methods, sorted by (order, method type). */
  function ActiveMethodsInOrder(methods: seq<ContactMethod>): (r: seq<ContactMethod>)
    ensures forall m :: m in r <==> m in methods && m.isActive
    ensures multiset(r) == multiset(Filter(methods, IsActiveMethod))
    ensures SortedBy(r, MethodKey)
    ensures forall i :: 0 <= i < |r| ==> r[i].isActive
  {
    var active := SortBy(Filter(methods, IsActiveMethod), MethodKey);
    assert forall m :: m in active <==> m in methods && m.isActive by {
      forall m ensures m in active <==> m in methods && m.isActive {
        assert m in active <==> multiset(active)[m] > 0;
      }
    }
    assert forall i :: 0 <= i < |active| ==> active[i].isActive by {
      forall i | 0 <= i < |active| ensures active[i].isActive {
        assert active[i] in active;
      }
    }
    active
  }

  /** ContactInfoView.get: the active methods in display order and every
      location, all rendered in the request's language. */
  function ContactInfoGet(methods: seq<ContactMethod>, locations: seq<OfficeLocation>, req: Request)
    : (r: ContactInfo)
    ensures r.currentLanguage == ResolveLanguage(Some(req))
    ensures |r.locations| == |locations|
    ensures forall i :: 0 <= i < |locations| ==>
      r.locations[i] == SerializeLocation(r.currentLanguage, locations[i])
    ensures |r.methods| == |ActiveMethodsInOrder(methods)|
    ensures forall i :: 0 <= i < |r.methods| ==>
      r.methods[i] == SerializeMethod(r.currentLanguage, ActiveMethodsInOrder(methods)[i])
      && r.methods[i].isActive
    ensures forall i, j :: 0 <= i < j < |r.methods| ==> MethodViewKey(r.methods[i]) <= MethodViewKey(r.methods[j])
  {
    var lang := ResolveLanguage(Some(req));
    var active := ActiveMethodsInOrder(methods);
    ContactInfo(
      RenderMethods(lang, active),
      seq(|locations|, i requires 0 <= i < |locations| => SerializeLocation(lang, locations[i])),
      lang)
  }

  /** Rendering methods sorted by key one by one keeps them sorted: a
      rendered method has the key of its record. */
  function RenderMethods(lang: Lang, ms: seq<ContactMethod>): (r: seq<ContactMethodView>)
    requires SortedBy(ms, MethodKey)
    ensures |r| == |ms|
    ensures forall i :: 0 <= i < |ms| ==> r[i] == SerializeMethod(lang, ms[i])
    ensures forall i, j :: 0 <= i < j < |r| ==> MethodViewKey(r[i]) <= MethodViewKey(r[j])
  {
    var r := seq(|ms|, i requires 0 <= i < |ms| => SerializeMethod(lang, ms[i]));
    assert forall i, j :: 0 <= i < j < |r| ==> MethodViewKey(r[i]) <= MethodViewKey(r[j]) by {
      forall i, j | 0 <= i < j < |r| ensures MethodViewKey(r[i]) <= MethodViewKey(r[j]) {
        assert MethodKey(ms[i]) <= MethodKey(ms[j]);
      }
    }
    r
  }

  /** Every active method is shown and no inactive one is. */
  lemma ShownIffActive(methods: seq<ContactMethod>, locations: seq<OfficeLocation>, req: Request, m: ContactMethod)
    requires m in methods
    ensures var r := ContactInfoGet(methods, locations, req);
      SerializeMethod(r.currentLanguage, m) in r.methods <==> m.isActive
  {
    var r := ContactInfoGet(methods, locations, req);
    var active := ActiveMethodsInOrder(methods);
    if m.isActive {
      var i :| 0 <= i < |active| && active[i] == m;
      assert r.methods[i] == SerializeMethod(r.currentLanguage, m);
    }
    if SerializeMethod(r.currentLanguage, m) in r.methods {
      var i :| 0 <= i < |r.methods| && r.methods[i] == SerializeMethod(r.currentLanguage, m);
      assert r.methods[i].isActive;
    }
  }
}
