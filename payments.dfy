/**
 * The payment table and its two endpoints: creating a payment (validate,
 * store as INITIATED, open a gateway session, record its transaction
 * reference or mark the payment FAILED) and the gateway callback (set
 * SUCCESS or FAILED on the payment with that reference).
 *
 * The gateway call is an input: an error, or a session whose answer may
 * or may not carry a `tran_ref`. Amounts are integers in minor units.
 */
module Payments {
  import opened Wrappers
  import opened Tables

  datatype PaymentStatus = Initiated | Succeeded | Failed

  datatype Payment = Payment(
    id: nat, orderId: string, transactionReference: Option<string>,
    amount: int, currency: string, status: PaymentStatus,
    customerEmail: string, customerName: string)

  /** The fields PaymentCreateSerializer accepts; the currency defaults to
      AED when it is left out. */
  datatype PaymentRequest = PaymentRequest(
    orderId: string, amount: int, currency: Option<string>,
    customerEmail: string, customerName: string)

  /** What create_payment_session does: raise, or answer with a body whose
      `tran_ref` may be missing. */
  datatype GatewayResult = GatewayError | Session(tranRef: Option<string>)

  /** The row holding transaction reference `ref`. */
  function PaymentByRef(payments: seq<Payment>, ref: string): (r: Option<nat>)
    ensures r.Some? ==> r.value < |payments| && payments[r.value].transactionReference == Some(ref)
    ensures r.None? <==> forall i :: 0 <= i < |payments| ==> payments[i].transactionReference != Some(ref)
  {
    FirstIndex(payments, (p: Payment) => p.transactionReference == Some(ref))
  }

  /** The unique constraint on transaction_reference (NULLs excepted), and
      fresh ids. */
  ghost predicate UniqueRefs(payments: seq<Payment>) {
    forall i, j :: 0 <= i < j < |payments| && payments[i].transactionReference.Some? ==>
      payments[i].transactionReference != payments[j].transactionReference
  }

  /** The status a callback sets: SUCCESS exactly when response_status is
      "A"; anything else, a missing one included, is FAILED. */
  function CallbackStatus(responseStatus: Option<string>): (s: PaymentStatus)
    ensures s == Succeeded <==> responseStatus == Some("A")
    ensures s != Initiated
  {
    if responseStatus == Some("A") then Succeeded else Failed
  }

  datatype CreateResponse =
    | PaymentInitiated(transactionReference: Option<string>)
    | CreateRejected
    | GatewayFailed
    | CreateCrashed
  {
    function Status(): int {
      match this
      case PaymentInitiated(_) => 200
      case CreateRejected => 400
      case GatewayFailed => 502
      case CreateCrashed => 500
    }
  }

  datatype CallbackResponse = CallbackProcessed | MissingReference | PaymentNotFound
  {
    function Status(): int {
      match this
      case CallbackProcessed => 200
      case MissingReference => 400
      case PaymentNotFound => 404
    }
  }

  class PaymentTable {
    var payments: seq<Payment>
    var nextId: nat

    ghost predicate Valid()
      reads this
    {
      UniqueRefs(payments) && forall i :: 0 <= i < |payments| ==> payments[i].id < nextId
    }

    constructor ()
      ensures Valid() && payments == []
    {
      payments := [];
      nextId := 1;
    }

    /** CreatePaymentView.post. A non-positive amount (or any other field
        the serializer refuses, `fieldsOk`) is a 400 before anything is
        stored. Otherwise the payment is stored as INITIATED; a gateway
        error marks it FAILED (502); a session records its tran_ref and
        answers INITIATED, unless that reference is already taken, in which
        case both saves fail and the request ends in a 500 with the row
        left INITIATED and without reference. */
    method Create(req: PaymentRequest, fieldsOk: bool, gateway: GatewayResult)
      returns (resp: CreateResponse)
      requires Valid()
      modifies this
      ensures Valid()
      ensures resp.CreateRejected? <==> req.amount <= 0 || !fieldsOk
      ensures resp.CreateRejected? ==> payments == old(payments) && nextId == old(nextId)
      ensures !resp.CreateRejected? ==>
        var stored := Payment(old(nextId), req.orderId, None, req.amount, req.currency.GetOr("AED"),
                              Initiated, req.customerEmail, req.customerName);
        && nextId == old(nextId) + 1
        && |payments| == |old(payments)| + 1
        && payments[..|old(payments)|] == old(payments)
        && (gateway.GatewayError? ==>
              resp == GatewayFailed && payments[|old(payments)|] == stored.(status := Failed))
        && (gateway.Session? && (gateway.tranRef.None? || PaymentByRef(old(payments), gateway.tranRef.value).None?) ==>
              resp == PaymentInitiated(gateway.tranRef)
              && payments[|old(payments)|] == stored.(transactionReference := gateway.tranRef))
        && (gateway.Session? && gateway.tranRef.Some? && PaymentByRef(old(payments), gateway.tranRef.value).Some? ==>
              resp == CreateCrashed && payments[|old(payments)|] == stored)
    {
      if req.amount <= 0 || !fieldsOk {
        return CreateRejected;
      }
      var row := |payments|;
      var p := Payment(nextId, req.orderId, None, req.amount, req.currency.GetOr("AED"),
                       Initiated, req.customerEmail, req.customerName);
      payments := payments + [p];
      nextId := nextId + 1;
      match gateway {
        case GatewayError =>
          payments := payments[row := p.(status := Failed)];
          resp := GatewayFailed;
        case Session(ref) =>
          if ref.Some? && PaymentByRef(payments, ref.value).Some? {
            resp := CreateCrashed;
          } else {
            payments := payments[row := p.(transactionReference := ref)];
            resp := PaymentInitiated(ref);
          }
      }
    }

    /** PayTabsCallbackView.post: a missing or empty tran_ref is a 400, an
        unknown one a 404; otherwise the payment holding it gets the
        status of CallbackStatus, whatever its status was, and no other
        payment changes. */
    method Callback(tranRef: Option<string>, responseStatus: Option<string>)
      returns (resp: CallbackResponse)
      requires Valid()
      modifies this
      ensures Valid() && nextId == old(nextId)
      ensures tranRef.None? || tranRef.value == "" ==> resp == MissingReference && payments == old(payments)
      ensures tranRef.Some? && tranRef.value != "" && PaymentByRef(old(payments), tranRef.value).None? ==>
        resp == PaymentNotFound && payments == old(payments)
      ensures resp == CallbackProcessed ==>
        var i := PaymentByRef(old(payments), tranRef.value).value;
        payments == old(payments)[i := old(payments)[i].(status := CallbackStatus(responseStatus))]
      ensures resp == CallbackProcessed <==>
        tranRef.Some? && tranRef.value != "" && PaymentByRef(old(payments), tranRef.value).Some?
    {
      if tranRef.None? || tranRef.value == "" {
        return MissingReference;
      }
      var found := PaymentByRef(payments, tranRef.value);
      if found.None? {
        return PaymentNotFound;
      }
      var i := found.value;
      payments := payments[i := payments[i].(status := CallbackStatus(responseStatus))];
      resp := CallbackProcessed;
    }
  }

  /** The payment a callback updates is the only one holding that
      reference. */
  lemma CallbackTargetIsUnique(payments: seq<Payment>, ref: string, j: nat)
    requires UniqueRefs(payments)
    requires PaymentByRef(payments, ref).Some?
    requires j < |payments| && payments[j].transactionReference == Some(ref)
    ensures j == PaymentByRef(payments, ref).value
  {
  }
}
