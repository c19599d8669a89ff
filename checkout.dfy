/**
 * The checkout dialog (src/components/CheckoutForm.tsx): required-field validation, the
 * step machine info → payment → processing → info, and the order data it hands to the
 * page. The payment form itself (a stub that invents a `pi_test_…` id) is represented by
 * the id it reports, and the page's `onCompleteOrder` by whether it resolves.
 */
module Checkout {
  import opened Collections
  import opened Records
  import opened Pricing

  datatype Step = Info | Payment | Processing

  datatype Customer = Customer(email: string, firstName: string, lastName: string, phone: string)

  datatype Address = Address(firstName: string, lastName: string, company: string, phone: string,
                             line1: string, line2: string, city: string, region: string,
                             postalCode: string, countryCode: string)

  const EmptyCustomer: Customer := Customer("", "", "", "")

  /** A blank address form; the country defaults to US. */
  const EmptyAddress: Address := Address("", "", "", "", "", "", "", "", "", "US")

  /** A string is truthy in JavaScript exactly when it is not empty. */
  predicate Filled(s: string) { s != "" }

  predicate CustomerComplete(c: Customer)
  {
    Filled(c.email) && Filled(c.firstName) && Filled(c.lastName)
  }

  predicate ShippingComplete(a: Address)
  {
    Filled(a.line1) && Filled(a.city) && Filled(a.region) && Filled(a.postalCode)
  }

  /** The outcome of `handleSubmit`: one of its two error toasts, or the move to payment. */
  datatype Verdict = MissingInformation | MissingAddress | Proceed

  /** The customer fields are checked first, then the shipping fields. */
  function Validate(c: Customer, a: Address): (v: Verdict)
    ensures v == Proceed <==> CustomerComplete(c) && ShippingComplete(a)
    ensures v == MissingInformation <==> !CustomerComplete(c)
    ensures v == MissingAddress <==> CustomerComplete(c) && !ShippingComplete(a)
  {
    if !Filled(c.email) || !Filled(c.firstName) || !Filled(c.lastName) then MissingInformation
    else if !Filled(a.line1) || !Filled(a.city) || !Filled(a.region) || !Filled(a.postalCode) then MissingAddress
    else Proceed
  }

  /** What the dialog can be asked to do, each from the step that renders its control. */
  datatype Event = SubmitForm(valid: bool) | BackToInfo | PaymentReported | OrderPlaced | OrderFailed

  /** The step after an event, or nothing when no control for it is shown in that step. */
  function Transition(s: Step, e: Event): (r: Option<Step>)
    ensures r.Some? <==> (s == Info && e.SubmitForm?) ||
                         (s == Payment && (e == BackToInfo || e == PaymentReported)) ||
                         (s == Processing && (e == OrderPlaced || e == OrderFailed))
    ensures r == Some(Payment) <==> s == Info && e == SubmitForm(true)
    ensures r == Some(Processing) <==> (s == Payment && e == PaymentReported) || (s == Processing && e == OrderFailed)
  {
    match (s, e)
    case (Info, SubmitForm(valid)) => Some(if valid then Payment else Info)
    case (Payment, BackToInfo) => Some(Info)
    case (Payment, PaymentReported) => Some(Processing)
    case (Processing, OrderPlaced) => Some(Info)
    case (Processing, OrderFailed) => Some(Processing)
    case _ => None
  }

  /** The step after a sequence of events, or nothing when one of them has no control. */
  function Run(s: Step, es: seq<Event>): Option<Step>
    decreases |es|
  {
    if es == [] then Some(s)
    else
      match Transition(s, es[0])
      case None => None
      case Some(t) => Run(t, es[1..])
  }

  /** Example run: a valid submit, a payment, a placed order, and the dialog is back on info. */
  lemma OrderCycle()
    ensures Run(Info, [SubmitForm(true), PaymentReported, OrderPlaced]) == Some(Info)
  {
    assert [SubmitForm(true), PaymentReported, OrderPlaced][1..] == [PaymentReported, OrderPlaced];
    assert [PaymentReported, OrderPlaced][1..] == [OrderPlaced];
  }

  /** Starting from info, no run leaves info without a submit whose validation passed. */
  lemma {:induction false} LeavingInfoNeedsValidSubmit(es: seq<Event>, t: Step)
    requires Run(Info, es) == Some(t) && t != Info
    ensures SubmitForm(true) in es
    decreases |es|
  {
    assert es != [];
    if es[0] != SubmitForm(true) {
      assert es[0] == SubmitForm(false);
      LeavingInfoNeedsValidSubmit(es[1..], t);
    }
  }

  /** The data handed to `onCompleteOrder`. */
  datatype OrderData = OrderData(customer: Customer, shipping: Address, billing: Option<Address>,
                                 notes: Option<string>)

  /** Billing is sent only when it differs from shipping; empty notes are not sent. */
  function OrderDataOf(customer: Customer, shipping: Address, billing: Address,
                       sameAsShipping: bool, notes: string): (d: OrderData)
    ensures d.customer == customer && d.shipping == shipping
    ensures d.billing.None? <==> sameAsShipping
    ensures d.billing.Some? ==> d.billing.value == billing
    ensures d.notes.None? <==> notes == ""
    ensures d.notes.Some? ==> d.notes.value == notes
  {
    OrderData(customer, shipping, if sameAsShipping then None else Some(billing),
              if notes != "" then Some(notes) else None)
  }

  /** The dialog's state. */
  class CheckoutFlow {
    const items: seq<DetailedItem>
    var step: Step
    var isSubmitting: bool
    var sameAsShipping: bool
    var paymentIntentId: string
    var customer: Customer
    var shipping: Address
    var billing: Address
    var notes: string

    /** A fresh dialog: info step, blank forms, billing same as shipping. */
    constructor (cart: seq<DetailedItem>)
      ensures items == cart && step == Info && !isSubmitting && sameAsShipping
      ensures paymentIntentId == "" && customer == EmptyCustomer
      ensures shipping == EmptyAddress && billing == EmptyAddress && notes == ""
    {
      items := cart;
      step := Info;
      isSubmitting := false;
      sameAsShipping := true;
      paymentIntentId := "";
      customer := EmptyCustomer;
      shipping := EmptyAddress;
      billing := EmptyAddress;
      notes := "";
    }

    /** The "Continue to Payment" button is enabled. */
    predicate ContinueEnabled()
      reads this
    {
      !isSubmitting && |items| > 0
    }

    /** The amount, in cents, the payment form is created with. */
    function Amount(): int
      reads this
    {
      PaymentAmount(items)
    }

    /** `handleSubmit`: stays on info with an error, or moves to payment. */
    method Submit() returns (v: Verdict)
      requires step == Info
      modifies this`step
      ensures v == Validate(customer, shipping)
      ensures Some(step) == Transition(old(step), SubmitForm(v == Proceed))
      ensures step == (if v == Proceed then Payment else Info)
    {
      if !Filled(customer.email) || !Filled(customer.firstName) || !Filled(customer.lastName) {
        return MissingInformation;
      }
      if !Filled(shipping.line1) || !Filled(shipping.city) || !Filled(shipping.region) || !Filled(shipping.postalCode) {
        return MissingAddress;
      }
      step := Payment;
      v := Proceed;
    }

    /** The "Back to Information" button. */
    method Back()
      requires step == Payment
      modifies this`step
      ensures Some(step) == Transition(old(step), BackToInfo) && step == Info
    {
      step := Info;
    }

    /**
     * The first half of `handlePaymentSuccess`, up to the awaited `onCompleteOrder`: the
     * intent id is kept, the step is processing, and the order data is produced.
     */
    method StartProcessing(paymentId: string) returns (sent: OrderData)
      requires step == Payment
      modifies this`step, this`isSubmitting, this`paymentIntentId
      ensures Some(step) == Transition(old(step), PaymentReported) && step == Processing
      ensures paymentIntentId == paymentId && isSubmitting && !ContinueEnabled()
      ensures sent == OrderDataOf(customer, shipping, billing, sameAsShipping, notes)
    {
      paymentIntentId := paymentId;
      step := Processing;
      isSubmitting := true;
      sent := OrderData(customer, shipping, if sameAsShipping then None else Some(billing),
                        if notes != "" then Some(notes) else None);
    }

    /**
     * The second half: a placed order resets the step to info and clears the intent id; a
     * failed one stays on processing. Either way submission ends. The form fields are kept.
     */
    method FinishProcessing(placed: bool)
      requires step == Processing
      modifies this`step, this`isSubmitting, this`paymentIntentId
      ensures Some(step) == Transition(old(step), if placed then OrderPlaced else OrderFailed)
      ensures placed ==> step == Info && paymentIntentId == ""
      ensures !placed ==> step == Processing && paymentIntentId == old(paymentIntentId)
      ensures !isSubmitting
    {
      if placed {
        step := Info;
        paymentIntentId := "";
      }
      isSubmitting := false;
    }
  }
}
