/**
Payments of the payment service: the entity's status changes, creating a payment at the gateway,
and the gateway's webhook.  The gateway's answers are parameters.
*/
module Payments {
  import opened Wrappers

  datatype PaymentStatus = Pending | Succeeded | Failed

  datatype PaymentData = PaymentData(
    id: nat, subjectType: string, subject: nat, amount: nat,
    status: PaymentStatus, gatewayRef: Option<nat>, reason: Option<string>)

  datatype GatewayStatus = Open | Paid | NotPaid(reason: string)

  datatype PaymentEvent =
    | PaymentSucceeded(payment: nat, subjectType: string, subject: nat, amount: nat)
    | PaymentFailed(payment: nat, subjectType: string, subject: nat, amount: nat, reason: string)

  function NewPayment(id: nat, subjectType: string, subject: nat, amount: nat): PaymentData {
    PaymentData(id, subjectType, subject, amount, Pending, None, None)
  }

  class Payment {
    var data: PaymentData

    constructor (data: PaymentData)
      ensures this.data == data
    {
      this.data := data;
    }

    method AttachGatewayReference(ref: nat)
      modifies this
      ensures data == old(data).(gatewayRef := Some(ref))
    {
      data := data.(gatewayRef := Some(ref));
    }

    method MarkSucceeded() returns (ok: bool)
      modifies this
      ensures ok == old(data.status.Pending?)
      ensures data == if ok then old(data).(status := Succeeded) else old(data)
    {
      if !data.status.Pending? {
        return false;
      }
      data := data.(status := Succeeded);
      return true;
    }

    method MarkFailed(reason: string) returns (ok: bool)
      modifies this
      ensures ok == old(data.status.Pending?)
      ensures data == if ok then old(data).(status := Failed, reason := Some(reason)) else old(data)
    {
      if !data.status.Pending? {
        return false;
      }
      data := data.(status := Failed);
      data := data.(reason := Some(reason));
      return true;
    }
  }

  /** What the webhook makes of a pending payment once the gateway reports a final status. */
  function Settled(p: PaymentData, g: GatewayStatus): Option<(PaymentData, PaymentEvent)> {
    match g
    case Open => None
    case Paid => Some((p.(status := Succeeded), PaymentSucceeded(p.id, p.subjectType, p.subject, p.amount)))
    case NotPaid(reason) =>
      Some((p.(status := Failed, reason := Some(reason)),
            PaymentFailed(p.id, p.subjectType, p.subject, p.amount, reason)))
  }

  datatype Outcome = Done | NoOp | Unavailable

  datatype Db = Db(payments: map<nat, PaymentData>, outbox: seq<PaymentEvent>)

  /** The webhook on the payment it found, if any; no answer stands for an error of the gateway. */
  function OnWebhook(db: Db, found: Option<nat>, answer: Option<GatewayStatus>): (Db, Outcome)
    requires found.Some? ==> found.value in db.payments
  {
    if found.None? || !db.payments[found.value].status.Pending? then (db, NoOp)
    else if answer.None? then (db, Unavailable)
    else
      var settled := Settled(db.payments[found.value], answer.value);
      if settled.None? then (db, NoOp)
      else (Db(db.payments[found.value := settled.value.0], db.outbox + [settled.value.1]), Done)
  }

  predicate HasSubject(p: PaymentData, subjectType: string, subject: nat) {
    p.subjectType == subjectType && p.subject == subject
  }

  /**
  CreatePayment, given the existing payment of the subject if there is one and what the gateway
  answers: `attached` is the reference of a new gateway payment, None an error.
  */
  function OnCreate(db: Db, existing: Option<nat>, newcomer: PaymentData, attached: Option<nat>): (Db, Outcome)
    requires existing.Some? ==> existing.value in db.payments
  {
    if existing.Some? && db.payments[existing.value].gatewayRef.Some? then
      (db, if attached.Some? then NoOp else Unavailable)
    else
      var p := if existing.Some? then db.payments[existing.value] else newcomer;
      var id := if existing.Some? then existing.value else newcomer.id;
      if attached.None? then (db.(payments := db.payments[id := p]), Unavailable)
      else (db.(payments := db.payments[id := p.(gatewayRef := attached)]), Done)
  }

  class PaymentService {
    var payments: map<nat, PaymentData>
    var outbox: seq<PaymentEvent>

    ghost function View(): Db
      reads this
    {
      Db(payments, outbox)
    }

    method FindByGatewayReference(ref: nat) returns (found: Option<nat>)
      ensures found.Some? ==> found.value in payments && payments[found.value].gatewayRef == Some(ref)
      ensures found.None? ==> forall id :: id in payments ==> payments[id].gatewayRef != Some(ref)
    {
      if id :| id in payments && payments[id].gatewayRef == Some(ref) {
        return Some(id);
      }
      return None;
    }

    method FindBySubject(subjectType: string, subject: nat) returns (found: Option<nat>)
      ensures found.Some? ==>
                && found.value in payments
                && payments[found.value].subjectType == subjectType && payments[found.value].subject == subject
      ensures found.None? ==> forall id :: id in payments ==> !HasSubject(payments[id], subjectType, subject)
    {
      if id :| id in payments && HasSubject(payments[id], subjectType, subject) {
        return Some(id);
      }
      return None;
    }

    method HandleWebhook(ref: nat, answer: Option<GatewayStatus>) returns (found: Option<nat>, outcome: Outcome)
      modifies this
      ensures found.Some? ==> found.value in old(payments) && old(payments)[found.value].gatewayRef == Some(ref)
      ensures found.None? ==> forall id :: id in old(payments) ==> old(payments)[id].gatewayRef != Some(ref)
      ensures (View(), outcome) == OnWebhook(old(View()), found, answer)
      // when something is done, and what is left alone
      ensures outcome == Done <==>
                && found.Some? && old(payments)[found.value].status.Pending?
                && answer.Some? && !answer.value.Open?
      ensures outcome == Unavailable <==> found.Some? && old(payments)[found.value].status.Pending? && answer.None?
      ensures outcome != Done ==> payments == old(payments) && outbox == old(outbox)
      // the row takes the gateway's status, and one event says so of this payment and its subject
      ensures outcome == Done ==>
                var row := old(payments)[found.value];
                payments == old(payments)[found.value :=
                  if answer.value.Paid? then row.(status := Succeeded)
                  else row.(status := Failed, reason := Some(answer.value.reason))]
      ensures outcome == Done ==>
                var row := old(payments)[found.value];
                && |outbox| == |old(outbox)| + 1 && outbox[..|old(outbox)|] == old(outbox)
                && var event := outbox[|old(outbox)|];
                   && event.payment == row.id && event.subjectType == row.subjectType
                   && event.subject == row.subject && event.amount == row.amount
                   && (answer.value.Paid? ==> event.PaymentSucceeded?)
                   && (answer.value.NotPaid? ==> event.PaymentFailed? && event.reason == answer.value.reason)
    {
      found := FindByGatewayReference(ref);
      if found.None? {
        return found, NoOp;
      }
      var p := new Payment(payments[found.value]);
      if !p.data.status.Pending? {
        return found, NoOp;
      }
      if answer.None? {
        return found, Unavailable;
      }
      var event: PaymentEvent;
      match answer.value {
        case Paid =>
          var ok := p.MarkSucceeded();
          event := PaymentSucceeded(p.data.id, p.data.subjectType, p.data.subject, p.data.amount);
        case NotPaid(reason) =>
          var ok := p.MarkFailed(reason);
          event := PaymentFailed(p.data.id, p.data.subjectType, p.data.subject, p.data.amount, reason);
        case Open =>
          return found, NoOp;
      }
      payments := payments[found.value := p.data];
      outbox := outbox + [event];
      return found, Done;
    }

    method CreatePayment(subjectType: string, subject: nat, amount: nat, newId: nat, attached: Option<nat>)
      returns (existing: Option<nat>, outcome: Outcome)
      modifies this
      ensures existing.Some? ==>
                existing.value in old(payments) && HasSubject(old(payments)[existing.value], subjectType, subject)
      ensures existing.None? ==>
                forall id :: id in old(payments) ==> !HasSubject(old(payments)[id], subjectType, subject)
      ensures (View(), outcome)
           == OnCreate(old(View()), existing, NewPayment(newId, subjectType, subject, amount), attached)
      // a payment with a reference is left alone, and no event is written
      ensures existing.Some? && old(payments)[existing.value].gatewayRef.Some? ==> payments == old(payments)
      ensures outbox == old(outbox)
      ensures outcome == Done <==>
                attached.Some? && (existing.None? || old(payments)[existing.value].gatewayRef.None?)
      // otherwise the subject has one payment, new or as it was, with the reference if there is one
      ensures existing.None? ==>
                payments == old(payments)[newId :=
                  PaymentData(newId, subjectType, subject, amount, Pending, attached, None)]
      ensures existing.Some? && old(payments)[existing.value].gatewayRef.None? ==>
                payments == old(payments)[existing.value :=
                  if attached.Some? then old(payments)[existing.value].(gatewayRef := attached)
                  else old(payments)[existing.value]]
    {
      existing := FindBySubject(subjectType, subject);
      var id := newId;
      var p: Payment;
      if existing.Some? {
        id := existing.value;
        p := new Payment(payments[id]);
        if p.data.gatewayRef.Some? {
          return existing, if attached.Some? then NoOp else Unavailable;
        }
      } else {
        p := new Payment(NewPayment(newId, subjectType, subject, amount));
        payments := payments[newId := p.data];
      }
      if attached.None? {
        assert existing.Some? ==> payments[id := p.data] == old(payments);
        return existing, Unavailable;
      }
      p.AttachGatewayReference(attached.value);
      payments := payments[id := p.data];
      assert payments == old(payments)[id := p.data];
      return existing, Done;
    }
  }
}
