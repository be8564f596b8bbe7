/** The payment records (payments/payments.go) as functions on the tables. */
module Charges {
  import opened Common
  import opened Tables

  /** What the provider says: approval, a definite decline, or no answer at all. */
  datatype Answer = Approved(ref: string) | Declined(reason: string) | TransportError

  /** The checks of a charge's arguments. */
  predicate Chargeable(key: string, amount: int) {
    key != "" && amount >= 0
  }

  predicate PaymentKeyTaken(payments: map<Uuid, Payment>, key: string) {
    exists p :: p in payments && payments[p].key == key
  }

  predicate UniquePaymentKeys(payments: map<Uuid, Payment>) {
    forall p, q :: p in payments && q in payments && payments[p].key == payments[q].key ==> p == q
  }

  ghost function PaymentOf(payments: map<Uuid, Payment>, key: string): (p: Uuid)
    requires PaymentKeyTaken(payments, key)
    ensures p in payments && payments[p].key == key
  {
    var p :| p in payments && payments[p].key == key;
    p
  }

  function InsertPayment(db: DB, p: Uuid, key: string, userId: string, amount: int): DB {
    db.(payments := db.payments[p := Payment(key, userId, amount, InProgress, None, "", None)])
  }

  /** An approval without a reference breaks the check payments_completed_has_ref, so nothing is recorded. */
  predicate Recordable(answer: Answer) {
    !answer.TransportError? && (answer.Approved? ==> answer.ref != "")
  }

  function RecordAnswer(db: DB, p: Uuid, answer: Answer): DB
    requires p in db.payments
  {
    match answer
    case Approved(ref) =>
      if ref == "" then db
      else db.(payments := db.payments[p := db.payments[p].(state := Completed, providerRef := Some(ref))])
    case Declined(reason) =>
      db.(payments := db.payments[p := db.payments[p].(state := Refused, reason := reason)])
    case TransportError => db
  }

  function StampRefund(db: DB, p: Uuid, at: Time): DB {
    if p in db.payments then db.(payments := db.payments[p := db.payments[p].(refundedAt := Some(at))]) else db
  }
}
