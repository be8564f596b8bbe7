/** The scriptable payment provider (payments/provider.go). */
module Provider {
  import opened Charges

  datatype Mode = Succeed | DeclineAll | Error | RefundFails

  /** What the provider answers to a key it has not settled before; `ref` is a fresh reference. */
  function AnswerIn(mode: Mode, ref: string): Answer {
    match mode
    case Error => TransportError
    case DeclineAll => Declined("card_declined")
    case _ => Approved(ref)
  }

  /** A key settled before gets its first answer again. */
  function Settled(chargedKeys: map<string, Answer>, mode: Mode, key: string, ref: string): Answer {
    if key in chargedKeys then chargedKeys[key] else AnswerIn(mode, ref)
  }

  class MockProvider {
    var mode: Mode
    var charges: nat
    var refunds: nat
    var chargedKeys: map<string, Answer>
    ghost var calls: seq<string>
    ghost var refundCalls: seq<string>

    constructor ()
      ensures mode == Succeed && charges == 0 && refunds == 0 && chargedKeys == map[]
      ensures calls == [] && refundCalls == []
    {
      mode, charges, refunds, chargedKeys, calls, refundCalls := Succeed, 0, 0, map[], [], [];
    }

    /** A settled key gets its first answer again and is not counted; a transport error settles nothing. */
    method Charge(key: string, ref: string) returns (answer: Answer)
      modifies this`charges, this`chargedKeys, this`calls
      ensures calls == old(calls) + [key] && answer == Settled(old(chargedKeys), mode, key, ref)
      ensures key in old(chargedKeys) ==>
                answer == old(chargedKeys[key]) && charges == old(charges) && chargedKeys == old(chargedKeys)
      ensures key !in old(chargedKeys) ==>
                && answer == AnswerIn(mode, ref) && charges == old(charges) + 1
                && chargedKeys == (if mode == Error then old(chargedKeys) else old(chargedKeys)[key := answer])
                && (answer == TransportError <==> mode == Error)
                && (answer == Declined("card_declined") <==> mode == DeclineAll)
                && (answer == Approved(ref) <==> mode == Succeed || mode == RefundFails)
    {
      calls := calls + [key];
      if key in chargedKeys {
        return chargedKeys[key];
      }
      charges := charges + 1;
      match mode {
        case Error =>
          answer := TransportError;
        case DeclineAll =>
          answer := Declined("card_declined");
          chargedKeys := chargedKeys[key := answer];
        case _ =>
          answer := Approved(ref);
          chargedKeys := chargedKeys[key := answer];
      }
    }

    method Refund(ref: string) returns (accepted: bool)
      modifies this`refunds, this`refundCalls
      ensures refundCalls == old(refundCalls) + [ref] && refunds == old(refunds) + 1
      ensures accepted <==> mode != RefundFails
    {
      refundCalls := refundCalls + [ref];
      refunds := refunds + 1;
      accepted := mode != RefundFails;
    }
  }
}
