/** The webhook handler of billing-service as the object it is, one delivery at a time. */
module BillingServices {
  import opened Prelude
  import opened Webhooks
  import Inbox
  import Outbox

  class BillingService {
    var inbox: map<string, bool>
    var billing: Billing
    var outbox: seq<Outbox.Row>

    /**
     An error of the webhook effect rolls back the second transaction only: the event stays recorded and
     unprocessed; began is when that transaction began.  The inbox moves as in Inbox.HandleAlone, the uninterrupted
     run of one worker.  The row of a paid invoice carries the plan of its lines where they name one.
     */
    method HandleGatewayEvent(id: string, hook: Hook, began: int) returns (r: Result<(), ()>)
      modifies this
      ensures var applied := ApplyWebhook(old(billing), hook);
              var done := id in old(inbox) && old(inbox)[id];
              && inbox == Inbox.HandleAlone(Inbox.State(old(inbox), map[], []), id, 0, applied.Err?).rows
              && (r.Err? <==> !done && applied.Err?)
              && billing == (if done || applied.Err? then old(billing) else applied.value.billing)
              && outbox == (if done || applied.Err? || applied.value.row.None? then old(outbox)
                            else Outbox.Next(Outbox.State(old(outbox), map[], []),
                                             Outbox.Append(
                                               Outbox.Row(applied.value.row.value, Some(id), began, false, 0))).rows)
      ensures forall i: nat ::
                PaidInvoice(old(billing), hook, i) && !(id in old(inbox) && old(inbox)[id]) ==>
                  && |outbox| == |old(outbox)| + 1 && outbox[..|old(outbox)|] == old(outbox)
                  && var row := outbox[|old(outbox)|];
                     && row.envelope.kind.InvoicePaid? && row.origin == Some(id) && row.createdAt == began
                     && row.envelope.account == Some(old(billing).subscriptions[i].account)
                     && row.envelope.plan ==
                        if hook.plan.Some? then hook.plan.value else old(billing).subscriptions[i].plan
    {
      ghost var before := outbox;
      if i: nat :| PaidInvoice(billing, hook, i) { PaidInvoiceExactly(billing, hook, i); }
      hide ApplyWebhook, SubscriptionFor;
      Inbox.UninterruptedDelivery(Inbox.State(inbox, map[], []), id, 0, ApplyWebhook(billing, hook).Err?);
      // first transaction
      if id !in inbox {
        inbox := inbox[id := false];
      }
      // second transaction
      if inbox[id] { return Ok(()); }
      var applied := ApplyWebhook(billing, hook);
      if applied.Err? {
        assert inbox == old(inbox)[id := false];
        return Err(());
      }
      billing := applied.value.billing;
      if applied.value.row.Some? {
        var envelope := applied.value.row.value.(id := |outbox|);
        outbox := outbox + [Outbox.Row(envelope, Some(id), began, false, 0)];
        assert outbox[..|before|] == before;
      }
      inbox := inbox[id := true];
      assert inbox == old(inbox)[id := true];
      return Ok(());
    }
  }
}
