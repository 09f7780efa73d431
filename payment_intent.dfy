/**
 * `POST /api/create-payment-intent`: find or create the user's Stripe
 * customer, then create a payment intent in US dollars tagged with the user
 * and the plan.
 */
module PaymentIntent {
  import opened Wrappers
  import opened Schema

  datatype AuthUser = AuthUser(id: UserId, email: string)

  datatype Customer = Customer(id: string, email: string, supabaseUserId: UserId)

  datatype Intent = Intent(amount: int, currency: string, customer: string, supabaseUserId: UserId,
                           planType: string, automaticPaymentMethods: bool)

  /** The Stripe account's customers and payment intents, in creation order. */
  class StripeAccount {
    var customers: seq<Customer>
    var intents: seq<Intent>

    constructor ()
      ensures customers == [] && intents == []
    {
      customers := [];
      intents := [];
    }
  }

  /** The customer id stored on the profile, when it is truthy. */
  function StoredCustomer(profiles: map<UserId, Profile>, id: UserId): (r: Option<string>)
    ensures r.Some? <==> id in profiles && Truthy(profiles[id].stripeCustomerId)
    ensures r.Some? ==> r == profiles[id].stripeCustomerId
  {
    if id in profiles && Truthy(profiles[id].stripeCustomerId) then profiles[id].stripeCustomerId else None
  }

  /**
   * The handler. `newCustomerId` is the id Stripe gives a created customer,
   * `clientSecret` the created intent's secret; `customerFails` and
   * `intentFails` say whether Stripe rejects those calls. The subscription tier
   * is not consulted.
   */
  method Post(db: Db, stripe: StripeAccount, user: Option<AuthUser>, planType: string, amount: int,
              newCustomerId: string, clientSecret: string, customerFails: bool, intentFails: bool)
    returns (reply: Reply<string>)
    modifies db`profiles, stripe
    ensures user.None? ==>
              reply == Fail(401, "Unauthorized") && db.profiles == old(db.profiles)
              && stripe.customers == old(stripe.customers) && stripe.intents == old(stripe.intents)
    ensures user.Some? && StoredCustomer(old(db.profiles), user.value.id).Some? ==>
              db.profiles == old(db.profiles) && stripe.customers == old(stripe.customers)
    ensures user.Some? && StoredCustomer(old(db.profiles), user.value.id).None? && customerFails ==>
              reply == Fail(500, "Internal server error") && db.profiles == old(db.profiles)
              && stripe.customers == old(stripe.customers) && stripe.intents == old(stripe.intents)
    ensures user.Some? && StoredCustomer(old(db.profiles), user.value.id).None? && !customerFails ==>
              var id := user.value.id;
              && stripe.customers == old(stripe.customers) + [Customer(newCustomerId, user.value.email, id)]
              && db.profiles == (if id in old(db.profiles)
                                 then old(db.profiles)[id := old(db.profiles)[id].(stripeCustomerId := Some(newCustomerId))]
                                 else old(db.profiles))
    ensures user.Some? && (StoredCustomer(old(db.profiles), user.value.id).Some? || !customerFails) ==>
              var customer := StoredCustomer(old(db.profiles), user.value.id).GetOr(newCustomerId);
              && (intentFails ==> reply == Fail(500, "Internal server error") && stripe.intents == old(stripe.intents))
              && (!intentFails ==>
                    reply == Ok(clientSecret)
                    && stripe.intents == old(stripe.intents) + [Intent(amount, "usd", customer, user.value.id, planType, true)])
  {
    if user.None? {
      return Fail(401, "Unauthorized");
    }
    var id := user.value.id;
    var customerId := StoredCustomer(db.profiles, id);
    if customerId.None? {
      if customerFails {
        return Fail(500, "Internal server error");
      }
      stripe.customers := stripe.customers + [Customer(newCustomerId, user.value.email, id)];
      customerId := Some(newCustomerId);
      if id in db.profiles {
        db.profiles := db.profiles[id := db.profiles[id].(stripeCustomerId := customerId)];
      }
    }
    if intentFails {
      return Fail(500, "Internal server error");
    }
    stripe.intents := stripe.intents + [Intent(amount, "usd", customerId.value, id, planType, true)];
    return Ok(clientSecret);
  }
}
