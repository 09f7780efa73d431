/**
 * The Stripe webhook (`POST /api/webhooks/stripe`): a signature gate, then one
 * subscription-tier transition per event kind, applied to `user_profiles`.
 */
module StripeWebhook {
  import opened Wrappers
  import opened Schema

  type Profiles = map<UserId, Profile>

  /**
   * The four event kinds the handler acts on, carrying the fields it reads;
   * an absent metadata value is the empty string (both are falsy).
   */
  datatype Event =
    | PaymentIntentSucceeded(userId: string, planType: string)
    | InvoicePaymentSucceeded(subscriptionId: string)
    | SubscriptionDeleted(customerId: string)
    | SubscriptionUpdated(customerId: string, status: string, userId: string)
    | Unhandled(eventType: string)

  /** `update({subscription_tier: t}).eq('id', id)`: no row is touched when the id is unknown. */
  function SetTier(profiles: Profiles, id: UserId, t: Tier): (r: Profiles)
    ensures r.Keys == profiles.Keys
    ensures id in profiles ==> r[id] == profiles[id].(tier := t)
    ensures forall other :: other in profiles && other != id ==> r[other] == profiles[other]
  {
    if id in profiles then profiles[id := profiles[id].(tier := t)] else profiles
  }

  /** The profile `.eq('stripe_customer_id', cid).single()` finds: it exists only when exactly one row matches. */
  ghost function CustomerOwner(profiles: Profiles, cid: string): (owner: Option<UserId>)
    ensures owner.Some? ==> owner.value in profiles && profiles[owner.value].stripeCustomerId == Some(cid)
    ensures var owners := set id | id in profiles && profiles[id].stripeCustomerId == Some(cid);
            (owner.Some? <==> |owners| == 1) && (owner.Some? ==> owners == {owner.value})
  {
    var owners := set id | id in profiles && profiles[id].stripeCustomerId == Some(cid);
    if |owners| == 1 then
      var id :| id in owners;
      SingletonMember(owners, id);
      Some(id)
    else None
  }

  /**
   * The tier transition of one verified event; None when the handler throws
   * (only `subscriptions.retrieve` can).  `retrieved` is the subscription's
   * `supabase_user_id` metadata as that call returns it, None when it throws.
   */
  ghost function Handle(profiles: Profiles, ev: Event, retrieved: Option<string>): Option<Profiles>
  {
    match ev
    case PaymentIntentSucceeded(u, plan) =>
      if u != "" && plan != "" && plan != "donate" && plan != "monthly" && plan == "lifetime"
         && u in profiles && profiles[u].tier != Lifetime
      then Some(SetTier(profiles, u, Lifetime))
      else Some(profiles)
    case InvoicePaymentSucceeded(sid) =>
      if sid == "" then Some(profiles)
      else if retrieved.None? then None
      else if retrieved.value != "" && retrieved.value in profiles && profiles[retrieved.value].tier != Lifetime
      then Some(SetTier(profiles, retrieved.value, Monthly))
      else Some(profiles)
    case SubscriptionDeleted(cid) =>
      if CustomerOwner(profiles, cid).Some? then Some(SetTier(profiles, CustomerOwner(profiles, cid).value, Free))
      else Some(profiles)
    case SubscriptionUpdated(cid, status, u) =>
      if CustomerOwner(profiles, cid).Some? && status == "active" && u != "" then Some(SetTier(profiles, u, Monthly))
      else Some(profiles)
    case Unhandled(_) => Some(profiles)
  }

  /**
   * Finds the profile with a Stripe customer id, as the query with `.single()`
   * does: one when exactly one profile holds the id, none with zero or several.
   */
  method FindByCustomer(profiles: Profiles, cid: string) returns (owner: Option<UserId>)
    ensures var owners := set id | id in profiles && profiles[id].stripeCustomerId == Some(cid);
            (owner.Some? <==> |owners| == 1) && (owner.Some? ==> owners == {owner.value})
    ensures owner == CustomerOwner(profiles, cid)
  {
    var owners := set id | id in profiles && profiles[id].stripeCustomerId == Some(cid);
    if |owners| == 1 {
      var id :| id in owners;
      SingletonMember(owners, id);
      owner := Some(id);
    } else {
      owner := None;
    }
  }

  lemma SingletonMember<T>(s: set<T>, x: T)
    requires |s| == 1 && x in s
    ensures s == {x}
  {
    var rest := s - {x};
    assert |rest| == 0;
  }

  /**
   * The handler. `signature` is the `stripe-signature` header; `constructed` is
   * what `constructEvent` returns for the body, header and secret, None when it
   * throws.
   */
  method Post(db: Db, signature: Option<string>, constructed: Option<Event>, retrieved: Option<string>)
    returns (reply: Reply<bool>)
    modifies db`profiles
    ensures !Truthy(signature) ==> reply == Fail(400, "No signature") && db.profiles == old(db.profiles)
    ensures Truthy(signature) && constructed.None? ==>
              reply == Fail(400, "Invalid signature") && db.profiles == old(db.profiles)
    ensures Truthy(signature) && constructed.Some? ==>
              var r := Handle(old(db.profiles), constructed.value, retrieved);
              && (r.Some? ==> reply == Ok(true) && db.profiles == r.value)
              && (r.None? ==> reply == Fail(500, "Webhook handler failed") && db.profiles == old(db.profiles))
  {
    if signature.None? || signature.value == "" {
      return Fail(400, "No signature");
    }
    if constructed.None? {
      return Fail(400, "Invalid signature");
    }
    match constructed.value
    case PaymentIntentSucceeded(userId, planType) =>
      if userId != "" && planType != "" && planType != "donate" && planType != "monthly" {
        if planType == "lifetime" {
          if userId in db.profiles && db.profiles[userId].tier != Lifetime {
            db.profiles := db.profiles[userId := db.profiles[userId].(tier := Lifetime)];
          }
        }
      }
      reply := Ok(true);
    case InvoicePaymentSucceeded(subscriptionId) =>
      if subscriptionId != "" {
        if retrieved.None? {
          return Fail(500, "Webhook handler failed");
        }
        var userId := retrieved.value;
        if userId != "" {
          if userId in db.profiles && db.profiles[userId].tier != Lifetime {
            db.profiles := db.profiles[userId := db.profiles[userId].(tier := Monthly)];
          }
        }
      }
      reply := Ok(true);
    case SubscriptionDeleted(customerId) =>
      var owner := FindByCustomer(db.profiles, customerId);
      if owner.Some? {
        db.profiles := SetTier(db.profiles, owner.value, Free);
      }
      reply := Ok(true);
    case SubscriptionUpdated(customerId, status, userId) =>
      var owner := FindByCustomer(db.profiles, customerId);
      if owner.Some? {
        if status == "active" {
          if userId != "" {
            db.profiles := SetTier(db.profiles, userId, Monthly);
          }
        }
      }
      reply := Ok(true);
    case Unhandled(_) =>
      reply := Ok(true);
  }

  /** Every transition rewrites at most one profile, and only its tier. */
  ghost predicate TierOnlyChange(before: Profiles, after: Profiles)
  {
    && after.Keys == before.Keys
    && (forall id :: id in before ==> after[id] == before[id].(tier := after[id].tier))
    && (forall a, b :: a in before && b in before && after[a] != before[a] && after[b] != before[b] ==> a == b)
  }

  lemma HandleChangesOnlyOneTier(profiles: Profiles, ev: Event, retrieved: Option<string>)
    ensures Handle(profiles, ev, retrieved).Some? ==> TierOnlyChange(profiles, Handle(profiles, ev, retrieved).value)
  {
  }

  /** A lifetime payment makes an existing profile lifetime, and delivering it twice is the same as once. */
  lemma LifetimePaymentIdempotent(profiles: Profiles, u: UserId)
    requires u != ""
    ensures var once := Handle(profiles, PaymentIntentSucceeded(u, "lifetime"), None);
            && once.Some?
            && (u in profiles ==> once.value[u].tier == Lifetime)
            && Handle(once.value, PaymentIntentSucceeded(u, "lifetime"), None) == once
  {
  }

  /** Donations, monthly payments and payments without user or plan metadata change no tier. */
  lemma OtherPaymentsChangeNothing(profiles: Profiles, u: string, plan: string, retrieved: Option<string>)
    requires u == "" || plan != "lifetime"
    ensures Handle(profiles, PaymentIntentSucceeded(u, plan), retrieved) == Some(profiles)
  {
  }

  /** An invoice payment makes the subscription's user monthly, unless that user is lifetime. */
  lemma InvoiceRespectsLifetime(profiles: Profiles, sid: string, u: UserId)
    requires sid != "" && u != "" && u in profiles
    ensures var r := Handle(profiles, InvoicePaymentSucceeded(sid), Some(u));
            && r.Some?
            && r.value[u].tier == (if profiles[u].tier == Lifetime then Lifetime else Monthly)
  {
  }

  /** A failed `subscriptions.retrieve` aborts the handler before any write. */
  lemma InvoiceRetrieveFailure(profiles: Profiles, sid: string)
    requires sid != ""
    ensures Handle(profiles, InvoicePaymentSucceeded(sid), None) == None
  {
  }

  /** Cancellation makes the customer's profile free, whatever its tier was. */
  lemma DeletionDowngradesToFree(profiles: Profiles, cid: string, id: UserId)
    requires id in profiles && profiles[id].stripeCustomerId == Some(cid)
    requires forall other :: other in profiles && other != id ==> profiles[other].stripeCustomerId != Some(cid)
    ensures var r := Handle(profiles, SubscriptionDeleted(cid), None);
            r.Some? && r.value[id].tier == Free
  {
    var owners := set x | x in profiles && profiles[x].stripeCustomerId == Some(cid);
    assert owners == {id};
  }

  /**
   * An active-subscription update writes monthly with no lifetime check: a
   * lifetime user whose old subscription is still active is downgraded.
   */
  lemma UpdateDowngradesLifetime(profiles: Profiles, cid: string, id: UserId)
    requires id != "" && id in profiles && profiles[id].tier == Lifetime
    requires profiles[id].stripeCustomerId == Some(cid)
    requires forall other :: other in profiles && other != id ==> profiles[other].stripeCustomerId != Some(cid)
    ensures var r := Handle(profiles, SubscriptionUpdated(cid, "active", id), None);
            r.Some? && r.value[id].tier == Monthly
  {
    var owners := set x | x in profiles && profiles[x].stripeCustomerId == Some(cid);
    assert owners == {id};
  }

  /** An update whose status is not `active` writes nothing. */
  lemma InactiveUpdateChangesNothing(profiles: Profiles, cid: string, status: string, u: string)
    requires status != "active"
    ensures Handle(profiles, SubscriptionUpdated(cid, status, u), None) == Some(profiles)
  {
  }

  /** Unknown event types are acknowledged and change nothing. */
  lemma UnhandledChangesNothing(profiles: Profiles, eventType: string, retrieved: Option<string>)
    ensures Handle(profiles, Unhandled(eventType), retrieved) == Some(profiles)
  {
  }
}
