/** Properties of activation: its gates, idempotence and the seat cap. */
module ActivationProofs {
  import opened Lookup
  import opened Models
  import opened Services
  import ProvisionProofs

  /** Two stores with the same keys, products and licenses resolve every (key, slug) alike. */
  lemma ResolveIgnoresActivations(s: Store, s': Store, key: string, slug: string)
    requires s'.keys == s.keys && s'.products == s.products && s'.licenses == s.licenses
    ensures ResolveLicense(s', key, slug) == ResolveLicense(s, key, slug)
  {
    GetAgree(s.licenses, l => LicenseFor(s, key, slug, l), l => LicenseFor(s', key, slug, l));
  }

  /** Activating twice with the same arguments gives the same activation, and the second call changes nothing. */
  lemma ActivateIdempotent(s: Store, key: string, slug: string, instanceId: string, now: int)
    requires Activate(s, key, slug, instanceId, now).result.Ok?
    ensures var o1 := Activate(s, key, slug, instanceId, now);
      Activate(o1.store, key, slug, instanceId, now) == o1
  {
    var o1 := Activate(s, key, slug, instanceId, now);
    var a := o1.result.value;
    ResolveIgnoresActivations(s, o1.store, key, slug);
  }

  /** Activation never takes a license over its seat limit, nor another license's. */
  lemma ActivateKeepsSeatLimits(s: Store, key: string, slug: string, instanceId: string, now: int)
    requires WithinSeatLimits(s)
    ensures WithinSeatLimits(Activate(s, key, slug, instanceId, now).store)
  {
    var o := Activate(s, key, slug, instanceId, now);
    if o.store != s {
      var a := o.result.value;
      forall i | 0 <= i < |o.store.licenses|
        ensures ActiveSeats(o.store, i) <= o.store.licenses[i].seatLimit
      {
        ActiveSeatsAdd(s, a, i);
      }
    }
  }

  /** Activation keeps every schema constraint, the seat limits included. */
  lemma ActivateKeepsWellFormed(s: Store, key: string, slug: string, instanceId: string, now: int)
    requires WellFormed(s)
    ensures WellFormed(Activate(s, key, slug, instanceId, now).store)
  {
    ActivateKeepsSeatLimits(s, key, slug, instanceId, now);
  }

  /** One activation request: the key string, product slug and instance it names, and the time it arrives. */
  datatype Request = Request(key: string, slug: string, instanceId: string, now: int)

  /** The store after a series of activation requests, each its own transaction. */
  function ActivateAll(s: Store, rs: seq<Request>): Store
    decreases |rs|
  {
    if |rs| == 0 then s
    else ActivateAll(Activate(s, rs[0].key, rs[0].slug, rs[0].instanceId, rs[0].now).store, rs[1..])
  }

  /**
   However many requests arrive, for whatever keys, products, instances and
   times, no license ever holds more activations than its seat limit: the
   (limit + 1)-th distinct instance of a license is always refused.
   */
  lemma {:induction false} ActivateAllKeepsSeatLimits(s: Store, rs: seq<Request>)
    requires WithinSeatLimits(s)
    ensures WithinSeatLimits(ActivateAll(s, rs))
    decreases |rs|
  {
    if |rs| > 0 {
      var r := rs[0];
      ActivateKeepsSeatLimits(s, r.key, r.slug, r.instanceId, r.now);
      ActivateAllKeepsSeatLimits(Activate(s, r.key, r.slug, r.instanceId, r.now).store, rs[1..]);
    }
  }

  /**
   Provisioning the same (brand, email, slug) twice leaves two licenses for
   one key and product, after which every activation under that key and
   slug fails as ambiguous.
   */
  lemma DuplicateProvisionBlocksActivation(s: Store, brand: Brand, email: string, slug: string, now1: int, now2: int, key1: string, key2: string, instanceId: string, later: int)
    requires WellFormed(s)
    requires brand in s.brands
    requires KeyUnused(s, key1)
    requires Provision(s, brand, email, slug, now1, key1).result.Ok?
    requires KeyUnused(Provision(s, brand, email, slug, now1, key1).store, key2)
    ensures var s1 := Provision(s, brand, email, slug, now1, key1).store;
      var s2 := Provision(s1, brand, email, slug, now2, key2).store;
      var keyString := s2.keys[s2.licenses[|s.licenses|].keyId].key;
      Activate(s2, keyString, slug, instanceId, later) == Outcome(Err(Ambiguous), s2)
  {
    var s1 := Provision(s, brand, email, slug, now1, key1).store;
    ProvisionProofs.ProvisionTwiceDuplicates(s, brand, email, slug, now1, now2, key1, key2);
    ProvisionProofs.ProvisionKeepsWellFormed(s, brand, email, slug, now1, key1);
    ProvisionProofs.ProvisionKeepsWellFormed(s1, brand, email, slug, now2, key2);
    var s2 := Provision(s1, brand, email, slug, now2, key2).store;
    var keyString := s2.keys[s2.licenses[|s.licenses|].keyId].key;
    var i, j := |s.licenses|, |s.licenses| + 1;
    assert LicenseFor(s2, keyString, slug, s2.licenses[i]);
    assert LicenseFor(s2, keyString, slug, s2.licenses[j]);
  }

  /** Activation leaves every customer's cross-brand listing as it was. */
  lemma ActivateKeepsListing(s: Store, key: string, slug: string, instanceId: string, now: int, email: string)
    ensures ListCustomerLicenses(Activate(s, key, slug, instanceId, now).store, email) == ListCustomerLicenses(s, email)
  {
    var s' := Activate(s, key, slug, instanceId, now).store;
    IndicesAgree(s.licenses, l => LicenseOfCustomer(s, email, l), l => LicenseOfCustomer(s', email, l));
  }
}
