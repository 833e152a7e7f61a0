/**
 The license service's transactions. Each is one atomic step from a store
 to an outcome: a failed transaction rolls back and leaves the store it was
 given. The wall clock is the parameter `now` (seconds) and the generated
 UUID of a new key is the parameter `freshKey`.
 */
module Services {
  import opened Lookup
  import opened Models

  /** The key rows of `brand` issued to `email`. */
  predicate KeyFor(brand: Brand, email: string, k: LicenseKey)
  {
    k.brand == brand && k.customerEmail == email
  }

  /** The product rows of `brand` with slug `slug`. */
  predicate ProductFor(brand: Brand, slug: string, p: Product)
  {
    p.brand == brand && p.slug == slug
  }

  /** The license rows whose key string is `key` and whose product's slug is `slug`. */
  predicate LicenseFor(s: Store, key: string, slug: string, l: License)
  {
    HasKey(s, l, key) && HasProduct(s, l) && s.products[l.productId].slug == slug
  }

  /** The license rows, joined to their product, whose key belongs to `email`, under any brand. */
  predicate LicenseOfCustomer(s: Store, email: string, l: License)
  {
    l.keyId < |s.keys| && s.keys[l.keyId].customerEmail == email && HasProduct(s, l)
  }

  /** The activation-time lookup of a license by key string and product slug. */
  function ResolveLicense(s: Store, key: string, slug: string): Lookup
  {
    Get(s.licenses, l => LicenseFor(s, key, slug, l))
  }

  /** The key of `brand` for `email` as get-or-create leaves it: its id and the key table. */
  function GetOrCreateKey(s: Store, brand: Brand, email: string, freshKey: string): (r: Option<(nat, seq<LicenseKey>)>)
    ensures r.None? <==> Get(s.keys, k => KeyFor(brand, email, k)).Multiple?
    ensures r.Some? ==> r.value.0 < |r.value.1| && KeyFor(brand, email, r.value.1[r.value.0])
    ensures r.Some? && (exists i :: 0 <= i < |s.keys| && KeyFor(brand, email, s.keys[i])) ==> r.value.1 == s.keys
    ensures r.Some? && (forall i :: 0 <= i < |s.keys| ==> !KeyFor(brand, email, s.keys[i])) ==>
      r.value.1 == s.keys + [LicenseKey(brand, freshKey, email)]
  {
    match Get(s.keys, k => KeyFor(brand, email, k))
    case Multiple => None
    case Found(i) => Some((i, s.keys))
    case Missing => Some((|s.keys|, s.keys + [LicenseKey(brand, freshKey, email)]))
  }

  /**
   Provisioning: get-or-create the key of (brand, email), resolve the product
   by (brand, slug), and append a new valid license for one validity window
   with the product's default seats. The result is the new license's id.
   */
  function Provision(s: Store, brand: Brand, email: string, slug: string, now: int, freshKey: string): (o: Outcome<nat>)
    requires brand in s.brands
    requires KeyUnused(s, freshKey)
    ensures o.result.Err? ==> o.store == s
    ensures o.result.Err? ==> o.result.error in {ProductNotFound, Ambiguous}
    ensures o.result.Err? && o.result.error == ProductNotFound ==>
      forall i :: 0 <= i < |s.products| ==> !ProductFor(brand, slug, s.products[i])
    ensures o.result.Ok? ==> o.result.value == |s.licenses| && |o.store.licenses| == |s.licenses| + 1
    ensures o.result.Ok? ==>
      var l := o.store.licenses[|s.licenses|];
      && o.store.licenses == s.licenses + [l]
      && o.store.brands == s.brands
      && o.store.products == s.products
      && o.store.activations == s.activations
      && l.status == Valid
      && l.expiresAt == Some(now + ValidityWindow)
      && l.productId < |s.products|
      && ProductFor(brand, slug, s.products[l.productId])
      && l.seatLimit == s.products[l.productId].defaultSeats
      && l.keyId < |o.store.keys|
      && KeyFor(brand, email, o.store.keys[l.keyId])
      && (o.store.keys == s.keys || o.store.keys == s.keys + [LicenseKey(brand, freshKey, email)])
  {
    match GetOrCreateKey(s, brand, email, freshKey)
    case None => Outcome(Err(Ambiguous), s)
    case Some((keyId, keys)) =>
      match Get(s.products, p => ProductFor(brand, slug, p))
      case Missing => Outcome(Err(ProductNotFound), s)
      case Multiple => Outcome(Err(Ambiguous), s)
      case Found(productId) =>
        var license := License(keyId, productId, Valid, Some(now + ValidityWindow), s.products[productId].defaultSeats);
        Outcome(Ok(|s.licenses|), s.(keys := keys, licenses := s.licenses + [license]))
  }

  /**
   Activation: resolve the license by (key string, product slug), refuse it
   unless it is valid and unexpired, then get-or-create the activation of
   `instanceId`. A new activation is counted after insertion; if the count
   exceeds the seat limit it is deleted again and the call is denied.
   */
  function Activate(s: Store, key: string, slug: string, instanceId: string, now: int): (o: Outcome<Activation>)
    ensures o.result.Err? ==> o.store == s
    // a denial always concerns the one license the lookup resolved
    ensures o.result.Err? && o.result.error.Forbidden() ==> ResolveLicense(s, key, slug).Found?
    ensures o.result == Err(LicenseNotFound) <==>
      forall i :: 0 <= i < |s.licenses| ==> !LicenseFor(s, key, slug, s.licenses[i])
    ensures o.result == Err(Ambiguous) <==>
      exists i, j :: 0 <= i < j < |s.licenses| && LicenseFor(s, key, slug, s.licenses[i]) && LicenseFor(s, key, slug, s.licenses[j])
    ensures o.result.Ok? ==>
      var a := o.result.value;
      && a.instanceId == instanceId
      && ResolveLicense(s, key, slug) == Found(a.licenseId)
      && IsUsable(s.licenses[a.licenseId], now)
      && o.store == s.(activations := s.activations + {a})
    // the lifecycle gates, which run before any activation is looked at
    ensures ResolveLicense(s, key, slug).Found? ==>
      var l := s.licenses[ResolveLicense(s, key, slug).index];
      && (l.status != Valid ==> o.result == Err(NotActive(l.status)))
      && (l.status == Valid && IsExpired(l, now) ==> o.result == Err(Expired))
    // an instance already holding a seat gets that activation back, with no seat check
    ensures ResolveLicense(s, key, slug).Found? ==>
      var id := ResolveLicense(s, key, slug).index;
      IsUsable(s.licenses[id], now) && Activation(id, instanceId) in s.activations ==>
        o == Outcome(Ok(Activation(id, instanceId)), s)
    // a new instance takes one more seat exactly when it fits under the limit
    ensures ResolveLicense(s, key, slug).Found? ==>
      var id := ResolveLicense(s, key, slug).index;
      IsUsable(s.licenses[id], now) && Activation(id, instanceId) !in s.activations ==>
        && (o.result.Ok? <==> ActiveSeats(s, id) + 1 <= s.licenses[id].seatLimit)
        && (o.result.Ok? ==> ActiveSeats(o.store, id) == ActiveSeats(s, id) + 1)
        && (o.result.Err? ==> o.result.error == SeatLimitReached)
  {
    match ResolveLicense(s, key, slug)
    case Missing => Outcome(Err(LicenseNotFound), s)
    case Multiple => Outcome(Err(Ambiguous), s)
    case Found(id) =>
      var l := s.licenses[id];
      if l.status != Valid then Outcome(Err(NotActive(l.status)), s)
      else if IsExpired(l, now) then Outcome(Err(Expired), s)
      else
        var a := Activation(id, instanceId);
        if a in s.activations then Outcome(Ok(a), s)
        else
          var inserted := s.(activations := s.activations + {a});
          ActiveSeatsAdd(s, a, id);
          if ActiveSeats(inserted, id) > l.seatLimit then
            var deleted := inserted.(activations := inserted.activations - {a});
            assert deleted == s;
            Outcome(Err(SeatLimitReached), deleted)
          else Outcome(Ok(a), inserted)
  }

  /** The cross-brand listing: ids of the licenses whose key belongs to `email`, under every brand, in id order. */
  function ListCustomerLicenses(s: Store, email: string): (r: seq<nat>)
    ensures forall k :: 0 <= k < |r| ==> r[k] < |s.licenses| && LicenseOfCustomer(s, email, s.licenses[r[k]])
    ensures forall i :: 0 <= i < |s.licenses| && LicenseOfCustomer(s, email, s.licenses[i]) ==> i in r
    ensures forall k, m :: 0 <= k < m < |r| ==> r[k] < r[m]
  {
    Indices(s.licenses, l => LicenseOfCustomer(s, email, l))
  }
}
