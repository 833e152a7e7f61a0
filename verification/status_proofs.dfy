/** How the status report relates to the store and to the other transactions. */
module StatusProofs {
  import opened Lookup
  import opened Models
  import opened Services
  import opened StatusView

  /** In a store within its seat limits, the remaining seats are exactly the unused ones. */
  lemma StatusRemainingExact(s: Store, key: string, now: int)
    requires WithinSeatLimits(s)
    requires GetStatus(s, key, now).Ok?
    ensures var v := GetStatus(s, key, now).value;
      v.activeSeats <= v.seatLimit && v.remainingSeats == v.seatLimit - v.activeSeats
  {
    var id := ResolveByKey(s, key).index;
    assert ActiveSeats(s, id) <= s.licenses[id].seatLimit;
  }

  /**
   When the license behind a key has product slug `slug`, activation under
   (key, slug) resolves the same license, and its lifecycle gates refuse it
   exactly when the status report calls it invalid.
   */
  lemma StatusAgreesWithActivationGates(s: Store, key: string, slug: string, instanceId: string, now: int)
    requires GetStatus(s, key, now).Ok?
    requires s.products[s.licenses[ResolveByKey(s, key).index].productId].slug == slug
    ensures ResolveLicense(s, key, slug) == ResolveByKey(s, key)
    ensures var o := Activate(s, key, slug, instanceId, now);
      (o.result.Err? && o.result.error.Forbidden() && !o.result.error.SeatLimitReached?) <==> !GetStatus(s, key, now).value.isValid
  {
    var id := ResolveByKey(s, key).index;
    assert LicenseFor(s, key, slug, s.licenses[id]);
    var r := ResolveLicense(s, key, slug);
    assert !r.Missing?;
    assert !r.Multiple?;
    assert LicenseWithKey(s, key, s.licenses[r.index]);
  }

  /**
   A new instance admitted by activation shows up in the status report as
   one more active seat and one fewer remaining seat; nothing else changes.
   */
  lemma StatusAfterNewActivation(s: Store, key: string, slug: string, instanceId: string, now: int, later: int)
    requires GetStatus(s, key, later).Ok?
    requires Activate(s, key, slug, instanceId, now).result.Ok?
    requires Activate(s, key, slug, instanceId, now).store != s
    requires ResolveLicense(s, key, slug) == ResolveByKey(s, key)
    ensures var v := GetStatus(s, key, later).value;
      GetStatus(Activate(s, key, slug, instanceId, now).store, key, later)
        == Ok(v.(activeSeats := v.activeSeats + 1, remainingSeats := v.remainingSeats - 1))
  {
    var o := Activate(s, key, slug, instanceId, now);
    var s' := o.store;
    var id := ResolveByKey(s, key).index;
    GetAgree(s.licenses, l => LicenseWithKey(s, key, l), l => LicenseWithKey(s', key, l));
    assert ResolveByKey(s', key) == Found(id);
    ActiveSeatsAdd(s, o.result.value, id);
  }

  /**
   A customer provisioned for the first time under a brand can look the new
   key up at once: it reports a valid license with the product's default
   seats, none in use, that stays valid until the end of its validity window.
   */
  lemma StatusOfNewCustomer(s: Store, brand: Brand, email: string, slug: string, now: int, freshKey: string, later: int)
    requires WellFormed(s)
    requires brand in s.brands
    requires KeyUnused(s, freshKey)
    requires forall i :: 0 <= i < |s.keys| ==> !KeyFor(brand, email, s.keys[i])
    requires Provision(s, brand, email, slug, now, freshKey).result.Ok?
    ensures var o := Provision(s, brand, email, slug, now, freshKey);
      var l := o.store.licenses[o.result.value];
      var r := GetStatus(o.store, freshKey, later);
      && r.Ok?
      && r.value.status == Valid
      && r.value.seatLimit == s.products[l.productId].defaultSeats
      && r.value.activeSeats == 0
      && r.value.remainingSeats == r.value.seatLimit
      && r.value.expiresAt == Some(now + ValidityWindow)
      && (r.value.isValid <==> later <= now + ValidityWindow)
  {
    var o := Provision(s, brand, email, slug, now, freshKey);
    var s' := o.store;
    var id := o.result.value;
    assert s'.keys == s.keys + [LicenseKey(brand, freshKey, email)];
    assert s'.licenses[id].keyId == |s.keys|;
    assert forall i :: 0 <= i < |s'.licenses| && LicenseWithKey(s', freshKey, s'.licenses[i]) ==> i == id;
    assert ResolveByKey(s', freshKey) == Found(id);
    assert ActiveSeats(s', id) == ActiveSeats(s, id);
    NoSeatsBeyondTable(s, id);
  }
}
