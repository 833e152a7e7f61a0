/** The service's test scenarios, stated for every well-formed starting store. */
module Scenarios {
  import opened Lookup
  import opened Models
  import opened Services
  import StatusProofs
  import ActivationProofs

  /**
   On a usable one-seat license with no seat in use, the first site
   activates, activating it again changes nothing, and a second site is
   refused for the seat limit, leaving one seat in use.
   */
  lemma OneSeatActivations(s: Store, key: string, slug: string, now: int, id: nat, site1: string, site2: string)
    requires ResolveLicense(s, key, slug) == Found(id)
    requires IsUsable(s.licenses[id], now)
    requires s.licenses[id].seatLimit == 1
    requires ActiveSeats(s, id) == 0
    requires site1 != site2
    ensures var a1 := Activate(s, key, slug, site1, now);
      var a2 := Activate(a1.store, key, slug, site1, now);
      var a3 := Activate(a2.store, key, slug, site2, now);
      && a1.result == Ok(Activation(id, site1))
      && a2 == a1
      && a3 == Outcome(Err(SeatLimitReached), a1.store)
      && ActiveSeats(a3.store, id) == 1
  {
    var a := Activation(id, site1);
    var held := set b | b in s.activations && b.licenseId == id;
    assert held == {};
    assert a in s.activations ==> a in held;
    var a1 := Activate(s, key, slug, site1, now);
    assert a1.result == Ok(a);
    ActivationProofs.ActivateIdempotent(s, key, slug, site1, now);
    ActivationProofs.ResolveIgnoresActivations(s, a1.store, key, slug);
    assert Activation(id, site2) !in a1.store.activations;
  }

  /**
   A first-time customer of a one-seat product: after provisioning, the
   first site activates, activating it again changes nothing, and a second
   site is refused for the seat limit, leaving one seat in use.
   */
  lemma OneSeatScenario(s: Store, brand: Brand, email: string, slug: string, now: int, freshKey: string, site1: string, site2: string)
    requires WellFormed(s)
    requires brand in s.brands
    requires KeyUnused(s, freshKey)
    requires forall i :: 0 <= i < |s.keys| ==> !KeyFor(brand, email, s.keys[i])
    requires forall i :: 0 <= i < |s.products| && ProductFor(brand, slug, s.products[i]) ==> s.products[i].defaultSeats == 1
    requires Provision(s, brand, email, slug, now, freshKey).result.Ok?
    requires site1 != site2
    ensures var p := Provision(s, brand, email, slug, now, freshKey);
      var a1 := Activate(p.store, freshKey, slug, site1, now);
      var a2 := Activate(a1.store, freshKey, slug, site1, now);
      var a3 := Activate(a2.store, freshKey, slug, site2, now);
      && a1.result == Ok(Activation(p.result.value, site1))
      && a2 == a1
      && a3 == Outcome(Err(SeatLimitReached), a1.store)
      && ActiveSeats(a3.store, p.result.value) == 1
  {
    var p := Provision(s, brand, email, slug, now, freshKey);
    var id := p.result.value;
    StatusProofs.StatusOfNewCustomer(s, brand, email, slug, now, freshKey, now);
    StatusProofs.StatusAgreesWithActivationGates(p.store, freshKey, slug, site1, now);
    OneSeatActivations(p.store, freshKey, slug, now, id, site1, site2);
  }
}
