/** Properties of provisioning. */
module ProvisionProofs {
  import opened Lookup
  import opened Models
  import opened Services

  /** Provisioning keeps every schema constraint, the seat limits included. */
  lemma ProvisionKeepsWellFormed(s: Store, brand: Brand, email: string, slug: string, now: int, freshKey: string)
    requires WellFormed(s)
    requires brand in s.brands
    requires KeyUnused(s, freshKey)
    ensures WellFormed(Provision(s, brand, email, slug, now, freshKey).store)
  {
    var o := Provision(s, brand, email, slug, now, freshKey);
    if o.result.Ok? {
      var s' := o.store;
      assert ProductsWellFormed(s');
      assert KeysWellFormed(s') by {
        if s'.keys != s.keys {
          assert forall i :: 0 <= i < |s.keys| ==> !KeyFor(brand, email, s.keys[i]);
          assert s'.keys == s.keys + [LicenseKey(brand, freshKey, email)];
        }
      }
      assert LicensesWellFormed(s') by {
        forall i | 0 <= i < |s'.licenses|
          ensures s'.licenses[i].keyId < |s'.keys|
          ensures s'.licenses[i].productId < |s'.products|
          ensures s'.products[s'.licenses[i].productId].brand == s'.keys[s'.licenses[i].keyId].brand
        {
          if i < |s.licenses| {
            assert s'.licenses[i] == s.licenses[i];
            assert s'.keys[..|s.keys|] == s.keys;
          }
        }
      }
      assert ActivationsWellFormed(s');
      assert WithinSeatLimits(s') by {
        forall i | 0 <= i < |s'.licenses|
          ensures ActiveSeats(s', i) <= s'.licenses[i].seatLimit
        {
          assert ActiveSeats(s', i) == ActiveSeats(s, i);
          if i == |s.licenses| {
            NoSeatsBeyondTable(s, i);
          } else {
            assert s'.licenses[i] == s.licenses[i];
          }
        }
      }
    }
  }

  /**
   After a successful provisioning the store holds exactly one key for
   (brand, email) and the new license uses it; an existing key is reused and
   the key table is left as it was.
   */
  lemma ProvisionKeyUnique(s: Store, brand: Brand, email: string, slug: string, now: int, freshKey: string)
    requires WellFormed(s)
    requires brand in s.brands
    requires KeyUnused(s, freshKey)
    requires Provision(s, brand, email, slug, now, freshKey).result.Ok?
    ensures var o := Provision(s, brand, email, slug, now, freshKey);
      Get(o.store.keys, k => KeyFor(brand, email, k)) == Found(o.store.licenses[|s.licenses|].keyId)
    ensures forall i :: 0 <= i < |s.keys| && KeyFor(brand, email, s.keys[i]) ==>
      var o := Provision(s, brand, email, slug, now, freshKey);
      o.store.keys == s.keys && o.store.licenses[|s.licenses|].keyId == i
  {
    var o := Provision(s, brand, email, slug, now, freshKey);
    ProvisionKeepsWellFormed(s, brand, email, slug, now, freshKey);
    var keyId := o.store.licenses[|s.licenses|].keyId;
    var g := Get(o.store.keys, k => KeyFor(brand, email, k));
    assert KeyFor(brand, email, o.store.keys[keyId]);
    assert !g.Missing? && !g.Multiple?;
    forall i | 0 <= i < |s.keys| && KeyFor(brand, email, s.keys[i])
      ensures o.store.keys == s.keys && keyId == i
    {
      assert o.store.keys == s.keys;
      assert o.store.keys[i] == s.keys[i];
    }
  }

  /**
   On a well-formed store provisioning fails exactly when the brand has no
   product with that slug (another brand's product with the same slug does
   not count), and then the store, key table included, is unchanged.
   */
  lemma ProvisionFailsIffNoProduct(s: Store, brand: Brand, email: string, slug: string, now: int, freshKey: string)
    requires WellFormed(s)
    requires brand in s.brands
    requires KeyUnused(s, freshKey)
    ensures var o := Provision(s, brand, email, slug, now, freshKey);
      o.result.Err? <==> forall i :: 0 <= i < |s.products| ==> !ProductFor(brand, slug, s.products[i])
    ensures var o := Provision(s, brand, email, slug, now, freshKey);
      o.result.Err? ==> o.result.error == ProductNotFound && o.store == s
  {
    assert !Get(s.keys, k => KeyFor(brand, email, k)).Multiple?;
    assert !Get(s.products, p => ProductFor(brand, slug, p)).Multiple?;
  }

  /**
   Provisioning is not deduplicated: provisioning the same (brand, email,
   slug) twice reuses the key but appends a second license for the same key
   and product.
   */
  lemma ProvisionTwiceDuplicates(s: Store, brand: Brand, email: string, slug: string, now1: int, now2: int, key1: string, key2: string)
    requires WellFormed(s)
    requires brand in s.brands
    requires KeyUnused(s, key1)
    requires Provision(s, brand, email, slug, now1, key1).result.Ok?
    requires KeyUnused(Provision(s, brand, email, slug, now1, key1).store, key2)
    ensures var o1 := Provision(s, brand, email, slug, now1, key1);
      var o2 := Provision(o1.store, brand, email, slug, now2, key2);
      && o2.result == Ok(|s.licenses| + 1)
      && o2.store.keys == o1.store.keys
      && o2.store.licenses[|s.licenses|].keyId == o2.store.licenses[|s.licenses| + 1].keyId
      && o2.store.licenses[|s.licenses|].productId == o2.store.licenses[|s.licenses| + 1].productId
  {
    var o1 := Provision(s, brand, email, slug, now1, key1);
    ProvisionKeepsWellFormed(s, brand, email, slug, now1, key1);
    var s1 := o1.store;
    var l1 := s1.licenses[|s.licenses|];
    ProvisionFailsIffNoProduct(s1, brand, email, slug, now2, key2);
    var o2 := Provision(s1, brand, email, slug, now2, key2);
    assert o2.result.Ok?;
    ProvisionKeyUnique(s1, brand, email, slug, now2, key2);
    assert KeyFor(brand, email, s1.keys[l1.keyId]);
    assert o2.store.licenses[|s.licenses|] == l1;
    var l2 := o2.store.licenses[|s1.licenses|];
    assert l1.productId == l2.productId by {
      assert ProductFor(brand, slug, s.products[l1.productId]);
      assert ProductFor(brand, slug, s.products[l2.productId]);
      if l1.productId < l2.productId {
        assert false;
      } else if l2.productId < l1.productId {
        assert false;
      }
    }
  }

  /**
   After a successful provisioning, the customer's cross-brand listing gains
   exactly the new license at its end, and every other customer's listing
   is unchanged.
   */
  lemma ProvisionExtendsListing(s: Store, brand: Brand, email: string, slug: string, now: int, freshKey: string, other: string)
    requires WellFormed(s)
    requires brand in s.brands
    requires KeyUnused(s, freshKey)
    requires Provision(s, brand, email, slug, now, freshKey).result.Ok?
    ensures var o := Provision(s, brand, email, slug, now, freshKey);
      ListCustomerLicenses(o.store, email) == ListCustomerLicenses(s, email) + [o.result.value]
    ensures other != email ==>
      var o := Provision(s, brand, email, slug, now, freshKey);
      ListCustomerLicenses(o.store, other) == ListCustomerLicenses(s, other)
  {
    var o := Provision(s, brand, email, slug, now, freshKey);
    var s' := o.store;
    var l := s'.licenses[|s.licenses|];
    assert s'.keys[..|s.keys|] == s.keys;
    forall e: string
      ensures Indices(s.licenses + [l], x => LicenseOfCustomer(s', e, x))
           == Indices(s.licenses, x => LicenseOfCustomer(s, e, x))
            + (if LicenseOfCustomer(s', e, l) then [|s.licenses|] else [])
    {
      forall i | 0 <= i < |s.licenses|
        ensures LicenseOfCustomer(s, e, s.licenses[i]) == LicenseOfCustomer(s', e, s.licenses[i])
      {
        assert s.licenses[i].keyId < |s.keys|;
        assert s'.keys[s.licenses[i].keyId] == s.keys[s.licenses[i].keyId];
      }
      IndicesAppend(s.licenses, l, x => LicenseOfCustomer(s, e, x), x => LicenseOfCustomer(s', e, x));
    }
  }
}
