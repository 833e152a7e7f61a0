/**
 The relational store of the license service: brands, products, license
 keys, licenses and activations, with the uniqueness constraints the
 schema declares, the referential integrity the database enforces, and two
 invariants the transactions keep: a license's product belongs to its key's
 brand (kept by provisioning) and no license exceeds its seat limit (kept by
 activation).
 Row ids are sequence indices; no operation of the core deletes a row that
 survives its transaction.
 */
module Models {
  import opened Lookup

  datatype Option<T> = None | Some(value: T)

  /** A tenant; its name is unique, so it is its identity. */
  datatype Brand = Brand(name: string)

  /** A product owned by a brand; `(brand, slug)` is unique. */
  datatype Product = Product(brand: Brand, name: string, slug: string, defaultSeats: nat)

  /** A customer's per-brand credential; `key` is globally unique and `(brand, customerEmail)` is unique. */
  datatype LicenseKey = LicenseKey(brand: Brand, key: string, customerEmail: string)

  /** The three license states; a new license is `Valid`. */
  datatype Status = Valid | Suspended | Cancelled

  /**
   One entitlement: a license key paired with a product. Nothing makes
   `(keyId, productId)` unique. `expiresAt` is a time in seconds.
   */
  datatype License = License(keyId: nat, productId: nat, status: Status, expiresAt: Option<int>, seatLimit: nat)

  /** One seat held by an instance (a site URL or machine id); the record is its own unique key. */
  datatype Activation = Activation(licenseId: nat, instanceId: string)

  datatype Store = Store(
    brands: set<Brand>,
    products: seq<Product>,
    keys: seq<LicenseKey>,
    licenses: seq<License>,
    activations: set<Activation>)

  /** Seconds in the fixed validity window of a newly provisioned license (365 days). */
  const ValidityWindow: int := 365 * 24 * 60 * 60

  /** Abstract error kinds: the two not-found validation errors, the three denials, and an uncaught ambiguous `get`. */
  datatype Error =
    | ProductNotFound
    | LicenseNotFound
    | NotActive(status: Status)
    | Expired
    | SeatLimitReached
    | Ambiguous
  {
    /** The permission-denied errors. */
    predicate Forbidden() {
      NotActive? || Expired? || SeatLimitReached?
    }
  }

  datatype Result<T> = Ok(value: T) | Err(error: Error)

  /** What a transaction returns and the store it leaves behind. */
  datatype Outcome<T> = Outcome(result: Result<T>, store: Store)

  /** Number of activations (seats in use) of license `id`. */
  function ActiveSeats(s: Store, id: nat): nat
  {
    |set a | a in s.activations && a.licenseId == id|
  }

  /** A license is expired when it has an expiry strictly before `now`. */
  predicate IsExpired(l: License, now: int)
  {
    l.expiresAt.Some? && l.expiresAt.value < now
  }

  /** A license grants use when it is `Valid` and not expired. */
  predicate IsUsable(l: License, now: int)
  {
    l.status == Valid && !IsExpired(l, now)
  }

  /** The license's key resolves and carries the key string `key`. */
  predicate HasKey(s: Store, l: License, key: string)
  {
    l.keyId < |s.keys| && s.keys[l.keyId].key == key
  }

  /** The license's product resolves. */
  predicate HasProduct(s: Store, l: License)
  {
    l.productId < |s.products|
  }

  // ---------------------------------------------------------------------------
  // Schema constraints and the invariants the transactions keep

  ghost predicate ProductsWellFormed(s: Store)
  {
    && (forall i :: 0 <= i < |s.products| ==> s.products[i].brand in s.brands)
    && (forall i, j :: 0 <= i < j < |s.products| ==>
          s.products[i].brand != s.products[j].brand || s.products[i].slug != s.products[j].slug)
  }

  ghost predicate KeysWellFormed(s: Store)
  {
    && (forall i :: 0 <= i < |s.keys| ==> s.keys[i].brand in s.brands)
    && (forall i, j :: 0 <= i < j < |s.keys| ==> s.keys[i].key != s.keys[j].key)
    && (forall i, j :: 0 <= i < j < |s.keys| ==>
          s.keys[i].brand != s.keys[j].brand || s.keys[i].customerEmail != s.keys[j].customerEmail)
  }

  /**
   Every license refers to an existing key and an existing product. The
   product belonging to the key's brand is not declared by the schema; it is
   an invariant that provisioning keeps.
   */
  ghost predicate LicensesWellFormed(s: Store)
  {
    forall i :: 0 <= i < |s.licenses| ==>
      && s.licenses[i].keyId < |s.keys|
      && s.licenses[i].productId < |s.products|
      && s.products[s.licenses[i].productId].brand == s.keys[s.licenses[i].keyId].brand
  }

  ghost predicate ActivationsWellFormed(s: Store)
  {
    forall a :: a in s.activations ==> a.licenseId < |s.licenses|
  }

  /** No license has more activations than seats. */
  ghost predicate WithinSeatLimits(s: Store)
  {
    forall i :: 0 <= i < |s.licenses| ==> ActiveSeats(s, i) <= s.licenses[i].seatLimit
  }

  ghost predicate WellFormed(s: Store)
  {
    && ProductsWellFormed(s)
    && KeysWellFormed(s)
    && LicensesWellFormed(s)
    && ActivationsWellFormed(s)
    && WithinSeatLimits(s)
  }

  /** No key in the store uses the key string `key`. */
  predicate KeyUnused(s: Store, key: string)
  {
    forall i :: 0 <= i < |s.keys| ==> s.keys[i].key != key
  }

  // ---------------------------------------------------------------------------
  // Seat accounting

  /** Adding a new activation of license `id` adds exactly one seat to `id` and none to any other license. */
  lemma ActiveSeatsAdd(s: Store, a: Activation, id: nat)
    requires a !in s.activations
    ensures ActiveSeats(s.(activations := s.activations + {a}), id)
         == ActiveSeats(s, id) + (if a.licenseId == id then 1 else 0)
  {
    var before := set b | b in s.activations && b.licenseId == id;
    var after := set b | b in s.activations + {a} && b.licenseId == id;
    if a.licenseId == id {
      assert after == before + {a};
    } else {
      assert after == before;
    }
  }

  /** When every activation refers to an existing license, an id past the end of the license table holds no activations. */
  lemma NoSeatsBeyondTable(s: Store, id: nat)
    requires ActivationsWellFormed(s)
    requires id >= |s.licenses|
    ensures ActiveSeats(s, id) == 0
  {
    var held := set b | b in s.activations && b.licenseId == id;
    assert held == {};
  }
}
