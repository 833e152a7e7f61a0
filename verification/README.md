# License service entitlement model

A Dafny model of the entitlement state machine of a multi-brand license
service. Brands own products. A customer holds one license key per brand.
A key backs licenses, one per provisioning call. Each license carries a
status, an optional expiry and a seat limit. Activations record which
instances hold a seat of a license.

The store is an immutable value (`Models.Store`):

- brands are a set;
- products, license keys and licenses are sequences whose indices are the
  row ids;
- activations are a set of `(licenseId, instanceId)` records, so the
  record is its own unique key.

Each transaction is a pure function from a store to an `Outcome`: a result
and the store it leaves. A failed transaction returns the store it was
given, which is what the database's atomic rollback guarantees. The wall
clock is an integer parameter `now`, in seconds. The generated UUID of a
new key is a caller-supplied `freshKey` that no key uses yet.

Modules:

- `Lookup`: the ORM's filter and single-row `get`. A `get` finds nothing,
  exactly one row, or several rows. Several rows raise an error the service
  never catches, modelled as `Ambiguous`.
- `Models`: the records, the status enum, the error kinds, seat counting,
  and the predicate `WellFormed`. `WellFormed` holds the schema's
  constraints: unique (brand, slug), globally unique key strings, unique
  (brand, email) and referential integrity. It also holds two invariants
  the schema does not declare but the transactions keep. Provisioning keeps
  "a license's product belongs to its key's brand". Activation keeps "no
  license holds more activations than seats".
- `Services`: provisioning, activation and the cross-brand listing.
- `StatusView`: the status report of a key.
- `ProvisionProofs`, `ActivationProofs`, `StatusProofs`, `Scenarios`: the
  properties, each proved for every store.

Where the service's code and its design description differ, the model
follows the code:

- A missing product in provisioning and a missing license in activation
  raise a validation error in the code. The model names these
  `ProductNotFound` and `LicenseNotFound`.
- The design calls (key, product) unique per license. The code declares no
  such constraint, and provisioning appends a new license on every call.
  `ProvisionTwiceDuplicates` proves this. `DuplicateProvisionBlocksActivation`
  proves that afterwards every activation under that key and slug fails as
  `Ambiguous`.
- The status query takes a key string alone. A key behind several licenses
  makes it fail, which the model reports as `Ambiguous`.
- The lookups by key string and the listing join each license to its key
  and product. A license row whose key or product does not resolve never
  matches. In a well-formed store every row resolves, so this changes
  nothing there.

## Model

| member | source | states |
|---|---|---|
| Lookup.Get | licenses/services.py:51-59 | a single-row lookup is missing exactly when no row matches, finds a row only when it is the one matching row, and is ambiguous exactly when two distinct rows match |
| Lookup.Indices | licenses/services.py:94-96 | a filter query returns, in increasing id order without repeats, exactly the ids of the rows that match |
| Models.ActiveSeatsAdd | licenses/services.py:77-78 | counting after inserting a new activation gives one more seat for its own license and the same count for every other license |
| Services.GetOrCreateKey | licenses/services.py:19-22 | get-or-create yields a key of (brand, email); it keeps the key table when such a key exists and appends one key with the fresh key string when none does; it fails only when the lookup is ambiguous |
| Services.Provision | licenses/services.py:11-42 | a failure leaves the store unchanged, a newly created key included; a missing product of that brand is ProductNotFound; a success appends exactly one valid license, expiring one validity window after now, with the seat limit of a product of the supplied brand and slug, keyed to a key of (brand, email); brands, products and activations are untouched |
| Services.Activate | licenses/services.py:44-85 | a missing license is LicenseNotFound, and two matching licenses are Ambiguous; an invalid status or a past expiry is refused before any activation is looked at; an instance already holding a seat gets that activation back with the store unchanged; a new instance succeeds exactly when one more seat fits, adding exactly that activation; every failure leaves the store unchanged |
| Services.ListCustomerLicenses | licenses/services.py:87-96 | the listing holds exactly the licenses whose key belongs to the email and whose product resolves, under every brand, each once, in id order |
| StatusView.GetStatus | licenses/views.py:130-159 | the lookup uses the key string alone: no license is LicenseNotFound and several are Ambiguous; otherwise the report copies status, expiry and seat limit from the one license, counts its activations, sets remaining seats to the limit minus active seats floored at zero, and is valid exactly when the status is valid and the license is not expired |
| ProvisionProofs.ProvisionKeepsWellFormed | licenses/services.py:19-40 | provisioning keeps every schema constraint of a well-formed store, including unique keys, unique (brand, email) and the seat limits |
| ProvisionProofs.ProvisionKeyUnique | licenses/services.py:19-22 | after a successful provisioning exactly one key exists for (brand, email) and the new license uses it; an existing key is reused and the key table is unchanged |
| ProvisionProofs.ProvisionFailsIffNoProduct | licenses/services.py:25-30 | on a well-formed store provisioning fails exactly when the supplied brand has no product with that slug, even if another brand has one; the error is ProductNotFound and the store, key table included, is unchanged |
| ProvisionProofs.ProvisionTwiceDuplicates | licenses/services.py:34-40 | provisioning the same brand, email and slug twice reuses the key and appends a second license with the same key and product |
| ProvisionProofs.ProvisionExtendsListing | licenses/services.py:94-96 | a successful provisioning adds exactly the new license to its customer's cross-brand listing (at the end, in the model's id order) and leaves every other customer's listing as it was |
| ActivationProofs.ActivateIdempotent | licenses/services.py:70-75 | activating twice with the same arguments returns the same activation, and the second call leaves the store unchanged |
| ActivationProofs.ActivateKeepsSeatLimits | licenses/services.py:75-83 | if no license exceeds its seat limit before an activation, none does after it |
| ActivationProofs.ActivateKeepsWellFormed | licenses/models.py:75-76 | activation keeps every schema constraint, including the uniqueness of (license, instance) and the seat limits |
| ActivationProofs.ActivateAllKeepsSeatLimits | licenses/tests.py:37-56 | across any series of activation requests, each naming its own key, slug, instance and time, no license ever holds more activations than its seat limit |
| ActivationProofs.DuplicateProvisionBlocksActivation | licenses/services.py:51-55 | after duplicate provisioning of one key and product, at any two times, every activation under that key and slug fails as Ambiguous with the store unchanged |
| ActivationProofs.ActivateKeepsListing | licenses/services.py:94-96 | activation changes no customer's cross-brand listing |
| StatusProofs.StatusRemainingExact | licenses/views.py:137-139 | in a store within its seat limits, active seats never exceed the limit and remaining seats are exactly the limit minus active seats |
| StatusProofs.StatusAgreesWithActivationGates | licenses/views.py:142-143 | when the key's license has the given product slug, activation resolves the same license, and its status and expiry gates refuse it exactly when the report says it is not valid |
| StatusProofs.StatusAfterNewActivation | licenses/views.py:137-139 | a new instance admitted by activation shows up as one more active seat and one fewer remaining seat, and nothing else in the report changes |
| StatusProofs.StatusOfNewCustomer | licenses/services.py:34-40 | a first-time customer's new key at once reports a valid license with the product's default seats, none in use, valid exactly until the end of its validity window |
| Scenarios.OneSeatActivations | licenses/tests.py:37-74 | on a usable one-seat license with no seat in use, the first site activates, repeating it changes nothing, and a second site is refused with the seat limit reached and one seat in use |
| Scenarios.OneSeatScenario | licenses/tests.py:9-56 | the same holds for a first-time customer right after provisioning a one-seat product |

## Left out

- Concurrency: the code takes no row locks, so racing activations are not
  something it guarantees. Each transaction is modelled as one sequential
  atomic step.
- Wall clock and UUID generation: the clock is the parameter `now`. The
  new key string is the parameter `freshKey`, which must not be in use.
  The 365-day window is an offset of 365 × 86400 seconds. Time zones are
  not modelled.
- Timestamps (`created_at`, `activated_at`) and the brand's `api_key`:
  no operation of the core reads them.
- Cascade and protect delete rules: no operation of the core deletes brands,
  products, keys or licenses.
- Product creation: no operation of the core creates products, so the
  schema's default of one seat per product is not modelled. Seat counts are
  `nat`, so 0 is allowed.
- Listing order: the cross-brand query names no ordering and the License
  table declares none, so the database may return rows in any order. The
  model fixes ascending id order. Only the set of listed ids, each listed
  once, reflects the code; "at the end" in `ProvisionExtendsListing` is a
  fact about the model's order.
- Concrete exception classes and messages: they become the abstract error
  kinds of `Models.Error`.
- HTTP transport: routing, input serializers, output projection and
  status-code mapping are not modelled. The brand header default and the
  activate and list view wrappers are left out too. The status report's
  `license_key` field echoes its input.
- Transient database conflicts and retries: the code has none.
