/**
 The license status query: a pure read that resolves a license by its key
 string alone and reports its status, validity and seat arithmetic at the
 time `now`.
 */
module StatusView {
  import opened Lookup
  import opened Models

  datatype Report = Report(
    licenseKey: string,
    productName: string,
    status: Status,
    isValid: bool,
    expiresAt: Option<int>,
    seatLimit: nat,
    activeSeats: nat,
    remainingSeats: nat)

  /** The license rows joined to a key with string `key` and to their product. */
  predicate LicenseWithKey(s: Store, key: string, l: License)
  {
    HasKey(s, l, key) && HasProduct(s, l)
  }

  /** The status-time lookup of a license by key string only. */
  function ResolveByKey(s: Store, key: string): Lookup
  {
    Get(s.licenses, l => LicenseWithKey(s, key, l))
  }

  /**
   The report on the single license behind `key`. A key with no license is
   not found; a key behind several licenses makes the lookup ambiguous.
   */
  function GetStatus(s: Store, key: string, now: int): (r: Result<Report>)
    ensures r.Err? ==> r.error in {LicenseNotFound, Ambiguous}
    ensures r == Err(LicenseNotFound) <==>
      forall i :: 0 <= i < |s.licenses| ==> !LicenseWithKey(s, key, s.licenses[i])
    ensures r == Err(Ambiguous) <==>
      exists i, j :: 0 <= i < j < |s.licenses| && LicenseWithKey(s, key, s.licenses[i]) && LicenseWithKey(s, key, s.licenses[j])
    ensures r.Ok? ==> ResolveByKey(s, key).Found?
    ensures r.Ok? ==>
      var id := ResolveByKey(s, key).index;
      var l := s.licenses[id];
      && r.value.licenseKey == key
      && r.value.productName == s.products[l.productId].name
      && r.value.status == l.status
      && r.value.expiresAt == l.expiresAt
      && r.value.seatLimit == l.seatLimit
      && r.value.activeSeats == ActiveSeats(s, id)
      && (r.value.isValid <==> l.status == Valid && !(l.expiresAt.Some? && l.expiresAt.value < now))
    ensures r.Ok? ==>
      && r.value.remainingSeats <= r.value.seatLimit
      && r.value.activeSeats + r.value.remainingSeats >= r.value.seatLimit
      && (r.value.remainingSeats == 0 || r.value.activeSeats + r.value.remainingSeats == r.value.seatLimit)
  {
    match ResolveByKey(s, key)
    case Missing => Err(LicenseNotFound)
    case Multiple => Err(Ambiguous)
    case Found(id) =>
      var l := s.licenses[id];
      var active := ActiveSeats(s, id);
      var remaining := if l.seatLimit - active > 0 then l.seatLimit - active else 0;
      var expired := l.expiresAt.Some? && l.expiresAt.value < now;
      Ok(Report(key, s.products[l.productId].name, l.status, l.status == Valid && !expired,
                l.expiresAt, l.seatLimit, active, remaining))
  }
}
