/** The certificate record (Models/Certificate.cs): a TLS certificate seen on a
    device or on a monitored URL, and its expiry classification relative to `now`. */
module Certificates {
  import opened Common

  datatype CertificateStatus = Unknown | Valid | Expired | ExpiringSoon | Invalid | Revoked

  datatype Certificate = Certificate(
    id: int,
    deviceId: Option<int>,
    commonName: string,
    thumbprint: string,
    issuedDate: Time,
    expiryDate: Time,
    issuer: string,
    algorithm: string,
    keySize: int,
    status: CertificateStatus,
    lastChecked: Time,
    createdAt: Time,
    updatedAt: Time)

  /** The window, in days, inside which a certificate counts as expiring soon. */
  const ExpiringSoonDays: int := 30

  /** A certificate object as its initialisers leave it, created at `now`. */
  function NewCertificate(now: Time): (c: Certificate)
    ensures c.status == Unknown && !IsDeviceCertificate(c)
    ensures c.createdAt == now && c.updatedAt == now
  {
    Certificate(0, None, "", "", MinDate, MinDate, "", "", 0, Unknown, MinDate, now, now)
  }

  predicate IsExpired(c: Certificate, now: Time)
  {
    now > c.expiryDate
  }

  predicate IsExpiringSoon(c: Certificate, now: Time)
  {
    now + ExpiringSoonDays * DayMs > c.expiryDate && !IsExpired(c, now)
  }

  /** Whole days until expiry, truncated toward zero. */
  function DaysUntilExpiry(c: Certificate, now: Time): int
  {
    TruncDiv(c.expiryDate - now, DayMs)
  }

  predicate IsDeviceCertificate(c: Certificate)
  {
    c.deviceId.Some?
  }

  /** Every certificate is in exactly one of three windows: expired, expiring soon,
      or at least 30 days away. */
  lemma ExpiryWindows(c: Certificate, now: Time)
    ensures !(IsExpired(c, now) && IsExpiringSoon(c, now))
    ensures IsExpired(c, now) || IsExpiringSoon(c, now) || c.expiryDate >= now + ExpiringSoonDays * DayMs
    ensures c.expiryDate >= now + ExpiringSoonDays * DayMs ==> !IsExpired(c, now) && !IsExpiringSoon(c, now)
  {
  }

  /** The day count agrees with the two predicates: 30 or more days exactly when the
      certificate is neither expired nor expiring soon, 0..29 while expiring soon,
      and never positive once expired. */
  lemma DaysAgreeWithWindows(c: Certificate, now: Time)
    ensures DaysUntilExpiry(c, now) >= ExpiringSoonDays <==> !IsExpired(c, now) && !IsExpiringSoon(c, now)
    ensures IsExpiringSoon(c, now) ==> 0 <= DaysUntilExpiry(c, now) < ExpiringSoonDays
    ensures IsExpired(c, now) ==> DaysUntilExpiry(c, now) <= 0
  {
    var d := c.expiryDate - now;
    var q := DaysUntilExpiry(c, now);
    if d >= 0 {
      assert q * DayMs <= d < q * DayMs + DayMs;
      if q >= ExpiringSoonDays {
        assert d >= ExpiringSoonDays * DayMs;
      }
      if d >= ExpiringSoonDays * DayMs {
        assert q >= ExpiringSoonDays;
      }
    }
  }

  /** Truncation makes the count 0 anywhere within one day of the expiry instant, on
      either side, and negative only once more than a whole day has passed. */
  lemma DaysNearExpiry(c: Certificate, now: Time)
    ensures -DayMs < c.expiryDate - now < DayMs ==> DaysUntilExpiry(c, now) == 0
    ensures DaysUntilExpiry(c, now) < 0 <==> c.expiryDate - now <= -DayMs
  {
  }
}
