/** The certificate list of the client (wwwroot/js/certificates.js): days until expiry
    rounded up, the status class and the label of each entry, and the empty-list
    message. */
module ClientCertificates {
  import opened Common
  import Certificates

  /** Math.ceil of the milliseconds left divided by a day. */
  function JsDaysUntilExpiry(expiry: Time, now: Time): int
  {
    CeilDiv(expiry - now, DayMs)
  }

  function StatusClass(days: int): string
  {
    if days <= 0 then "expired" else if days <= 30 then "expiring" else "valid"
  }

  function DaysLabel(days: int): string
  {
    if days <= 0 then "Expired" else IntToString(days) + " days"
  }

  datatype CertItem = CertItem(statusClass: string, daysText: string)

  /** What displayCertificatesList shows. */
  datatype CertListing = NoCertificates(message: string) | Listing(items: seq<CertItem>)

  const NoCertificatesMessage: string := "No SSL certificates found."

  function Item(expiry: Time, now: Time): CertItem
  {
    var days := JsDaysUntilExpiry(expiry, now);
    CertItem(StatusClass(days), DaysLabel(days))
  }

  /** displayCertificatesList over the certificates' expiry dates. */
  function DisplayCertificatesList(expiries: seq<Time>, now: Time): CertListing
  {
    if |expiries| == 0 then NoCertificates(NoCertificatesMessage)
    else Listing(MapSeq(expiries, e => Item(e, now)))
  }

  /** The empty list shows only the message; otherwise one entry per certificate, in
      order. */
  lemma ListingShape(expiries: seq<Time>, now: Time)
    ensures var l := DisplayCertificatesList(expiries, now);
      (l.NoCertificates? <==> |expiries| == 0)
      && (l.NoCertificates? ==> l.message == NoCertificatesMessage)
      && (l.Listing? ==> |l.items| == |expiries| && forall i :: 0 <= i < |expiries| ==> l.items[i] == Item(expiries[i], now))
  {
  }

  /** The three classes are exhaustive and disjoint: expired up to 0 days, expiring for
      1..30, valid beyond; the label says "Expired" exactly for the expired class. */
  lemma ClassBands(days: int)
    ensures StatusClass(days) == "expired" <==> days <= 0
    ensures StatusClass(days) == "expiring" <==> 1 <= days <= 30
    ensures StatusClass(days) == "valid" <==> days > 30
    ensures StatusClass(days) in {"expired", "expiring", "valid"}
    ensures DaysLabel(days) == "Expired" <==> days <= 0
    ensures days > 0 ==> DaysLabel(days) == NatToString(days) + " days"
  {
    if days > 0 {
      var t := NatToString(days) + " days";
      assert t[|t| - 1] == 's';
    }
  }

  /** Rounding up: any expiry in the future, even by a millisecond, gives at least one
      day and is never shown as expired; the count is 0 or less exactly when the expiry
      is not in the future. */
  lemma FutureNeverExpired(expiry: Time, now: Time)
    ensures JsDaysUntilExpiry(expiry, now) >= 1 <==> expiry > now
    ensures expiry > now ==> StatusClass(JsDaysUntilExpiry(expiry, now)) != "expired"
  {
  }

  /** Against the server's count (truncated toward zero): the same for expiries in the
      past and for whole days, one more for a future expiry that is not a whole number
      of days away. */
  lemma CeilingVersusTruncation(c: Certificates.Certificate, now: Time)
    ensures var js := JsDaysUntilExpiry(c.expiryDate, now);
      var cs := Certificates.DaysUntilExpiry(c, now);
      (c.expiryDate <= now ==> js == cs)
      && (c.expiryDate > now && (c.expiryDate - now) % DayMs == 0 ==> js == cs)
      && (c.expiryDate > now && (c.expiryDate - now) % DayMs != 0 ==> js == cs + 1)
  {
    var d := c.expiryDate - now;
    var js := JsDaysUntilExpiry(c.expiryDate, now);
    var cs := Certificates.DaysUntilExpiry(c, now);
    if d > 0 {
      assert d == (d / DayMs) * DayMs + d % DayMs;
      assert cs == d / DayMs;
      if d % DayMs == 0 {
        assert d == cs * DayMs;
      } else {
        assert cs * DayMs < d < (cs + 1) * DayMs;
      }
    } else {
      assert -d == ((-d) / DayMs) * DayMs + (-d) % DayMs;
    }
  }

  /** Within the last day before expiry the server's certificate is expiring soon with
      0 days left, while this list shows 1 day. */
  lemma LastDayDisagreement(c: Certificates.Certificate, now: Time)
    requires now < c.expiryDate < now + DayMs
    ensures Certificates.DaysUntilExpiry(c, now) == 0 && Certificates.IsExpiringSoon(c, now)
    ensures JsDaysUntilExpiry(c.expiryDate, now) == 1 && StatusClass(1) == "expiring"
  {
  }
}
