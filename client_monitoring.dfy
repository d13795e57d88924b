/** The monitoring page script (wwwroot/js/monitoring.js): the payload that creates a
    monitor, marking every monitor as being checked, updating one monitor's status in
    place, and the search filter. */
module ClientMonitoring {
  import opened Common
  import opened ClientDashboard

  // ---------------------------------------------------------------------------
  // addUrlMonitor

  /** The monitor form's fields (each an empty string when left blank). */
  datatype MonitorForm = MonitorForm(url: string, name: string, description: string,
                                     checkInterval: string, timeout: string)

  /** The JSON body posted to the server; None stands for NaN, which JSON.stringify
      writes as null. */
  datatype MonitorPayload = MonitorPayload(
    url: string,
    name: string,
    description: string,
    checkIntervalMinutes: Option<int>,
    timeoutSeconds: Option<int>,
    isActive: bool,
    monitorSsl: bool)

  /** The payload of addUrlMonitor. `parseInt` stands for the browser's parseInt (None
      for NaN) and `hostnameOf` for `new URL(url).hostname` (None where the constructor
      throws, which happens before the request's try block, so nothing is posted). */
  function AddUrlMonitorPayload(form: MonitorForm, parseInt: string -> Option<int>,
                                hostnameOf: string -> Option<string>): Option<MonitorPayload>
  {
    if form.name == "" && hostnameOf(form.url).None? then None
    else
      var name := if form.name != "" then form.name else hostnameOf(form.url).value;
      Some(MonitorPayload(form.url, name, JsOr(form.description, ""), parseInt(form.checkInterval),
                          parseInt(form.timeout), true, true))
  }

  /** Every posted monitor is active and watches its certificate; interval and timeout
      come from the form; a blank name becomes the URL's host name, and only a blank
      name with an unparsable URL posts nothing. */
  lemma PayloadRules(form: MonitorForm, parseInt: string -> Option<int>, hostnameOf: string -> Option<string>)
    ensures var p := AddUrlMonitorPayload(form, parseInt, hostnameOf);
      (p.None? <==> form.name == "" && hostnameOf(form.url).None?)
      && (p.Some? ==>
            p.value.isActive && p.value.monitorSsl && p.value.url == form.url
            && p.value.checkIntervalMinutes == parseInt(form.checkInterval)
            && p.value.timeoutSeconds == parseInt(form.timeout)
            && (form.name != "" ==> p.value.name == form.name)
            && (form.name == "" ==> Some(p.value.name) == hostnameOf(form.url)))
  {
  }

  // ---------------------------------------------------------------------------
  // checkAllUrls

  /** Every monitor marked as being checked at `now`; nothing else changes. */
  function AllChecking(ms: seq<ClientMonitor>, now: Time): (r: seq<ClientMonitor>)
    ensures |r| == |ms|
    ensures forall i :: 0 <= i < |ms| ==> r[i] == ms[i].(status := CheckingStatus, lastCheck := now)
  {
    seq(|ms|, i requires 0 <= i < |ms| => ms[i].(status := CheckingStatus, lastCheck := now))
  }

  /** After checkAllUrls nothing counts as up or down on the dashboard. */
  lemma AllCheckingCountsNothing(ms: seq<ClientMonitor>, now: Time)
    ensures Count(AllChecking(ms, now), IsUpMonitor) == 0
    ensures Count(AllChecking(ms, now), IsDownMonitor) == 0
  {
    CountZero(AllChecking(ms, now), IsUpMonitor);
    CountZero(AllChecking(ms, now), IsDownMonitor);
  }

  /** checkAllUrls (the same function appears in Functions.js): each monitor in turn. */
  method CheckAllUrls(page: Dashboard, now: Time)
    modifies page
    ensures page.urlMonitors == AllChecking(old(page.urlMonitors), now)
    ensures page.devices == old(page.devices)
  {
    ghost var before := page.urlMonitors;
    var i := 0;
    while i < |page.urlMonitors|
      invariant 0 <= i <= |page.urlMonitors| == |before|
      invariant page.devices == old(page.devices)
      invariant forall k :: 0 <= k < i ==> page.urlMonitors[k] == before[k].(status := CheckingStatus, lastCheck := now)
      invariant forall k :: i <= k < |before| ==> page.urlMonitors[k] == before[k]
    {
      var m := page.urlMonitors[i];
      page.urlMonitors := page.urlMonitors[i := m.(status := CheckingStatus, lastCheck := now)];
      i := i + 1;
    }
  }

  // ---------------------------------------------------------------------------
  // updateUrlMonitorStatus

  /** The position `find` stops at: the first monitor with the id. */
  function FirstWithId(ms: seq<ClientMonitor>, id: int): (r: Option<nat>)
    ensures r.None? <==> forall i :: 0 <= i < |ms| ==> ms[i].id != id
    ensures r.Some? ==> r.value < |ms| && ms[r.value].id == id && forall i :: 0 <= i < r.value ==> ms[i].id != id
    decreases |ms|
  {
    if |ms| == 0 then None
    else if ms[0].id == id then Some(0)
    else
      match FirstWithId(ms[1..], id)
      case None => None
      case Some(k) => Some(k + 1)
  }

  function StatusUpdated(ms: seq<ClientMonitor>, id: int, status: string, responseTime: Option<int>, now: Time)
    : seq<ClientMonitor>
  {
    match FirstWithId(ms, id)
    case None => ms
    case Some(k) => ms[k := ms[k].(status := status, responseTime := responseTime, lastCheck := now)]
  }

  /** Only the first monitor with the id changes, and only in status, response time and
      last check; without such a monitor nothing changes. */
  lemma UpdateTouchesFirstOnly(ms: seq<ClientMonitor>, id: int, status: string, responseTime: Option<int>, now: Time)
    ensures var r := StatusUpdated(ms, id, status, responseTime, now);
      |r| == |ms|
      && ((forall i :: 0 <= i < |ms| ==> ms[i].id != id) ==> r == ms)
      && forall i :: 0 <= i < |ms| ==>
           if ms[i].id == id && (forall j :: 0 <= j < i ==> ms[j].id != id)
           then r[i] == ms[i].(status := status, responseTime := responseTime, lastCheck := now)
           else r[i] == ms[i]
  {
  }

  /** updateUrlMonitorStatus: find the monitor, then set its fields. */
  method UpdateUrlMonitorStatus(page: Dashboard, id: int, status: string, responseTime: Option<int>, now: Time)
    modifies page
    ensures page.urlMonitors == StatusUpdated(old(page.urlMonitors), id, status, responseTime, now)
    ensures page.devices == old(page.devices)
  {
    var i := 0;
    while i < |page.urlMonitors| && page.urlMonitors[i].id != id
      invariant 0 <= i <= |page.urlMonitors|
      invariant forall j :: 0 <= j < i ==> page.urlMonitors[j].id != id
    {
      i := i + 1;
    }
    if i < |page.urlMonitors| {
      var m := page.urlMonitors[i];
      page.urlMonitors := page.urlMonitors[i := m.(status := status, responseTime := responseTime, lastCheck := now)];
    }
  }

  // ---------------------------------------------------------------------------
  // filterUrlMonitors

  /** Whether the name or the URL contains the term, ignoring case. */
  function MatchesTerm(term: string): ClientMonitor -> bool
  {
    (m: ClientMonitor) => Contains(ToLowerAscii(m.name), ToLowerAscii(term)) || Contains(ToLowerAscii(m.url), ToLowerAscii(term))
  }

  function FilterUrlMonitors(ms: seq<ClientMonitor>, term: string): seq<ClientMonitor>
  {
    Filter(ms, MatchesTerm(term))
  }

  /** The filter keeps exactly the matching monitors, in their order. */
  lemma FilterKeepsMatches(ms: seq<ClientMonitor>, more: seq<ClientMonitor>, term: string)
    ensures forall m :: m in FilterUrlMonitors(ms, term) <==> m in ms && MatchesTerm(term)(m)
    ensures FilterUrlMonitors(ms + more, term) == FilterUrlMonitors(ms, term) + FilterUrlMonitors(more, term)
  {
    FilterExactly(ms, MatchesTerm(term));
    FilterAppend(ms, more, MatchesTerm(term));
  }

  /** An empty search keeps every monitor. */
  lemma EmptyTermKeepsAll(ms: seq<ClientMonitor>)
    ensures FilterUrlMonitors(ms, "") == ms
  {
    forall i | 0 <= i < |ms|
      ensures MatchesTerm("")(ms[i])
    {
      EverythingContainsEmpty(ToLowerAscii(ms[i].name));
    }
    FilterAll(ms, MatchesTerm(""));
  }

  /** The search ignores the case of the term. */
  lemma FilterIgnoresTermCase(ms: seq<ClientMonitor>, term: string)
    ensures FilterUrlMonitors(ms, ToLowerAscii(term)) == FilterUrlMonitors(ms, term)
  {
    ToLowerAsciiIdempotent(term);
    assert MatchesTerm(ToLowerAscii(term)) == MatchesTerm(term);
  }
}
