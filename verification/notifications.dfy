/** High-priority failure alerts (`notificationService.ts`): which failed
    cases trigger an email, and what the email lists. Sending is a
    parameter: it reports the mail service's answer or that it threw. */
module Notifications {
  import opened Wrappers
  import opened Strs
  import opened TestMetrics

  /** FAILED and either P0, or P1 with CRITICAL or HIGH severity. */
  predicate Alerting(tc: TestCase) {
    tc.status == Failed && (tc.priority == P0 || (tc.priority == P1 && (tc.severity == Critical || tc.severity == High)))
  }

  /** An alerting case is a high-priority failure in the metrics' sense. */
  lemma AlertingIsHighPriority(tc: TestCase)
    requires Alerting(tc)
    ensures IsHighPriorityFailure(tc)
  {
  }

  /** The alert is exactly the metrics' predicate minus P1 cases of
      medium or low severity; P2 and P3 never alert. */
  lemma AlertingExactly(tc: TestCase)
    ensures Alerting(tc) <==> IsHighPriorityFailure(tc) && !(tc.priority == P1 && tc.severity in {Medium, Low})
    ensures tc.priority in {P2, P3} ==> !Alerting(tc)
  {
  }

  /** One row of the summary table. */
  datatype Row = Row(id: string, name: string, area: string, severity: Severity, priority: Priority, error: string)

  /** The email: its subject, the per-case rows and the assignee line.
      The surrounding Markdown text is fixed and not modelled. */
  datatype Email = Email(subject: string, count: nat, rows: seq<Row>, assignedTo: string)

  /** `${x || fallback}` for an optional string. */
  function OrDefault(v: Option<string>, fallback: string): string {
    if v.Some? && v.value != "" then v.value else fallback
  }

  function RowOf(tc: TestCase): Row {
    Row(tc.id, tc.name, tc.area, tc.severity, tc.priority, OrDefault(tc.errorMessage, "No error message"))
  }

  function Subject(n: nat): string {
    "\U{1F6A8} ALERT: " + NatToString(n) + " High Priority Test Failures"
  }

  /** The email for a non-empty list of cases. */
  function AlertEmail(cases: seq<TestCase>): (r: Email)
    requires |cases| > 0
    ensures r.count == |cases| && |r.rows| == |cases|
    ensures forall i :: 0 <= i < |cases| ==> r.rows[i].id == cases[i].id
    ensures forall i :: 0 <= i < |cases| ==>
      (r.rows[i].error == "No error message" <==> cases[i].errorMessage.None? || cases[i].errorMessage.value in {"", "No error message"})
    ensures r.assignedTo == (if cases[0].assignedTo.Some? && cases[0].assignedTo.value != "" then cases[0].assignedTo.value else "QA Team")
  {
    Email(Subject(|cases|), |cases|, seq(|cases|, i requires 0 <= i < |cases| => RowOf(cases[i])), OrDefault(cases[0].assignedTo, "QA Team"))
  }

  /** The subject gives back the number of failures it announces. */
  lemma SubjectCount(m: nat, n: nat)
    requires Subject(m) == Subject(n)
    ensures m == n
  {
    var p := "\U{1F6A8} ALERT: ";
    var a := Subject(m);
    var b := Subject(n);
    assert |NatToString(m)| == |NatToString(n)|;
    assert NatToString(m) == a[|p|..|a| - 28];
    assert NatToString(n) == b[|p|..|b| - 28];
    NatToStringInjective(m, n);
  }

  /** What the mail service did. */
  datatype Delivery = Answered(ok: bool) | Threw

  /** `sendHighPriorityFailureNotification`: nothing to send is a success;
      otherwise the service's answer, and false if anything threw. */
  function SendHighPriorityFailureNotification(cases: seq<TestCase>, send: Email -> Delivery): (r: bool)
    ensures |cases| == 0 ==> r
    ensures |cases| > 0 ==> (r <==> send(AlertEmail(cases)) == Answered(true))
  {
    if |cases| == 0 then true
    else
      match send(AlertEmail(cases))
      case Answered(ok) => ok
      case Threw => false
  }

  /** `checkAndNotifyHighPriorityFailures`: sends one email about the
      alerting cases, in order, when there are any. */
  function CheckAndNotify(cases: seq<TestCase>, send: Email -> Delivery): (r: bool)
    ensures |Filter(cases, Alerting)| == 0 ==> r
    ensures |Filter(cases, Alerting)| > 0 ==> (r <==> send(AlertEmail(Filter(cases, Alerting))) == Answered(true))
  {
    var selected := Filter(cases, Alerting);
    if |selected| > 0 then SendHighPriorityFailureNotification(selected, send) else true
  }

  /** The alerted cases are among the high-priority failures and no more
      numerous. */
  lemma AlertedWithinHighPriority(cases: seq<TestCase>)
    ensures |Filter(cases, Alerting)| <= |GetHighPriorityFailures(cases)|
    ensures forall x :: x in Filter(cases, Alerting) ==> x in GetHighPriorityFailures(cases)
  {
    FilterMonotone(cases, Alerting, IsHighPriorityFailure);
  }
}
