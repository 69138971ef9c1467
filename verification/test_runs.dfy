/** The test-run table (`frontend/src/pages/TestRuns.tsx`): the duration
    column, the status chip colour and when "View Results" is enabled.
    Durations are whole seconds. */
module TestRuns {
  import opened Wrappers
  import opened Strs

  datatype RunStatus = Running | Passed | Failed | Errored

  datatype ChipColor = SuccessChip | ErrorChip | WarningChip | InfoChip | DefaultChip

  /** `getStatusColor` over the status text; anything unknown is
      `default`. */
  function StatusColor(status: string): (r: ChipColor)
    ensures r == SuccessChip <==> status == "passed"
    ensures r == ErrorChip <==> status == "failed"
    ensures r == WarningChip <==> status == "error"
    ensures r == InfoChip <==> status == "running"
    ensures r == DefaultChip <==> status !in {"passed", "failed", "error", "running"}
  {
    if status == "passed" then SuccessChip
    else if status == "failed" then ErrorChip
    else if status == "error" then WarningChip
    else if status == "running" then InfoChip
    else DefaultChip
  }

  function StatusName(s: RunStatus): string {
    match s
    case Running => "running"
    case Passed => "passed"
    case Failed => "failed"
    case Errored => "error"
  }

  /** Every status of a run gets its own colour, and none is `default`. */
  lemma StatusColorsDistinct(a: RunStatus, b: RunStatus)
    ensures StatusColor(StatusName(a)) != DefaultChip
    ensures a != b ==> StatusColor(StatusName(a)) != StatusColor(StatusName(b))
  {
  }

  /** "View Results" is disabled exactly while the run is running. */
  predicate ViewResultsEnabled(s: RunStatus) {
    StatusName(s) != "running"
  }

  lemma ViewResultsExactly(s: RunStatus)
    ensures ViewResultsEnabled(s) <==> s != Running
    ensures !ViewResultsEnabled(s) <==> StatusColor(StatusName(s)) == InfoChip
  {
    assert "passed" != "running" && "failed" != "running" && "error" != "running" by {
      assert "passed"[0] != "running"[0] && "failed"[0] != "running"[0] && "error"[0] != "running"[0];
    }
  }

  /** `formatDuration`: `In progress` for a run without a duration, whole
      seconds below a minute, else minutes and remaining seconds. */
  function FormatDuration(seconds: Option<int>): (r: string)
    ensures seconds.None? ==> r == "In progress"
    ensures seconds.Some? && seconds.value < 60 ==> r == IntToString(seconds.value) + "s"
    ensures seconds.Some? && seconds.value >= 60 ==>
      r == NatToString(seconds.value / 60) + "m " + NatToString(seconds.value % 60) + "s"
  {
    match seconds
    case None => "In progress"
    case Some(s) =>
      if s < 60 then IntToString(s) + "s"
      else NatToString(s / 60) + "m " + NatToString(s % 60) + "s"
  }

  predicate AllDigits(s: string) {
    forall i :: 0 <= i < |s| ==> IsDigit(s[i])
  }

  /** Reading a duration back: `<n>s` or `<m>m <n>s`. */
  function ParseDuration(text: string): (r: Option<int>)
  {
    if |text| == 0 || text[|text| - 1] != 's' then None
    else ParseAmount(text[..|text| - 1])
  }

  /** The text before the final `s`: whole seconds, or minutes, `m `
      and seconds. */
  function ParseAmount(body: string): Option<int> {
    var i := IndexOf(body, 'm');
    if i == -1 then
      if |body| > 0 && AllDigits(body) then Some(ParseDigits(body)) else None
    else ParseMinutes(body[..i], body[i + 1..])
  }

  function ParseMinutes(m: string, after: string): Option<int> {
    if |after| > 0 && after[0] == ' ' && AllDigits(m) && AllDigits(after[1..]) then
      Some(60 * ParseDigits(m) + ParseDigits(after[1..]))
    else None
  }

  /** The text shows the whole duration: a non-negative number of
      seconds is read back from it exactly, so `60 m + r == s`. */
  lemma DurationRoundTrip(s: nat)
    ensures ParseDuration(FormatDuration(Some(s))) == Some(s)
  {
    if s < 60 {
      ParseNatToString(s);
      ReadSeconds(NatToString(s));
    } else {
      ParseNatToString(s / 60);
      ParseNatToString(s % 60);
      ReadMinutes(NatToString(s / 60), NatToString(s % 60));
    }
  }

  /** `<n>s` reads back as `n`. */
  lemma ReadSeconds(digits: string)
    requires |digits| > 0 && AllDigits(digits)
    ensures ParseDuration(digits + "s") == Some(ParseDigits(digits))
  {
    var text := digits + "s";
    assert text[..|text| - 1] == digits;
    NoLetter(digits, 'm');
  }

  /** `<m>m <n>s` reads back as `60 m + n`. */
  lemma ReadMinutes(m: string, rest: string)
    requires AllDigits(m) && AllDigits(rest)
    ensures ParseDuration(m + "m " + rest + "s") == Some(60 * ParseDigits(m) + ParseDigits(rest))
  {
    var body := m + ("m" + (" " + rest));
    assert m + "m " + rest + "s" == body + "s";
    assert (body + "s")[..|body|] == body && (body + "s")[|body|] == 's';
    AmountWithMinutes(m, " " + rest);
    MinutesThenSeconds(m, rest);
  }

  /** The `m` after a run of digits is the first one. */
  lemma AmountWithMinutes(m: string, after: string)
    requires AllDigits(m)
    ensures ParseAmount(m + ("m" + after)) == ParseMinutes(m, after)
  {
    var body := m + ("m" + after);
    NoLetter(m, 'm');
    IndexOfAfter(m, "m" + after, 'm');
    assert body[..|m|] == m;
    assert body[|m| + 1..] == after;
  }

  lemma MinutesThenSeconds(m: string, rest: string)
    requires AllDigits(m) && AllDigits(rest)
    ensures ParseMinutes(m, " " + rest) == Some(60 * ParseDigits(m) + ParseDigits(rest))
  {
    assert (" " + rest)[1..] == rest;
  }

  /** A string of digits holds no letter. */
  lemma NoLetter(digits: string, c: char)
    requires AllDigits(digits) && !IsDigit(c)
    ensures c !in digits
  {
  }
}
