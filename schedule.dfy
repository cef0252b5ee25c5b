/** The disk-poll timer: a due time and a fixed interval in whole seconds. A poll at or after the
    due time reports and re-arms the timer relative to the time it actually ran. */
module DiskSchedule {

  /** The report is due at time `now`. */
  predicate DiskPollDue(now: int, nextDue: int) {
    now >= nextDue
  }

  /** The due time after a poll at `now`: a poll that reports re-arms the timer one interval
      after the time it ran (not after the old due time), so with a positive interval a second
      poll at the same instant does not report again; any other poll leaves the timer alone. */
  function NextDue(now: int, nextDue: int, rate: int): (r: int)
    ensures DiskPollDue(now, nextDue) ==> r == now + rate
    ensures !DiskPollDue(now, nextDue) ==> r == nextDue
    ensures DiskPollDue(now, nextDue) && rate > 0 ==> !DiskPollDue(now, r)
  {
    if DiskPollDue(now, nextDue) then now + rate else nextDue
  }

  /** The poll times, among `nows` taken in order, at which a disk report is due, starting
      from due time `nextDue`. */
  function ReportTimes(nextDue: int, rate: int, nows: seq<int>): seq<int>
    decreases |nows|
  {
    if nows == [] then []
    else
      (if DiskPollDue(nows[0], nextDue) then [nows[0]] else [])
      + ReportTimes(NextDue(nows[0], nextDue, rate), rate, nows[1..])
  }

  /** The first poll at which a report is due is at or after the due time the schedule starts from. */
  lemma {:induction false} FirstReportNotEarly(nextDue: int, rate: int, nows: seq<int>)
    ensures ReportTimes(nextDue, rate, nows) != [] ==> ReportTimes(nextDue, rate, nows)[0] >= nextDue
    decreases |nows|
  {
    if nows != [] && !DiskPollDue(nows[0], nextDue) {
      FirstReportNotEarly(nextDue, rate, nows[1..]);
      assert ReportTimes(nextDue, rate, nows) == ReportTimes(nextDue, rate, nows[1..]);
    }
  }

  /** No catch-up bursts: however late or irregular the polls are, any two consecutive polls at
      which a report is due are at least one interval apart, because the timer is re-armed from
      the time of the poll. */
  lemma {:induction false} ReportsSpaced(nextDue: int, rate: int, nows: seq<int>)
    ensures forall k :: 0 <= k < |ReportTimes(nextDue, rate, nows)| - 1 ==>
      ReportTimes(nextDue, rate, nows)[k] + rate <= ReportTimes(nextDue, rate, nows)[k + 1]
    decreases |nows|
  {
    if nows != [] {
      var next := NextDue(nows[0], nextDue, rate);
      var rest := ReportTimes(next, rate, nows[1..]);
      ReportsSpaced(next, rate, nows[1..]);
      if DiskPollDue(nows[0], nextDue) {
        FirstReportNotEarly(next, rate, nows[1..]);
        assert ReportTimes(nextDue, rate, nows) == [nows[0]] + rest;
      } else {
        assert ReportTimes(nextDue, rate, nows) == rest;
      }
    }
  }

  /** `dues[k]` is the due time in force at the poll made at `nows[k]`, each poll re-arming the
      timer as `NextDue` says, and the last entry is the due time after the last poll. */
  predicate Rearmed(rate: int, nows: seq<int>, dues: seq<int>) {
    && |dues| == |nows| + 1
    && forall k {:trigger nows[k]} :: 0 <= k < |nows| ==> dues[k + 1] == NextDue(nows[k], dues[k], rate)
  }

  /** The poll times, among `nows`, at which the due time `dues[k]` in force had come. */
  function DueTimes(nows: seq<int>, dues: seq<int>): seq<int>
    requires |dues| >= |nows|
    decreases |nows|
  {
    if nows == [] then []
    else (if DiskPollDue(nows[0], dues[0]) then [nows[0]] else []) + DueTimes(nows[1..], dues[1..])
  }

  /** Along any trace of due times kept by re-arming, the polls at which a report was due are
      exactly the report times of the schedule that starts from the first due time. */
  lemma {:induction false} RearmedDueTimes(rate: int, nows: seq<int>, dues: seq<int>)
    requires Rearmed(rate, nows, dues)
    ensures DueTimes(nows, dues) == ReportTimes(dues[0], rate, nows)
    decreases |nows|
  {
    if nows != [] {
      assert Rearmed(rate, nows[1..], dues[1..]) by {
        forall k | 0 <= k < |nows[1..]|
          ensures dues[1..][k + 1] == NextDue(nows[1..][k], dues[1..][k], rate)
        {
          assert dues[k + 2] == NextDue(nows[k + 1], dues[k + 1], rate);
        }
      }
      RearmedDueTimes(rate, nows[1..], dues[1..]);
      assert dues[1] == NextDue(nows[0], dues[0], rate);
    }
  }

  /** Along any trace of due times kept by re-arming, consecutive polls at which a report was
      due are at least one interval apart. */
  lemma RearmedReportsSpaced(rate: int, nows: seq<int>, dues: seq<int>)
    requires Rearmed(rate, nows, dues)
    ensures forall k :: 0 <= k < |DueTimes(nows, dues)| - 1 ==>
      DueTimes(nows, dues)[k] + rate <= DueTimes(nows, dues)[k + 1]
  {
    RearmedDueTimes(rate, nows, dues);
    ReportsSpaced(dues[0], rate, nows);
  }
}
