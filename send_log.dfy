/**
 * The file-backed send log: `logDocuSignSend` puts each new entry at the front
 * of the stored array and keeps at most 1000 entries; `/api/docusign-logs`
 * filters the stored array by an optional date range and returns a prefix.
 * Reading and writing the file, and JSON, are left out: the file's `logs`
 * array is the object's field.
 */
module SendLog {
  import opened Wrappers
  import Js
  import Seqs

  const MaxEntries := 1000
  const DefaultLimit := 50

  datatype LogEntry = LogEntry(
    timestamp: string,
    envelopeId: Js.Value,
    status: Js.Value,
    recipientEmail: Js.Value,
    recipientName: Js.Value,
    signatureCount: nat,
    pdfSizeBytes: nat,
    userAgent: string,
    ipAddress: string)

  /** The stored log after one more send: newest first, at most 1000 entries. */
  function AfterAppend(logs: seq<LogEntry>, entry: LogEntry): (r: seq<LogEntry>)
    ensures |r| == Min(|logs| + 1, MaxEntries)
    ensures r[0] == entry
    ensures r[1..] == logs[..|r| - 1]
  {
    var grown := [entry] + logs;
    if |grown| > MaxEntries then grown[..MaxEntries] else grown
  }

  /** The stored log after sending `entries` in order. */
  function AppendAll(logs: seq<LogEntry>, entries: seq<LogEntry>): seq<LogEntry>
    decreases |entries|
  {
    if entries == [] then logs
    else AppendAll(AfterAppend(logs, entries[0]), entries[1..])
  }

  function Reversed<T>(s: seq<T>): (r: seq<T>)
    ensures |r| == |s|
    ensures forall i :: 0 <= i < |s| ==> r[i] == s[|s| - 1 - i]
  {
    if s == [] then [] else Reversed(s[1..]) + [s[0]]
  }

  /** The first 1000 entries of a log (all of them when there are fewer). */
  function Newest(logs: seq<LogEntry>): seq<LogEntry>
  {
    if |logs| > MaxEntries then logs[..MaxEntries] else logs
  }

  /**
   * Whatever was stored before, after a run of sends the log holds the most
   * recent 1000 entries of "old log, then the sends", most recent first.
   */
  lemma {:induction false} AppendAllKeepsMostRecent(logs: seq<LogEntry>, entries: seq<LogEntry>)
    requires entries != []
    ensures AppendAll(logs, entries) == Newest(Reversed(entries) + logs)
    decreases |entries|
  {
    var e := entries[0];
    if |entries| == 1 {
      assert Reversed(entries) == [e];
    } else {
      var rest := entries[1..];
      AppendAllKeepsMostRecent(AfterAppend(logs, e), rest);
      assert Reversed(entries) == Reversed(rest) + [e];
      var r := Reversed(rest);
      var whole := r + ([e] + logs);
      assert Reversed(entries) + logs == whole;
      assert r + AfterAppend(logs, e) == whole[..|r| + |AfterAppend(logs, e)|];
      if |whole| > MaxEntries {
        assert Newest(r + AfterAppend(logs, e)) == whole[..MaxEntries];
      }
    }
  }

  /** The stored log holds at most 1000 entries after any send. */
  lemma AppendAllBounded(logs: seq<LogEntry>, entries: seq<LogEntry>)
    requires entries != []
    ensures |AppendAll(logs, entries)| <= MaxEntries
  {
    AppendAllKeepsMostRecent(logs, entries);
  }

  /** The JSON log file: its `logs` array. */
  class JsonLogFile {
    var logs: seq<LogEntry>

    /** `initializeLogFile` on a missing file writes `{ logs: [] }`. */
    constructor Empty()
      ensures logs == []
    {
      logs := [];
    }

    /** An existing file, as read back. */
    constructor Load(stored: seq<LogEntry>)
      ensures logs == stored
    {
      logs := stored;
    }

    /** The JSON branch of `logDocuSignSend`: `unshift`, then truncate to 1000. */
    method Record(entry: LogEntry)
      modifies this
      ensures logs == AfterAppend(old(logs), entry)
      ensures logs[0] == entry && |logs| == Min(|old(logs)| + 1, MaxEntries)
      ensures logs[1..] == old(logs)[..|logs| - 1]
    {
      logs := [entry] + logs;
      if |logs| > MaxEntries {
        logs := logs[..MaxEntries];
      }
    }
  }

  /** A `startDate` or `endDate` query parameter takes effect when it is present and not "". */
  predicate Given(date: Option<string>)
  {
    date.Some? && date.value != ""
  }

  /**
   * `new Date(a) >= new Date(b)`, with date parsing a parameter (None is an
   * invalid date, against which every comparison is false).
   */
  predicate NotBefore(a: string, b: string, parseDate: string -> Option<int>)
  {
    parseDate(a).Some? && parseDate(b).Some? && parseDate(a).value >= parseDate(b).value
  }

  datatype LogPage = LogPage(total: nat, returned: nat, logs: seq<LogEntry>)

  /** What the returned entries are: the date-filtered log, order kept. */
  function InRange(logs: seq<LogEntry>, startDate: Option<string>, endDate: Option<string>,
                   parseDate: string -> Option<int>): seq<LogEntry>
  {
    var afterStart := if Given(startDate)
      then Seqs.Filter(logs, (e: LogEntry) => NotBefore(e.timestamp, startDate.value, parseDate))
      else logs;
    if Given(endDate)
      then Seqs.Filter(afterStart, (e: LogEntry) => NotBefore(endDate.value, e.timestamp, parseDate))
      else afterStart
  }

  /** The JSON branch of `/api/docusign-logs`; `limit` is the parsed query parameter, 50 when absent. */
  function QueryLogs(logs: seq<LogEntry>, startDate: Option<string>, endDate: Option<string>,
                     limit: Option<int>, parseDate: string -> Option<int>): (page: LogPage)
    ensures page.total == |logs|
    ensures page.returned == |page.logs|
    ensures Seqs.IsSubsequence(page.logs, logs)
    ensures forall i :: 0 <= i < |page.logs| ==>
      (Given(startDate) ==> NotBefore(page.logs[i].timestamp, startDate.value, parseDate)) &&
      (Given(endDate) ==> NotBefore(endDate.value, page.logs[i].timestamp, parseDate))
    ensures limit.Some? && limit.value >= 0 ==> page.returned <= limit.value
    ensures limit.None? ==> page.returned <= DefaultLimit
    ensures page.returned <= |InRange(logs, startDate, endDate, parseDate)|
    ensures page.logs == InRange(logs, startDate, endDate, parseDate)[..page.returned]
    ensures page.returned ==
      Seqs.SliceEnd(|InRange(logs, startDate, endDate, parseDate)|, if limit.Some? then limit.value else DefaultLimit)
  {
    var matching := InRange(logs, startDate, endDate, parseDate);
    var shown := Seqs.Take(matching, if limit.Some? then limit.value else DefaultLimit);
    InRangeIsSubsequence(logs, startDate, endDate, parseDate);
    Seqs.PrefixIsSubsequence(matching, |shown|);
    Seqs.SubsequenceTransitive(shown, matching, logs);
    LogPage(|logs|, |shown|, shown)
  }

  lemma InRangeIsSubsequence(logs: seq<LogEntry>, startDate: Option<string>, endDate: Option<string>,
                             parseDate: string -> Option<int>)
    ensures Seqs.IsSubsequence(InRange(logs, startDate, endDate, parseDate), logs)
  {
    var afterStart := if Given(startDate)
      then Seqs.Filter(logs, (e: LogEntry) => NotBefore(e.timestamp, startDate.value, parseDate))
      else logs;
    if Given(startDate) {
      Seqs.FilterIsSubsequence(logs, (e: LogEntry) => NotBefore(e.timestamp, startDate.value, parseDate));
    } else {
      Seqs.SubsequenceOfSelf(logs);
    }
    if Given(endDate) {
      Seqs.FilterIsSubsequence(afterStart, (e: LogEntry) => NotBefore(endDate.value, e.timestamp, parseDate));
      Seqs.SubsequenceTransitive(InRange(logs, startDate, endDate, parseDate), afterStart, logs);
    }
  }

  /**
   * Nothing that matches is dropped except by the limit: with a limit that is
   * not reached, every entry of the log in the date range is returned.
   */
  lemma QueryReturnsAllMatchesUnderLimit(logs: seq<LogEntry>, startDate: Option<string>, endDate: Option<string>,
                                         limit: int, parseDate: string -> Option<int>, k: nat)
    requires k < |logs|
    requires Given(startDate) ==> NotBefore(logs[k].timestamp, startDate.value, parseDate)
    requires Given(endDate) ==> NotBefore(endDate.value, logs[k].timestamp, parseDate)
    requires limit >= |logs|
    ensures logs[k] in QueryLogs(logs, startDate, endDate, Some(limit), parseDate).logs
  {
    var afterStart := if Given(startDate)
      then Seqs.Filter(logs, (e: LogEntry) => NotBefore(e.timestamp, startDate.value, parseDate))
      else logs;
    assert logs[k] in afterStart;
    var m :| 0 <= m < |afterStart| && afterStart[m] == logs[k];
    var matching := InRange(logs, startDate, endDate, parseDate);
    assert logs[k] in matching;
    assert |matching| <= |logs|;
  }

  /** A date range that excludes every entry returns nothing and still reports the full total. */
  lemma EmptyRangeReturnsNothing(logs: seq<LogEntry>, startDate: Option<string>, endDate: Option<string>,
                                 limit: Option<int>, parseDate: string -> Option<int>)
    requires Given(startDate)
    requires forall i :: 0 <= i < |logs| ==> !NotBefore(logs[i].timestamp, startDate.value, parseDate)
    ensures QueryLogs(logs, startDate, endDate, limit, parseDate) == LogPage(|logs|, 0, [])
  {
  }
}
