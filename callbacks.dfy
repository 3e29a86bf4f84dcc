/**
 * The progress callbacks of linkedin_scraper/callbacks.py: the console
 * callback's filter and progress bar, the JSON log callback's list of
 * entries, and the multi-callback that forwards every event to the
 * callbacks it wraps, in order.
 *
 * A scraper reports four kinds of event; each `on_*` method of a callback
 * is modelled as its reaction to the matching `Event`. What is printed goes
 * to a `Terminal`, a list of lines. The clock is an input (`now`).
 */
module Callbacks {
  import opened Wrappers
  import opened Text

  /** An event and its arguments. `result` stands for the scraped object `on_complete` receives. */
  datatype Event =
    | Started(scraperType: string, url: string)
    | Progressed(message: string, percent: int)
    | Completed(scraperType: string, result: string)
    | Errored(error: string, errorType: string)

  // ---------------------------------------------------------------------------
  // ConsoleCallback (lines 51-81)
  // ---------------------------------------------------------------------------

  const BarLength := 30
  const FullCell := '█'
  const EmptyCell := '░'

  /**
   * `int(bar_length * percent / 100)`: the quotient of the true division,
   * truncated toward zero (the division is exact over the integers here,
   * where the source divides floats).
   */
  function Filled(percent: int): (r: int)
    ensures percent >= 0 ==> r >= 0 && r * 100 <= BarLength * percent < (r + 1) * 100
    ensures percent < 0 ==> r <= 0 && -r * 100 <= BarLength * -percent < (-r + 1) * 100
  {
    if percent >= 0 then BarLength * percent / 100 else -(BarLength * -percent / 100)
  }

  /** `'█' * filled + '░' * (bar_length - filled)`. */
  function Bar(percent: int): (r: string)
    ensures forall i :: 0 <= i < |r| ==> r[i] == (if i < Filled(percent) then FullCell else EmptyCell)
    ensures 0 <= Filled(percent) <= BarLength ==> |r| == BarLength
  {
    Repeat(FullCell, Filled(percent)) + Repeat(EmptyCell, BarLength - Filled(percent))
  }

  /** A percentage in range fills between none and all of the bar's cells. */
  lemma FilledInRange(percent: int)
    requires 0 <= percent <= 100
    ensures 0 <= Filled(percent) <= BarLength
    ensures |Bar(percent)| == BarLength
  {
    assert BarLength * percent <= BarLength * 100;
  }

  /** More progress never fills fewer cells. */
  lemma FilledMonotone(p: int, q: int)
    requires 0 <= p <= q
    ensures Filled(p) <= Filled(q)
  {
    assert BarLength * p <= BarLength * q;
  }

  /** At each milestone 20·k the bar has exactly 6·k full cells. */
  lemma FilledAtMilestone(k: nat)
    ensures Filled(20 * k) == 6 * k
  {
    assert BarLength * (20 * k) == 600 * k;
  }

  /** Python `str(n)` for an `int`. */
  function IntText(n: int): (r: string)
    ensures n >= 0 ==> r == Decimal(n)
    ensures n < 0 ==> r == "-" + Decimal(-n)
  {
    if n < 0 then "-" + Decimal(-n) else Decimal(n)
  }

  /** Does `on_progress` print? Every percentage when verbose; otherwise multiples of 20 (Python `%` floors, as Dafny's does for a positive divisor). */
  predicate PrintsProgress(verbose: bool, percent: int) {
    verbose || percent % 20 == 0
  }

  /** The line the console callback prints for an event, if any. */
  function ConsoleLine(verbose: bool, e: Event): (r: Option<string>)
    ensures e.Progressed? ==> (r.Some? <==> PrintsProgress(verbose, e.percent))
    ensures !e.Progressed? ==> r.Some?
    ensures r.Some? && e.Progressed? ==>
      StartsWith(r.value, "[" + Bar(e.percent) + "] ") && EndsWith(r.value, "% - " + e.message)
  {
    match e
    case Started(scraperType, url) => Some("\U{1F680} Starting " + scraperType + " scraping: " + url)
    case Progressed(message, percent) =>
      if PrintsProgress(verbose, percent) then
        var head := "[" + Bar(percent) + "] ";
        var tail := "% - " + message;
        var line := head + IntText(percent) + tail;
        assert line[..|head|] == head;
        assert line[|line| - |tail|..] == tail;
        Some(line)
      else None
    case Completed(scraperType, _) => Some("✅ Completed " + scraperType + " scraping successfully!")
    case Errored(error, _) => Some("❌ Error: " + error)
  }

  /** A quiet console prints progress exactly at the multiples of 20. */
  lemma QuietPrintsMilestones(message: string, percent: int)
    ensures ConsoleLine(false, Progressed(message, percent)).Some? <==> exists k: int :: percent == 20 * k
  {
    if percent % 20 == 0 {
      assert percent == 20 * (percent / 20);
    }
    if exists k: int :: percent == 20 * k {
      var k: int :| percent == 20 * k;
      assert (20 * k) % 20 == 0;
    }
  }

  // ---------------------------------------------------------------------------
  // JSONLogCallback (lines 89-129)
  // ---------------------------------------------------------------------------

  /** A JSON value of a log entry: a string or an integer. */
  datatype Field = TextField(text: string) | NumberField(number: int)

  /** A log entry: the keys of the dict in insertion order, with their values. */
  type Entry = seq<(string, Field)>

  /** The `event_type` each `on_*` method logs. */
  function EventType(e: Event): string {
    match e
    case Started(_, _) => "start"
    case Progressed(_, _) => "progress"
    case Completed(_, _) => "complete"
    case Errored(_, _) => "error"
  }

  /** The `data` dict each `on_*` method passes to `_log`. */
  function EventData(e: Event): Entry {
    match e
    case Started(scraperType, url) => [("scraper_type", TextField(scraperType)), ("url", TextField(url))]
    case Progressed(message, percent) => [("message", TextField(message)), ("percent", NumberField(percent))]
    case Completed(scraperType, _) => [("scraper_type", TextField(scraperType))]
    case Errored(error, errorType) => [("error", TextField(error)), ("error_type", TextField(errorType))]
  }

  /** The entry `_log` builds: the timestamp and the event type, then the data. */
  function EntryOf(now: string, e: Event): (r: Entry)
    ensures |r| >= 3 && r[0] == ("timestamp", TextField(now)) && r[1] == ("event_type", TextField(EventType(e)))
  {
    [("timestamp", TextField(now)), ("event_type", TextField(EventType(e)))] + EventData(e)
  }

  /** Reads an event back from a log entry; a completion comes back with an empty result. */
  function ReadEvent(entry: Entry): Option<Event> {
    if |entry| < 2 || entry[0].0 != "timestamp" || entry[1].0 != "event_type" || !entry[1].1.TextField? then None
    else
      var kind := entry[1].1.text;
      var data := entry[2..];
      if kind == "start" && |data| == 2 && data[0].0 == "scraper_type" && data[0].1.TextField?
         && data[1].0 == "url" && data[1].1.TextField? then
        Some(Started(data[0].1.text, data[1].1.text))
      else if kind == "progress" && |data| == 2 && data[0].0 == "message" && data[0].1.TextField?
         && data[1].0 == "percent" && data[1].1.NumberField? then
        Some(Progressed(data[0].1.text, data[1].1.number))
      else if kind == "complete" && |data| == 1 && data[0].0 == "scraper_type" && data[0].1.TextField? then
        Some(Completed(data[0].1.text, ""))
      else if kind == "error" && |data| == 2 && data[0].0 == "error" && data[0].1.TextField?
         && data[1].0 == "error_type" && data[1].1.TextField? then
        Some(Errored(data[0].1.text, data[1].1.text))
      else None
  }

  /** The event with what the log does not keep forgotten: the result of a completion. */
  function Logged(e: Event): Event {
    if e.Completed? then e.(result := "") else e
  }

  /**
   * The log keeps everything about an event but the result of a completion:
   * reading an entry back gives the event, and two completions of the same
   * scraper type give the same entry whatever their results.
   */
  lemma EntryRoundTrip(now: string, e: Event)
    ensures ReadEvent(EntryOf(now, e)) == Some(Logged(e))
    ensures e.Completed? ==> EntryOf(now, e) == EntryOf(now, Completed(e.scraperType, "anything else"))
  {
    var entry := EntryOf(now, e);
    assert entry[2..] == EventData(e);
  }

  class JsonLogCallback {
    const logFile: string
    var logs: seq<Entry>

    /** Lines 92-100. */
    constructor(logFile: string)
      ensures this.logFile == logFile && logs == []
    {
      this.logFile := logFile;
      logs := [];
    }

    /** `_log` (lines 102-113): append the entry; the line written to the file is not modelled. */
    method Log(now: string, eventType: string, data: Entry)
      modifies this`logs
      ensures logs == old(logs) + [[("timestamp", TextField(now)), ("event_type", TextField(eventType))] + data]
    {
      var entry := [("timestamp", TextField(now)), ("event_type", TextField(eventType))] + data;
      logs := logs + [entry];
    }

    /** `on_start`, `on_progress`, `on_complete` and `on_error` (lines 115-129): one entry per event. */
    method Record(now: string, e: Event)
      modifies this`logs
      ensures logs == old(logs) + [EntryOf(now, e)]
    {
      match e {
        case Started(scraperType, url) =>
          Log(now, "start", [("scraper_type", TextField(scraperType)), ("url", TextField(url))]);
        case Progressed(message, percent) =>
          Log(now, "progress", [("message", TextField(message)), ("percent", NumberField(percent))]);
        case Completed(scraperType, _) =>
          Log(now, "complete", [("scraper_type", TextField(scraperType))]);
        case Errored(error, errorType) =>
          Log(now, "error", [("error", TextField(error)), ("error_type", TextField(errorType))]);
      }
    }
  }

  // ---------------------------------------------------------------------------
  // MultiCallback (lines 132-162)
  // ---------------------------------------------------------------------------

  /** Where printed lines go. */
  class Terminal {
    var lines: seq<string>

    constructor()
      ensures lines == []
    {
      lines := [];
    }
  }

  /**
   * A callback a multi-callback can wrap: the base class and `SilentCallback`
   * ignore every event; a console prints; a JSON log records.
   */
  datatype Callback =
    | Base
    | Silent
    | Console(verbose: bool)
    | JsonLog(sink: JsonLogCallback)

  /** What a console prints for an event, as a list of zero or one line. */
  function Prints(c: Callback, e: Event): seq<string> {
    if c.Console? && ConsoleLine(c.verbose, e).Some? then [ConsoleLine(c.verbose, e).value] else []
  }

  /** The terminal's lines after each callback of `cs`, in order, has printed what it prints for `e`. */
  function Shown(lines: seq<string>, cs: seq<Callback>, e: Event): (r: seq<string>)
    ensures lines <= r
  {
    if |cs| == 0 then lines
    else Shown(lines, cs[..|cs| - 1], e) + Prints(cs[|cs| - 1], e)
  }

  /** How many times a JSON log callback occurs in the list. */
  function Occurrences(cs: seq<Callback>, sink: JsonLogCallback): (n: nat)
    ensures n > 0 <==> JsonLog(sink) in cs
  {
    if |cs| == 0 then 0
    else
      var n := Occurrences(cs[..|cs| - 1], sink);
      assert cs == cs[..|cs| - 1] + [cs[|cs| - 1]];
      n + (if cs[|cs| - 1] == JsonLog(sink) then 1 else 0)
  }

  /** The JSON log callbacks of the list. */
  function Sinks(cs: seq<Callback>): set<JsonLogCallback> {
    set c | c in cs && c.JsonLog? :: c.sink
  }

  /** `log` with `n` more copies of `entry`. */
  function Appended(log: seq<Entry>, entry: Entry, n: nat): (r: seq<Entry>)
    ensures |r| == |log| + n && r[..|log|] == log
    ensures forall i :: |log| <= i < |r| ==> r[i] == entry
  {
    if n == 0 then log else Appended(log, entry, n - 1) + [entry]
  }

  /** Base `ProgressCallback` and `SilentCallback` (lines 8-48, 84-86): they print nothing and log nothing. */
  lemma {:induction false} IgnoringCallbacksDoNothing(lines: seq<string>, cs: seq<Callback>, e: Event)
    requires forall i :: 0 <= i < |cs| ==> cs[i] == Base || cs[i] == Silent
    ensures Shown(lines, cs, e) == lines && Sinks(cs) == {}
  {
    if |cs| > 0 {
      IgnoringCallbacksDoNothing(lines, cs[..|cs| - 1], e);
    }
  }

  /** Printing through `a + b` is printing through `a`, then through `b`: registration order is kept. */
  lemma {:induction false} ShownConcat(lines: seq<string>, a: seq<Callback>, b: seq<Callback>, e: Event)
    ensures Shown(lines, a + b, e) == Shown(Shown(lines, a, e), b, e)
    decreases |b|
  {
    if |b| == 0 {
      assert a + b == a;
    } else {
      ShownConcat(lines, a, b[..|b| - 1], e);
      assert (a + b)[..|a + b| - 1] == a + b[..|b| - 1];
    }
  }

  /** One more callback prints after the ones before it. */
  lemma ShownStep(lines: seq<string>, cs: seq<Callback>, i: nat, e: Event)
    requires i < |cs|
    ensures Shown(lines, cs[..i + 1], e) == Shown(lines, cs[..i], e) + Prints(cs[i], e)
  {
    assert cs[..i + 1][..i] == cs[..i];
  }

  /** One more callback adds one occurrence when it is the sink. */
  lemma OccurrencesStep(cs: seq<Callback>, i: nat, sink: JsonLogCallback)
    requires i < |cs|
    ensures Occurrences(cs[..i + 1], sink) == Occurrences(cs[..i], sink) + (if cs[i] == JsonLog(sink) then 1 else 0)
  {
    assert cs[..i + 1][..i] == cs[..i];
  }

  /** One callback's handling of an event: a console prints its line, a JSON log records the entry. */
  method Dispatch(c: Callback, now: string, e: Event, terminal: Terminal)
    modifies if c.JsonLog? then {c.sink} else {}, terminal`lines
    ensures terminal.lines == old(terminal.lines) + Prints(c, e)
    ensures c.JsonLog? ==> c.sink.logs == old(c.sink.logs) + [EntryOf(now, e)]
  {
    match c {
      case Base =>
      case Silent =>
      case Console(verbose) =>
        var line := ConsoleLine(verbose, e);
        if line.Some? {
          terminal.lines := terminal.lines + [line.value];
        }
      case JsonLog(sink) =>
        sink.Record(now, e);
    }
  }

  class MultiCallback {
    const callbacks: seq<Callback>

    /** Lines 135-142. */
    constructor(callbacks: seq<Callback>)
      ensures this.callbacks == callbacks
    {
      this.callbacks := callbacks;
    }

    /**
     * `on_start`, `on_progress`, `on_complete` and `on_error` (lines 144-162):
     * each wrapped callback reacts in turn. A console prints its line; a
     * JSON log appends one entry each time it occurs in the list.
     */
    method Notify(now: string, e: Event, terminal: Terminal)
      modifies Sinks(callbacks), terminal`lines
      ensures terminal.lines == Shown(old(terminal.lines), callbacks, e)
      ensures forall s :: s in Sinks(callbacks) ==>
        s.logs == Appended(old(s.logs), EntryOf(now, e), Occurrences(callbacks, s))
    {
      var i := 0;
      while i < |callbacks|
        invariant 0 <= i <= |callbacks|
        invariant terminal.lines == Shown(old(terminal.lines), callbacks[..i], e)
        invariant forall s :: s in Sinks(callbacks) ==>
          s.logs == Appended(old(s.logs), EntryOf(now, e), Occurrences(callbacks[..i], s))
      {
        ShownStep(old(terminal.lines), callbacks, i, e);
        assert callbacks[i] in callbacks;
        label Pre:
        Dispatch(callbacks[i], now, e, terminal);
        forall s | s in Sinks(callbacks)
          ensures s.logs == Appended(old(s.logs), EntryOf(now, e), Occurrences(callbacks[..i + 1], s))
        {
          OccurrencesStep(callbacks, i, s);
          assert old@Pre(s.logs) == Appended(old(s.logs), EntryOf(now, e), Occurrences(callbacks[..i], s));
          if callbacks[i] == JsonLog(s) {
            assert s.logs == old@Pre(s.logs) + [EntryOf(now, e)];
          } else {
            assert s.logs == old@Pre(s.logs);
          }
        }
        i := i + 1;
      }
      assert callbacks[..i] == callbacks;
    }
  }
}
