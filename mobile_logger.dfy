/** lib/debug/mobile-logger.ts: the on-screen debug log. It keeps the most
    recent 100 entries, tells every listener about each change with a copy
    of the log, and exports the log as text. The clock is a parameter of
    `AddLog` (the entry's time as its ISO string), an entry's `data` is its
    JSON text, and a listener is an identifier whose calls are recorded in
    `delivered`, in the order they are made. */
module MobileLogging {
  import opened Wrappers
  import opened Text
  import opened Collections

  datatype Level = Log | Warn | Error

  datatype LogEntry = LogEntry(time: string, level: Level, message: string, data: Option<string>)

  /** One call of a listener with the log it was given. */
  datatype Delivery = Delivery(listener: nat, logs: seq<LogEntry>)

  const MaxLogs := 100

  /** The newest `MaxLogs` entries of `xs`. */
  function Recent(xs: seq<LogEntry>): (r: seq<LogEntry>)
    ensures |r| == if |xs| > MaxLogs then MaxLogs else |xs|
    ensures r == xs[|xs| - |r|..]
  {
    if |xs| > MaxLogs then xs[|xs| - MaxLogs..] else xs
  }

  /** Pushing onto the kept entries and shifting the oldest keeps exactly
      the newest entries of everything added, so the log is a FIFO. */
  lemma RecentSnoc(xs: seq<LogEntry>, e: LogEntry)
    ensures Recent(Recent(xs) + [e]) == Recent(xs + [e])
  {
    var r := Recent(xs);
    if |xs| >= MaxLogs {
      assert r + [e] == (xs + [e])[|xs| - MaxLogs..];
      assert (r + [e])[1..] == (xs + [e])[|xs| + 1 - MaxLogs..];
    }
  }

  /** Below the bound an entry is appended; at the bound the oldest entry,
      and only it, is dropped. */
  lemma PushShift(logs: seq<LogEntry>, e: LogEntry)
    requires |logs| <= MaxLogs
    ensures |logs| < MaxLogs ==> Recent(logs + [e]) == logs + [e]
    ensures |logs| == MaxLogs ==> Recent(logs + [e]) == logs[1..] + [e]
  {
    if |logs| == MaxLogs {
      assert (logs + [e])[1..] == logs[1..] + [e];
    }
  }

  /** The listener calls one notification makes, in the set's order. */
  function Deliveries(listeners: seq<nat>, logs: seq<LogEntry>): (ds: seq<Delivery>)
    ensures |ds| == |listeners|
    ensures forall i :: 0 <= i < |ds| ==> ds[i] == Delivery(listeners[i], logs)
  {
    Map(listeners, (l: nat) => Delivery(l, logs))
  }

  // -------------------------------------------------------------- export

  function LevelName(level: Level): string {
    match level
    case Log => "LOG"
    case Warn => "WARN"
    case Error => "ERROR"
  }

  /** One block of the export: `[time] LEVEL: message`, then the data on
      the next line when there is any. */
  function Block(e: LogEntry): string {
    "[" + e.time + "] " + LevelName(e.level) + ": " + e.message + (if e.data.Some? then "\n" + e.data.value else "")
  }

  const BlankLine := "\n\n"

  function Export(logs: seq<LogEntry>): string {
    Join(Map(logs, Block), BlankLine)
  }

  /** The export is each entry's block, in order, one blank line apart. */
  lemma ExportSnoc(logs: seq<LogEntry>, e: LogEntry)
    ensures Export(logs + [e]) == if logs == [] then Block(e) else Export(logs) + BlankLine + Block(e)
  {
    MapConcat(logs, [e], Block);
    assert Map([e], Block) == [Block(e)];
    JoinSnoc(Map(logs, Block), Block(e), BlankLine);
  }

  /** An empty log exports as the empty string. */
  lemma ExportEmpty()
    ensures Export([]) == ""
  {
  }

  /** A block begins with the bracketed time and names the level. */
  lemma BlockStart(e: LogEntry)
    ensures StartsWith(Block(e), "[" + e.time + "] " + LevelName(e.level) + ": ")
  {
    var p := "[" + e.time + "] " + LevelName(e.level) + ": ";
    assert Block(e) == p + (e.message + (if e.data.Some? then "\n" + e.data.value else ""));
    assert Block(e)[..|p|] == p;
  }

  // -------------------------------------------------------------- logger

  class MobileLogger {
    var logs: seq<LogEntry>
    /** Every entry added since the last clear, oldest first. */
    ghost var history: seq<LogEntry>
    var listeners: seq<nat>
    var delivered: seq<Delivery>

    ghost predicate Valid()
      reads this
    {
      logs == Recent(history) && Distinct(listeners)
    }

    constructor()
      ensures Valid()
      ensures logs == [] && history == [] && listeners == [] && delivered == []
    {
      logs := [];
      history := [];
      listeners := [];
      delivered := [];
    }

    /** `addLog`: push, shift when over `maxLogs`, then notify. */
    method AddLog(level: Level, message: string, data: Option<string>, time: string)
      requires Valid()
      modifies this
      ensures Valid()
      ensures history == old(history) + [LogEntry(time, level, message, data)]
      ensures logs == Recent(old(logs) + [LogEntry(time, level, message, data)])
      ensures |logs| <= MaxLogs
      ensures listeners == old(listeners)
      ensures delivered == old(delivered) + Deliveries(listeners, logs)
    {
      var entry := LogEntry(time, level, message, data);
      RecentSnoc(history, entry);
      logs := logs + [entry];
      if |logs| > MaxLogs {
        logs := logs[1..];
      }
      history := history + [entry];
      Notify(logs);
    }

    /** `listeners.forEach(listener => listener(snapshot))`. */
    method Notify(snapshot: seq<LogEntry>)
      modifies this
      ensures delivered == old(delivered) + Deliveries(listeners, snapshot)
      ensures logs == old(logs) && history == old(history) && listeners == old(listeners)
    {
      ghost var d0 := delivered;
      for i := 0 to |listeners|
        invariant logs == old(logs) && history == old(history) && listeners == old(listeners)
        invariant |delivered| == |d0| + i
        invariant delivered[..|d0|] == d0
        invariant forall j :: 0 <= j < i ==> delivered[|d0| + j] == Delivery(listeners[j], snapshot)
      {
        delivered := delivered + [Delivery(listeners[i], snapshot)];
      }
      assert delivered == d0 + Deliveries(listeners, snapshot);
    }

    /** `subscribe`: add the listener, then hand it the current log at once;
        `Unsubscribe` is the function it returns. */
    method Subscribe(listener: nat)
      requires Valid()
      modifies this
      ensures Valid()
      ensures listeners == Adjoin(old(listeners), listener)
      ensures delivered == old(delivered) + [Delivery(listener, logs)]
      ensures logs == old(logs) && history == old(history)
    {
      listeners := Adjoin(listeners, listener);
      delivered := delivered + [Delivery(listener, logs)];
    }

    method Unsubscribe(listener: nat)
      requires Valid()
      modifies this
      ensures Valid()
      ensures listeners == Without(old(listeners), listener)
      ensures logs == old(logs) && history == old(history) && delivered == old(delivered)
    {
      listeners := Without(listeners, listener);
    }

    /** `getLogs`: a copy of the log. */
    method GetLogs() returns (r: seq<LogEntry>)
      ensures r == logs
    {
      r := logs;
    }

    /** `clear`: empty the log and hand every listener the empty list. */
    method Clear()
      requires Valid()
      modifies this
      ensures Valid()
      ensures logs == [] && history == []
      ensures listeners == old(listeners)
      ensures delivered == old(delivered) + Deliveries(listeners, [])
    {
      logs := [];
      history := [];
      Notify([]);
    }

    function ExportLogs(): string
      reads this
    {
      Export(logs)
    }
  }
}
