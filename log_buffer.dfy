/** Structured log entries of the debug module and the bounded buffer that
    holds them (src/debug.ts, `Debug.log`). */
module LogBuffer {

  /** The JavaScript values a payload carries: numbers, strings, booleans
      and null. */
  datatype Value = Num(x: real) | Str(s: string) | Bool(b: bool) | Null

  /** A log entry is a plain object: a record from property names to values. */
  type Entry = map<string, Value>

  /** The ring buffer keeps at most this many entries. */
  const Capacity: nat := 300

  /** The object literal `{ time, event, ...data }`: the two built-in
      fields first, then every payload field, so that a payload field named
      `time` or `event` overrides the built-in one. */
  function MakeEntry(time: real, event: string, data: map<string, Value>): (e: Entry)
    ensures e.Keys == {"time", "event"} + data.Keys
    ensures forall k :: k in data ==> e[k] == data[k]
    ensures "time" !in data ==> e["time"] == Num(time)
    ensures "event" !in data ==> e["event"] == Str(event)
  {
    map["time" := Num(time), "event" := Str(event)] + data
  }

  /** Without clashing names, the payload is recovered from an entry by
      dropping the two built-in fields. */
  lemma EntryPayloadRecovered(time: real, event: string, data: map<string, Value>)
    requires "time" !in data && "event" !in data
    ensures MakeEntry(time, event, data) - {"time", "event"} == data
  {
    var e := MakeEntry(time, event, data);
    assert (e - {"time", "event"}).Keys == data.Keys;
  }

  /** The reference definition of the buffer's contents: the newest
      `Capacity` elements of everything logged, in order. */
  function Newest(s: seq<Entry>): (r: seq<Entry>)
    ensures |r| <= Capacity
    ensures |r| == if |s| <= Capacity then |s| else Capacity
    ensures r == s[|s| - |r|..]
  {
    if |s| <= Capacity then s else s[|s| - Capacity..]
  }

  /** The buffer after one `push` followed by one `shift` when the length
      exceeds the capacity. */
  function Appended(logs: seq<Entry>, e: Entry): (r: seq<Entry>)
    ensures r != [] && r[|r| - 1] == e
    ensures |logs| < Capacity ==> r == logs + [e]
    ensures |logs| >= Capacity ==> r == logs[1..] + [e]
    ensures |logs| <= Capacity ==> |r| <= Capacity && r == Newest(logs + [e])
  {
    var pushed := logs + [e];
    if |pushed| > Capacity then pushed[1..] else pushed
  }

  /** The buffer after logging the entries `es` one after the other. */
  function AppendAll(logs: seq<Entry>, es: seq<Entry>): seq<Entry>
    decreases |es|
  {
    if es == [] then logs else AppendAll(Appended(logs, es[0]), es[1..])
  }

  /** Keeping the newest entries of the newest entries of `s`, after more
      entries `t` arrive, is keeping the newest entries of `s + t`. */
  lemma NewestAbsorbs(s: seq<Entry>, t: seq<Entry>)
    ensures Newest(Newest(s) + t) == Newest(s + t)
  {
    var n := Newest(s);
    if |s| > Capacity {
      assert n + t == (s + t)[|s| - Capacity..];
    }
  }

  /** Logging any number of entries into a buffer within its capacity
      leaves exactly the newest `Capacity` of the old contents followed by
      the new entries: only the oldest are evicted, and order is kept. */
  lemma {:induction false} AppendAllKeepsNewest(logs: seq<Entry>, es: seq<Entry>)
    requires |logs| <= Capacity
    ensures AppendAll(logs, es) == Newest(logs + es)
    decreases |es|
  {
    if es == [] {
      assert logs + es == logs;
    } else {
      var pushed := logs + [es[0]];
      var next := Appended(logs, es[0]);
      AppendAllKeepsNewest(next, es[1..]);
      NewestAbsorbs(pushed, es[1..]);
      PushThenRest(logs, es);
    }
  }

  lemma PushThenRest(logs: seq<Entry>, es: seq<Entry>)
    requires es != []
    ensures logs + [es[0]] + es[1..] == logs + es
  {
    assert es == [es[0]] + es[1..];
  }
}
