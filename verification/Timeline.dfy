/** The three-way merge of tools/merge-input-timeline.py. */
module Timeline {
  import opened Text
  import opened StableSorting

  datatype Source = Server | Client | Cgtap

  datatype Event = Event(time: real, source: Source, line: string)

  const HEADER := "wall_epoch\t"

  function EventOf(line: string, source: Source, timestamp: string -> Option<real>): Option<Event> {
    if HEADER <= line then None
    else
      match timestamp(line)
      case None => None
      case Some(t) => Some(Event(t, source, line))
  }

  function Events(lines: seq<string>, source: Source, timestamp: string -> Option<real>): seq<Event> {
    if lines == [] then []
    else
      var e := EventOf(lines[0], source, timestamp);
      (if e.Some? then [e.value] else []) + Events(lines[1..], source, timestamp)
  }

  method ReadEvents(lines: seq<string>, source: Source, timestamp: string -> Option<real>) returns (events: seq<Event>)
    ensures events == Events(lines, source, timestamp)
  {
    hide Events;
    events := [];
    assert lines[0..] == lines;
    for i := 0 to |lines|
      invariant events + Events(lines[i..], source, timestamp) == Events(lines, source, timestamp)
    {
      NextEvent(lines, i, source, timestamp);
      if HEADER <= lines[i] {
        continue;
      }
      var value := timestamp(lines[i]);
      if value.Some? {
        events := events + [Event(value.value, source, lines[i])];
      }
    }
    assert lines[|lines|..] == [];
    NoMoreEvents(source, timestamp);
  }

  lemma NextEvent(lines: seq<string>, i: nat, source: Source, timestamp: string -> Option<real>)
    requires i < |lines|
    ensures var e := EventOf(lines[i], source, timestamp);
            Events(lines[i..], source, timestamp) ==
            (if e.Some? then [e.value] else []) + Events(lines[i + 1..], source, timestamp)
  {
    assert lines[i..][1..] == lines[i + 1..];
  }

  lemma NoMoreEvents(source: Source, timestamp: string -> Option<real>)
    ensures Events([], source, timestamp) == []
  {
  }

  predicate NoLater(a: Event, b: Event) {
    a.time <= b.time
  }

  /** The three files, as lines, and the time each line carries. */
  datatype Logs = Logs(server: seq<string>, client: seq<string>, cgtap: seq<string>, timestamp: string -> Option<real>)

  function Of(logs: Logs, source: Source): seq<Event> {
    Events(match source case Server => logs.server case Client => logs.client case Cgtap => logs.cgtap,
           source, logs.timestamp)
  }

  function Merged(logs: Logs): seq<Event> {
    StableSort(Of(logs, Server) + Of(logs, Client) + Of(logs, Cgtap), NoLater)
  }

  method MergeTimelines(logs: Logs) returns (events: seq<Event>)
    ensures events == Merged(logs)
  {
    var server := ReadEvents(logs.server, Server, logs.timestamp);
    var client := ReadEvents(logs.client, Client, logs.timestamp);
    var cgtap := ReadEvents(logs.cgtap, Cgtap, logs.timestamp);
    events := StableSort(server + client + cgtap, NoLater);
  }

  function FromSource(source: Source): Event -> bool {
    (e: Event) => e.source == source
  }

  function AtTime(time: real): Event -> bool {
    (e: Event) => e.time == time
  }

  lemma {:induction false} EventsOfSource(lines: seq<string>, source: Source, timestamp: string -> Option<real>,
      other: Source)
    ensures Filter(Events(lines, source, timestamp), FromSource(other)) ==
            if other == source then Events(lines, source, timestamp) else []
    decreases |lines|
  {
    if lines != [] {
      EventsOfSource(lines[1..], source, timestamp, other);
      var e := EventOf(lines[0], source, timestamp);
      FilterConcat(if e.Some? then [e.value] else [], Events(lines[1..], source, timestamp), FromSource(other));
    }
  }

  lemma TimesAreOrdered()
    ensures TotalPreorder(NoLater)
  {
  }

  /** Lines are read in order, one by one: a line is an event of its time and its file unless it is the
      header or carries no time. */
  lemma {:induction false} LinesAreEvents(a: seq<string>, b: seq<string>, line: string, source: Source,
      timestamp: string -> Option<real>)
    ensures Events(a + b, source, timestamp) == Events(a, source, timestamp) + Events(b, source, timestamp)
    ensures Events([line], source, timestamp) ==
            if "wall_epoch\t" <= line || timestamp(line) == None then []
            else [Event(timestamp(line).value, source, line)]
    decreases |a|
  {
    hide Events;
    hide EventOf;
    NoMoreEvents(source, timestamp);
    OneLine(line, source, timestamp);
    if a == [] {
      assert a + b == b;
    } else {
      LinesAreEvents(a[1..], b, line, source, timestamp);
      assert (a + b)[1..] == a[1..] + b;
      EventsCons(a, source, timestamp);
      EventsCons(a + b, source, timestamp);
    }
  }

  lemma EventsCons(lines: seq<string>, source: Source, timestamp: string -> Option<real>)
    requires lines != []
    ensures var e := EventOf(lines[0], source, timestamp);
            Events(lines, source, timestamp) ==
            (if e.Some? then [e.value] else []) + Events(lines[1..], source, timestamp)
  {
  }

  lemma OneLine(line: string, source: Source, timestamp: string -> Option<real>)
    ensures Events([line], source, timestamp) ==
            if "wall_epoch\t" <= line || timestamp(line) == None then []
            else [Event(timestamp(line).value, source, line)]
  {
    assert [line][1..] == [];
  }

  /** The timeline is a permutation of all events, in order of time. */
  lemma MergeSorts(logs: Logs)
    ensures forall i, j :: 0 <= i < j < |Merged(logs)| ==> Merged(logs)[i].time <= Merged(logs)[j].time
    ensures multiset(Merged(logs)) ==
            multiset(Events(logs.server, Server, logs.timestamp)) +
            multiset(Events(logs.client, Client, logs.timestamp)) +
            multiset(Events(logs.cgtap, Cgtap, logs.timestamp))
  {
    TimesAreOrdered();
    SortSorts(Of(logs, Server) + Of(logs, Client) + Of(logs, Cgtap), NoLater);
  }

  /** Restricted to one source, the timeline is that file's events sorted stably: the file's own order,
      whenever its times never decrease. */
  lemma MergeProjects(logs: Logs, source: Source)
    ensures Filter(Merged(logs), FromSource(source)) == StableSort(Of(logs, source), NoLater)
    ensures Sorted(Of(logs, source), NoLater) ==> Filter(Merged(logs), FromSource(source)) == Of(logs, source)
  {
    hide Filter;
    hide StableSort;
    hide Events;
    TimesAreOrdered();
    var server, client, cgtap := Of(logs, Server), Of(logs, Client), Of(logs, Cgtap);
    SortThenFilter(server + client + cgtap, NoLater, FromSource(source));
    FilterConcat(server + client, cgtap, FromSource(source));
    FilterConcat(server, client, FromSource(source));
    EventsOfSource(logs.server, Server, logs.timestamp, source);
    EventsOfSource(logs.client, Client, logs.timestamp, source);
    EventsOfSource(logs.cgtap, Cgtap, logs.timestamp, source);
    assert Filter(server + client + cgtap, FromSource(source)) == Of(logs, source);
    if Sorted(Of(logs, source), NoLater) {
      SortedIsFixed(Of(logs, source), NoLater);
    }
  }

  /** At one time, the server's events come first, then the client's, then cgtap's, each in file order. */
  lemma TiesKeepSourceOrder(logs: Logs, time: real)
    ensures Filter(Merged(logs), AtTime(time)) ==
            Filter(Of(logs, Server), AtTime(time)) + Filter(Of(logs, Client), AtTime(time)) +
            Filter(Of(logs, Cgtap), AtTime(time))
  {
    hide Of;
    TimesAreOrdered();
    var server, client, cgtap := Of(logs, Server), Of(logs, Client), Of(logs, Cgtap);
    var all := server + client + cgtap;
    SortThenFilter(all, NoLater, AtTime(time));
    FilterConcat(server + client, cgtap, AtTime(time));
    FilterConcat(server, client, AtTime(time));
    FilterLaws(all, AtTime(time));
    var same := Filter(all, AtTime(time));
    assert forall i :: 0 <= i < |same| ==> same[i] in same;
    SortedIsFixed(same, NoLater);
  }
}
