/** The cache of CRD existence checks: pkg/util/crd_checker.go. Instants are integers; what the API
    server answers at each instant is given, so that answers can be dated. */
module CrdCache {
  import opened JsonTree

  datatype Entry = Entry(installed: bool, timestamp: int)
  type Entries = map<string, Entry>

  /** What the API server says about a CRD at an instant. */
  type Server = (string, int) -> bool

  /** A call reads the clock for the cache, asks the server if it must, and stamps the answer. */
  datatype Call = Call(start: int, asked: int, done: int, reachable: bool)

  function Cached(entries: Entries, ttl: int, name: string, now: int): Option<bool> {
    if name in entries && now - entries[name].timestamp <= ttl then Some(entries[name].installed) else None
  }

  /** The answer of a call; None is an error. */
  function Answer(server: Server, entries: Entries, ttl: int, name: string, c: Call): Option<bool> {
    if Cached(entries, ttl, name, c.start).Some? then Cached(entries, ttl, name, c.start)
    else if c.reachable then Some(server(name, c.asked))
    else None
  }

  function AfterCheck(server: Server, entries: Entries, ttl: int, name: string, c: Call): Entries {
    if Cached(entries, ttl, name, c.start).None? && c.reachable
    then entries[name := Entry(server(name, c.asked), c.done)]
    else entries
  }

  function AfterInvalidate(entries: Entries, name: string): Entries {
    if name == "" then map[] else entries - {name}
  }

  class CRDChecker {
    const ttl: int
    var entries: Entries

    constructor (ttl: int)
      ensures this.ttl == ttl && entries == map[]
    {
      this.ttl := ttl;
      entries := map[];
    }

    method IsCRDInstalled(name: string, server: Server, c: Call) returns (answer: Option<bool>)
      modifies this
      ensures answer == Answer(server, old(entries), ttl, name, c)
      ensures entries == AfterCheck(server, old(entries), ttl, name, c)
    {
      if name in entries {
        if c.start - entries[name].timestamp <= ttl {
          return Some(entries[name].installed);
        }
      }
      if !c.reachable {
        return None;
      }
      var found := server(name, c.asked);
      entries := entries[name := Entry(found, c.done)];
      return Some(found);
    }

    method InvalidateCache(name: string)
      modifies this
      ensures entries == AfterInvalidate(old(entries), name)
    {
      if name == "" {
        entries := map[];
      } else {
        entries := entries - {name};
      }
    }
  }

  // Runs of calls that do not overlap. ----------------------------------------------------------

  datatype Event = Check(name: string, call: Call) | Invalidate(name: string, at: int) {
    function Begin(): int { if Check? then call.start else at }
    function End(): int { if Check? then call.done else at }
  }

  function EntriesAfter(server: Server, ttl: int, events: seq<Event>): Entries {
    if events == [] then map[]
    else
      var before := EntriesAfter(server, ttl, events[..|events| - 1]);
      match events[|events| - 1]
      case Check(name, c) => AfterCheck(server, before, ttl, name, c)
      case Invalidate(name, _) => AfterInvalidate(before, name)
  }

  /** Event i is a call for the name that finds no fresh entry and reaches the server. */
  predicate AsksServer(server: Server, ttl: int, events: seq<Event>, name: string, i: nat)
    requires i < |events|
  {
    && events[i].Check? && events[i].name == name && events[i].call.reachable
    && Cached(EntriesAfter(server, ttl, events[..i]), ttl, name, events[i].call.start).None?
  }

  /** And since then the name was neither asked for again nor invalidated. */
  ghost predicate StoredBy(server: Server, ttl: int, events: seq<Event>, name: string, i: nat) {
    && i < |events| && AsksServer(server, ttl, events, name, i)
    && forall j | i < j < |events| :: !AsksServer(server, ttl, events, name, j) && !Drops(events[j], name)
  }

  /** After every run, the entry of a name is the answer that was last asked for, unless the name was invalidated since:
      other names and invalidations of other names have no effect on it. */
  lemma {:induction false} EntryExact(server: Server, ttl: int, events: seq<Event>, name: string, e: Entry)
    ensures var entries := EntriesAfter(server, ttl, events);
            (name in entries && entries[name] == e) <==>
            exists i: nat :: StoredBy(server, ttl, events, name, i)
                          && e == Entry(server(name, events[i].call.asked), events[i].call.done)
  {
    if events != [] {
      var n := |events| - 1;
      var before, last := events[..n], events[n];
      EntryExact(server, ttl, before, name, e);
      forall i: nat | i < n
        ensures AsksServer(server, ttl, events, name, i) == AsksServer(server, ttl, before, name, i)
      {
        assert events[i] == before[i] && events[..i] == before[..i];
      }
      if AsksServer(server, ttl, events, name, n) {
        assert StoredBy(server, ttl, events, name, n);
        assert forall i: nat :: StoredBy(server, ttl, events, name, i) ==> i == n;
      } else if Drops(last, name) {
        assert forall i: nat :: !StoredBy(server, ttl, events, name, i);
      } else {
        assert forall i: nat :: StoredBy(server, ttl, events, name, i) <==> StoredBy(server, ttl, before, name, i);
      }
    }
  }

  /** A call fails exactly when there is no fresh entry and the server cannot be reached. */
  lemma FailsIff(server: Server, ttl: int, events: seq<Event>, name: string, c: Call)
    ensures Answer(server, EntriesAfter(server, ttl, events), ttl, name, c).None? <==>
            && !c.reachable
            && forall i: nat | StoredBy(server, ttl, events, name, i) :: c.start - events[i].call.done > ttl
  {
    var entries := EntriesAfter(server, ttl, events);
    forall i: nat | StoredBy(server, ttl, events, name, i)
      ensures name in entries && entries[name].timestamp == events[i].call.done
    {
      EntryExact(server, ttl, events, name, Entry(server(name, events[i].call.asked), events[i].call.done));
    }
    if name in entries { EntryExact(server, ttl, events, name, entries[name]); }
  }

  /** Calls follow one another, and each answer is stamped within `latency` of the server giving it. */
  predicate Sequential(events: seq<Event>, latency: int) {
    && (forall i, j :: 0 <= i < j < |events| ==> events[i].End() <= events[j].Begin())
    && (forall i :: 0 <= i < |events| && events[i].Check? ==>
          var c := events[i].call; c.start <= c.asked <= c.done <= c.asked + latency)
  }

  predicate Drops(e: Event, name: string) { e.Invalidate? && (e.name == "" || e.name == name) }

  /** The server gave this answer at `q`, and the name has not been invalidated since. */
  predicate Dated(server: Server, events: seq<Event>, name: string, installed: bool, q: int) {
    && server(name, q) == installed
    && forall i :: 0 <= i < |events| && Drops(events[i], name) ==> events[i].at <= q
  }

  lemma {:induction false} EntriesAreDated(server: Server, ttl: int, events: seq<Event>, latency: int, name: string)
    returns (q: int)
    requires Sequential(events, latency) && name in EntriesAfter(server, ttl, events)
    ensures var e := EntriesAfter(server, ttl, events)[name];
            Dated(server, events, name, e.installed, q) && q <= e.timestamp <= q + latency
  {
    var n := |events| - 1;
    var before, last := events[..n], events[n];
    var entries := EntriesAfter(server, ttl, before);
    if last.Check? && last.name == name && entries != EntriesAfter(server, ttl, events) {
      q := last.call.asked;
    } else {
      q := EntriesAreDated(server, ttl, before, latency, name);
      assert forall i :: 0 <= i < n ==> events[i] == before[i];
    }
  }

  /** Every answer given without error is one that the server gave no earlier than the last
      invalidation of the name, and at most ttl (plus the time a reply takes) before the call. */
  lemma CacheAgreesWithServer(server: Server, ttl: int, events: seq<Event>, latency: int, name: string, c: Call)
    returns (q: int)
    requires ttl >= 0 && latency >= 0 && Sequential(events + [Check(name, c)], latency)
    requires Answer(server, EntriesAfter(server, ttl, events), ttl, name, c).Some?
    ensures Dated(server, events, name, Answer(server, EntriesAfter(server, ttl, events), ttl, name, c).value, q)
    ensures q <= c.done && c.start - q <= ttl + latency
  {
    var run := events + [Check(name, c)];
    var entries := EntriesAfter(server, ttl, events);
    assert run[|events|] == Check(name, c);
    assert forall i :: 0 <= i < |events| ==> run[i] == events[i];
    assert Sequential(events, latency);
    if Cached(entries, ttl, name, c.start).Some? {
      q := EntriesAreDated(server, ttl, events, latency, name);
      StampsAreOver(server, ttl, events, latency, name, c.start);
    } else {
      q := c.asked;
    }
  }

  lemma {:induction false} StampsAreOver(server: Server, ttl: int, events: seq<Event>, latency: int, name: string,
                                         now: int)
    requires Sequential(events, latency) && name in EntriesAfter(server, ttl, events)
    requires forall i :: 0 <= i < |events| ==> events[i].End() <= now
    ensures EntriesAfter(server, ttl, events)[name].timestamp <= now
  {
    var n := |events| - 1;
    var before := events[..n];
    assert forall i :: 0 <= i < n ==> events[i] == before[i];
    if name in EntriesAfter(server, ttl, before) {
      StampsAreOver(server, ttl, before, latency, name, now);
    }
  }

  /** The age does reach ttl + latency, because the stamp is taken after the reply: a CRD deleted right
      after the server replied is still reported then. */
  lemma AgeBoundIsTight(ttl: int, latency: int, name: string)
    returns (server: Server, first: Call, second: Call)
    requires ttl >= 0 && latency >= 0
    ensures Sequential([Check(name, first), Check(name, second)], latency)
    ensures var entries := EntriesAfter(server, ttl, [Check(name, first)]);
            Answer(server, entries, ttl, name, second) == Some(true)
    ensures forall q :: second.start - (ttl + latency) < q ==> !server(name, q)
  {
    server := (n: string, t: int) => t <= 0;
    first := Call(0, 0, latency, true);
    second := Call(latency + ttl, latency + ttl, latency + ttl, true);
    assert [Check(name, first)][..0] == [];
    assert EntriesAfter(server, ttl, [Check(name, first)]) == map[name := Entry(true, latency)];
  }

  /** A call after a run of calls, with replies that take up to `latency`, is answered without error. */
  predicate Answered(server: Server, ttl: int, latency: int, events: seq<Event>, name: string, c: Call) {
    && Sequential(events + [Check(name, c)], latency)
    && Answer(server, EntriesAfter(server, ttl, events), ttl, name, c).Some?
  }

  /** The answer is one that the server gave at most ttl before the call and not before the last invalidation. */
  ghost predicate Fresh(server: Server, ttl: int, events: seq<Event>, name: string, c: Call)
    requires Answer(server, EntriesAfter(server, ttl, events), ttl, name, c).Some?
  {
    exists q :: Dated(server, events, name, Answer(server, EntriesAfter(server, ttl, events), ttl, name, c).value, q)
             && q <= c.done && c.start - q <= ttl
  }

  /** Answers are at most ttl old in every run exactly when replies take no time. */
  lemma FreshIffImmediate(ttl: int, latency: int)
    requires ttl >= 0 && latency >= 0
    ensures (forall server, events, name, c | Answered(server, ttl, latency, events, name, c) ::
            Fresh(server, ttl, events, name, c))
            <==> latency == 0
  {
    if latency == 0 {
      forall server, events, name, c | Answered(server, ttl, latency, events, name, c)
        ensures Fresh(server, ttl, events, name, c)
      {
        var q := CacheAgreesWithServer(server, ttl, events, latency, name, c);
      }
    } else {
      var server, first, second := AgeBoundIsTight(ttl, latency, "crd");
      var events := [Check("crd", first)];
      assert events + [Check("crd", second)] == [Check("crd", first), Check("crd", second)];
      assert Answered(server, ttl, latency, events, "crd", second);
      assert !Fresh(server, ttl, events, "crd", second);
    }
  }

  /** Calls that do overlap can miss an invalidation: an answer asked for before it and stored after
      it is served as if it were newer. */
  lemma OverlapMissesInvalidation(name: string, c: Call, at: int)
    returns (server: Server)
    requires name != "" && c.reachable && c.start <= c.asked < at <= c.done
    ensures var stored := AfterCheck(server, AfterInvalidate(map[], name), 0, name, c);
            Cached(stored, 0, name, c.done) == Some(true)
    ensures forall q :: at <= q ==> !server(name, q)
  {
    server := (n: string, t: int) => t < at;
  }
}
