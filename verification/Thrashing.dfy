/** The detector of edit wars, pkg/throttling/thrashing_detector.go, and the keys under which it and the
    token bucket keep their state. */
module Thrashing {
  import Strings = JsonPointer

  const THRASHING_THRESHOLD := 3

  datatype Thrash = Thrash(consecutiveThrottles: int, metricEmitted: bool)
  type States = map<string, Thrash>

  function Attempts(states: States, key: string): int {
    if key in states then states[key].consecutiveThrottles else 0
  }

  function AfterThrottle(states: States, key: string): States {
    states[key := Thrash(Attempts(states, key) + 1, key in states && states[key].metricEmitted)]
  }

  predicate EmitsMetric(states: States, key: string) {
    Attempts(states, key) >= THRASHING_THRESHOLD && !states[key].metricEmitted
  }

  function AfterEmit(states: States, key: string): States {
    if EmitsMetric(states, key) then states[key := states[key].(metricEmitted := true)] else states
  }

  class ThrashingDetector {
    var states: States

    constructor ()
      ensures states == map[]
    {
      states := map[];
    }

    method RecordThrottle(key: string) returns (pause: bool)
      modifies this
      ensures states == AfterThrottle(old(states), key)
      ensures pause <==> Attempts(states, key) >= THRASHING_THRESHOLD
    {
      if key !in states {
        states := states[key := Thrash(1, false)];
        return states[key].consecutiveThrottles >= THRASHING_THRESHOLD;
      }
      states := states[key := states[key].(consecutiveThrottles := states[key].consecutiveThrottles + 1)];
      return states[key].consecutiveThrottles >= THRASHING_THRESHOLD;
    }

    method RecordSuccess(key: string)
      modifies this
      ensures states == old(states) - {key}
    {
      states := states - {key};
    }

    method ShouldEmitMetric(key: string) returns (emit: bool)
      modifies this
      ensures emit <==> EmitsMetric(old(states), key)
      ensures states == AfterEmit(old(states), key)
    {
      if key !in states {
        return false;
      }
      if states[key].consecutiveThrottles >= THRASHING_THRESHOLD && !states[key].metricEmitted {
        states := states[key := states[key].(metricEmitted := true)];
        return true;
      }
      return false;
    }

    method GetAttempts(key: string) returns (n: int)
      ensures n == Attempts(states, key)
    {
      if key !in states {
        return 0;
      }
      return states[key].consecutiveThrottles;
    }

    method Reset(key: string)
      modifies this
      ensures states == old(states) - {key}
    {
      states := states - {key};
    }
  }

  // Resource keys. ------------------------------------------------------------------------------

  function MakeResourceKey(namespace: string, name: string, kind: string): string {
    if namespace == "" then kind + ['/'] + name else kind + ['/'] + (namespace + ['/'] + name)
  }

  /** Resources whose parts contain no slash never share a key. */
  lemma KeysAreDistinct(ns1: string, n1: string, k1: string, ns2: string, n2: string, k2: string)
    requires '/' !in ns1 && '/' !in n1 && '/' !in k1 && '/' !in ns2 && '/' !in n2 && '/' !in k2
    requires MakeResourceKey(ns1, n1, k1) == MakeResourceKey(ns2, n2, k2)
    ensures ns1 == ns2 && n1 == n2 && k1 == k2
  {
    KeySplits(ns1, n1, k1);
    KeySplits(ns2, n2, k2);
    var x := [k1] + (if ns1 == "" then [] else [ns1]) + [n1];
    var y := [k2] + (if ns2 == "" then [] else [ns2]) + [n2];
    assert x[0] == k1 && y[0] == k2 && x[|x| - 1] == n1 && y[|y| - 1] == n2;
    assert |x| == 3 ==> x[1] == ns1;
    assert |y| == 3 ==> y[1] == ns2;
  }

  lemma KeySplits(namespace: string, name: string, kind: string)
    requires '/' !in namespace && '/' !in name && '/' !in kind
    ensures Strings.Split(MakeResourceKey(namespace, name, kind), '/')
            == [kind] + (if namespace == "" then [] else [namespace]) + [name]
  {
    if namespace == "" {
      Strings.SplitAfterSegment(kind, name, '/');
    } else {
      Strings.SplitAfterSegment(kind, namespace + ['/'] + name, '/');
      Strings.SplitAfterSegment(namespace, name, '/');
    }
    Strings.SplitAfterSegment(name, "", '/');
  }

  /** A slash in a part does let two resources share one. */
  lemma SlashesCollide()
    ensures MakeResourceKey("", "a/b", "K") == MakeResourceKey("a", "b", "K")
  {
    assert "a/b" == "a" + ['/'] + "b";
  }
}
