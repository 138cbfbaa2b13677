/** The bounded record table that background tasks and child Agents share: serial numbers in insertion
    order, some of them live, and room made by dropping ended records. */
module Registry {
  import opened Basics

  const MAX_EVENTS: nat := 64

  /** A bounded event queue: the oldest event gives way. */
  function Push<E>(events: seq<E>, e: E): (r: seq<E>)
    ensures |events| <= MAX_EVENTS ==> |r| <= MAX_EVENTS
    ensures r != [] && r[|r| - 1] == e
  {
    var all := events + [e];
    if |all| > MAX_EVENTS then all[1..] else all
  }

  function LiveCount(live: set<nat>, table: seq<nat>): nat {
    if table == [] then 0
    else LiveCount(live, table[..|table| - 1]) + if table[|table| - 1] in live then 1 else 0
  }

  /** The first listed record that has ended. */
  function FirstEnded(live: set<nat>, table: seq<nat>): (index: Option<nat>)
    ensures index.Some? ==> index.value < |table| && table[index.value] !in live
    ensures index.None? ==> forall i :: 0 <= i < |table| ==> table[i] in live
  {
    if table == [] then None
    else if table[0] !in live then Some(0)
    else match FirstEnded(live, table[1..])
      case None => None
      case Some(i) => Some(i + 1)
  }

  /** Drops ended records, oldest first, until there is room below `max`. When all listed records are
      live there is no room to make, and the second component is false. */
  function Evict(live: set<nat>, table: seq<nat>, max: nat): (seq<nat>, bool)
    decreases |table|
  {
    if |table| < max then (table, true)
    else match FirstEnded(live, table)
      case None => (table, false)
      case Some(i) => Evict(live, RemoveAt(table, i), max)
  }

  method CountLive(live: set<nat>, table: seq<nat>) returns (count: nat)
    ensures count == LiveCount(live, table)
  {
    count := 0;
    var i := 0;
    while i < |table|
      invariant 0 <= i <= |table|
      invariant count == LiveCount(live, table[..i])
    {
      if table[i] in live {
        count := count + 1;
      }
      assert table[..i + 1][..i] == table[..i];
      i := i + 1;
    }
    assert table[..i] == table;
  }

  method MakeRoom(live: set<nat>, table: seq<nat>, max: nat) returns (kept: seq<nat>, ok: bool)
    ensures (kept, ok) == Evict(live, table, max)
  {
    kept := table;
    while |kept| >= max
      invariant Evict(live, table, max) == Evict(live, kept, max)
      decreases |kept|
    {
      var index := FirstEnded(live, kept);
      if index.None? {
        return kept, false;
      }
      kept := RemoveAt(kept, index.value);
    }
    ok := true;
  }

  // ---------- The invariant ----------

  predicate Distinct(table: seq<nat>) {
    forall i, j :: 0 <= i < j < |table| ==> table[i] != table[j]
  }

  /** At most `maxLive` records are live and `max` listed, every live record is listed, once, and only
      records below `known` are. */
  predicate Within(live: set<nat>, table: seq<nat>, known: nat, maxLive: nat, max: nat) {
    && LiveCount(live, table) <= maxLive
    && |table| <= max
    && Distinct(table)
    && (forall i :: 0 <= i < |table| ==> table[i] < known)
    && forall serial :: serial in live ==> serial in table
  }

  lemma {:induction false} AllLive(live: set<nat>, table: seq<nat>)
    requires forall i :: 0 <= i < |table| ==> table[i] in live
    ensures LiveCount(live, table) == |table|
  {
    if table != [] {
      AllLive(live, table[..|table| - 1]);
    }
  }

  lemma {:induction false} RemoveCounts(live: set<nat>, table: seq<nat>, i: nat)
    requires i < |table| && table[i] !in live
    ensures LiveCount(live, RemoveAt(table, i)) == LiveCount(live, table)
    decreases |table|
  {
    var last := |table| - 1;
    if i < last {
      RemoveCounts(live, table[..last], i);
      assert RemoveAt(table, i)[..last - 1] == RemoveAt(table[..last], i);
    } else {
      assert RemoveAt(table, i) == table[..last];
    }
  }

  lemma RemoveKeeps(table: seq<nat>, i: nat, serial: nat)
    requires i < |table| && Distinct(table)
    ensures Distinct(RemoveAt(table, i))
    ensures serial in RemoveAt(table, i) <==> serial in table && serial != table[i]
  {
    var rest := RemoveAt(table, i);
    if serial in table && serial != table[i] {
      var k :| 0 <= k < |table| && table[k] == serial;
      assert rest[if k < i then k else k - 1] == serial;
    }
  }

  /** Eviction never removes a live record, and always finds room while fewer than `max` are live. */
  lemma {:induction false} EvictionKeepsWithin(live: set<nat>, table: seq<nat>, known: nat, maxLive: nat, max: nat,
                                               bound: nat)
    requires Within(live, table, known, maxLive, bound) && maxLive < max
    ensures var (kept, ok) := Evict(live, table, max);
            && ok && |kept| < max && |kept| <= |table|
            && Within(live, kept, known, maxLive, max)
            && LiveCount(live, kept) == LiveCount(live, table)
    decreases |table|
  {
    if |table| >= max {
      if FirstEnded(live, table).None? {
        AllLive(live, table);
      }
      var i := FirstEnded(live, table).value;
      var rest := RemoveAt(table, i);
      RemoveKeeps(table, i, 0);
      RemoveCounts(live, table, i);
      forall serial | serial in live ensures serial in rest {
        RemoveKeeps(table, i, serial);
      }
      EvictionKeepsWithin(live, rest, known, maxLive, max, bound);
    }
  }

  /** Eviction drops as little as it can. */
  lemma {:induction false} EvictionSize(live: set<nat>, table: seq<nat>, max: nat)
    requires Evict(live, table, max).1
    ensures |Evict(live, table, max).0| == Min(|table|, max - 1)
    decreases |table|
  {
    if |table| >= max {
      EvictionSize(live, RemoveAt(table, FirstEnded(live, table).value), max);
    }
  }

  /** What is dropped are ended records. */
  lemma {:induction false} EvictionSparesLive(live: set<nat>, table: seq<nat>, max: nat, serial: nat)
    requires Distinct(table) && serial in live && serial in table
    ensures serial in Evict(live, table, max).0
    decreases |table|
  {
    if |table| >= max && FirstEnded(live, table).Some? {
      var i := FirstEnded(live, table).value;
      RemoveKeeps(table, i, serial);
      EvictionSparesLive(live, RemoveAt(table, i), max, serial);
    }
  }

  /** The oldest ended records go first: with one that is kept, every later one is kept. */
  lemma {:induction false} EvictionDropsOldestEnded(live: set<nat>, table: seq<nat>, max: nat, a: nat, b: nat)
    requires Distinct(table) && a < b < |table| && table[a] !in live
    requires table[a] in Evict(live, table, max).0
    ensures table[b] in Evict(live, table, max).0
    decreases |table|
  {
    if |table| >= max && FirstEnded(live, table).Some? {
      var i := FirstEnded(live, table).value;
      var rest := RemoveAt(table, i);
      FirstEndedIsFirst(live, table, i);
      RemoveKeeps(table, i, table[i]);
      EvictedStaysOut(live, rest, max, table[i]);
      assert i < a && rest[a - 1] == table[a] && rest[b - 1] == table[b];
      EvictionDropsOldestEnded(live, rest, max, a - 1, b - 1);
    }
  }

  /** The rest keeps its order. */
  lemma {:induction false} EvictionKeepsOrder(live: set<nat>, table: seq<nat>, max: nat, a: nat, b: nat)
    returns (i: nat, j: nat)
    requires a <= b < |Evict(live, table, max).0|
    ensures i <= j < |table| && (a < b ==> i < j)
    ensures table[i] == Evict(live, table, max).0[a] && table[j] == Evict(live, table, max).0[b]
    decreases |table|
  {
    if |table| >= max && FirstEnded(live, table).Some? {
      var gone := FirstEnded(live, table).value;
      i, j := EvictionKeepsOrder(live, RemoveAt(table, gone), max, a, b);
      i, j := if i < gone then i else i + 1, if j < gone then j else j + 1;
    } else {
      i, j := a, b;
    }
  }

  lemma {:induction false} EvictedStaysOut(live: set<nat>, table: seq<nat>, max: nat, serial: nat)
    requires serial !in table
    ensures serial !in Evict(live, table, max).0
    decreases |table|
  {
    if |table| >= max && FirstEnded(live, table).Some? {
      EvictedStaysOut(live, RemoveAt(table, FirstEnded(live, table).value), max, serial);
    }
  }

  lemma {:induction false} FirstEndedIsFirst(live: set<nat>, table: seq<nat>, i: nat)
    requires FirstEnded(live, table) == Some(i)
    ensures forall k :: 0 <= k < i ==> table[k] in live
  {
    if table[0] in live {
      FirstEndedIsFirst(live, table[1..], i - 1);
      forall k | 0 <= k < i ensures table[k] in live {
        if k > 0 { assert table[k] == table[1..][k - 1]; }
      }
    }
  }

  /** Counting along the table gives the number of live records, whatever their order. */
  lemma {:induction false} LiveCountIsSize(live: set<nat>, table: seq<nat>, listed: set<nat>)
    requires Distinct(table)
    requires forall serial :: serial in listed <==> serial in table && serial in live
    ensures LiveCount(live, table) == |listed|
  {
    if table == [] {
      assert listed == {};
    } else {
      var rest, last := table[..|table| - 1], table[|table| - 1];
      assert table == rest + [last] && last !in rest;
      LiveCountIsSize(live, rest, listed - {last});
    }
  }

  /** The events a queue still holds of all that were put into it. */
  function Latest<E>(events: seq<E>): seq<E> {
    if |events| <= MAX_EVENTS then events else events[|events| - MAX_EVENTS..]
  }

  lemma PushIsLatest<E>(events: seq<E>, e: E)
    ensures Push(Latest(events), e) == Latest(events + [e])
  {
  }

  /** The count cannot grow when nothing listed becomes live. */
  lemma {:induction false} CountCannotGrow(before: set<nat>, after: set<nat>, table: seq<nat>)
    requires forall i :: 0 <= i < |table| && table[i] in after ==> table[i] in before
    ensures LiveCount(after, table) <= LiveCount(before, table)
  {
    if table != [] {
      CountCannotGrow(before, after, table[..|table| - 1]);
    }
  }

  /** One record more, listed or not, is live. */
  lemma {:induction false} CountOneMore(live: set<nat>, table: seq<nat>, serial: nat)
    requires Distinct(table)
    ensures LiveCount(live + {serial}, table) <= LiveCount(live, table) + if serial in table then 1 else 0
  {
    if table != [] {
      var last := |table| - 1;
      CountOneMore(live, table[..last], serial);
      if table[last] == serial {
        assert serial !in table[..last];
      }
    }
  }

  lemma ShrinkingKeepsWithin(before: set<nat>, after: set<nat>, table: seq<nat>, known: nat, maxLive: nat, max: nat)
    requires Within(before, table, known, maxLive, max) && after <= before
    ensures Within(after, table, known, maxLive, max)
  {
    CountCannotGrow(before, after, table);
  }

  /** A fresh record is listed and live. */
  lemma AddingKeepsWithin(live: set<nat>, table: seq<nat>, known: nat, maxLive: nat, max: nat)
    requires Within(live, table, known, maxLive, max) && |table| < max && LiveCount(live, table) < maxLive
    ensures Within(live + {known}, table + [known], known + 1, maxLive, max)
  {
    CountOneMore(live, table, known);
    assert (table + [known])[..|table|] == table;
    forall serial | serial in live + {known} ensures serial in table + [known] {
      if serial == known { assert (table + [known])[|table|] == known; }
    }
  }

  /** A listed record becomes live again. */
  lemma RevivingKeepsWithin(live: set<nat>, table: seq<nat>, known: nat, maxLive: nat, max: nat, serial: nat)
    requires Within(live, table, known, maxLive, max) && LiveCount(live, table) < maxLive && serial in table
    ensures Within(live + {serial}, table, known, maxLive, max)
  {
    CountOneMore(live, table, serial);
  }
}
