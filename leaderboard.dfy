/**
 * The leaderboard service: keeping the best time per player, ranking,
 * validating a submission, the local read-modify-write of the stored list,
 * the rank of a time and the text form of a time.
 */
module Leaderboard {

  import opened Wrappers
  import opened Decimal

  /** Largest number of entries the stored list keeps. */
  const MAX_ENTRIES: int := 10

  /** Longest player name kept, in characters. */
  const MAX_NAME_LENGTH: nat := 20

  /**
   * One leaderboard record. `createdAt` stands for the clock reading the
   * record was created with; ranking never looks at it, but it tells apart
   * two records of one player with the same time.
   */
  datatype Entry = Entry(playerName: string, timeMs: int, createdAt: int)

  /** A record as the leaderboard read hands it out, with its 1-based rank. */
  datatype Ranked = Ranked(entry: Entry, rank: int)

  /** The list shown when nothing has been stored locally yet. */
  const FALLBACK_LEADERBOARD: seq<Entry> := [
    Entry("ACE", 45000, 0),
    Entry("FOX", 52000, 0),
    Entry("SKY", 58000, 0),
    Entry("JAX", 63000, 0),
    Entry("NEO", 71000, 0)
  ]

  // ---------------------------------------------------------------------
  // Names, uniqueness, order
  // ---------------------------------------------------------------------

  function Names(s: seq<Entry>): set<string> {
    set e | e in s :: e.playerName
  }

  ghost predicate UniqueNames(s: seq<Entry>) {
    forall i, j :: 0 <= i < j < |s| ==> s[i].playerName != s[j].playerName
  }

  ghost predicate SortedByTime(s: seq<Entry>) {
    forall i, j :: 0 <= i < j < |s| ==> s[i].timeMs <= s[j].timeMs
  }

  /** Index of the first entry of `s` named `name`, or |s| when there is none. */
  function IndexOfName(s: seq<Entry>, name: string): (i: nat)
    ensures i <= |s|
    ensures i < |s| ==> s[i].playerName == name
    ensures forall k :: 0 <= k < i ==> s[k].playerName != name
  {
    if s == [] then 0
    else if s[0].playerName == name then 0
    else 1 + IndexOfName(s[1..], name)
  }

  lemma InNames(s: seq<Entry>, i: int)
    requires 0 <= i < |s|
    ensures s[i].playerName in Names(s)
  {
    assert s[i] in s;
  }

  lemma NameIndex(s: seq<Entry>, name: string) returns (i: nat)
    requires name in Names(s)
    ensures i < |s| && s[i].playerName == name
  {
    var y :| y in s && y.playerName == name;
    i :| i < |s| && s[i] == y;
  }

  /** A name is missing exactly when its search runs off the end. */
  lemma IndexOfNameFound(s: seq<Entry>, name: string)
    ensures IndexOfName(s, name) < |s| <==> name in Names(s)
  {
    var p := IndexOfName(s, name);
    if p < |s| {
      InNames(s, p);
    } else {
      forall y | y in s ensures y.playerName != name {
        var k :| 0 <= k < |s| && s[k] == y;
      }
    }
  }

  /**
   * `es[j]` is the record `deduplicateBest` keeps for its player: no record of
   * that player is faster, and every earlier one is strictly slower.
   */
  ghost predicate BestAt(es: seq<Entry>, j: int) {
    0 <= j < |es| &&
    forall i :: 0 <= i < |es| && es[i].playerName == es[j].playerName ==>
      es[j].timeMs <= es[i].timeMs && (i < j ==> es[j].timeMs < es[i].timeMs)
  }

  // ---------------------------------------------------------------------
  // deduplicateBest
  // ---------------------------------------------------------------------

  /**
   * One iteration of the loop in `deduplicateBest` on the map's values in
   * insertion order: a new player is appended, a faster record replaces the
   * player's record in place, anything else leaves the values alone.
   */
  function Keep(acc: seq<Entry>, e: Entry): seq<Entry> {
    var p := IndexOfName(acc, e.playerName);
    if p == |acc| then acc + [e]
    else if e.timeMs < acc[p].timeMs then acc[p := e]
    else acc
  }

  /** The values of the map `deduplicateBest` builds, in insertion order. */
  function DedupBest(es: seq<Entry>): seq<Entry> {
    if es == [] then [] else Keep(DedupBest(es[..|es| - 1]), es[|es| - 1])
  }

  /** The map's values listed in the order their keys were first inserted. */
  function Values(keys: seq<string>, best: map<string, Entry>): (r: seq<Entry>)
    requires forall k :: k in keys ==> k in best
    ensures |r| == |keys|
    ensures forall i :: 0 <= i < |keys| ==> r[i] == best[keys[i]]
  {
    if keys == [] then [] else Values(keys[..|keys| - 1], best) + [best[keys[|keys| - 1]]]
  }

  ghost predicate KeyOrder(keys: seq<string>, best: map<string, Entry>) {
    (forall i, j :: 0 <= i < j < |keys| ==> keys[i] != keys[j]) &&
    (forall k :: k in keys <==> k in best) &&
    (forall k :: k in best ==> best[k].playerName == k)
  }

  /** `deduplicateBest`: one pass over the records with a Map from name to best record. */
  method DeduplicateBest(entries: seq<Entry>) returns (r: seq<Entry>)
    ensures r == DedupBest(entries)
  {
    var best: map<string, Entry> := map[];
    var keys: seq<string> := [];
    for i := 0 to |entries|
      invariant KeyOrder(keys, best)
      invariant Values(keys, best) == DedupBest(entries[..i])
    {
      var entry := entries[i];
      var name := entry.playerName;
      assert entries[..i + 1] == entries[..i] + [entry];
      if name !in best || entry.timeMs < best[name].timeMs {
        if name !in best {
          ValuesAdd(keys, best, entry);
          keys := keys + [name];
        } else {
          ValuesReplace(keys, best, entry);
        }
        best := best[name := entry];
      } else {
        IndexOfNameInValues(keys, best, name);
      }
    }
    assert entries[..|entries|] == entries;
    r := Values(keys, best);
  }

  /** In the values of a well-keyed map, a name sits where its key sits. */
  lemma IndexOfNameInValues(keys: seq<string>, best: map<string, Entry>, name: string)
    requires KeyOrder(keys, best)
    ensures name in best ==> IndexOfName(Values(keys, best), name) < |keys| &&
                             keys[IndexOfName(Values(keys, best), name)] == name
    ensures name !in best ==> IndexOfName(Values(keys, best), name) == |keys|
  {
    var v := Values(keys, best);
    var p := IndexOfName(v, name);
    if name in best {
      assert name in keys;
      var q :| 0 <= q < |keys| && keys[q] == name;
      assert v[q] == best[keys[q]] && v[q].playerName == name;
      assert p <= q;
      assert v[p] == best[keys[p]] && best[keys[p]].playerName == keys[p];
    } else {
      forall k | 0 <= k < |v| ensures v[k].playerName != name {
        assert v[k] == best[keys[k]];
      }
    }
  }

  /** Setting a new key appends its record to the values. */
  lemma ValuesAdd(keys: seq<string>, best: map<string, Entry>, e: Entry)
    requires KeyOrder(keys, best) && e.playerName !in best
    ensures KeyOrder(keys + [e.playerName], best[e.playerName := e])
    ensures Values(keys + [e.playerName], best[e.playerName := e]) == Keep(Values(keys, best), e)
  {
    KeyOrderSet(keys, best, e);
    IndexOfNameInValues(keys, best, e.playerName);
    assert Keep(Values(keys, best), e) == Values(keys, best) + [e];
    ValuesSetNew(keys, best, e.playerName, e);
  }

  /** Setting an existing key replaces its record in place. */
  lemma ValuesReplace(keys: seq<string>, best: map<string, Entry>, e: Entry)
    requires KeyOrder(keys, best) && e.playerName in best && e.timeMs < best[e.playerName].timeMs
    ensures KeyOrder(keys, best[e.playerName := e])
    ensures Values(keys, best[e.playerName := e]) == Keep(Values(keys, best), e)
  {
    KeyOrderSet(keys, best, e);
    IndexOfNameInValues(keys, best, e.playerName);
    var v := Values(keys, best);
    var p := IndexOfName(v, e.playerName);
    assert v[p] == best[e.playerName];
    assert Keep(v, e) == v[p := e];
    ValuesSetAt(keys, best, p, e);
  }

  /** Setting a player's key to one of their records keeps the keys in order. */
  lemma KeyOrderSet(keys: seq<string>, best: map<string, Entry>, e: Entry)
    requires KeyOrder(keys, best)
    ensures e.playerName in best ==> KeyOrder(keys, best[e.playerName := e])
    ensures e.playerName !in best ==> KeyOrder(keys + [e.playerName], best[e.playerName := e])
  {
  }

  /** The values after adding a key not yet in the map. */
  lemma ValuesSetNew(keys: seq<string>, best: map<string, Entry>, k: string, e: Entry)
    requires forall k :: k in keys ==> k in best
    requires k !in keys
    ensures Values(keys + [k], best[k := e]) == Values(keys, best) + [e]
  {
    var v := Values(keys, best);
    var w := Values(keys + [k], best[k := e]);
    forall i | 0 <= i < |keys| ensures w[i] == v[i] {
      assert keys[i] != k;
    }
  }

  /** The values after setting the key at position `p` of a repetition-free key list. */
  lemma ValuesSetAt(keys: seq<string>, best: map<string, Entry>, p: nat, e: Entry)
    requires forall k :: k in keys ==> k in best
    requires forall i, j :: 0 <= i < j < |keys| ==> keys[i] != keys[j]
    requires p < |keys|
    ensures Values(keys, best[keys[p] := e]) == Values(keys, best)[p := e]
  {
    var v := Values(keys, best);
    var w := Values(keys, best[keys[p] := e]);
    forall i | 0 <= i < |keys| ensures w[i] == v[p := e][i] {
      if i != p { assert keys[i] != keys[p]; }
    }
  }

  // ---------------------------------------------------------------------
  // What deduplicateBest keeps
  // ---------------------------------------------------------------------

  lemma {:induction false} KeepNames(acc: seq<Entry>, e: Entry)
    ensures Names(Keep(acc, e)) == Names(acc) + {e.playerName}
    ensures UniqueNames(acc) ==> UniqueNames(Keep(acc, e))
    ensures |Keep(acc, e)| >= |acc|
    ensures forall k :: 0 <= k < |acc| ==> Keep(acc, e)[k].playerName == acc[k].playerName
  {
    var p := IndexOfName(acc, e.playerName);
    var r := Keep(acc, e);
    if p < |acc| && e.timeMs < acc[p].timeMs {
      forall n | n in Names(r) ensures n in Names(acc) + {e.playerName} {
        var x :| x in r && x.playerName == n;
        var k :| 0 <= k < |r| && r[k] == x;
        if k != p { assert acc[k] in acc; }
      }
      forall n | n in Names(acc) ensures n in Names(r) {
        var x :| x in acc && x.playerName == n;
        var k :| 0 <= k < |acc| && acc[k] == x;
        if k != p { assert r[k] in r; } else { assert r[p] in r; }
      }
      assert r[p] in r;
    }
  }

  /** At most one record per player, and exactly the players of the input. */
  lemma {:induction false} DedupBestNames(es: seq<Entry>)
    ensures UniqueNames(DedupBest(es))
    ensures Names(DedupBest(es)) == Names(es)
  {
    if es != [] {
      var init := es[..|es| - 1];
      DedupBestNames(init);
      KeepNames(DedupBest(init), es[|es| - 1]);
      assert es == init + [es[|es| - 1]];
      assert Names(es) == Names(init) + {es[|es| - 1].playerName};
    }
  }

  /** `x` is the best record of its player in `es`. */
  ghost predicate KeptBest(es: seq<Entry>, x: Entry) {
    exists j :: BestAt(es, j) && es[j] == x
  }

  ghost predicate AllBest(es: seq<Entry>, out: seq<Entry>) {
    forall k :: 0 <= k < |out| ==> KeptBest(es, out[k])
  }

  /** A best record stays best when a record of another player, or a slower one, is added. */
  lemma BestAtAppend(es: seq<Entry>, e: Entry, j: int)
    requires BestAt(es, j)
    requires es[j].playerName != e.playerName || es[j].timeMs <= e.timeMs
    ensures BestAt(es + [e], j)
  {
  }

  /** A record of a new player, or strictly faster than the player's best, is best. */
  lemma BestAtLast(es: seq<Entry>, e: Entry, j0: int)
    requires e.playerName !in Names(es) || (BestAt(es, j0) && es[j0].playerName == e.playerName && e.timeMs < es[j0].timeMs)
    ensures BestAt(es + [e], |es|)
  {
    var t := es + [e];
    forall i | 0 <= i < |es| && t[i].playerName == e.playerName
      ensures e.timeMs < t[i].timeMs
    {
      assert es[i] in es;
    }
  }

  /** One slot of `Keep(acc, e)` holds a best record of `init + [e]`. */
  lemma KeepSlotBest(init: seq<Entry>, acc: seq<Entry>, e: Entry, k: int)
    requires AllBest(init, acc) && UniqueNames(acc) && Names(acc) == Names(init)
    requires 0 <= k < |Keep(acc, e)|
    ensures KeptBest(init + [e], Keep(acc, e)[k])
  {
    var es := init + [e];
    var r := Keep(acc, e);
    var p := IndexOfName(acc, e.playerName);
    if p < |acc| && k == p && e.timeMs < acc[p].timeMs {
      // a strictly faster record of a known player takes over its slot
      var j0 :| BestAt(init, j0) && init[j0] == acc[p];
      BestAtLast(init, e, j0);
      assert es[|init|] == r[k];
    } else if k == |acc| {
      // a new player's record goes to the end
      IndexOfNameFound(acc, e.playerName);
      BestAtLast(init, e, 0);
      assert es[|init|] == r[k];
    } else {
      // the record already kept in this slot stays
      assert k < |acc| && r[k] == acc[k];
      var j :| BestAt(init, j) && init[j] == acc[k];
      if p < |acc| && k != p {
        assert acc[k].playerName != acc[p].playerName;
      }
      BestAtAppend(init, e, j);
      assert es[j] == r[k];
    }
  }

  lemma KeepAllBest(init: seq<Entry>, acc: seq<Entry>, e: Entry)
    requires AllBest(init, acc) && UniqueNames(acc) && Names(acc) == Names(init)
    ensures AllBest(init + [e], Keep(acc, e))
  {
    var r := Keep(acc, e);
    var es := init + [e];
    forall k | 0 <= k < |r| ensures KeptBest(es, r[k]) {
      KeepSlotBest(init, acc, e, k);
    }
    assert AllBest(es, r);
  }

  /** Every kept record is the fastest of its player, the earliest one on a tie. */
  lemma {:induction false} DedupBestKeepsBest(es: seq<Entry>)
    ensures AllBest(es, DedupBest(es))
  {
    if es != [] {
      var init, e := es[..|es| - 1], es[|es| - 1];
      assert es == init + [e];
      DedupBestKeepsBest(init);
      DedupBestNames(init);
      KeepAllBest(init, DedupBest(init), e);
    }
  }

  lemma {:induction false} IndexOfNameAppend(s: seq<Entry>, e: Entry, name: string)
    requires name in Names(s)
    ensures IndexOfName(s + [e], name) == IndexOfName(s, name)
  {
    if s[0].playerName != name {
      assert (s + [e])[1..] == s[1..] + [e];
      assert name in Names(s[1..]) by {
        var x :| x in s && x.playerName == name;
        var k :| 0 <= k < |s| && s[k] == x;
        assert s[1..][k - 1] == x;
      }
      IndexOfNameAppend(s[1..], e, name);
    }
  }

  ghost predicate FirstAppearanceOrder(es: seq<Entry>, out: seq<Entry>) {
    forall k1, k2 :: 0 <= k1 < k2 < |out| ==>
      IndexOfName(es, out[k1].playerName) < IndexOfName(es, out[k2].playerName)
  }

  /** A player first seen in the last record is found at the end. */
  lemma {:induction false} IndexOfNewName(s: seq<Entry>, e: Entry)
    requires e.playerName !in Names(s)
    ensures IndexOfName(s + [e], e.playerName) == |s|
  {
    if s != [] {
      InNames(s, 0);
      assert (s + [e])[1..] == s[1..] + [e];
      assert e.playerName !in Names(s[1..]) by {
        forall y | y in s[1..] ensures y.playerName != e.playerName {
          assert y in s;
        }
      }
      IndexOfNewName(s[1..], e);
    }
  }

  /** One step of the loop keeps the first-appearance order. */
  lemma KeepFirstAppearance(init: seq<Entry>, acc: seq<Entry>, e: Entry)
    requires FirstAppearanceOrder(init, acc) && Names(acc) == Names(init)
    ensures FirstAppearanceOrder(init + [e], Keep(acc, e))
  {
    var es := init + [e];
    var r := Keep(acc, e);
    KeepNames(acc, e);
    forall k1, k2 | 0 <= k1 < k2 < |r|
      ensures IndexOfName(es, r[k1].playerName) < IndexOfName(es, r[k2].playerName)
    {
      KeepSlotIndex(init, acc, e, k1);
      if k2 < |acc| {
        KeepSlotIndex(init, acc, e, k2);
      } else {
        KeepNewSlotIndex(init, acc, e);
      }
    }
  }

  /** A player already kept is first found in the longer input where it was before. */
  lemma KeepSlotIndex(init: seq<Entry>, acc: seq<Entry>, e: Entry, k: int)
    requires Names(acc) == Names(init) && 0 <= k < |acc|
    ensures k < |Keep(acc, e)| && Keep(acc, e)[k].playerName == acc[k].playerName
    ensures IndexOfName(init + [e], acc[k].playerName) == IndexOfName(init, acc[k].playerName) < |init|
  {
    KeepNames(acc, e);
    InNames(acc, k);
    IndexOfNameAppend(init, e, acc[k].playerName);
    IndexOfNameFound(init, acc[k].playerName);
  }

  /** A player the step appends is first found at the end of the input. */
  lemma KeepNewSlotIndex(init: seq<Entry>, acc: seq<Entry>, e: Entry)
    requires Names(acc) == Names(init) && |Keep(acc, e)| > |acc|
    ensures |Keep(acc, e)| == |acc| + 1 && Keep(acc, e)[|acc|] == e
    ensures IndexOfName(init + [e], e.playerName) == |init|
  {
    var p := IndexOfName(acc, e.playerName);
    assert p == |acc| && Keep(acc, e) == acc + [e];
    IndexOfNameFound(acc, e.playerName);
    assert e.playerName !in Names(init);
    IndexOfNewName(init, e);
  }

  /** The kept records come in the order in which their players first appear. */
  lemma {:induction false} DedupBestOrder(es: seq<Entry>)
    ensures FirstAppearanceOrder(es, DedupBest(es))
  {
    if es != [] {
      var init, e := es[..|es| - 1], es[|es| - 1];
      assert es == init + [e];
      DedupBestOrder(init);
      DedupBestNames(init);
      KeepFirstAppearance(init, DedupBest(init), e);
    }
  }

  // ---------------------------------------------------------------------
  // Sorting by time: a stable sort, ascending by milliseconds
  // ---------------------------------------------------------------------

  /** Put `x` after every record of `s` that is not slower than it. */
  function InsertByTime(s: seq<Entry>, x: Entry): seq<Entry> {
    if s == [] || s[|s| - 1].timeMs <= x.timeMs then s + [x]
    else InsertByTime(s[..|s| - 1], x) + [s[|s| - 1]]
  }

  /** The records ordered by time, records with equal times keeping their order. */
  function SortByTime(s: seq<Entry>): seq<Entry> {
    if s == [] then [] else InsertByTime(SortByTime(s[..|s| - 1]), s[|s| - 1])
  }

  /**
   * Inserting splits `s` in two: `x` goes after the records not slower than
   * the first of the moved ones, before the records slower than `x`.
   */
  lemma {:induction false} InsertByTimeSplit(s: seq<Entry>, x: Entry) returns (j: nat)
    ensures j <= |s| && InsertByTime(s, x) == s[..j] + [x] + s[j..]
    ensures forall i :: j <= i < |s| ==> x.timeMs < s[i].timeMs
    ensures 0 < j ==> s[j - 1].timeMs <= x.timeMs
  {
    if s == [] || s[|s| - 1].timeMs <= x.timeMs {
      j := |s|;
    } else {
      var init, last := s[..|s| - 1], s[|s| - 1];
      assert InsertByTime(s, x) == InsertByTime(init, x) + [last];
      j := InsertByTimeSplit(init, x);
      assert s[..j] == init[..j];
      assert s[j..] == init[j..] + [s[|s| - 1]];
    }
  }

  /** Where each record of `s` lands when `x` is inserted at split point `j`. */
  lemma InsertIndices(s: seq<Entry>, x: Entry, j: nat, r: seq<Entry>)
    requires j <= |s| && r == s[..j] + [x] + s[j..]
    ensures |r| == |s| + 1 && r[j] == x
    ensures forall i :: 0 <= i < j ==> r[i] == s[i]
    ensures forall i :: j < i < |r| ==> r[i] == s[i - 1]
    ensures multiset(r) == multiset(s) + multiset{x}
  {
    assert s == s[..j] + s[j..];
  }

  /** Inserting into a time-ordered list keeps it time-ordered. */
  lemma InsertByTimeSorted(s: seq<Entry>, x: Entry)
    requires SortedByTime(s)
    ensures SortedByTime(InsertByTime(s, x))
  {
    var j := InsertByTimeSplit(s, x);
    var r := InsertByTime(s, x);
    InsertIndices(s, x, j, r);
    forall a, b | 0 <= a < b < |r| ensures r[a].timeMs <= r[b].timeMs {
      if b < j {
        assert r[a] == s[a] && r[b] == s[b];
      } else if b == j {
        assert r[a] == s[a] && s[a].timeMs <= s[j - 1].timeMs;
      } else if a < j {
        assert r[a] == s[a] && r[b] == s[b - 1];
      } else if a == j {
        assert r[b] == s[b - 1];
      } else {
        assert r[a] == s[a - 1] && r[b] == s[b - 1];
      }
    }
  }

  /** A list made of `s` with `x` put in at index `j` has the players of `s` and of `x`. */
  lemma NamesOfInsert(r: seq<Entry>, s: seq<Entry>, x: Entry, j: nat)
    requires j <= |s| && |r| == |s| + 1 && r[j] == x
    requires forall i :: 0 <= i < j ==> r[i] == s[i]
    requires forall i :: j < i < |r| ==> r[i] == s[i - 1]
    ensures Names(r) == Names(s) + {x.playerName}
  {
    forall n ensures n in Names(r) <==> n in Names(s) + {x.playerName} {
      if n in Names(r) {
        var y :| y in r && y.playerName == n;
        var i :| 0 <= i < |r| && r[i] == y;
        if i < j { assert s[i] in s; } else if i > j { assert s[i - 1] in s; }
      }
      if n in Names(s) {
        var y :| y in s && y.playerName == n;
        var i :| 0 <= i < |s| && s[i] == y;
        if i < j { assert r[i] in r; } else { assert r[i + 1] in r; }
      }
      if n == x.playerName { assert r[j] in r; }
    }
  }

  /** Inserting adds exactly `x`, and the player of `x`. */
  lemma InsertByTimeContents(s: seq<Entry>, x: Entry)
    ensures multiset(InsertByTime(s, x)) == multiset(s) + multiset{x}
    ensures Names(InsertByTime(s, x)) == Names(s) + {x.playerName}
  {
    var j := InsertByTimeSplit(s, x);
    var r := InsertByTime(s, x);
    InsertIndices(s, x, j, r);
    NamesOfInsert(r, s, x, j);
  }

  /** Inserting a record of a new player keeps the names unique. */
  lemma InsertByTimeUnique(s: seq<Entry>, x: Entry)
    requires UniqueNames(s) && x.playerName !in Names(s)
    ensures UniqueNames(InsertByTime(s, x))
  {
    var j := InsertByTimeSplit(s, x);
    var r := InsertByTime(s, x);
    InsertIndices(s, x, j, r);
    forall a, b | 0 <= a < b < |r| ensures r[a].playerName != r[b].playerName {
      if a == j { assert s[b - 1] in s; }
      else if b == j { assert s[a] in s; }
    }
  }

  /** Sorting yields a time-ordered list. */
  lemma {:induction false} SortByTimeSorted(s: seq<Entry>)
    ensures SortedByTime(SortByTime(s))
  {
    if s != [] {
      SortByTimeSorted(s[..|s| - 1]);
      InsertByTimeSorted(SortByTime(s[..|s| - 1]), s[|s| - 1]);
    }
  }

  /** Sorting keeps exactly the records it is given, and so their players. */
  lemma {:induction false} SortByTimeContents(s: seq<Entry>)
    ensures multiset(SortByTime(s)) == multiset(s)
    ensures Names(SortByTime(s)) == Names(s)
  {
    if s != [] {
      var init, last := s[..|s| - 1], s[|s| - 1];
      assert s == init + [last];
      assert SortByTime(s) == InsertByTime(SortByTime(init), last);
      SortByTimeContents(init);
      InsertByTimeContents(SortByTime(init), last);
      NamesOfAppend(init, last);
      assert multiset(s) == multiset(init) + multiset{last};
    }
  }

  /** The players of `s + [x]`. */
  lemma NamesOfAppend(s: seq<Entry>, x: Entry)
    ensures Names(s + [x]) == Names(s) + {x.playerName}
  {
    var t := s + [x];
    forall n | n in Names(t) ensures n in Names(s) + {x.playerName} {
      var y :| y in t && y.playerName == n;
      var i :| 0 <= i < |t| && t[i] == y;
      if i < |s| { assert s[i] in s; }
    }
    forall n | n in Names(s) ensures n in Names(t) {
      var y :| y in s && y.playerName == n;
      var i :| 0 <= i < |s| && s[i] == y;
      assert t[i] in t;
    }
    assert t[|s|] in t;
  }

  /** A list without a repeated player has none before its last record. */
  lemma UniqueInit(s: seq<Entry>)
    requires s != [] && UniqueNames(s)
    ensures UniqueNames(s[..|s| - 1])
    ensures s[|s| - 1].playerName !in Names(s[..|s| - 1])
  {
    var init := s[..|s| - 1];
    forall y | y in init ensures y.playerName != s[|s| - 1].playerName {
      var k :| 0 <= k < |init| && init[k] == y;
      assert s[k] == y;
    }
  }

  /** Sorting does not repeat a player. */
  lemma {:induction false} SortByTimeUnique(s: seq<Entry>)
    requires UniqueNames(s)
    ensures UniqueNames(SortByTime(s))
  {
    if s != [] {
      var init, last := s[..|s| - 1], s[|s| - 1];
      UniqueInit(s);
      SortByTimeUnique(init);
      SortByTimeContents(init);
      InsertByTimeUnique(SortByTime(init), last);
    }
  }

  /** The records of `s` whose time is exactly `t`, in their order in `s`. */
  function AtTime(s: seq<Entry>, t: int): seq<Entry> {
    if s == [] then []
    else AtTime(s[..|s| - 1], t) + (if s[|s| - 1].timeMs == t then [s[|s| - 1]] else [])
  }

  lemma {:induction false} AtTimeConcat(a: seq<Entry>, b: seq<Entry>, t: int)
    ensures AtTime(a + b, t) == AtTime(a, t) + AtTime(b, t)
  {
    if b == [] {
      assert a + b == a;
    } else {
      var b', y := b[..|b| - 1], b[|b| - 1];
      var tail := if y.timeMs == t then [y] else [];
      assert (a + b)[..|a + b| - 1] == a + b' && (a + b)[|a + b| - 1] == y;
      assert AtTime(a + b, t) == AtTime(a + b', t) + tail;
      assert AtTime(b, t) == AtTime(b', t) + tail;
      AtTimeConcat(a, b', t);
    }
  }

  /** A list whose records are all slower than `t` has none at time `t`. */
  lemma {:induction false} AtTimeNone(s: seq<Entry>, t: int)
    requires forall i :: 0 <= i < |s| ==> s[i].timeMs > t
    ensures AtTime(s, t) == []
  {
    if s != [] {
      AtTimeNone(s[..|s| - 1], t);
    }
  }

  /** Inserting `x` keeps the records of each time in the order of `s` followed by `x`. */
  lemma {:induction false} InsertStable(s: seq<Entry>, x: Entry, t: int)
    ensures AtTime(InsertByTime(s, x), t) == AtTime(s + [x], t)
  {
    var j := InsertByTimeSplit(s, x);
    assert s[..j] + s[j..] == s;
    SplitStable(s[..j], s[j..], x, t);
  }

  /** Moving `x` in front of records all slower than it changes no time's records. */
  lemma SplitStable(lo: seq<Entry>, hi: seq<Entry>, x: Entry, t: int)
    requires forall i :: 0 <= i < |hi| ==> x.timeMs < hi[i].timeMs
    ensures AtTime(lo + [x] + hi, t) == AtTime(lo + hi + [x], t)
  {
    AtTimeConcat(lo + [x], hi, t);
    AtTimeConcat(lo, [x], t);
    AtTimeConcat(lo + hi, [x], t);
    AtTimeConcat(lo, hi, t);
    assert AtTime([x], t) == AtTime([], t) + (if x.timeMs == t then [x] else []);
    if x.timeMs == t {
      AtTimeNone(hi, t);
    }
  }

  /**
   * The sort is stable: the records with any one time come out in the order
   * they went in, so of two tied records the earlier one ranks first.
   */
  lemma {:induction false} SortStable(s: seq<Entry>, t: int)
    ensures AtTime(SortByTime(s), t) == AtTime(s, t)
  {
    if s != [] {
      var init, x := s[..|s| - 1], s[|s| - 1];
      assert s == init + [x];
      assert SortByTime(s) == InsertByTime(SortByTime(init), x);
      InsertStable(SortByTime(init), x, t);
      AtTimeConcat(SortByTime(init), [x], t);
      AtTimeConcat(init, [x], t);
      SortStable(init, t);
    }
  }

  /** Sorting yields a time-ordered permutation of its input. */
  lemma SortByTimeSpec(s: seq<Entry>)
    ensures SortedByTime(SortByTime(s))
    ensures multiset(SortByTime(s)) == multiset(s)
    ensures UniqueNames(s) ==> UniqueNames(SortByTime(s))
    ensures Names(SortByTime(s)) == Names(s)
  {
    SortByTimeSorted(s);
    SortByTimeContents(s);
    if UniqueNames(s) {
      SortByTimeUnique(s);
    }
  }

  /** Sorting a list that is already in time order leaves it as it is. */
  lemma {:induction false} SortSorted(s: seq<Entry>)
    requires SortedByTime(s)
    ensures SortByTime(s) == s
  {
    if s != [] {
      var init, last := s[..|s| - 1], s[|s| - 1];
      assert SortedByTime(init) by {
        forall i, j | 0 <= i < j < |init| ensures init[i].timeMs <= init[j].timeMs {
          assert init[i] == s[i] && init[j] == s[j];
        }
      }
      SortSorted(init);
      if init != [] {
        assert init[|init| - 1] == s[|s| - 2];
      }
      assert InsertByTime(init, last) == init + [last];
      assert s == init + [last];
    }
  }

  // ---------------------------------------------------------------------
  // slice(0, limit) and the rank numbering
  // ---------------------------------------------------------------------

  /** The end index `Array.prototype.slice(0, limit)` uses on a list of `len` items. */
  function SliceEnd(len: nat, limit: int): (n: nat)
    ensures n <= len
    ensures limit >= 0 ==> n == if limit < len then limit else len
    ensures limit < 0 ==> n == if len + limit > 0 then len + limit else 0
  {
    if limit >= 0 then (if limit < len then limit else len)
    else if len + limit > 0 then len + limit else 0
  }

  /** `slice(0, limit)`: a prefix of the list, `limit` long when the list is long enough. */
  function Take(s: seq<Entry>, limit: int): (r: seq<Entry>)
    ensures r <= s
    ensures 0 <= limit <= |s| ==> |r| == limit
    ensures limit >= |s| ==> r == s
  {
    s[..SliceEnd(|s|, limit)]
  }

  /** Numbers the records 1, 2, ... in list order. */
  function Rank(s: seq<Entry>): (r: seq<Ranked>)
    ensures |r| == |s|
    ensures forall i :: 0 <= i < |s| ==> r[i].entry == s[i] && r[i].rank == i + 1
  {
    seq(|s|, i requires 0 <= i < |s| => Ranked(s[i], i + 1))
  }

  /** The dedupe / sort / slice / rank chain shared by both leaderboard reads. */
  function RankedTop(es: seq<Entry>, limit: int): (r: seq<Ranked>)
    ensures limit >= 0 ==> |r| <= limit
  {
    Rank(Take(SortByTime(DedupBest(es)), limit))
  }

  function Entries(r: seq<Ranked>): (s: seq<Entry>)
    ensures |s| == |r| && forall i :: 0 <= i < |r| ==> s[i] == r[i].entry
  {
    seq(|r|, i requires 0 <= i < |r| => r[i].entry)
  }

  /** The records behind a ranked read are the first records of the sorted, deduplicated list. */
  lemma EntriesOfRankedTop(es: seq<Entry>, limit: int)
    ensures Entries(RankedTop(es, limit)) == Take(SortByTime(DedupBest(es)), limit)
  {
  }

  /** The read holds `limit` records at most, ranked 1, 2, ... in list order. */
  lemma RankedTopShape(es: seq<Entry>, limit: int)
    ensures |RankedTop(es, limit)| == SliceEnd(|DedupBest(es)|, limit)
    ensures limit >= 0 ==> |RankedTop(es, limit)| <= limit
    ensures forall i :: 0 <= i < |RankedTop(es, limit)| ==> RankedTop(es, limit)[i].rank == i + 1
  {
    SortByTimeSpec(DedupBest(es));
    assert |SortByTime(DedupBest(es))| == |DedupBest(es)| by {
      assert |multiset(SortByTime(DedupBest(es)))| == |multiset(DedupBest(es))|;
    }
  }

  /** The read is sorted by time and shows each player at most once. */
  lemma RankedTopOrdered(es: seq<Entry>, limit: int)
    ensures SortedByTime(Entries(RankedTop(es, limit)))
    ensures UniqueNames(Entries(RankedTop(es, limit)))
  {
    var s := SortByTime(DedupBest(es));
    DedupBestNames(es);
    SortByTimeSpec(DedupBest(es));
    EntriesOfRankedTop(es, limit);
    assert Take(s, limit) == s[..SliceEnd(|s|, limit)];
  }

  /** Each shown record is its player's best record (fastest, earliest on a tie). */
  lemma RankedTopBest(es: seq<Entry>, limit: int)
    ensures forall k :: 0 <= k < |RankedTop(es, limit)| ==> KeptBest(es, RankedTop(es, limit)[k].entry)
  {
    var d := DedupBest(es);
    var s := SortByTime(d);
    var r := RankedTop(es, limit);
    DedupBestKeepsBest(es);
    SortByTimeSpec(d);
    EntriesOfRankedTop(es, limit);
    forall k | 0 <= k < |r| ensures KeptBest(es, r[k].entry) {
      assert r[k].entry == s[k];
      assert s[k] in multiset(d);
      var q :| 0 <= q < |d| && d[q] == s[k];
      var j :| BestAt(es, j) && es[j] == d[q];
    }
  }

  /** In a time-ordered list, a record outside the first `m` is no faster than any of them. */
  lemma SortedPrefixIsTop(s: seq<Entry>, m: nat, e: Entry)
    requires SortedByTime(s) && m <= |s| && e in s && e !in s[..m]
    ensures forall k :: 0 <= k < m ==> s[k].timeMs <= e.timeMs
  {
    var q :| 0 <= q < |s| && s[q] == e;
    assert forall i :: 0 <= i < m ==> s[i] in s[..m];
    assert q >= m;
  }

  /** A player's best record that is not shown is no faster than any shown record. */
  lemma RankedTopIsTop(es: seq<Entry>, limit: int)
    ensures forall e, k :: e in DedupBest(es) && e !in Entries(RankedTop(es, limit)) && 0 <= k < |RankedTop(es, limit)| ==>
              RankedTop(es, limit)[k].entry.timeMs <= e.timeMs
  {
    var d := DedupBest(es);
    var s := SortByTime(d);
    var m := SliceEnd(|s|, limit);
    var r := RankedTop(es, limit);
    SortByTimeSpec(d);
    EntriesOfRankedTop(es, limit);
    forall e | e in d && e !in Entries(r)
      ensures forall k :: 0 <= k < |r| ==> r[k].entry.timeMs <= e.timeMs
    {
      assert e in multiset(s);
      SortedPrefixIsTop(s, m, e);
    }
  }

  // ---------------------------------------------------------------------
  // getPlayerRank
  // ---------------------------------------------------------------------

  /** Number of shown records strictly faster than `t`. */
  function CountFaster(board: seq<Ranked>, t: int): (n: nat)
    ensures n <= |board|
  {
    if board == [] then 0
    else CountFaster(board[..|board| - 1], t) + (if board[|board| - 1].entry.timeMs < t then 1 else 0)
  }

  function PlayerRank(board: seq<Ranked>, t: int): (r: int)
    ensures 1 <= r <= |board| + 1
  {
    CountFaster(board, t) + 1
  }

  /** A slower time never earns a better rank. */
  lemma {:induction false} PlayerRankMonotone(board: seq<Ranked>, t1: int, t2: int)
    requires t1 <= t2
    ensures 1 <= PlayerRank(board, t1) <= PlayerRank(board, t2) <= |board| + 1
  {
    if board != [] {
      PlayerRankMonotone(board[..|board| - 1], t1, t2);
    }
  }

  /**
   * On a board sorted by time the rank is the insertion point of `t`: every
   * record above it is faster, every record from it on is not.
   */
  lemma {:induction false} PlayerRankPosition(board: seq<Ranked>, t: int)
    requires SortedByTime(Entries(board))
    ensures var p := PlayerRank(board, t) - 1;
      && (forall i :: 0 <= i < p ==> board[i].entry.timeMs < t)
      && (forall i :: p <= i < |board| ==> board[i].entry.timeMs >= t)
  {
    if board != [] {
      var n := |board|;
      var init, last := board[..n - 1], board[n - 1];
      assert Entries(init) == Entries(board)[..n - 1];
      PlayerRankPosition(init, t);
      var q := PlayerRank(init, t) - 1;
      if last.entry.timeMs < t {
        forall i | 0 <= i < n - 1 ensures init[i].entry.timeMs < t {
          assert Entries(board)[i].timeMs <= Entries(board)[n - 1].timeMs;
        }
        assert q == n - 1;
        assert PlayerRank(board, t) - 1 == n;
      } else {
        assert PlayerRank(board, t) - 1 == q;
      }
    }
  }


  // ---------------------------------------------------------------------
  // submitScore: validation and normalisation
  // ---------------------------------------------------------------------

  const REQUIRED_ERROR: string := "Player name and time are required"

  /** `Math.round`: the nearest integer, halves rounded up. */
  function Round(x: real): (r: int)
    ensures r as real - 0.5 <= x < r as real + 0.5
  {
    (x + 0.5).Floor
  }

  /** `toUpperCase` on one character: exactly the lower-case ASCII letters change, to their capitals. */
  function UpperChar(c: char): (r: char)
    ensures !('a' <= r <= 'z')
    ensures r != c <==> 'a' <= c <= 'z'
    ensures 'a' <= c <= 'z' ==> 'A' <= r <= 'Z'
  {
    if 'a' <= c <= 'z' then (c as int - 32) as char else c
  }

  function ToUpper(s: string): (r: string)
    ensures |r| == |s|
    ensures forall i :: 0 <= i < |s| ==> r[i] == UpperChar(s[i]) && !('a' <= r[i] <= 'z')
  {
    seq(|s|, i requires 0 <= i < |s| => UpperChar(s[i]))
  }

  function Min(a: int, b: int): int {
    if a < b then a else b
  }

  /**
   * The record `submitScore` builds, or the error it throws: the name is
   * upper-cased and cut to 20 characters, the time rounded to whole
   * milliseconds, and `now` becomes the creation stamp.
   */
  function NewEntry(playerName: string, timeMs: real, now: int): (r: Result<Entry, string>)
    ensures r.Failure? <==> playerName == "" || timeMs == 0.0
    ensures r.Failure? ==> r.error == REQUIRED_ERROR
    ensures r.Success? ==>
      && |r.value.playerName| == Min(|playerName|, MAX_NAME_LENGTH)
      && r.value.playerName != ""
      && (forall i :: 0 <= i < |r.value.playerName| ==>
            r.value.playerName[i] == UpperChar(playerName[i]) && !('a' <= r.value.playerName[i] <= 'z'))
      && (r.value.timeMs as real) - 0.5 <= timeMs < (r.value.timeMs as real) + 0.5
      && r.value.createdAt == now
  {
    if playerName == "" || timeMs == 0.0 then Failure(REQUIRED_ERROR)
    else
      var upper := ToUpper(playerName);
      Success(Entry(upper[..Min(|upper|, MAX_NAME_LENGTH)], Round(timeMs), now))
  }

  // ---------------------------------------------------------------------
  // submitLocal: push, deduplicate, sort, keep the first MAX_ENTRIES
  // ---------------------------------------------------------------------

  /** The list `submitLocal` writes back after adding `e` to the stored list `prev`. */
  function Merge(prev: seq<Entry>, e: Entry): (r: seq<Entry>)
    ensures |r| <= MAX_ENTRIES
  {
    Take(SortByTime(DedupBest(prev + [e])), MAX_ENTRIES)
  }

  /** What the stored list always looks like after a local submission. */
  ghost predicate WellFormedBoard(s: seq<Entry>) {
    UniqueNames(s) && SortedByTime(s) && |s| <= MAX_ENTRIES
  }

  /** After any submission the stored list is deduplicated, sorted and at most 10 long. */
  lemma MergeWellFormed(prev: seq<Entry>, e: Entry)
    ensures WellFormedBoard(Merge(prev, e))
  {
    var d := DedupBest(prev + [e]);
    var s := SortByTime(d);
    DedupBestNames(prev + [e]);
    SortByTimeSpec(d);
    assert Merge(prev, e) == s[..SliceEnd(|s|, MAX_ENTRIES)];
  }

  /** Every stored record comes from the previous list or is the submitted one. */
  lemma MergeFromInput(prev: seq<Entry>, e: Entry)
    ensures forall x :: x in Merge(prev, e) ==> x in prev || x == e
  {
    var es := prev + [e];
    var d := DedupBest(es);
    var s := SortByTime(d);
    DedupBestKeepsBest(es);
    SortByTimeSpec(d);
    forall x | x in Merge(prev, e) ensures x in prev || x == e {
      assert x in s;
      assert x in multiset(d);
      var k :| 0 <= k < |d| && d[k] == x;
      var j :| BestAt(es, j) && es[j] == d[k];
      if j < |prev| { assert prev[j] == x; }
    }
  }

  /** A list with one record per player is its own deduplication. */
  lemma {:induction false} DedupBestUnique(s: seq<Entry>)
    requires UniqueNames(s)
    ensures DedupBest(s) == s
  {
    if s != [] {
      var init, last := s[..|s| - 1], s[|s| - 1];
      assert s == init + [last];
      DedupBestUnique(init);
      forall i | 0 <= i < |init| ensures init[i].playerName != last.playerName {
        assert s[i] == init[i];
      }
    }
  }

  /** Adding `e` to a well-formed list, before sorting, is the one-step map update. */
  lemma DedupAfterPush(prev: seq<Entry>, e: Entry)
    requires UniqueNames(prev)
    ensures DedupBest(prev + [e]) == Keep(prev, e)
  {
    assert (prev + [e])[..|prev|] == prev;
    DedupBestUnique(prev);
  }

  /**
   * A submission to a well-formed stored list keeps the other players:
   * every one of them stays with the same record, except that a new player
   * joining a full list may push out the last (tenth) record.
   */
  lemma MergeKeepsOthers(prev: seq<Entry>, e: Entry, k: int)
    requires WellFormedBoard(prev)
    requires 0 <= k < |prev| && prev[k].playerName != e.playerName
    requires e.playerName in Names(prev) || |prev| < MAX_ENTRIES || k < MAX_ENTRIES - 1
    ensures prev[k] in Merge(prev, e)
  {
    if e.playerName in Names(prev) {
      MergeWholeWhenKnown(prev, e);
      KeepOthersKnown(prev, e, k);
    } else {
      var j, s := MergeNewPlayer(prev, e);
      var at := if k < j then k else k + 1;
      assert s[at] == prev[k];
      assert Merge(prev, e)[at] == prev[k];
    }
  }

  /** The one-step update of a listed player leaves every other record in place. */
  lemma KeepOthersKnown(prev: seq<Entry>, e: Entry, k: int)
    requires e.playerName in Names(prev)
    requires 0 <= k < |prev| && prev[k].playerName != e.playerName
    ensures prev[k] in Keep(prev, e)
  {
    IndexOfNameFound(prev, e.playerName);
    assert Keep(prev, e)[k] == prev[k];
  }

  /**
   * A new player's record is inserted into a well-formed list at its place
   * in time order, and then the list is cut to MAX_ENTRIES.
   */
  lemma MergeNewPlayer(prev: seq<Entry>, e: Entry) returns (j: nat, s: seq<Entry>)
    requires WellFormedBoard(prev) && e.playerName !in Names(prev)
    ensures j <= |prev| && |s| == |prev| + 1 && s[j] == e
    ensures forall i :: 0 <= i < j ==> s[i] == prev[i]
    ensures forall i :: j < i < |s| ==> s[i] == prev[i - 1]
    ensures Merge(prev, e) == s[..SliceEnd(|s|, MAX_ENTRIES)]
  {
    DedupAfterPush(prev, e);
    IndexOfNameFound(prev, e.playerName);
    assert Keep(prev, e) == prev + [e];
    assert (prev + [e])[..|prev|] == prev;
    SortSorted(prev);
    assert SortByTime(prev + [e]) == InsertByTime(prev, e);
    j := InsertByTimeSplit(prev, e);
    s := InsertByTime(prev, e);
    InsertIndices(prev, e, j, s);
  }

  /** Sorting keeps the records and their number. */
  lemma SortByTimeMembers(s: seq<Entry>)
    ensures |SortByTime(s)| == |s|
    ensures forall x :: x in SortByTime(s) <==> x in s
  {
    SortByTimeSpec(s);
    assert |multiset(SortByTime(s))| == |multiset(s)|;
    forall x ensures x in SortByTime(s) <==> x in s {
      assert x in s <==> x in multiset(s);
    }
  }

  /** The one-step update of a listed player keeps the list length. */
  lemma KeepKnownLength(prev: seq<Entry>, e: Entry)
    requires e.playerName in Names(prev)
    ensures |Keep(prev, e)| == |prev|
  {
    IndexOfNameFound(prev, e.playerName);
  }

  /** When the player is already listed nothing is cut: the result is the sorted update. */
  lemma MergeWholeWhenKnown(prev: seq<Entry>, e: Entry)
    requires WellFormedBoard(prev) && e.playerName in Names(prev)
    ensures forall x :: x in Keep(prev, e) <==> x in Merge(prev, e)
  {
    DedupAfterPush(prev, e);
    var d := Keep(prev, e);
    KeepKnownLength(prev, e);
    SortByTimeMembers(d);
    var s := SortByTime(d);
    assert SliceEnd(|s|, MAX_ENTRIES) == |s|;
    assert Merge(prev, e) == s[..|s|] == s;
  }

  /**
   * The submitting player's record after a submission to a well-formed list:
   * a listed player keeps the faster of the old and the new record, and a
   * new player gets in whenever the list had room.
   */
  lemma MergeKeepsSubmitter(prev: seq<Entry>, e: Entry)
    requires WellFormedBoard(prev)
    ensures forall k :: 0 <= k < |prev| && prev[k].playerName == e.playerName ==>
              (if e.timeMs < prev[k].timeMs then e else prev[k]) in Merge(prev, e)
    ensures e.playerName !in Names(prev) && |prev| < MAX_ENTRIES ==> e in Merge(prev, e)
  {
    DedupAfterPush(prev, e);
    var p := IndexOfName(prev, e.playerName);
    IndexOfNameFound(prev, e.playerName);
    if p < |prev| {
      MergeWholeWhenKnown(prev, e);
      var d := Keep(prev, e);
      forall k | 0 <= k < |prev| && prev[k].playerName == e.playerName
        ensures (if e.timeMs < prev[k].timeMs then e else prev[k]) in Merge(prev, e)
      {
        assert k == p;
        assert (if e.timeMs < prev[k].timeMs then e else prev[k]) == d[p];
      }
    } else if |prev| < MAX_ENTRIES {
      var j, s := MergeNewPlayer(prev, e);
      assert Merge(prev, e)[j] == e;
      forall k | 0 <= k < |prev| ensures prev[k].playerName != e.playerName {
        InNames(prev, k);
      }
    } else {
      forall k | 0 <= k < |prev| ensures prev[k].playerName != e.playerName {
        InNames(prev, k);
      }
    }
  }

  // ---------------------------------------------------------------------
  // formatTime
  // ---------------------------------------------------------------------

  /**
   * `formatTime(ms)`: `M:SS.mmm` once there is a whole minute, `S.mmm`
   * otherwise. Division is floored, remainders truncated, as in JavaScript.
   */
  function FormatTime(ms: int): string {
    var seconds := ms / 1000;
    var minutes := seconds / 60;
    var remainingSeconds := JsRem(seconds, 60);
    var milliseconds := JsRem(ms, 1000);
    if minutes > 0 then LongTime(minutes, remainingSeconds, milliseconds)
    else ShortTime(remainingSeconds, milliseconds)
  }

  /** Minutes, a colon, the seconds padded to two digits, a point and the milliseconds padded to three. */
  function LongTime(minutes: int, seconds: int, millis: int): string {
    IntToString(minutes) + ":" + PadStart(IntToString(seconds), 2) + "." + PadStart(IntToString(millis), 3)
  }

  /** The seconds, a point and the milliseconds padded to three digits. */
  function ShortTime(seconds: int, millis: int): string {
    IntToString(seconds) + "." + PadStart(IntToString(millis), 3)
  }

  /** `M:SS` or `S`, as milliseconds. */
  function ParseClock(head: string): Option<int> {
    if |head| >= 4 && head[|head| - 3] == ':' then ParseMinSec(head) else ParseSeconds(head)
  }

  /**
   * Reads `M:SS.mmm` or `S.mmm` back into milliseconds; seconds must be below 60,
   * the second field exactly two digits and the millisecond field exactly three.
   */
  function ParseTime(s: string): Option<int> {
    if |s| < 5 || s[|s| - 4] != '.' then None
    else
      match (ParseClock(s[..|s| - 4]), ParseDigits(s[|s| - 3..]))
      case (Some(clock), Some(millis)) => Some(clock + millis)
      case _ => None
  }

  /** From one minute on: whole minutes, seconds of the minute, milliseconds. */
  lemma MinuteSplit(ms: int)
    requires ms >= 60000
    ensures ms / 1000 / 60 >= 1
    ensures ms == (ms / 1000 / 60) * 60000 + (ms / 1000 % 60) * 1000 + ms % 1000
  {
    var sec := ms / 1000;
    assert ms == sec * 1000 + ms % 1000;
    assert sec == (sec / 60) * 60 + sec % 60;
  }

  /** Under a minute: seconds and milliseconds. */
  lemma SecondSplit(ms: int)
    requires 0 <= ms < 60000
    ensures ms / 1000 / 60 == 0
    ensures ms == (ms / 1000 % 60) * 1000 + ms % 1000
  {
  }

  /** Reading the clock part `M:SS`. */
  lemma {:induction false} ParseClockLong(a: string, b: string)
    requires 1 <= |a| && AllDigits(a)
    requires |b| == 2 && AllDigits(b) && DigitsValue(b) < 60
    ensures ParseClock(a + ":" + b) == Some(DigitsValue(a) * 60000 + DigitsValue(b) * 1000)
  {
    ParseMinSecOf(a, b);
  }

  /** Reading the clock part `S` or `SS`. */
  lemma ParseClockShort(a: string)
    requires 1 <= |a| <= 2 && AllDigits(a) && DigitsValue(a) < 60
    ensures ParseClock(a) == Some(DigitsValue(a) * 1000)
  {
  }

  /** Reading a clock part followed by `.mmm`. */
  lemma {:induction false} ParseWithMillis(head: string, c: string, v: int)
    requires ParseClock(head) == Some(v)
    requires |c| == 3 && AllDigits(c)
    ensures ParseTime(head + "." + c) == Some(v + DigitsValue(c))
  {
    var t := head + "." + c;
    assert t[..|t| - 4] == head;
    assert t[|t| - 3..] == c;
    assert t[|t| - 4] == '.';
    assert ParseClock([]) == None;
  }

  /** Reading a whole `M:SS.mmm` text. */
  lemma {:induction false} ParseLongForm(a: string, b: string, c: string, v: int)
    requires 1 <= |a| && AllDigits(a)
    requires |b| == 2 && AllDigits(b) && DigitsValue(b) < 60
    requires |c| == 3 && AllDigits(c)
    requires v == DigitsValue(a) * 60000 + DigitsValue(b) * 1000 + DigitsValue(c)
    ensures ParseTime(a + ":" + b + "." + c) == Some(v)
  {
    ParseClockLong(a, b);
    ParseWithMillis(a + ":" + b, c, DigitsValue(a) * 60000 + DigitsValue(b) * 1000);
  }

  /** The pieces of the long form and the digits they carry. */
  lemma {:induction false} LongTimePieces(m: nat, sec: nat, millis: nat) returns (a: string, b: string, c: string)
    requires sec < 60 && millis < 1000
    ensures LongTime(m, sec, millis) == a + ":" + b + "." + c
    ensures 1 <= |a| && AllDigits(a) && DigitsValue(a) == m
    ensures |b| == 2 && AllDigits(b) && DigitsValue(b) == sec
    ensures |c| == 3 && AllDigits(c) && DigitsValue(c) == millis
  {
    a := NatToString(m);
    b := PadStart(NatToString(sec), 2);
    c := PadStart(NatToString(millis), 3);
    PaddedNat(sec, 2);
    PaddedNat(millis, 3);
    NatToStringValue(m);
  }

  /** `M:SS.mmm` reads back as its minutes, seconds and milliseconds, and holds a colon. */
  lemma {:induction false} ParseLongTime(m: nat, sec: nat, millis: nat, v: int)
    requires sec < 60 && millis < 1000 && v == m * 60000 + sec * 1000 + millis
    ensures ParseTime(LongTime(m, sec, millis)) == Some(v)
    ensures ':' in LongTime(m, sec, millis)
  {
    var a, b, c := LongTimePieces(m, sec, millis);
    ParseLongForm(a, b, c, v);
    assert (a + ":" + b + "." + c)[|a|] == ':';
  }

  /** The pieces of the short form and the digits they carry. */
  lemma {:induction false} ShortTimePieces(sec: nat, millis: nat) returns (a: string, c: string)
    requires sec < 60 && millis < 1000
    ensures ShortTime(sec, millis) == a + "." + c
    ensures 1 <= |a| <= 2 && AllDigits(a) && DigitsValue(a) == sec
    ensures |c| == 3 && AllDigits(c) && DigitsValue(c) == millis
  {
    a := NatToString(sec);
    c := PadStart(NatToString(millis), 3);
    PaddedNat(millis, 3);
    NatToStringValue(sec);
  }

  /** Reading a whole `S.mmm` text. */
  lemma {:induction false} ParseShortForm(a: string, c: string, v: int)
    requires 1 <= |a| <= 2 && AllDigits(a) && DigitsValue(a) < 60
    requires |c| == 3 && AllDigits(c)
    requires v == DigitsValue(a) * 1000 + DigitsValue(c)
    ensures ParseTime(a + "." + c) == Some(v)
  {
    ParseClockShort(a);
    ParseWithMillis(a, c, DigitsValue(a) * 1000);
  }

  /** Digits around a point hold no colon. */
  lemma NoColon(a: string, c: string)
    requires AllDigits(a) && AllDigits(c)
    ensures ':' !in a + "." + c
  {
    var t := a + "." + c;
    forall i | 0 <= i < |t| ensures t[i] != ':' {
      if i < |a| { assert t[i] == a[i]; } else if i > |a| { assert t[i] == c[i - |a| - 1]; }
    }
  }

  /** `S.mmm` reads back as its seconds and milliseconds, and holds no colon. */
  lemma {:induction false} ParseShortTime(sec: nat, millis: nat, v: int)
    requires sec < 60 && millis < 1000 && v == sec * 1000 + millis
    ensures ParseTime(ShortTime(sec, millis)) == Some(v)
    ensures ':' !in ShortTime(sec, millis)
  {
    var a, c := ShortTimePieces(sec, millis);
    ParseShortForm(a, c, v);
    NoColon(a, c);
  }

  /**
   * A time of at least a minute prints as `M:SS.mmm`, a shorter one as
   * `S.mmm`; in both forms the seconds are below 60, zero-padded to two
   * digits after a colon, the milliseconds padded to three, and the text
   * reads back as the same number of milliseconds.
   */
  lemma {:induction false} FormatTimeRoundTrip(ms: int)
    requires ms >= 0
    ensures ParseTime(FormatTime(ms)) == Some(ms)
    ensures ms >= 60000 <==> ':' in FormatTime(ms)
  {
    var sec, millis := ms / 1000 % 60, ms % 1000;
    assert JsRem(ms / 1000, 60) == sec && JsRem(ms, 1000) == millis;
    if ms >= 60000 {
      MinuteSplit(ms);
      assert FormatTime(ms) == LongTime(ms / 1000 / 60, sec, millis);
      ParseLongTime(ms / 1000 / 60, sec, millis, ms);
    } else {
      SecondSplit(ms);
      assert FormatTime(ms) == ShortTime(sec, millis);
      ParseShortTime(sec, millis, ms);
    }
  }

  // ---------------------------------------------------------------------
  // The local store
  // ---------------------------------------------------------------------

  function StoredOr(item: Option<seq<Entry>>, otherwise: seq<Entry>): seq<Entry> {
    if item.Some? then item.value else otherwise
  }

  /**
   * The browser's local storage as far as the leaderboard uses it: the one
   * item it reads and writes, absent until the first local submission.
   */
  class LocalStore {
    var stored: Option<seq<Entry>>

    constructor (item: Option<seq<Entry>>)
      ensures stored == item
    {
      stored := item;
    }

    /** `getLocalLeaderboard(limit)`: the stored list, or the fallback list, ranked. */
    function LocalLeaderboard(limit: int): (r: seq<Ranked>)
      reads this
      ensures limit >= 0 ==> |r| <= limit
      ensures forall i :: 0 <= i < |r| ==> r[i].rank == i + 1
      ensures SortedByTime(Entries(r)) && UniqueNames(Entries(r))
    {
      var data := StoredOr(stored, FALLBACK_LEADERBOARD);
      RankedTopShape(data, limit);
      RankedTopOrdered(data, limit);
      RankedTop(data, limit)
    }

    /**
     * `getLeaderboard(limit)`: `fetched` is the list the remote bin returned,
     * or None when the remote store is not configured or the request failed.
     */
    function GetLeaderboard(fetched: Option<seq<Entry>>, limit: int): (r: seq<Ranked>)
      reads this
      ensures limit >= 0 ==> |r| <= limit
      ensures forall i :: 0 <= i < |r| ==> r[i].rank == i + 1
      ensures SortedByTime(Entries(r)) && UniqueNames(Entries(r))
    {
      match fetched
      case Some(data) =>
        RankedTopShape(data, limit);
        RankedTopOrdered(data, limit);
        RankedTop(data, limit)
      case None => LocalLeaderboard(limit)
    }

    /**
     * `getPlayerRank(t)`: one more than the number of top-10 records faster
     * than `t`, so between 1 and 11, and the insertion point of `t` in the board.
     */
    function GetPlayerRank(fetched: Option<seq<Entry>>, t: int): (r: int)
      reads this
      ensures 1 <= r <= MAX_ENTRIES + 1
      ensures var board := GetLeaderboard(fetched, MAX_ENTRIES);
        && r - 1 <= |board|
        && (forall i :: 0 <= i < r - 1 ==> board[i].entry.timeMs < t)
        && (forall i :: r - 1 <= i < |board| ==> board[i].entry.timeMs >= t)
    {
      var board := GetLeaderboard(fetched, MAX_ENTRIES);
      PlayerRankMonotone(board, t, t);
      PlayerRankPosition(board, t);
      PlayerRank(board, t)
    }

    /** `submitLocal(entry)`: read, push, deduplicate, sort, cut to 10, write back. */
    method SubmitLocal(entry: Entry) returns (r: Entry)
      modifies this
      ensures r == entry
      ensures stored == Some(Merge(StoredOr(old(stored), []), entry))
      ensures WellFormedBoard(stored.value)
    {
      var leaderboard := StoredOr(stored, []);
      ghost var prev := leaderboard;
      leaderboard := leaderboard + [entry];
      leaderboard := DeduplicateBest(leaderboard);
      leaderboard := SortByTime(leaderboard);
      leaderboard := Take(leaderboard, MAX_ENTRIES);
      stored := Some(leaderboard);
      MergeWellFormed(prev, entry);
      r := entry;
    }

    /** `submitScore` when no remote store is configured: validate, then submit locally. */
    method SubmitScore(playerName: string, timeMs: real, now: int) returns (r: Result<Entry, string>)
      modifies this
      ensures r == NewEntry(playerName, timeMs, now)
      ensures r.Failure? ==> stored == old(stored)
      ensures r.Success? ==> stored == Some(Merge(StoredOr(old(stored), []), r.value))
    {
      r := NewEntry(playerName, timeMs, now);
      if r.Success? {
        var kept := SubmitLocal(r.value);
      }
    }
  }

}
