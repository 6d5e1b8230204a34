/**
 * The browser-storage weigh-in log (src/services/weights.local.ts): one JSON
 * list per user under `weights_<uid>`, read back newest first, with at most
 * one weigh-in per calendar day.
 *
 * localStorage is a map from key to stored list; a weigh-in's date is its
 * instant in milliseconds, as in the Progress module.
 */
module WeightsLocal {
  import opened Common
  import StableSort
  import Progress

  type WeightLog = Progress.WeightLog

  const KeyPrefix: string := "weights_"

  /** KEY: the storage key of a user; an empty uid is the guest. */
  function Key(uid: string): (key: string)
    ensures |key| > |KeyPrefix| && key[..|KeyPrefix|] == KeyPrefix
    ensures key[|KeyPrefix|..] == if uid == "" then "guest" else uid
  {
    KeyPrefix + (if uid == "" then "guest" else uid)
  }

  /** Two users share a key only when they are the same user or both the guest. */
  lemma KeysSeparateUsers(a: string, b: string)
    ensures Key(a) == Key(b) <==> a == b || (a in {"", "guest"} && b in {"", "guest"})
  {
    var sa := if a == "" then "guest" else a;
    var sb := if b == "" then "guest" else b;
    if Key(a) == Key(b) {
      assert sa == Key(a)[|KeyPrefix|..] == Key(b)[|KeyPrefix|..] == sb;
    }
  }

  /** The key sortDesc compares by: a later weigh-in has a smaller key. */
  function NewestFirst(log: WeightLog): real
  {
    -(log.time as real)
  }

  /** No weigh-in comes before a later one. */
  ghost predicate IsNewestFirst(list: seq<WeightLog>)
  {
    forall i, j :: 0 <= i < j < |list| ==> list[i].time >= list[j].time
  }

  /** list.sort(sortDesc): newest first, same-instant weigh-ins in their given order. */
  function SortDesc(list: seq<WeightLog>): (r: seq<WeightLog>)
    ensures IsNewestFirst(r)
    ensures multiset(r) == multiset(list)
  {
    StableSort.SortSorted(list, NewestFirst);
    StableSort.SortPermutes(list, NewestFirst);
    StableSort.Sort(list, NewestFirst)
  }

  const MsPerDay: int := 24 * 60 * 60 * 1000

  /** The UTC calendar day of an instant, what toISOString().slice(0, 10) names. */
  function DayKey(time: int): (day: int)
    ensures day * MsPerDay <= time < (day + 1) * MsPerDay
  {
    time / MsPerDay
  }

  /** The filter of addWeighInLS: weigh-ins on a day other than the given one. */
  function OnOtherDay(day: int): WeightLog -> bool
  {
    (x: WeightLog) => DayKey(x.time) != day
  }

  /**
   * The list addWeighInLS stores: the weigh-ins of other days, the new one,
   * newest first.
   */
  function Upsert(list: seq<WeightLog>, log: WeightLog): (r: seq<WeightLog>)
    ensures IsNewestFirst(r)
    ensures |r| <= |list| + 1
    ensures multiset(r) == multiset(Filter(list, OnOtherDay(DayKey(log.time)))) + multiset{log}
  {
    SortDesc(Filter(list, OnOtherDay(DayKey(log.time))) + [log])
  }

  /** After an upsert the log's day has exactly one weigh-in, the new one. */
  lemma UpsertLeavesOneEntryForTheDay(list: seq<WeightLog>, log: WeightLog)
    ensures multiset(Upsert(list, log))[log] == 1
    ensures forall x :: x in Upsert(list, log) && DayKey(x.time) == DayKey(log.time) ==> x == log
  {
    var day := DayKey(log.time);
    var r := Upsert(list, log);
    FilterCounts(list, OnOtherDay(day), log);
    forall x | x in r && DayKey(x.time) == day
      ensures x == log
    {
      assert x in multiset(r);
      FilterCounts(list, OnOtherDay(day), x);
    }
  }

  /** An upsert keeps every weigh-in of another day, as many times as it was there. */
  lemma UpsertKeepsOtherDays(list: seq<WeightLog>, log: WeightLog)
    ensures forall x: WeightLog :: DayKey(x.time) != DayKey(log.time) ==> multiset(Upsert(list, log))[x] == multiset(list)[x]
  {
    forall x: WeightLog | DayKey(x.time) != DayKey(log.time)
      ensures multiset(Upsert(list, log))[x] == multiset(list)[x]
    {
      FilterCounts(list, OnOtherDay(DayKey(log.time)), x);
    }
  }

  /**
   * getWeightLogsLS: the user's stored list newest first; [] when nothing
   * is stored or the entry does not parse.
   */
  function GetWeightLogs(storage: map<string, Stored<WeightLog>>, uid: string): (r: seq<WeightLog>)
    ensures Key(uid) !in storage || storage[Key(uid)].Unparsable? ==> r == []
    ensures Key(uid) in storage && storage[Key(uid)].Parsed? ==> multiset(r) == multiset(storage[Key(uid)].items)
    ensures IsNewestFirst(r)
  {
    SortDesc(LoadList(storage, Key(uid)))
  }

  /** localStorage as the weigh-in service sees it. */
  class WeightStore {
    var storage: map<string, Stored<WeightLog>>

    constructor(initial: map<string, Stored<WeightLog>>)
      ensures storage == initial
    {
      storage := initial;
    }

    /** addWeighInLS: stores the upserted list under the user's key and nowhere else. */
    method AddWeighIn(uid: string, log: WeightLog)
      modifies this
      ensures storage == old(storage)[Key(uid) := Parsed(Upsert(GetWeightLogs(old(storage), uid), log))]
    {
      var list := GetWeightLogs(storage, uid);
      var next := Upsert(list, log);
      storage := storage[Key(uid) := Parsed(next)];
    }
  }

  /** Reading a user's list back after adding a weigh-in yields the stored upsert, in its order. */
  lemma ReadBackAfterAdd(storage: map<string, Stored<WeightLog>>, uid: string, log: WeightLog)
    ensures var next := Upsert(GetWeightLogs(storage, uid), log);
      GetWeightLogs(storage[Key(uid) := Parsed(next)], uid) == next
  {
    var next := Upsert(GetWeightLogs(storage, uid), log);
    StableSort.SortSorted(Filter(GetWeightLogs(storage, uid), OnOtherDay(DayKey(log.time))) + [log], NewestFirst);
    StableSort.SortOfSorted(next, NewestFirst);
  }

  /** Adding a weigh-in for one user leaves what every other user reads unchanged. */
  lemma AddLeavesOtherUsers(storage: map<string, Stored<WeightLog>>, uid: string, other: string, next: seq<WeightLog>)
    requires other != uid && !(uid in {"", "guest"} && other in {"", "guest"})
    ensures GetWeightLogs(storage[Key(uid) := Parsed(next)], other) == GetWeightLogs(storage, other)
  {
    KeysSeparateUsers(uid, other);
  }
}
