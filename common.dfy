/**
 * Vocabulary shared by the calorie engines and the meal planners: optional
 * values, results with an error, and the four meal slots with the share of the
 * day's calories each one receives.
 */
module Common {

  datatype Option<T> = None | Some(value: T)

  datatype Result<T, E> = Success(value: T) | Failure(error: E)

  /**
   * JavaScript truthiness of an optional number: absent (undefined) and 0 are
   * both falsy.  NaN, also falsy in JavaScript, has no counterpart in `real`.
   */
  predicate Truthy(o: Option<real>)
  {
    o.Some? && o.value != 0.0
  }

  /** The four meal slots, in the order every total iterates them. */
  datatype Slot = Breakfast | Lunch | Dinner | Snacks

  const AllSlots: seq<Slot> := [Breakfast, Lunch, Dinner, Snacks]

  /** The fraction of the daily target assigned to a slot: 25/35/30/10 percent. */
  function Share(slot: Slot): (f: real)
    ensures 0.0 < f < 1.0
  {
    match slot
    case Breakfast => 0.25
    case Lunch => 0.35
    case Dinner => 0.30
    case Snacks => 0.10
  }

  /** The four shares cover the whole day. */
  lemma SharesSumToOne()
    ensures Share(Breakfast) + Share(Lunch) + Share(Dinner) + Share(Snacks) == 1.0
  {
  }

  /** Array.prototype.filter: the elements that satisfy keep, in their original order. */
  function Filter<T(!new)>(s: seq<T>, keep: T -> bool): (r: seq<T>)
    ensures |r| <= |s|
    ensures forall x :: x in r <==> x in s && keep(x)
  {
    if s == [] then [] else (if keep(s[0]) then [s[0]] else []) + Filter(s[1..], keep)
  }

  /** Filtering distributes over concatenation, so it keeps the original order. */
  lemma {:induction false} FilterConcat<T(!new)>(a: seq<T>, b: seq<T>, keep: T -> bool)
    ensures Filter(a + b, keep) == Filter(a, keep) + Filter(b, keep)
  {
    if a != [] {
      var head := if keep(a[0]) then [a[0]] else [];
      assert (a + b)[0] == a[0] && (a + b)[1..] == a[1..] + b;
      assert Filter(a + b, keep) == head + Filter(a[1..] + b, keep);
      FilterConcat(a[1..], b, keep);
      assert Filter(a, keep) == head + Filter(a[1..], keep);
    } else {
      assert a + b == b;
    }
  }

  /** Filtering one more element appends it exactly when it passes. */
  lemma FilterSnoc<T(!new)>(s: seq<T>, x: T, keep: T -> bool)
    ensures Filter(s + [x], keep) == Filter(s, keep) + (if keep(x) then [x] else [])
  {
    FilterConcat(s, [x], keep);
    assert [x][1..] == [];
  }

  /** Filtering keeps a sequence whose every element passes. */
  lemma {:induction false} FilterKeepsAll<T(!new)>(s: seq<T>, keep: T -> bool)
    requires forall x :: x in s ==> keep(x)
    ensures Filter(s, keep) == s
  {
    if s != [] {
      FilterKeepsAll(s[1..], keep);
    }
  }

  /** Filtering keeps every copy of an element that passes and none of one that fails. */
  lemma {:induction false} FilterCounts<T(!new)>(s: seq<T>, keep: T -> bool, x: T)
    ensures multiset(Filter(s, keep))[x] == if keep(x) then multiset(s)[x] else 0
  {
    if s != [] {
      FilterCounts(s[1..], keep, x);
      assert s == [s[0]] + s[1..];
    }
  }

  /**
   * A localStorage entry holding a JSON list: either text that parses to the
   * list, or text JSON.parse rejects.
   */
  datatype Stored<T> = Parsed(items: seq<T>) | Unparsable

  /** Reading a list entry: a missing entry or one that fails to parse reads as []. */
  function LoadList<T>(storage: map<string, Stored<T>>, key: string): (r: seq<T>)
    ensures key !in storage || storage[key].Unparsable? ==> r == []
    ensures key in storage && storage[key].Parsed? ==> r == storage[key].items
  {
    if key in storage && storage[key].Parsed? then storage[key].items else []
  }

  /** A dictionary read with `|| 0`: a missing key counts as 0. */
  function Lookup(m: map<string, nat>, key: string): nat
  {
    if key in m then m[key] else 0
  }
}
