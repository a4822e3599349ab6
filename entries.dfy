/**
 * The dated calorie log of app.js: the global `entriesByDate`, a map from a
 * date key to that day's entries, most recent first. The submit handler
 * prepends an entry, the delete button of an entry splices it out, and
 * renderEntries sums the day's calories.
 */
module Entries {
  import opened Wrappers
  import Text
  import Units

  /** One food entry: its name and its whole number of calories. */
  datatype Entry = Entry(food: string, calories: int)

  type Groups = map<string, seq<Entry>>

  /**
   * `Math.round`: the integer nearest to `x`, halves rounded up. A value that
   * is not negative rounds to a value that is not negative.
   */
  function Round(x: real): (n: int)
    ensures n as real - 0.5 <= x < n as real + 0.5
    ensures x >= 0.0 ==> n >= 0
  {
    (x + 0.5).Floor
  }

  /** The entries of a day; a day without a group has none. */
  function GroupOf(m: Groups, key: string): seq<Entry> {
    if key in m then m[key] else []
  }

  /**
   * The calories of a group, summed from the first entry to the last as the
   * render loop does: 0 for no entries, and not negative when no entry is.
   */
  function TotalCalories(g: seq<Entry>): (total: int)
    ensures g == [] ==> total == 0
    ensures (forall i :: 0 <= i < |g| ==> g[i].calories >= 0) ==> total >= 0
  {
    if g == [] then 0 else TotalCalories(g[..|g| - 1]) + g[|g| - 1].calories
  }

  /** Every stored entry has a food name and a calorie count that is not negative. */
  predicate WellFormed(m: Groups) {
    forall key, i :: key in m && 0 <= i < |m[key]| ==> m[key][i].food != [] && m[key][i].calories >= 0
  }

  /** The submit handler's check: a food name left after trimming, and calories that are a number >= 0. */
  predicate Accepts(food: string, calories: Units.Number)
    ensures Accepts(food, calories) <==> !Text.AllWhitespace(food) && calories.Some? && calories.value >= 0.0
  {
    Text.Trim(food) != [] && calories.Some? && calories.value >= 0.0
  }

  /** ensureDate: an empty group for `key` when it has none; an existing group is kept. */
  function WithDate(m: Groups, key: string): (r: Groups)
    ensures key in r
    ensures forall k :: k in m ==> k in r && r[k] == m[k]
    ensures forall k :: k in r && k != key ==> k in m
    ensures key !in m ==> r[key] == []
  {
    if key in m then m else m[key := []]
  }

  /**
   * The store after a submission of `food` and `calories` for `key`: unchanged
   * when the input is refused, otherwise the trimmed name with the rounded
   * calories in front of the day's group.
   */
  function Inserted(m: Groups, key: string, food: string, calories: Units.Number): (r: Groups)
    ensures !Accepts(food, calories) ==> r == m
    ensures Accepts(food, calories) ==> key in r && |r[key]| == |GroupOf(m, key)| + 1
    ensures forall k :: k != key ==> (k in r <==> k in m) && GroupOf(r, k) == GroupOf(m, k)
  {
    if !Accepts(food, calories) then m
    else
      var m' := WithDate(m, key);
      m'[key := [Entry(Text.Trim(food), Round(calories.value))] + m'[key]]
  }

  /** `splice(idx, 1)`: the element at `idx` taken out; an index past the end takes nothing. */
  function RemoveAt(g: seq<Entry>, idx: nat): (r: seq<Entry>)
    ensures idx >= |g| ==> r == g
    ensures idx < |g| ==> |r| == |g| - 1
    ensures idx < |g| ==> (forall i :: 0 <= i < idx ==> r[i] == g[i]) && (forall i :: idx <= i < |r| ==> r[i] == g[i + 1])
  {
    if idx < |g| then g[..idx] + g[idx + 1..] else g
  }

  /**
   * The store after the delete button of entry `idx` of `key` is pressed. A day
   * without a group is left as it is: the source's `splice` on a missing group
   * throws before anything is changed or saved.
   */
  function Deleted(m: Groups, key: string, idx: nat): (r: Groups)
    ensures key in r <==> key in m
    ensures GroupOf(r, key) == RemoveAt(GroupOf(m, key), idx)
    ensures forall k :: k != key ==> (k in r <==> k in m) && GroupOf(r, k) == GroupOf(m, k)
  {
    if key in m then m[key := RemoveAt(m[key], idx)] else m
  }

  /** The state the app holds in the global `entriesByDate`. */
  class CalorieLog {
    var entriesByDate: Groups

    /** The log before loading, or after a load that found nothing or failed to parse. */
    constructor ()
      ensures entriesByDate == map[]
    {
      entriesByDate := map[];
    }

    /**
     * loadState: the parsed saved map, or an empty map when nothing was saved
     * or it did not parse (`stored` is None then).
     */
    method LoadState(stored: Option<Groups>)
      modifies this
      ensures entriesByDate == if stored.Some? then stored.value else map[]
    {
      match stored
      case Some(saved) => entriesByDate := saved;
      case None => entriesByDate := map[];
    }

    /** ensureDate. */
    method EnsureDate(key: string)
      modifies this
      ensures entriesByDate == WithDate(old(entriesByDate), key)
    {
      if key !in entriesByDate {
        entriesByDate := entriesByDate[key := []];
      }
    }

    /** The submit handler, for the date key it has formatted. */
    method Submit(key: string, food: string, calories: Units.Number)
      modifies this
      ensures entriesByDate == Inserted(old(entriesByDate), key, food, calories)
      ensures WellFormed(old(entriesByDate)) ==> WellFormed(entriesByDate)
    {
      if WellFormed(entriesByDate) {
        InsertedWellFormed(entriesByDate, key, food, calories);
      }
      var name := Text.Trim(food);
      if name == [] || !(calories.Some? && calories.value >= 0.0) {
        return;
      }
      EnsureDate(key);
      entriesByDate := entriesByDate[key := [Entry(name, Round(calories.value))] + entriesByDate[key]];
    }

    /** The click handler on the delete button of entry `idx` of the day `key`. */
    method Delete(key: string, idx: nat)
      modifies this
      ensures entriesByDate == Deleted(old(entriesByDate), key, idx)
      ensures WellFormed(old(entriesByDate)) ==> WellFormed(entriesByDate)
    {
      if WellFormed(entriesByDate) {
        DeletedWellFormed(entriesByDate, key, idx);
      }
      if key in entriesByDate {
        var g := entriesByDate[key];
        if idx < |g| {
          entriesByDate := entriesByDate[key := g[..idx] + g[idx + 1..]];
        }
      }
    }

    /** The day's total shown by renderEntries: 0 for a day with no entries. */
    method DailyTotal(key: string) returns (total: int)
      ensures total == TotalCalories(GroupOf(entriesByDate, key))
      ensures WellFormed(entriesByDate) ==> total >= 0
    {
      if key !in entriesByDate || |entriesByDate[key]| == 0 {
        return 0;
      }
      var list := entriesByDate[key];
      total := 0;
      var i := 0;
      while i < |list|
        invariant 0 <= i <= |list|
        invariant total == TotalCalories(list[..i])
      {
        assert list[..i + 1][..i] == list[..i];
        total := total + list[i].calories;
        i := i + 1;
      }
      assert list[..i] == list;
    }

    /** renderEntries, as far as the store goes: the day's group is ensured, then totalled. */
    method Render(key: string) returns (total: int)
      modifies this
      ensures entriesByDate == WithDate(old(entriesByDate), key)
      ensures total == TotalCalories(GroupOf(old(entriesByDate), key))
    {
      EnsureDate(key);
      total := DailyTotal(key);
    }
  }

  lemma {:induction false} TotalOfPrepended(e: Entry, g: seq<Entry>)
    ensures TotalCalories([e] + g) == e.calories + TotalCalories(g)
  {
    if g != [] {
      var last := |g| - 1;
      assert ([e] + g)[..|g|] == [e] + g[..last];
      TotalOfPrepended(e, g[..last]);
    }
  }

  lemma {:induction false} TotalOfConcat(a: seq<Entry>, b: seq<Entry>)
    ensures TotalCalories(a + b) == TotalCalories(a) + TotalCalories(b)
  {
    if b != [] {
      assert (a + b)[..|a + b| - 1] == a + b[..|b| - 1];
      TotalOfConcat(a, b[..|b| - 1]);
    } else {
      assert a + b == a;
    }
  }

  /** Creating an empty group changes no day's entries: a missing group and an empty one are the same day. */
  lemma WithDateKeepsGroups(m: Groups, key: string, k: string)
    ensures GroupOf(WithDate(m, key), k) == GroupOf(m, k)
  {
  }

  /** A refused submission leaves the store as it was. */
  lemma RefusedSubmissionChangesNothing(m: Groups, key: string, food: string, calories: Units.Number)
    requires Text.AllWhitespace(food) || calories.None? || calories.value < 0.0
    ensures Inserted(m, key, food, calories) == m
  {
  }

  /**
   * An accepted submission puts the trimmed name and the rounded calories in
   * front of the day's entries (none if the day had no group), adds exactly
   * those calories to the day's total, and leaves every other day as it was.
   */
  lemma AcceptedSubmission(m: Groups, key: string, food: string, calories: Units.Number)
    requires Accepts(food, calories)
    ensures var r := Inserted(m, key, food, calories);
      var e := Entry(Text.Trim(food), Round(calories.value));
      key in r && r[key] == [e] + GroupOf(m, key) &&
      TotalCalories(r[key]) == Round(calories.value) + TotalCalories(GroupOf(m, key)) &&
      (forall k :: k != key ==> (k in r <==> k in m) && GroupOf(r, k) == GroupOf(m, k))
  {
    TotalOfPrepended(Entry(Text.Trim(food), Round(calories.value)), GroupOf(m, key));
  }

  /** Submissions keep every stored entry named and its calories a whole number >= 0. */
  lemma InsertedWellFormed(m: Groups, key: string, food: string, calories: Units.Number)
    requires WellFormed(m)
    ensures WellFormed(Inserted(m, key, food, calories))
  {
    if Accepts(food, calories) {
      var r: Groups := Inserted(m, key, food, calories);
      forall k: string, i: int | k in r && 0 <= i < |r[k]| ensures r[k][i].food != [] && r[k][i].calories >= 0 {
        if k == key && i > 0 {
          assert r[k][i] == GroupOf(m, key)[i - 1];
        }
      }
    }
  }

  /**
   * Deleting entry `idx` of a day that has it removes exactly that entry: the
   * day has one entry fewer, those before it and after it keep their order,
   * the total drops by its calories, and every other day is untouched.
   */
  lemma DeletedInRange(m: Groups, key: string, idx: nat)
    requires key in m && idx < |m[key]|
    ensures var r := Deleted(m, key, idx);
      var g, g' := m[key], r[key];
      key in r && |g'| == |g| - 1 &&
      (forall i :: 0 <= i < idx ==> g'[i] == g[i]) &&
      (forall i :: idx <= i < |g'| ==> g'[i] == g[i + 1]) &&
      multiset(g) == multiset(g') + multiset{g[idx]} &&
      TotalCalories(g') == TotalCalories(g) - g[idx].calories &&
      (forall k :: k != key ==> (k in r <==> k in m) && GroupOf(r, k) == GroupOf(m, k))
  {
    var g := m[key];
    assert g == g[..idx] + [g[idx]] + g[idx + 1..];
    TotalOfConcat(g[..idx] + [g[idx]], g[idx + 1..]);
    TotalOfConcat(g[..idx], [g[idx]]);
    TotalOfConcat(g[..idx], g[idx + 1..]);
    assert TotalCalories([g[idx]]) == g[idx].calories by {
      assert [g[idx]][..0] == [];
    }
  }

  /** Deleting past the end of a day, or on a day without a group, changes nothing. */
  lemma DeletedOutOfRange(m: Groups, key: string, idx: nat)
    requires idx >= |GroupOf(m, key)|
    ensures Deleted(m, key, idx) == m
  {
  }

  /** Deletions keep the store well formed. */
  lemma DeletedWellFormed(m: Groups, key: string, idx: nat)
    requires WellFormed(m)
    ensures WellFormed(Deleted(m, key, idx))
  {
    if key in m && idx < |m[key]| {
      var r: Groups := Deleted(m, key, idx);
      forall k: string, i: int | k in r && 0 <= i < |r[k]| ensures r[k][i].food != [] && r[k][i].calories >= 0 {
        if k == key && i >= idx {
          assert r[k][i] == m[key][i + 1];
        }
      }
    }
  }

  /** The entries a run of accepted submissions stores, in submission order. */
  function Stored(batch: seq<(string, real)>): seq<Entry> {
    if batch == [] then []
    else Stored(batch[..|batch| - 1]) + [Entry(Text.Trim(batch[|batch| - 1].0), Round(batch[|batch| - 1].1))]
  }

  /** The store after each submission of `batch` in turn, all for the same day. */
  function InsertedAll(m: Groups, key: string, batch: seq<(string, real)>): Groups {
    if batch == [] then m
    else
      var last := batch[|batch| - 1];
      Inserted(InsertedAll(m, key, batch[..|batch| - 1]), key, last.0, Some(last.1))
  }

  function Reverse(s: seq<Entry>): (r: seq<Entry>)
    ensures |r| == |s|
    ensures forall i :: 0 <= i < |s| ==> r[i] == s[|s| - 1 - i]
  {
    if s == [] then [] else [s[|s| - 1]] + Reverse(s[..|s| - 1])
  }

  lemma {:induction false} TotalOfReverse(s: seq<Entry>)
    ensures TotalCalories(Reverse(s)) == TotalCalories(s)
  {
    if s != [] {
      var init := s[..|s| - 1];
      TotalOfReverse(init);
      TotalOfPrepended(s[|s| - 1], Reverse(init));
      assert s == init + [s[|s| - 1]];
      TotalOfConcat(init, [s[|s| - 1]]);
      assert [s[|s| - 1]][..0] == [];
    }
  }

  /**
   * Insert-then-query: after accepted submissions for one day, the day lists
   * them newest first, in front of what it held.
   */
  lemma {:induction false} InsertedAllThenQuery(m: Groups, key: string, batch: seq<(string, real)>)
    requires forall j :: 0 <= j < |batch| ==> Text.Trim(batch[j].0) != [] && batch[j].1 >= 0.0
    ensures GroupOf(InsertedAll(m, key, batch), key) == Reverse(Stored(batch)) + GroupOf(m, key)
  {
    if batch != [] {
      var init, last := batch[..|batch| - 1], batch[|batch| - 1];
      assert forall j :: 0 <= j < |init| ==> init[j] == batch[j];
      InsertedAllThenQuery(m, key, init);
      var e := Entry(Text.Trim(last.0), Round(last.1));
      PrependedGroup(InsertedAll(m, key, init), key, last.0, Some(last.1));
      assert Reverse(Stored(batch)) == [e] + Reverse(Stored(init));
      ConcatAssociative([e], Reverse(Stored(init)), GroupOf(m, key));
    }
  }

  /** The day's total after accepted submissions grows by the sum of their rounded calories. */
  lemma InsertedAllTotal(m: Groups, key: string, batch: seq<(string, real)>)
    requires forall j :: 0 <= j < |batch| ==> Text.Trim(batch[j].0) != [] && batch[j].1 >= 0.0
    ensures TotalCalories(GroupOf(InsertedAll(m, key, batch), key))
         == TotalCalories(Stored(batch)) + TotalCalories(GroupOf(m, key))
  {
    InsertedAllThenQuery(m, key, batch);
    TotalOfConcat(Reverse(Stored(batch)), GroupOf(m, key));
    TotalOfReverse(Stored(batch));
  }

  /** The day's group after one accepted submission (a step of InsertedAllThenQuery, kept small for the solver). */
  lemma PrependedGroup(m: Groups, key: string, food: string, calories: Units.Number)
    requires Accepts(food, calories)
    ensures GroupOf(Inserted(m, key, food, calories), key)
         == [Entry(Text.Trim(food), Round(calories.value))] + GroupOf(m, key)
  {
  }

  lemma ConcatAssociative(a: seq<Entry>, b: seq<Entry>, c: seq<Entry>)
    ensures a + (b + c) == (a + b) + c
  {
  }

  /** Any reordering of a run of entries, not only its reversal, keeps the total. */
  lemma {:induction false} TotalOfPermutation(a: seq<Entry>, b: seq<Entry>)
    requires multiset(a) == multiset(b)
    ensures TotalCalories(a) == TotalCalories(b)
  {
    if a == [] {
      assert |b| == |multiset(b)| == 0;
    } else {
      var init, x := a[..|a| - 1], a[|a| - 1];
      assert a == init + [x];
      assert x in multiset(b);
      var j :| 0 <= j < |b| && b[j] == x;
      var rest := b[..j] + b[j + 1..];
      assert b == b[..j] + [x] + b[j + 1..];
      assert multiset(a) == multiset(init) + multiset{x};
      assert multiset(b) == multiset(b[..j]) + multiset{x} + multiset(b[j + 1..]);
      assert multiset(rest) == multiset(b[..j]) + multiset(b[j + 1..]);
      assert multiset(init) == multiset(a) - multiset{x};
      assert multiset(rest) == multiset(b) - multiset{x};
      TotalOfPermutation(init, rest);
      TotalOfConcat(init, [x]);
      TotalOfConcat(b[..j] + [x], b[j + 1..]);
      TotalOfConcat(b[..j], [x]);
      TotalOfConcat(b[..j], b[j + 1..]);
      assert [x][..0] == [];
    }
  }
}
