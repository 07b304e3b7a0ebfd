/**
 * The records of `50_club.json` and the merge that `update_50_club_data`
 * applies to its scorer list: drop repeated `(date, player, points)` keeping
 * the first occurrence, then sort by date, newest first, with `list.sort`,
 * which is stable.
 */
module ClubRecords {
  import opened Wrappers
  import opened Text

  /** One 50-point performance: `date` (`YYYY-MM-DD`), `player`, `team`, `points`, `opponent`. */
  datatype Scorer = Scorer(date: string, player: string, team: string, points: int, opponent: string)

  /** The `50_club.json` document; an absent key is `None`. */
  datatype ClubData = ClubData(
    season: Option<string>,
    lastUpdated: Option<string>,
    lastCheckedDate: Option<string>,
    totalGames: Option<int>,
    scorers: Option<seq<Scorer>>)

  /** `{}`: the document Python treats as false. */
  predicate IsEmptyDict(c: ClubData)
  {
    c.season.None? && c.lastUpdated.None? && c.lastCheckedDate.None? && c.totalGames.None? && c.scorers.None?
  }

  /** `if data:` on a load result, which is `None` or a dictionary. */
  predicate IsTruthy(data: Option<ClubData>)
  {
    data.Some? && !IsEmptyDict(data.value)
  }

  /** The duplicate key of the merge. */
  datatype ScorerKey = ScorerKey(date: string, player: string, points: int)

  function KeyOf(s: Scorer): ScorerKey
  {
    ScorerKey(s.date, s.player, s.points)
  }

  function KeySet(s: seq<Scorer>): set<ScorerKey>
  {
    set x | x in s :: KeyOf(x)
  }

  predicate KeysUnique(s: seq<Scorer>)
  {
    forall i, j :: 0 <= i < j < |s| ==> KeyOf(s[i]) != KeyOf(s[j])
  }

  // ---------------------------------------------------------------------------
  // Deduplication

  /** The loop over `all_scorers` with its `seen` set: each record whose key has not been seen yet. */
  function FirstOccurrences(s: seq<Scorer>): seq<Scorer>
  {
    if s == [] then []
    else
      var prefix := s[..|s| - 1];
      var x := s[|s| - 1];
      if KeyOf(x) in KeySet(prefix) then FirstOccurrences(prefix) else FirstOccurrences(prefix) + [x]
  }

  lemma KeySetSnoc(s: seq<Scorer>)
    requires s != []
    ensures KeySet(s) == KeySet(s[..|s| - 1]) + {KeyOf(s[|s| - 1])}
  {
    assert s == s[..|s| - 1] + [s[|s| - 1]];
  }

  /** The deduplication loop: a `seen` set of keys and the records appended to `unique`. */
  method Dedup(all: seq<Scorer>) returns (unique: seq<Scorer>)
    ensures unique == FirstOccurrences(all)
  {
    unique := [];
    var seen: set<ScorerKey> := {};
    var i := 0;
    while i < |all|
      invariant 0 <= i <= |all|
      invariant unique == FirstOccurrences(all[..i])
      invariant seen == KeySet(all[..i])
    {
      var scorer := all[i];
      var key := KeyOf(scorer);
      assert all[..i + 1][..i] == all[..i];
      KeySetSnoc(all[..i + 1]);
      if key !in seen {
        seen := seen + {key};
        unique := unique + [scorer];
      }
      i := i + 1;
    }
    assert all[..i] == all;
  }

  /** Deduplication only drops records: what it keeps is taken from the input. */
  lemma {:induction false} FirstOccurrencesFromInput(s: seq<Scorer>)
    ensures forall x :: x in FirstOccurrences(s) ==> x in s
  {
    if s != [] {
      FirstOccurrencesFromInput(s[..|s| - 1]);
    }
  }

  /** Every key of the input survives the deduplication. */
  lemma {:induction false} FirstOccurrencesKeys(s: seq<Scorer>)
    ensures KeySet(FirstOccurrences(s)) == KeySet(s)
  {
    if s != [] {
      var prefix := s[..|s| - 1];
      FirstOccurrencesKeys(prefix);
      KeySetSnoc(s);
      if KeyOf(s[|s| - 1]) !in KeySet(prefix) {
        KeySetSnoc(FirstOccurrences(s));
      }
    }
  }

  /** No two records of the result share a key. */
  lemma {:induction false} FirstOccurrencesUnique(s: seq<Scorer>)
    ensures KeysUnique(FirstOccurrences(s))
  {
    if s != [] {
      var prefix := s[..|s| - 1];
      var x := s[|s| - 1];
      FirstOccurrencesUnique(prefix);
      if KeyOf(x) !in KeySet(prefix) {
        FirstOccurrencesKeys(prefix);
        var u := FirstOccurrences(prefix);
        forall i | 0 <= i < |u|
          ensures KeyOf(u[i]) != KeyOf(x)
        {
          assert KeyOf(u[i]) in KeySet(u);
        }
      }
    }
  }

  /** Each record that is the first with its key is kept. */
  lemma {:induction false} FirstOccurrenceKept(s: seq<Scorer>, i: int)
    requires 0 <= i < |s| && KeyOf(s[i]) !in KeySet(s[..i])
    ensures s[i] in FirstOccurrences(s)
  {
    var prefix := s[..|s| - 1];
    if i < |s| - 1 {
      assert prefix[..i] == s[..i];
      FirstOccurrenceKept(prefix, i);
    } else {
      assert prefix == s[..i];
    }
  }

  /** Each kept record is the first of the input with its key. */
  lemma {:induction false} KeptIsFirstOccurrence(s: seq<Scorer>, x: Scorer)
    requires x in FirstOccurrences(s)
    ensures exists i :: 0 <= i < |s| && s[i] == x && KeyOf(x) !in KeySet(s[..i])
  {
    var prefix := s[..|s| - 1];
    if x in FirstOccurrences(prefix) {
      KeptIsFirstOccurrence(prefix, x);
      var i :| 0 <= i < |prefix| && prefix[i] == x && KeyOf(x) !in KeySet(prefix[..i]);
      assert s[..i] == prefix[..i];
    } else {
      assert s[..|s| - 1] == prefix;
    }
  }

  /** Appending records never disturbs the records already kept: they stay in front. */
  lemma {:induction false} FirstOccurrencesPrefix(a: seq<Scorer>, b: seq<Scorer>)
    ensures FirstOccurrences(a) <= FirstOccurrences(a + b)
  {
    if b == [] {
      assert a + b == a;
    } else {
      var b' := b[..|b| - 1];
      assert (a + b)[..|a + b| - 1] == a + b';
      FirstOccurrencesPrefix(a, b');
    }
  }

  /** A list without repeated keys comes through unchanged. */
  lemma {:induction false} FirstOccurrencesOfUnique(s: seq<Scorer>)
    requires KeysUnique(s)
    ensures FirstOccurrences(s) == s
  {
    if s != [] {
      var prefix := s[..|s| - 1];
      assert KeysUnique(prefix);
      FirstOccurrencesOfUnique(prefix);
      forall y | y in prefix
        ensures KeyOf(y) != KeyOf(s[|s| - 1])
      {
        var j :| 0 <= j < |prefix| && prefix[j] == y;
        assert s[j] == y;
      }
      assert s == prefix + [s[|s| - 1]];
    }
  }

  lemma KeyNotInPrefix(s: seq<Scorer>, i: int, x: Scorer)
    requires 0 <= i <= |s| && KeyOf(x) !in KeySet(s[..i])
    ensures forall j :: 0 <= j < i ==> KeyOf(s[j]) != KeyOf(x)
  {
    forall j | 0 <= j < i
      ensures KeyOf(s[j]) != KeyOf(x)
    {
      assert s[..i][j] == s[j];
    }
  }

  /** Existing records win: a kept record whose key the existing list has comes from the existing list. */
  lemma ExistingWin(existing: seq<Scorer>, found: seq<Scorer>, x: Scorer)
    requires x in FirstOccurrences(existing + found) && KeyOf(x) in KeySet(existing)
    ensures x in existing
  {
    var s := existing + found;
    KeptIsFirstOccurrence(s, x);
    var i :| 0 <= i < |s| && s[i] == x && KeyOf(x) !in KeySet(s[..i]);
    var y :| y in existing && KeyOf(y) == KeyOf(x);
    var j :| 0 <= j < |existing| && existing[j] == y;
    KeyNotInPrefix(s, i, x);
    assert s[j] == y;
    assert existing[i] == x;
  }

  // ---------------------------------------------------------------------------
  // Stable sort by date, newest first

  /** No record is dated after one that comes before it. */
  predicate NewestFirst(s: seq<Scorer>)
  {
    forall i, j :: 0 <= i < j < |s| ==> !StrLess(s[i].date, s[j].date)
  }

  /** Inserts `x` after every record dated the same day or later. */
  function InsertByDate(x: Scorer, s: seq<Scorer>): (r: seq<Scorer>)
    ensures multiset(r) == multiset(s) + multiset{x}
  {
    if s == [] then [x]
    else if StrLess(s[0].date, x.date) then [x] + s
    else
      assert s == [s[0]] + s[1..];
      [s[0]] + InsertByDate(x, s[1..])
  }

  /** `sort(key=lambda x: x['date'], reverse=True)`: insertion in input order. */
  function SortByDate(s: seq<Scorer>): (r: seq<Scorer>)
    ensures multiset(r) == multiset(s)
  {
    if s == [] then []
    else
      assert s == s[..|s| - 1] + [s[|s| - 1]];
      InsertByDate(s[|s| - 1], SortByDate(s[..|s| - 1]))
  }

  /** The records of one day, in order. */
  function WithDate(s: seq<Scorer>, d: string): seq<Scorer>
  {
    if s == [] then []
    else (if s[0].date == d then [s[0]] else []) + WithDate(s[1..], d)
  }

  lemma StrLessAsymmetric(a: string, b: string)
    requires StrLess(a, b)
    ensures !StrLess(b, a)
  {
    if StrLess(b, a) {
      StrLessTransitive(a, b, a);
      StrLessIrreflexive(a);
    }
  }

  /** Reversing a failed `<`: not later means the same day or earlier. */
  lemma NotLess(a: string, b: string)
    requires !StrLess(a, b)
    ensures a == b || StrLess(b, a)
  {
    if a != b {
      StrLessTotal(a, b);
    }
  }

  lemma {:induction false} InsertSorted(x: Scorer, s: seq<Scorer>)
    requires NewestFirst(s)
    ensures NewestFirst(InsertByDate(x, s))
  {
    if s == [] {
    } else if StrLess(s[0].date, x.date) {
      forall j | 0 <= j < |s|
        ensures !StrLess(x.date, s[j].date)
      {
        if j > 0 {
          NotLess(s[0].date, s[j].date);
          if s[j].date != s[0].date {
            StrLessTransitive(s[j].date, s[0].date, x.date);
          }
        }
        StrLessAsymmetric(s[j].date, x.date);
      }
    } else {
      var rest := InsertByDate(x, s[1..]);
      InsertSorted(x, s[1..]);
      forall j | 0 <= j < |rest|
        ensures !StrLess(s[0].date, rest[j].date)
      {
        assert rest[j] in multiset(rest);
        if rest[j] != x {
          assert rest[j] in multiset(s[1..]);
          var k :| 0 <= k < |s[1..]| && s[1..][k] == rest[j];
          assert s[k + 1] == rest[j];
        }
      }
    }
  }

  /** The sort orders the records newest first. */
  lemma {:induction false} SortByDateSorted(s: seq<Scorer>)
    ensures NewestFirst(SortByDate(s))
  {
    if s != [] {
      SortByDateSorted(s[..|s| - 1]);
      InsertSorted(s[|s| - 1], SortByDate(s[..|s| - 1]));
    }
  }

  lemma {:induction false} WithDateAppend(a: seq<Scorer>, b: seq<Scorer>, d: string)
    ensures WithDate(a + b, d) == WithDate(a, d) + WithDate(b, d)
  {
    if a != [] {
      assert (a + b)[1..] == a[1..] + b;
      WithDateAppend(a[1..], b, d);
    } else {
      assert a + b == b;
    }
  }

  lemma {:induction false} WithDateNone(s: seq<Scorer>, d: string)
    requires forall j :: 0 <= j < |s| ==> s[j].date != d
    ensures WithDate(s, d) == []
  {
    if s != [] {
      WithDateNone(s[1..], d);
    }
  }

  /** Inserting keeps the relative order of each day's records, the newcomer going last among its day. */
  lemma {:induction false} InsertStable(x: Scorer, s: seq<Scorer>, d: string)
    requires NewestFirst(s)
    ensures WithDate(InsertByDate(x, s), d) == WithDate(s, d) + (if x.date == d then [x] else [])
  {
    if s == [] {
      WithDateSingleton(x, d);
    } else if StrLess(s[0].date, x.date) {
      assert ([x] + s)[1..] == s;
      if x.date == d {
        forall j | 0 <= j < |s|
          ensures s[j].date != d
        {
          if j > 0 {
            NotLess(s[0].date, s[j].date);
            if s[j].date != s[0].date {
              StrLessTransitive(s[j].date, s[0].date, x.date);
            }
          }
          StrLessIrreflexive(x.date);
        }
        WithDateNone(s, d);
      }
    } else {
      InsertStable(x, s[1..], d);
      assert ([s[0]] + InsertByDate(x, s[1..]))[1..] == InsertByDate(x, s[1..]);
    }
  }

  /** The sort is stable: the records of each day keep their input order. */
  lemma {:induction false} SortByDateStable(s: seq<Scorer>, d: string)
    ensures WithDate(SortByDate(s), d) == WithDate(s, d)
  {
    if s != [] {
      var prefix := s[..|s| - 1];
      var x := s[|s| - 1];
      var sorted := SortByDate(prefix);
      var here := if x.date == d then [x] else [];
      SortByDateSorted(prefix);
      calc {
        WithDate(SortByDate(s), d);
        WithDate(InsertByDate(x, sorted), d);
        { InsertStable(x, sorted, d); }
        WithDate(sorted, d) + here;
        { SortByDateStable(prefix, d); }
        WithDate(prefix, d) + here;
        { WithDateAppend(prefix, [x], d); WithDateSingleton(x, d); }
        WithDate(prefix + [x], d);
        { assert s == prefix + [x]; }
        WithDate(s, d);
      }
    }
  }

  lemma WithDateSingleton(x: Scorer, d: string)
    ensures WithDate([x], d) == (if x.date == d then [x] else [])
  {
    assert [x][1..] == [];
  }

  lemma KeysUniqueCons(a: Scorer, u: seq<Scorer>)
    requires KeysUnique(u) && KeyOf(a) !in KeySet(u)
    ensures KeysUnique([a] + u)
  {
    var s := [a] + u;
    forall i, j | 0 <= i < j < |s|
      ensures KeyOf(s[i]) != KeyOf(s[j])
    {
      if i == 0 {
        assert s[j] == u[j - 1];
        assert KeyOf(u[j - 1]) in KeySet(u);
      } else {
        assert s[i] == u[i - 1] && s[j] == u[j - 1];
      }
    }
  }

  lemma {:induction false} InsertUnique(x: Scorer, s: seq<Scorer>)
    requires KeysUnique(s) && KeyOf(x) !in KeySet(s)
    ensures KeysUnique(InsertByDate(x, s))
  {
    if s == [] {
    } else if StrLess(s[0].date, x.date) {
      KeysUniqueCons(x, s);
    } else {
      var tail := s[1..];
      assert KeysUnique(tail);
      assert KeySet(tail) <= KeySet(s);
      InsertUnique(x, tail);
      var rest := InsertByDate(x, tail);
      forall y | y in rest
        ensures KeyOf(y) != KeyOf(s[0])
      {
        assert y in multiset(rest);
        if y == x {
          assert KeyOf(s[0]) in KeySet(s);
        } else {
          assert y in multiset(tail);
          var k :| 0 <= k < |tail| && tail[k] == y;
          assert s[k + 1] == y;
        }
      }
      KeysUniqueCons(s[0], rest);
    }
  }

  /** Sorting does not create repeated keys. */
  lemma {:induction false} SortByDateUnique(s: seq<Scorer>)
    requires KeysUnique(s)
    ensures KeysUnique(SortByDate(s))
  {
    if s != [] {
      var prefix := s[..|s| - 1];
      var x := s[|s| - 1];
      assert KeysUnique(prefix);
      SortByDateUnique(prefix);
      var sorted := SortByDate(prefix);
      forall y | y in sorted
        ensures KeyOf(y) != KeyOf(x)
      {
        assert y in multiset(sorted);
        assert y in multiset(prefix);
        var k :| 0 <= k < |prefix| && prefix[k] == y;
        assert s[k] == y;
      }
      InsertUnique(x, sorted);
    }
  }

  // ---------------------------------------------------------------------------
  // The merge of `update_50_club_data`

  /** Existing scorers followed by the new ones, deduplicated, then sorted newest first. */
  function MergeScorers(existing: seq<Scorer>, found: seq<Scorer>): seq<Scorer>
  {
    SortByDate(FirstOccurrences(existing + found))
  }

  /**
   * What the merge promises: no repeated key, every key of either list kept,
   * newest first, stable within a day, a permutation of the deduplicated list,
   * and on a repeated key the existing record wins.
   */
  lemma MergeScorersSpec(existing: seq<Scorer>, found: seq<Scorer>)
    ensures KeysUnique(MergeScorers(existing, found))
    ensures KeySet(MergeScorers(existing, found)) == KeySet(existing) + KeySet(found)
    ensures NewestFirst(MergeScorers(existing, found))
    ensures multiset(MergeScorers(existing, found)) == multiset(FirstOccurrences(existing + found))
    ensures forall d :: WithDate(MergeScorers(existing, found), d) == WithDate(FirstOccurrences(existing + found), d)
    ensures forall x :: x in MergeScorers(existing, found) && KeyOf(x) in KeySet(existing) ==> x in existing
  {
    var all := existing + found;
    var unique := FirstOccurrences(all);
    var merged := MergeScorers(existing, found);
    FirstOccurrencesUnique(all);
    SortByDateUnique(unique);
    FirstOccurrencesKeys(all);
    assert KeySet(merged) == KeySet(unique) by {
      forall x
        ensures x in merged <==> x in unique
      {
        assert x in merged <==> x in multiset(merged);
        assert x in unique <==> x in multiset(unique);
      }
    }
    assert KeySet(all) == KeySet(existing) + KeySet(found);
    SortByDateSorted(unique);
    forall d
      ensures WithDate(merged, d) == WithDate(unique, d)
    {
      SortByDateStable(unique, d);
    }
    forall x | x in merged && KeyOf(x) in KeySet(existing)
      ensures x in existing
    {
      assert x in multiset(merged);
      assert x in unique;
      ExistingWin(existing, found, x);
    }
  }
}
