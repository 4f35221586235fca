/** The top-five high-score table of the original flappy game
    (1_3d_flappy_bird_game/highscores.js). `addHighScore` appends, sorts by
    score in descending order with the stable `Array.prototype.sort`, and keeps
    the first five. The sort is modelled as a stable insertion sort: each
    entry, taken in input order, is placed after every entry already placed
    whose score is at least its own. Persistence as JSON is not modelled; the
    timestamp of a new entry is a parameter. */
module HighScores {
  import opened Basics

  datatype Entry = Entry(name: string, score: int, date: string)

  const MaxEntries: nat := 5

  /** Scores never increase along the table. */
  predicate SortedDesc(t: seq<Entry>)
  {
    forall i, j :: 0 <= i < j < |t| ==> t[i].score >= t[j].score
  }

  /** The shape every table written by `AddHighScore` has. */
  predicate ValidTable(t: seq<Entry>)
  {
    SortedDesc(t) && |t| <= MaxEntries
  }

  /** A score qualifies while the table is short, or when it beats the last
      entry; on a sorted table that is the same as beating any entry. */
  function IsHighScore(t: seq<Entry>, score: int): (r: bool)
    ensures |t| < MaxEntries ==> r
    ensures SortedDesc(t) && |t| >= MaxEntries ==>
      (r <==> exists i :: 0 <= i < |t| && score > t[i].score)
  {
    if |t| < MaxEntries then true
    else
      var last := t[|t| - 1];
      assert score > last.score ==> exists i :: 0 <= i < |t| && score > t[i].score;
      assert SortedDesc(t) ==> forall i :: 0 <= i < |t| ==> t[i].score >= last.score;
      score > last.score
  }

  /** Place `e` just before the first entry that scores strictly less. */
  function Insert(t: seq<Entry>, e: Entry): (r: seq<Entry>)
    ensures |r| == |t| + 1
    ensures multiset(r) == multiset(t) + multiset{e}
  {
    if |t| == 0 then [e]
    else if t[0].score < e.score then [e] + t
    else
      assert t == [t[0]] + t[1..];
      [t[0]] + Insert(t[1..], e)
  }

  /** Inserting into a sorted table keeps it sorted. */
  lemma InsertKeepsSorted(t: seq<Entry>, e: Entry)
    requires SortedDesc(t)
    ensures SortedDesc(Insert(t, e))
  {
    var k := CountAtLeast(t, e.score);
    InsertSplits(t, e);
    var r := t[..k] + [e] + t[k..];
    forall i, j | 0 <= i < j < |r|
      ensures r[i].score >= r[j].score
    {
      SplitAt(t, e, k, i);
      SplitAt(t, e, k, j);
    }
  }

  /** The entries of `t` with `e` put in at position `k`. */
  lemma SplitAt(t: seq<Entry>, e: Entry, k: nat, i: nat)
    requires k <= |t| && i <= |t|
    ensures (t[..k] + [e] + t[k..])[i] == if i < k then t[i] else if i == k then e else t[i - 1]
  {
  }

  /** The stable descending sort. */
  function SortDesc(s: seq<Entry>): (r: seq<Entry>)
    ensures |r| == |s|
    ensures multiset(r) == multiset(s)
    ensures SortedDesc(r)
  {
    if |s| == 0 then []
    else
      assert s == s[..|s| - 1] + [s[|s| - 1]];
      InsertKeepsSorted(SortDesc(s[..|s| - 1]), s[|s| - 1]);
      Insert(SortDesc(s[..|s| - 1]), s[|s| - 1])
  }

  function NewEntry(name: string, score: int, date: string): Entry
  {
    Entry(name, score, date)
  }

  /** Append, sort, keep the top five. */
  function AddHighScore(t: seq<Entry>, name: string, score: int, date: string): (r: seq<Entry>)
    ensures ValidTable(r)
    ensures |r| == (if |t| < MaxEntries then |t| + 1 else MaxEntries)
    ensures multiset(r) <= multiset(t) + multiset{NewEntry(name, score, date)}
  {
    var all := t + [NewEntry(name, score, date)];
    var sorted := SortDesc(all);
    var n := if |sorted| > MaxEntries then MaxEntries else |sorted|;
    assert multiset(all) == multiset(t) + multiset{NewEntry(name, score, date)};
    assert sorted == sorted[..n] + sorted[n..];
    sorted[..n]
  }

  /** Only entries ranked below the fifth are dropped, so every dropped entry
      scores no more than every kept one. */
  lemma AddDropsOnlyLowest(t: seq<Entry>, name: string, score: int, date: string)
    ensures var r := AddHighScore(t, name, score, date);
      forall x, y :: x in multiset(t) + multiset{NewEntry(name, score, date)} - multiset(r) && y in r ==>
        y.score >= x.score
  {
    var all := t + [NewEntry(name, score, date)];
    var sorted := SortDesc(all);
    var n := if |sorted| > MaxEntries then MaxEntries else |sorted|;
    var r := AddHighScore(t, name, score, date);
    assert r == sorted[..n];
    assert multiset(all) == multiset(t) + multiset{NewEntry(name, score, date)};
    assert sorted == sorted[..n] + sorted[n..];
    assert multiset(sorted) == multiset(r) + multiset(sorted[n..]);
    forall x, y | x in multiset(t) + multiset{NewEntry(name, score, date)} - multiset(r) && y in r
      ensures y.score >= x.score
    {
      assert x in sorted[n..];
      var j :| n <= j < |sorted| && sorted[j] == x;
      var i :| 0 <= i < n && sorted[i] == y;
    }
  }

  /** Sorting a sorted table changes nothing. */
  lemma {:induction false} SortSortedIsIdentity(t: seq<Entry>)
    requires SortedDesc(t)
    ensures SortDesc(t) == t
    decreases |t|
  {
    if |t| > 0 {
      var p := t[..|t| - 1];
      SortSortedIsIdentity(p);
      InsertLowestAppends(p, t[|t| - 1]);
      assert p + [t[|t| - 1]] == t;
    }
  }

  /** An entry scoring no more than everything in the table goes last: the
      sort keeps it behind equal scores. */
  lemma {:induction false} InsertLowestAppends(t: seq<Entry>, e: Entry)
    requires forall i :: 0 <= i < |t| ==> t[i].score >= e.score
    ensures Insert(t, e) == t + [e]
    decreases |t|
  {
    if |t| > 0 {
      InsertLowestAppends(t[1..], e);
      assert [t[0]] + (t[1..] + [e]) == t + [e];
    }
  }

  /** On a sorted table, adding a score is a single stable insertion. */
  lemma AddToSorted(t: seq<Entry>, e: Entry)
    requires SortedDesc(t)
    ensures SortDesc(t + [e]) == Insert(t, e)
  {
    assert (t + [e])[..|t|] == t;
    SortSortedIsIdentity(t);
  }

  /** An insertion splits the table after its leading run of entries that
      score at least as much as the new one. */
  lemma {:induction false} InsertSplits(t: seq<Entry>, e: Entry)
    ensures Insert(t, e) == t[..CountAtLeast(t, e.score)] + [e] + t[CountAtLeast(t, e.score)..]
    decreases |t|
  {
    if |t| > 0 && t[0].score >= e.score {
      var u := t[1..];
      InsertSplits(u, e);
      ConsSplit(t, e, CountAtLeast(u, e.score));
    }
  }

  /** Putting the head back in front of a split tail. */
  lemma ConsSplit(t: seq<Entry>, e: Entry, k: nat)
    requires 0 < |t| && k < |t|
    ensures [t[0]] + (t[1..][..k] + [e] + t[1..][k..]) == t[..k + 1] + [e] + t[k + 1..]
  {
    assert t[..k + 1] == [t[0]] + t[1..][..k];
    assert t[k + 1..] == t[1..][k..];
  }

  /** On a valid table the test and the insertion agree: the new entry makes
      it into the table exactly when `IsHighScore` says so, and otherwise the
      table is left as it was. */
  lemma HighScoreIsKept(t: seq<Entry>, name: string, score: int, date: string)
    requires ValidTable(t)
    ensures IsHighScore(t, score) ==> NewEntry(name, score, date) in AddHighScore(t, name, score, date)
    ensures !IsHighScore(t, score) ==> AddHighScore(t, name, score, date) == t
  {
    var e := NewEntry(name, score, date);
    if IsHighScore(t, score) {
      KeptWhenHigh(t, e);
    } else {
      UnchangedWhenLow(t, e);
    }
  }

  /** A qualifying score lands at the end of the leading run, inside the cut. */
  lemma KeptWhenHigh(t: seq<Entry>, e: Entry)
    requires ValidTable(t) && IsHighScore(t, e.score)
    ensures e in AddHighScore(t, e.name, e.score, e.date)
  {
    var k := CountAtLeast(t, e.score);
    if |t| == MaxEntries {
      assert e.score > t[|t| - 1].score;
    }
    assert k < (if |t| < MaxEntries then |t| + 1 else MaxEntries);
    AddIsSplitPrefix(t, e);
    SplitAt(t, e, k, k);
    assert AddHighScore(t, e.name, e.score, e.date)[k] == e;
  }

  /** A score that does not qualify goes last in a full table and is cut off. */
  lemma UnchangedWhenLow(t: seq<Entry>, e: Entry)
    requires ValidTable(t) && !IsHighScore(t, e.score)
    ensures AddHighScore(t, e.name, e.score, e.date) == t
  {
    var k := CountAtLeast(t, e.score);
    assert k == |t|;
    AddIsSplitPrefix(t, e);
    assert t[..k] + [e] + t[k..] == t + [e];
    assert (t + [e])[..MaxEntries] == t;
  }

  /** On a sorted table, adding an entry inserts it after the leading run of
      entries scoring at least as much, then cuts the table at five. */
  lemma AddIsSplitPrefix(t: seq<Entry>, e: Entry)
    requires SortedDesc(t)
    ensures var k := CountAtLeast(t, e.score);
      AddHighScore(t, e.name, e.score, e.date) == (t[..k] + [e] + t[k..])[..(if |t| < MaxEntries then |t| + 1 else MaxEntries)]
  {
    AddToSorted(t, e);
    InsertSplits(t, e);
  }

  /** The length of the table's leading run of entries scoring at least
      `score`. */
  function CountAtLeast(t: seq<Entry>, score: int): (k: nat)
    ensures k <= |t|
    ensures forall i :: 0 <= i < k ==> t[i].score >= score
    ensures k < |t| ==> t[k].score < score
  {
    if |t| == 0 || t[0].score < score then 0
    else 1 + CountAtLeast(t[1..], score)
  }

  /** With a full table, a new score equal to the lowest one is dropped, the
      stable sort keeping it behind the old entry. */
  lemma TieWithLastIsDropped(t: seq<Entry>, name: string, score: int, date: string)
    requires SortedDesc(t) && |t| == MaxEntries
    requires score == t[|t| - 1].score
    ensures AddHighScore(t, name, score, date) == t
  {
    HighScoreIsKept(t, name, score, date);
  }
}
