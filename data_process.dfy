/** Selecting users' rows from a table of comment rows: the rows of one user,
    the number of rows per user in decreasing order (pandas' `value_counts`),
    and the rows of the most frequent users.  Every operation first checks
    that the user-id column exists. */
module DataProcess {
  import opened History

  datatype Option<T> = None | Some(value: T)

  /** A cell that pandas reads as NaN is None. */
  type Row = map<string, Option<string>>

  datatype Table = Table(columns: seq<string>, rows: seq<Row>)

  /** The ValueError raised when the user-id column is absent. */
  datatype DataError = MissingColumn(column: string)

  datatype Result<T> = Ok(value: T) | Err(error: DataError)

  /** One entry of the frequency series: a user id and its row count. */
  datatype Frequency = Frequency(uid: string, count: nat)

  function Cell(row: Row, column: string): Option<string>
  {
    if column in row then row[column] else None
  }

  /** The row's user id is present and among `uids` (NaN is never). */
  predicate UidIn(row: Row, column: string, uids: set<string>)
  {
    Cell(row, column).Some? && Cell(row, column).value in uids
  }

  // ---------------------------------------------------------------------
  // Filtering rows by user id

  /** The rows whose user id is among `uids`, in their original order. */
  function RowsWithUidIn(rows: seq<Row>, column: string, uids: set<string>): (r: seq<Row>)
    ensures |r| <= |rows|
  {
    if rows == [] then []
    else
      var last := rows[|rows| - 1];
      RowsWithUidIn(rows[..|rows| - 1], column, uids) + (if UidIn(last, column, uids) then [last] else [])
  }

  /** A row is kept exactly when it is one of the input rows with a
      matching user id. */
  lemma {:induction false} RowsWithUidInMembers(rows: seq<Row>, column: string, uids: set<string>)
    ensures forall row :: row in RowsWithUidIn(rows, column, uids) <==> row in rows && UidIn(row, column, uids)
  {
    if rows != [] {
      var init := rows[..|rows| - 1];
      RowsWithUidInMembers(init, column, uids);
      assert rows == init + [rows[|rows| - 1]];
    }
  }

  /** The positions of the matching rows, in increasing order. */
  function MatchPositions(rows: seq<Row>, column: string, uids: set<string>): seq<nat>
  {
    if rows == [] then []
    else
      var n := |rows| - 1;
      MatchPositions(rows[..n], column, uids) + (if UidIn(rows[n], column, uids) then [n] else [])
  }

  lemma {:induction false} MatchPositionsPick(rows: seq<Row>, column: string, uids: set<string>)
    ensures |MatchPositions(rows, column, uids)| == |RowsWithUidIn(rows, column, uids)|
    ensures forall k :: 0 <= k < |MatchPositions(rows, column, uids)| ==>
      MatchPositions(rows, column, uids)[k] < |rows| &&
      RowsWithUidIn(rows, column, uids)[k] == rows[MatchPositions(rows, column, uids)[k]]
  {
    if rows != [] {
      var n := |rows| - 1;
      MatchPositionsPick(rows[..n], column, uids);
      assert forall i :: 0 <= i < n ==> rows[..n][i] == rows[i];
    }
  }

  lemma {:induction false} MatchPositionsIncrease(rows: seq<Row>, column: string, uids: set<string>)
    ensures forall k :: 0 <= k < |MatchPositions(rows, column, uids)| ==> MatchPositions(rows, column, uids)[k] < |rows|
    ensures forall k, l :: 0 <= k < l < |MatchPositions(rows, column, uids)| ==>
      MatchPositions(rows, column, uids)[k] < MatchPositions(rows, column, uids)[l]
  {
    if rows != [] {
      MatchPositionsIncrease(rows[..|rows| - 1], column, uids);
    }
  }

  lemma {:induction false} MatchPositionsComplete(rows: seq<Row>, column: string, uids: set<string>)
    ensures forall i :: 0 <= i < |rows| ==> (UidIn(rows[i], column, uids) <==> i in MatchPositions(rows, column, uids))
  {
    if rows != [] {
      var n := |rows| - 1;
      MatchPositionsComplete(rows[..n], column, uids);
      MatchPositionsIncrease(rows[..n], column, uids);
      assert forall i :: 0 <= i < n ==> rows[..n][i] == rows[i];
    }
  }

  /** The kept rows are the matching rows at increasing positions of the
      input, and every matching position is kept: the filter keeps the
      matching rows, all of them, in their original order. */
  lemma RowsWithUidInOrder(rows: seq<Row>, column: string, uids: set<string>)
    returns (positions: seq<nat>)
    ensures |positions| == |RowsWithUidIn(rows, column, uids)|
    ensures forall k :: 0 <= k < |positions| ==>
      positions[k] < |rows| && RowsWithUidIn(rows, column, uids)[k] == rows[positions[k]]
    ensures forall k, l :: 0 <= k < l < |positions| ==> positions[k] < positions[l]
    ensures forall i :: 0 <= i < |rows| ==> (UidIn(rows[i], column, uids) <==> i in positions)
  {
    positions := MatchPositions(rows, column, uids);
    MatchPositionsPick(rows, column, uids);
    MatchPositionsIncrease(rows, column, uids);
    MatchPositionsComplete(rows, column, uids);
  }

  /** `select_user_data`: the rows of one user. */
  function SelectUserData(data: Table, userId: string, column: string): (r: Result<Table>)
    ensures r.Err? <==> column !in data.columns
    ensures r.Err? ==> r.error == MissingColumn(column)
    ensures r.Ok? ==> r.value.columns == data.columns
  {
    if column !in data.columns then Err(MissingColumn(column))
    else Ok(Table(data.columns, RowsWithUidIn(data.rows, column, {userId})))
  }

  /** The selected rows are exactly the rows of that user, in order. */
  lemma SelectUserDataRows(data: Table, userId: string, column: string)
    requires column in data.columns
    ensures var selected := SelectUserData(data, userId, column).value.rows;
      forall row :: row in selected <==> row in data.rows && Cell(row, column) == Some(userId)
  {
    RowsWithUidInMembers(data.rows, column, {userId});
  }

  // ---------------------------------------------------------------------
  // Counting rows per user

  /** The number of rows whose user id is `uid`. */
  function CountUid(rows: seq<Row>, column: string, uid: string): nat
  {
    if rows == [] then 0
    else CountUid(rows[..|rows| - 1], column, uid) + (if Cell(rows[|rows| - 1], column) == Some(uid) then 1 else 0)
  }

  /** The number of rows whose user id is not missing. */
  function PresentCount(rows: seq<Row>, column: string): nat
  {
    if rows == [] then 0
    else PresentCount(rows[..|rows| - 1], column) + (if Cell(rows[|rows| - 1], column).Some? then 1 else 0)
  }

  predicate Present(rows: seq<Row>, column: string, uid: string)
  {
    exists i :: 0 <= i < |rows| && Cell(rows[i], column) == Some(uid)
  }

  /** The user ids of the rows, each once, in order of first appearance. */
  function DistinctUids(rows: seq<Row>, column: string): (r: seq<string>)
    ensures |r| <= |rows|
  {
    if rows == [] then []
    else
      var seen := DistinctUids(rows[..|rows| - 1], column);
      var cell := Cell(rows[|rows| - 1], column);
      seen + (if cell.Some? && cell.value !in seen then [cell.value] else [])
  }

  lemma {:induction false} CountUidPositive(rows: seq<Row>, column: string, uid: string)
    ensures CountUid(rows, column, uid) > 0 <==> Present(rows, column, uid)
  {
    if rows != [] {
      var init := rows[..|rows| - 1];
      CountUidPositive(init, column, uid);
      if Present(init, column, uid) {
        var i :| 0 <= i < |init| && Cell(init[i], column) == Some(uid);
        assert rows[i] == init[i];
      }
      if Present(rows, column, uid) {
        var i :| 0 <= i < |rows| && Cell(rows[i], column) == Some(uid);
        if i < |init| {
          assert init[i] == rows[i];
        }
      }
    }
  }

  /** The distinct ids are exactly the ids present, without repetition. */
  lemma {:induction false} DistinctUidsContents(rows: seq<Row>, column: string)
    ensures NoDuplicates(DistinctUids(rows, column))
    ensures forall uid :: uid in DistinctUids(rows, column) <==> Present(rows, column, uid)
  {
    if rows != [] {
      var init := rows[..|rows| - 1];
      DistinctUidsContents(init, column);
      forall uid
        ensures uid in DistinctUids(rows, column) <==> Present(rows, column, uid)
      {
        if Present(init, column, uid) {
          var i :| 0 <= i < |init| && Cell(init[i], column) == Some(uid);
          assert rows[i] == init[i];
        }
        if Present(rows, column, uid) {
          var i :| 0 <= i < |rows| && Cell(rows[i], column) == Some(uid);
          if i < |init| {
            assert init[i] == rows[i];
          }
        }
      }
    }
  }

  /** The entry of each id in `uids` with its row count, in the order of `uids`. */
  function Frequencies(uids: seq<string>, rows: seq<Row>, column: string): (r: seq<Frequency>)
    ensures |r| == |uids|
    ensures forall i :: 0 <= i < |uids| ==> r[i] == Frequency(uids[i], CountUid(rows, column, uids[i]))
  {
    if uids == [] then []
    else Frequencies(uids[..|uids| - 1], rows, column) + [Frequency(uids[|uids| - 1], CountUid(rows, column, uids[|uids| - 1]))]
  }

  /** The sum of the counts. */
  function Sum(fs: seq<Frequency>): nat
  {
    if fs == [] then 0 else fs[0].count + Sum(fs[1..])
  }

  lemma {:induction false} SumAppend(a: seq<Frequency>, b: seq<Frequency>)
    ensures Sum(a + b) == Sum(a) + Sum(b)
  {
    if a != [] {
      SumAppend(a[1..], b);
      assert (a + b)[0] == a[0];
      assert (a + b)[1..] == a[1..] + b;
    } else {
      assert a + b == b;
    }
  }

  predicate NonIncreasing(fs: seq<Frequency>)
  {
    forall i, j :: 0 <= i < j < |fs| ==> fs[i].count >= fs[j].count
  }

  predicate UniqueUids(fs: seq<Frequency>)
  {
    forall i, j :: 0 <= i < j < |fs| ==> fs[i].uid != fs[j].uid
  }

  /** Places an entry after every entry with an equal or larger count. */
  function InsertByCount(fs: seq<Frequency>, x: Frequency): (r: seq<Frequency>)
    ensures |r| == |fs| + 1
  {
    if fs == [] then [x]
    else if fs[0].count >= x.count then [fs[0]] + InsertByCount(fs[1..], x)
    else [x] + fs
  }

  /** A stable sort by decreasing count. */
  function SortByCount(fs: seq<Frequency>): (r: seq<Frequency>)
    ensures |r| == |fs|
  {
    if fs == [] then []
    else InsertByCount(SortByCount(fs[..|fs| - 1]), fs[|fs| - 1])
  }

  lemma {:induction false} InsertByCountMembers(fs: seq<Frequency>, x: Frequency)
    ensures forall e :: e in InsertByCount(fs, x) <==> e in fs || e == x
  {
    if fs != [] {
      InsertByCountMembers(fs[1..], x);
      assert fs == [fs[0]] + fs[1..];
    }
  }

  /** Inserting adds exactly the one entry. */
  lemma {:induction false} InsertByCountMultiset(fs: seq<Frequency>, x: Frequency)
    ensures multiset(InsertByCount(fs, x)) == multiset(fs) + multiset{x}
  {
    if fs != [] {
      InsertByCountMultiset(fs[1..], x);
      assert fs == [fs[0]] + fs[1..];
    }
  }

  /** Inserting into a list of decreasing counts keeps it so. */
  lemma {:induction false} InsertByCountSorted(fs: seq<Frequency>, x: Frequency)
    requires NonIncreasing(fs)
    ensures NonIncreasing(InsertByCount(fs, x))
  {
    if fs != [] {
      var rest := fs[1..];
      var r := InsertByCount(fs, x);
      if fs[0].count >= x.count {
        InsertByCountSorted(rest, x);
        InsertByCountMembers(rest, x);
        var tail := InsertByCount(rest, x);
        assert r == [fs[0]] + tail;
        forall e | e in tail
          ensures fs[0].count >= e.count
        {
          if e in rest {
            var k :| 0 <= k < |rest| && rest[k] == e;
            assert fs[k + 1] == e;
          }
        }
      } else {
        assert r == [x] + fs;
      }
    }
  }

  lemma {:induction false} InsertByCountSum(fs: seq<Frequency>, x: Frequency)
    ensures Sum(InsertByCount(fs, x)) == Sum(fs) + x.count
  {
    if fs != [] {
      InsertByCountSum(fs[1..], x);
      var r := InsertByCount(fs, x);
      if fs[0].count >= x.count {
        assert r[1..] == InsertByCount(fs[1..], x);
      } else {
        assert r[1..] == fs;
      }
    }
  }

  /** Inserting an entry with a new id keeps the ids unique. */
  lemma {:induction false} InsertByCountUnique(fs: seq<Frequency>, x: Frequency)
    requires UniqueUids(fs)
    requires forall e :: e in fs ==> e.uid != x.uid
    ensures UniqueUids(InsertByCount(fs, x))
  {
    if fs != [] {
      var rest := fs[1..];
      var r := InsertByCount(fs, x);
      if fs[0].count >= x.count {
        InsertByCountUnique(rest, x);
        InsertByCountMembers(rest, x);
        var tail := InsertByCount(rest, x);
        assert r == [fs[0]] + tail;
        forall e | e in tail
          ensures fs[0].uid != e.uid
        {
          if e in rest {
            var k :| 0 <= k < |rest| && rest[k] == e;
            assert fs[k + 1] == e;
          }
        }
      } else {
        assert r == [x] + fs;
      }
    }
  }

  /** Sorting only reorders the entries. */
  lemma {:induction false} SortByCountMultiset(fs: seq<Frequency>)
    ensures multiset(SortByCount(fs)) == multiset(fs)
  {
    if fs != [] {
      var init := fs[..|fs| - 1];
      SortByCountMultiset(init);
      InsertByCountMultiset(SortByCount(init), fs[|fs| - 1]);
      assert fs == init + [fs[|fs| - 1]];
    }
  }

  lemma {:induction false} SortByCountSorted(fs: seq<Frequency>)
    ensures NonIncreasing(SortByCount(fs))
  {
    if fs != [] {
      var init := fs[..|fs| - 1];
      SortByCountSorted(init);
      InsertByCountSorted(SortByCount(init), fs[|fs| - 1]);
    }
  }

  lemma {:induction false} SortByCountSum(fs: seq<Frequency>)
    ensures Sum(SortByCount(fs)) == Sum(fs)
  {
    if fs != [] {
      var init := fs[..|fs| - 1];
      SortByCountSum(init);
      InsertByCountSum(SortByCount(init), fs[|fs| - 1]);
      assert fs == init + [fs[|fs| - 1]];
      SumAppend(init, [fs[|fs| - 1]]);
    }
  }

  lemma {:induction false} SortByCountUnique(fs: seq<Frequency>)
    requires UniqueUids(fs)
    ensures UniqueUids(SortByCount(fs))
  {
    if fs != [] {
      var init := fs[..|fs| - 1];
      var last := fs[|fs| - 1];
      assert UniqueUids(init);
      SortByCountUnique(init);
      SortByCountMultiset(init);
      forall e | e in SortByCount(init)
        ensures e.uid != last.uid
      {
        assert e in multiset(init);
        var k :| 0 <= k < |init| && init[k] == e;
        assert fs[k] == e;
      }
      InsertByCountUnique(SortByCount(init), last);
    }
  }

  /** pandas' `value_counts` on the id column: the distinct ids with their
      row counts, by decreasing count; among equal counts, in order of first
      appearance. */
  function ValueCounts(rows: seq<Row>, column: string): seq<Frequency>
  {
    SortByCount(Frequencies(DistinctUids(rows, column), rows, column))
  }

  /** `count_users_frequency`. */
  function CountUsersFrequency(data: Table, column: string): (r: Result<seq<Frequency>>)
    ensures r.Err? <==> column !in data.columns
    ensures r.Err? ==> r.error == MissingColumn(column)
  {
    if column !in data.columns then Err(MissingColumn(column))
    else Ok(ValueCounts(data.rows, column))
  }

  function UidsOf(fs: seq<Frequency>): set<string>
  {
    set e | e in fs :: e.uid
  }

  /** When a row's id is missing or is not `uid`, counts for `uid` do not
      change; the shift lemma below sums that over a list of ids. */
  lemma {:induction false} SumFrequenciesShift(uids: seq<string>, before: seq<Row>, after: seq<Row>, column: string, added: Option<string>)
    requires NoDuplicates(uids)
    requires forall u :: CountUid(after, column, u) == CountUid(before, column, u) + (if added == Some(u) then 1 else 0)
    ensures Sum(Frequencies(uids, after, column)) ==
      Sum(Frequencies(uids, before, column)) + (if added.Some? && added.value in uids then 1 else 0)
  {
    if uids != [] {
      var init := uids[..|uids| - 1];
      var u := uids[|uids| - 1];
      SumFrequenciesShift(init, before, after, column, added);
      assert Frequencies(uids, after, column) == Frequencies(init, after, column) + [Frequency(u, CountUid(after, column, u))];
      assert Frequencies(uids, before, column) == Frequencies(init, before, column) + [Frequency(u, CountUid(before, column, u))];
      SumAppend(Frequencies(init, after, column), [Frequency(u, CountUid(after, column, u))]);
      SumAppend(Frequencies(init, before, column), [Frequency(u, CountUid(before, column, u))]);
      assert uids == init + [u];
    }
  }

  /** One more row adds one to the count of its id and nothing else. */
  lemma CountUidStep(rows: seq<Row>, column: string)
    requires rows != []
    ensures forall u :: (CountUid(rows, column, u) ==
                         CountUid(rows[..|rows| - 1], column, u) + (if Cell(rows[|rows| - 1], column) == Some(u) then 1 else 0))
  {
  }

  lemma FrequenciesSnocSum(uids: seq<string>, u: string, rows: seq<Row>, column: string)
    ensures Sum(Frequencies(uids + [u], rows, column)) == Sum(Frequencies(uids, rows, column)) + CountUid(rows, column, u)
  {
    assert (uids + [u])[..|uids|] == uids;
    SumAppend(Frequencies(uids, rows, column), [Frequency(u, CountUid(rows, column, u))]);
  }

  /** The counts of the distinct ids add up to the rows with an id. */
  lemma {:induction false} SumOfCounts(rows: seq<Row>, column: string)
    ensures Sum(Frequencies(DistinctUids(rows, column), rows, column)) == PresentCount(rows, column)
  {
    if rows != [] {
      var init := rows[..|rows| - 1];
      var cell := Cell(rows[|rows| - 1], column);
      var seen := DistinctUids(init, column);
      SumOfCounts(init, column);
      DistinctUidsContents(init, column);
      CountUidStep(rows, column);
      SumFrequenciesShift(seen, init, rows, column, cell);
      assert PresentCount(rows, column) == PresentCount(init, column) + (if cell.Some? then 1 else 0);
      if cell.Some? && cell.value !in seen {
        var u := cell.value;
        CountUidPositive(init, column, u);
        FrequenciesSnocSum(seen, u, rows, column);
        assert DistinctUids(rows, column) == seen + [u];
        assert CountUid(rows, column, u) == 1;
      } else {
        assert DistinctUids(rows, column) == seen;
      }
    }
  }

  /** The entries of `value_counts` are the distinct ids present, each
      once, with its row count. */
  lemma ValueCountsEntries(rows: seq<Row>, column: string)
    ensures var vc := ValueCounts(rows, column);
      UniqueUids(vc) &&
      (forall e :: e in vc ==> e.count == CountUid(rows, column, e.uid) && e.count > 0) &&
      (forall uid :: uid in UidsOf(vc) <==> Present(rows, column, uid))
  {
    DistinctUidsContents(rows, column);
    SortByCountUnique(Frequencies(DistinctUids(rows, column), rows, column));
    ValueCountsCounts(rows, column);
    ValueCountsUids(rows, column);
  }

  lemma ValueCountsCounts(rows: seq<Row>, column: string)
    ensures forall e :: e in ValueCounts(rows, column) ==> e.count == CountUid(rows, column, e.uid) && e.count > 0
  {
    var d := DistinctUids(rows, column);
    var fs := Frequencies(d, rows, column);
    var vc := ValueCounts(rows, column);
    DistinctUidsContents(rows, column);
    SortByCountMultiset(fs);
    forall e | e in vc
      ensures e.count == CountUid(rows, column, e.uid) && e.count > 0
    {
      assert e in multiset(fs);
      var i :| 0 <= i < |fs| && fs[i] == e;
      assert d[i] in d;
      CountUidPositive(rows, column, e.uid);
    }
  }

  lemma ValueCountsUids(rows: seq<Row>, column: string)
    ensures forall uid :: uid in UidsOf(ValueCounts(rows, column)) <==> Present(rows, column, uid)
  {
    var d := DistinctUids(rows, column);
    var fs := Frequencies(d, rows, column);
    var vc := ValueCounts(rows, column);
    DistinctUidsContents(rows, column);
    SortByCountMultiset(fs);
    forall uid
      ensures uid in UidsOf(vc) <==> Present(rows, column, uid)
    {
      if uid in UidsOf(vc) {
        var e :| e in vc && e.uid == uid;
        assert e in multiset(fs);
        var i :| 0 <= i < |fs| && fs[i] == e;
        assert d[i] in d;
      }
      if Present(rows, column, uid) {
        var i :| 0 <= i < |d| && d[i] == uid;
        assert fs[i] in multiset(vc);
      }
    }
  }

  /** `value_counts` orders the counts by decreasing size, sums to the
      rows whose id is not missing, and is a reordering of the counts in
      order of first appearance. */
  lemma ValueCountsOrder(rows: seq<Row>, column: string)
    ensures var vc := ValueCounts(rows, column);
      NonIncreasing(vc) &&
      Sum(vc) == PresentCount(rows, column) &&
      multiset(vc) == multiset(Frequencies(DistinctUids(rows, column), rows, column))
  {
    var fs := Frequencies(DistinctUids(rows, column), rows, column);
    SortByCountSorted(fs);
    SortByCountSum(fs);
    SortByCountMultiset(fs);
    SumOfCounts(rows, column);
  }

  // ---------------------------------------------------------------------
  // Keeping the most frequent users

  function Max(a: int, b: int): int { if a >= b then a else b }

  /** pandas' `head(n)`: the first n entries, or all but the last -n when
      n is negative. */
  function Head<T>(s: seq<T>, n: int): (r: seq<T>)
    ensures n >= 0 ==> |r| == if n <= |s| then n else |s|
    ensures n < 0 ==> |r| == Max(|s| + n, 0)
    ensures r == s[..|r|]
  {
    if n >= 0 then (if n <= |s| then s[..n] else s)
    else s[..Max(|s| + n, 0)]
  }

  /** The ids of the first `userNum` entries of the frequency series. */
  function TopUsers(rows: seq<Row>, column: string, userNum: int): set<string>
  {
    UidsOf(Head(ValueCounts(rows, column), userNum))
  }

  /** `save_user_data` without the file write: the rows of the top users. */
  function SaveUserData(data: Table, userNum: int, column: string): (r: Result<Table>)
    ensures r.Err? <==> column !in data.columns
    ensures r.Err? ==> r.error == MissingColumn(column)
    ensures r.Ok? ==> r.value.columns == data.columns
  {
    if column !in data.columns then Err(MissingColumn(column))
    else Ok(Table(data.columns, RowsWithUidIn(data.rows, column, TopUsers(data.rows, column, userNum))))
  }

  lemma PrefixUid(fs: seq<Frequency>, m: nat, j: nat)
    requires m <= |fs| && j < |fs|
    ensures j < m ==> fs[j].uid in UidsOf(fs[..m])
  {
    if j < m {
      assert fs[..m][j] == fs[j];
    }
  }

  /** The users kept for a non-negative `userNum` are min(userNum, number
      of distinct ids) users, each with at least as many rows as any user
      left out. */
  lemma TopUsersMostFrequent(rows: seq<Row>, column: string, userNum: nat)
    ensures var vc := ValueCounts(rows, column);
      |Head(vc, userNum)| == if userNum <= |DistinctUids(rows, column)| then userNum else |DistinctUids(rows, column)|
    ensures forall u, v :: (u in TopUsers(rows, column, userNum) && Present(rows, column, v) &&
                            v !in TopUsers(rows, column, userNum)) ==>
      CountUid(rows, column, u) >= CountUid(rows, column, v)
  {
    var vc := ValueCounts(rows, column);
    var top := Head(vc, userNum);
    ValueCountsEntries(rows, column);
    ValueCountsOrder(rows, column);
    forall u, v | u in TopUsers(rows, column, userNum) && Present(rows, column, v) &&
      v !in TopUsers(rows, column, userNum)
      ensures CountUid(rows, column, u) >= CountUid(rows, column, v)
    {
      var e :| e in top && e.uid == u;
      var i :| 0 <= i < |top| && top[i] == e;
      assert v in UidsOf(vc);
      var f :| f in vc && f.uid == v;
      var j :| 0 <= j < |vc| && vc[j] == f;
      PrefixUid(vc, |top|, j);
      assert vc[i] == e;
    }
  }

  /** The rows `save_user_data` keeps are exactly the rows whose id is among
      the top users. */
  lemma SaveUserDataRows(data: Table, userNum: int, column: string)
    requires column in data.columns
    ensures var kept := SaveUserData(data, userNum, column).value.rows;
      forall row :: row in kept <==>
        row in data.rows && Cell(row, column).Some? && Cell(row, column).value in TopUsers(data.rows, column, userNum)
  {
    RowsWithUidInMembers(data.rows, column, TopUsers(data.rows, column, userNum));
  }
}
