/**
 * The `votes` table and the two queries the `/vote` handler runs on it:
 * `hasVoted` (a `COUNT(*)` on `user_id`) and `recordOrUpdateVote`, which checks
 * first and then either rewrites the user's rows (`UPDATE`) or appends one
 * (`INSERT`). The table is a sequence of rows; row order plays no role in any
 * query the program runs.
 */
module BallotStore {

  /** One row of `votes`: the columns `user_id` and `vote_type`. */
  datatype Row = Row(userId: string, voteType: string)

  /** The multiset of all `user_id` values. */
  ghost function UserBag(rows: seq<Row>): multiset<string>
  {
    multiset(seq(|rows|, i requires 0 <= i < |rows| => rows[i].userId))
  }

  /** `SELECT COUNT(*) FROM votes WHERE user_id = ?`: how many rows carry `userId`. */
  function CountUser(rows: seq<Row>, userId: string): (n: nat)
    ensures n == UserBag(rows)[userId]
  {
    if |rows| == 0 then 0
    else
      var p := rows[..|rows| - 1];
      assert seq(|rows|, i requires 0 <= i < |rows| => rows[i].userId)
          == seq(|p|, i requires 0 <= i < |p| => p[i].userId) + [rows[|rows| - 1].userId];
      CountUser(p, userId) + (if rows[|rows| - 1].userId == userId then 1 else 0)
  }

  /** Some row of the table belongs to `userId`. */
  ghost predicate HasRowFor(rows: seq<Row>, userId: string)
  {
    exists i :: 0 <= i < |rows| && rows[i].userId == userId
  }

  /** No user has two rows: the invariant the check-then-insert keeps without relying on a unique key. */
  ghost predicate AtMostOnePerUser(rows: seq<Row>)
  {
    forall i, j :: 0 <= i < j < |rows| ==> rows[i].userId != rows[j].userId
  }

  /** The set of users who have a row. */
  function Voters(rows: seq<Row>): set<string>
  {
    set r | r in rows :: r.userId
  }

  lemma {:induction false} CountUserPositive(rows: seq<Row>, userId: string)
    ensures CountUser(rows, userId) > 0 <==> HasRowFor(rows, userId)
  {
    if |rows| > 0 {
      var p := rows[..|rows| - 1];
      CountUserPositive(p, userId);
      if HasRowFor(p, userId) {
        var i :| 0 <= i < |p| && p[i].userId == userId;
        assert rows[i].userId == userId;
      }
      if HasRowFor(rows, userId) && rows[|rows| - 1].userId != userId {
        var i :| 0 <= i < |rows| && rows[i].userId == userId;
        assert p[i].userId == userId;
      }
    }
  }

  /** `hasVoted`: the count of the user's rows is positive, i.e. the user has a row. */
  function HasVoted(rows: seq<Row>, userId: string): (r: bool)
    ensures r <==> exists i :: 0 <= i < |rows| && rows[i].userId == userId
  {
    CountUserPositive(rows, userId);
    CountUser(rows, userId) > 0
  }

  /** `UPDATE votes SET vote_type = ? WHERE user_id = ?` */
  function UpdateWhere(rows: seq<Row>, userId: string, voteType: string): (r: seq<Row>)
    ensures |r| == |rows|
    ensures forall i :: 0 <= i < |rows| && rows[i].userId == userId ==> r[i] == Row(userId, voteType)
    ensures forall i :: 0 <= i < |rows| && rows[i].userId != userId ==> r[i] == rows[i]
  {
    seq(|rows|, i requires 0 <= i < |rows| =>
      if rows[i].userId == userId then Row(rows[i].userId, voteType) else rows[i])
  }

  lemma UpdateWhereKeepsRow(rows: seq<Row>, userId: string, voteType: string)
    requires HasRowFor(rows, userId)
    ensures exists i :: 0 <= i < |rows| && UpdateWhere(rows, userId, voteType)[i] == Row(userId, voteType)
  {
    var i :| 0 <= i < |rows| && rows[i].userId == userId;
    assert UpdateWhere(rows, userId, voteType)[i] == Row(userId, voteType);
  }

  /**
   * The table after `recordOrUpdateVote(voteType, userId)`: every row of a user
   * who has voted now carries `voteType`; a user without a row gains exactly one.
   * Rows of other users are left as they were.
   */
  function Recorded(rows: seq<Row>, voteType: string, userId: string): (r: seq<Row>)
    ensures |r| == if HasVoted(rows, userId) then |rows| else |rows| + 1
    ensures exists i :: 0 <= i < |r| && r[i] == Row(userId, voteType)
    ensures forall i :: 0 <= i < |r| && r[i].userId == userId ==> r[i].voteType == voteType
    ensures forall i :: 0 <= i < |rows| ==> r[i].userId == rows[i].userId
    ensures forall i :: 0 <= i < |rows| && rows[i].userId != userId ==> r[i] == rows[i]
    ensures !HasVoted(rows, userId) ==> r[|rows|] == Row(userId, voteType)
  {
    if HasVoted(rows, userId) then
      UpdateWhereKeepsRow(rows, userId, voteType);
      UpdateWhere(rows, userId, voteType)
    else
      assert (rows + [Row(userId, voteType)])[|rows|] == Row(userId, voteType);
      rows + [Row(userId, voteType)]
  }

  /** Sequential calls keep "at most one row per user". */
  lemma RecordedKeepsOnePerUser(rows: seq<Row>, voteType: string, userId: string)
    requires AtMostOnePerUser(rows)
    ensures AtMostOnePerUser(Recorded(rows, voteType, userId))
    ensures Voters(Recorded(rows, voteType, userId)) == Voters(rows) + {userId}
  {
  }

  /** A later vote by the same user replaces the earlier one: the last write wins. */
  lemma RecordedLastWriteWins(rows: seq<Row>, first: string, second: string, userId: string)
    ensures Recorded(Recorded(rows, first, userId), second, userId) == Recorded(rows, second, userId)
  {
    if HasVoted(rows, userId) {
      var once := UpdateWhere(rows, userId, first);
      var k :| 0 <= k < |rows| && rows[k].userId == userId;
      assert once[k].userId == userId;
      assert UpdateWhere(once, userId, second) == UpdateWhere(rows, userId, second);
    } else {
      var once := rows + [Row(userId, first)];
      assert once[|rows|].userId == userId;
      assert UpdateWhere(once, userId, second) == rows + [Row(userId, second)];
    }
  }

  /** Recording the same vote twice leaves the table as recording it once. */
  lemma RecordedIdempotent(rows: seq<Row>, voteType: string, userId: string)
    ensures Recorded(Recorded(rows, voteType, userId), voteType, userId) == Recorded(rows, voteType, userId)
  {
    RecordedLastWriteWins(rows, voteType, voteType, userId);
  }

  /** The `votes` table, held by the application for its whole lifetime. */
  class VoteTable {
    var rows: seq<Row>

    /** An empty table. */
    constructor ()
      ensures rows == []
    {
      rows := [];
    }

    /** `recordOrUpdateVote(voteType, userId)`: check, then `UPDATE` or `INSERT`. */
    method RecordOrUpdateVote(voteType: string, userId: string)
      modifies this
      ensures rows == Recorded(old(rows), voteType, userId)
      ensures AtMostOnePerUser(old(rows)) ==> AtMostOnePerUser(rows)
    {
      ghost var before := rows;
      if HasVoted(rows, userId) {
        rows := UpdateWhere(rows, userId, voteType);
      } else {
        rows := rows + [Row(userId, voteType)];
      }
      if AtMostOnePerUser(before) {
        RecordedKeepsOnePerUser(before, voteType, userId);
      }
    }
  }
}
