/**
 * The `/results` aggregation: `SELECT vote_type, COUNT(*) as count FROM votes
 * GROUP BY vote_type`, followed by the `forEach` loop that copies each group
 * into the `results` dictionary. Only vote types that have rows appear.
 */
module TallyAggregator {
  import opened BallotStore

  /** One row of the grouped query: a vote type and its row count. */
  datatype Group = Group(voteType: string, count: nat)

  /** Number of rows whose `vote_type` is `voteType`. */
  function CountType(rows: seq<Row>, voteType: string): nat
  {
    if |rows| == 0 then 0
    else CountType(rows[..|rows| - 1], voteType) + (if rows[|rows| - 1].voteType == voteType then 1 else 0)
  }

  /** The vote types that occur in the table. */
  function VoteTypes(rows: seq<Row>): set<string>
  {
    set r | r in rows :: r.voteType
  }

  /** The multiset of all `vote_type` values: an independent account of the counts. */
  ghost function TypeBag(rows: seq<Row>): multiset<string>
  {
    multiset(seq(|rows|, i requires 0 <= i < |rows| => rows[i].voteType))
  }

  /** The users whose row carries `voteType`. */
  function VotersFor(rows: seq<Row>, voteType: string): set<string>
  {
    set r | r in rows && r.voteType == voteType :: r.userId
  }

  /**
   * The tally the `/results` screen shows: each vote type present in the table
   * mapped to its number of rows. Vote types with no rows are absent.
   */
  function Tally(rows: seq<Row>): map<string, nat>
  {
    map t | t in VoteTypes(rows) :: CountType(rows, t)
  }

  lemma VoteTypesSnoc(rows: seq<Row>)
    requires |rows| > 0
    ensures VoteTypes(rows) == VoteTypes(rows[..|rows| - 1]) + {rows[|rows| - 1].voteType}
  {
  }

  lemma {:induction false} CountTypePositive(rows: seq<Row>, voteType: string)
    ensures CountType(rows, voteType) > 0 <==> voteType in VoteTypes(rows)
  {
    if |rows| > 0 {
      CountTypePositive(rows[..|rows| - 1], voteType);
      VoteTypesSnoc(rows);
    }
  }

  lemma AllCountsPositive(rows: seq<Row>)
    ensures forall t :: CountType(rows, t) > 0 <==> t in VoteTypes(rows)
  {
    forall t ensures CountType(rows, t) > 0 <==> t in VoteTypes(rows) {
      CountTypePositive(rows, t);
    }
  }

  /** The recursive count agrees with the multiplicity in the multiset of vote types. */
  lemma {:induction false} CountTypeIsMultiplicity(rows: seq<Row>, voteType: string)
    ensures CountType(rows, voteType) == TypeBag(rows)[voteType]
  {
    if |rows| > 0 {
      var p := rows[..|rows| - 1];
      CountTypeIsMultiplicity(p, voteType);
      var s := seq(|rows|, i requires 0 <= i < |rows| => rows[i].voteType);
      var sp := seq(|p|, i requires 0 <= i < |p| => p[i].voteType);
      assert s == sp + [rows[|rows| - 1].voteType];
    }
  }

  /**
   * The tally holds exactly the vote types that have rows, each with its
   * number of rows, which is positive.
   */
  lemma TallyIsMultiplicity(rows: seq<Row>)
    ensures forall t :: t in Tally(rows) <==> TypeBag(rows)[t] > 0
    ensures forall t :: t in Tally(rows) ==> Tally(rows)[t] == TypeBag(rows)[t] > 0
  {
    forall t ensures CountType(rows, t) == TypeBag(rows)[t] {
      CountTypeIsMultiplicity(rows, t);
    }
    AllCountsPositive(rows);
  }

  /** Distinct vote types in order of first appearance. */
  function DistinctTypes(rows: seq<Row>): (d: seq<string>)
    ensures forall i, j :: 0 <= i < j < |d| ==> d[i] != d[j]
    ensures forall t :: t in d <==> t in VoteTypes(rows)
  {
    if |rows| == 0 then []
    else
      var d := DistinctTypes(rows[..|rows| - 1]);
      var t := rows[|rows| - 1].voteType;
      VoteTypesSnoc(rows);
      if t in d then d else d + [t]
  }

  /**
   * The result set of the grouped query: one group per vote type present, with
   * its row count. The order of the groups is not fixed by the query; this one
   * lists them by first appearance, and nothing downstream depends on it.
   */
  function GroupBy(rows: seq<Row>): (g: seq<Group>)
    ensures forall i, j :: 0 <= i < j < |g| ==> g[i].voteType != g[j].voteType
    ensures forall i :: 0 <= i < |g| ==> g[i].count == CountType(rows, g[i].voteType) && g[i].count > 0
    ensures forall t :: t in VoteTypes(rows) <==> exists i :: 0 <= i < |g| && g[i].voteType == t
  {
    var d := DistinctTypes(rows);
    AllCountsPositive(rows);
    var g := seq(|d|, i requires 0 <= i < |d| => Group(d[i], CountType(rows, d[i])));
    assert forall t :: t in d ==> exists i :: 0 <= i < |g| && g[i].voteType == t by {
      forall t | t in d ensures exists i :: 0 <= i < |g| && g[i].voteType == t {
        var i :| 0 <= i < |d| && d[i] == t;
        assert g[i].voteType == t;
      }
    }
    g
  }

  /** No later group carries the same vote type as group `i`. */
  ghost predicate IsLastOfType(groups: seq<Group>, i: int)
    requires 0 <= i < |groups|
  {
    forall j :: i < j < |groups| ==> groups[j].voteType != groups[i].voteType
  }

  /**
   * The one key a plain JavaScript object will not take as its own: assigning
   * a number to `results['__proto__']` runs the prototype setter, which ignores
   * it, so no entry appears.
   */
  const ProtoKey: string := "__proto__"

  /** The dictionary the `/results` frame lists: the tally without `__proto__`. */
  function ShownTally(rows: seq<Row>): map<string, nat>
  {
    Tally(rows) - {ProtoKey}
  }

  /**
   * The `forEach` that fills `results`: every group's vote type other than
   * `__proto__` becomes a key, and a key's value is the count of the last group
   * of that type.
   */
  method CollectResults(groups: seq<Group>) returns (results: map<string, nat>)
    ensures results.Keys == (set g | g in groups :: g.voteType) - {ProtoKey}
    ensures forall i :: 0 <= i < |groups| && groups[i].voteType != ProtoKey && IsLastOfType(groups, i) ==>
              results[groups[i].voteType] == groups[i].count
  {
    results := map[];
    var n := 0;
    while n < |groups|
      invariant 0 <= n <= |groups|
      invariant results.Keys == (set g | g in groups[..n] :: g.voteType) - {ProtoKey}
      invariant forall i :: 0 <= i < n && groups[i].voteType != ProtoKey && IsLastOfType(groups[..n], i) ==>
                  results[groups[i].voteType] == groups[i].count
    {
      assert groups[..n + 1] == groups[..n] + [groups[n]];
      if groups[n].voteType != ProtoKey {
        results := results[groups[n].voteType := groups[n].count];
      }
      n := n + 1;
      forall i | 0 <= i < n && groups[i].voteType != ProtoKey && IsLastOfType(groups[..n], i)
        ensures results[groups[i].voteType] == groups[i].count
      {
        if i < n - 1 {
          assert IsLastOfType(groups[..n - 1], i);
        }
      }
    }
    assert groups[..n] == groups;
  }

  /** The `/results` handler's data: the grouped query, then the `forEach`. */
  method QueryResults(table: VoteTable) returns (results: map<string, nat>)
    ensures results == ShownTally(table.rows)
  {
    var groups := GroupBy(table.rows);
    results := CollectResults(groups);
    AllCountsPositive(table.rows);
    forall t | t in results ensures t in ShownTally(table.rows) && results[t] == ShownTally(table.rows)[t] {
      var g :| g in groups && g.voteType == t;
      var i :| 0 <= i < |groups| && groups[i] == g;
      assert IsLastOfType(groups, i);
    }
    forall t | t in ShownTally(table.rows) ensures t in results {
      var i :| 0 <= i < |groups| && groups[i].voteType == t;
      assert groups[i] in groups;
    }
  }

  ghost function MapSum(m: map<string, nat>): nat
    decreases |m|
  {
    if m == map[] then 0
    else
      var k :| k in m;
      m[k] + MapSum(m - {k})
  }

  lemma MapSumRemove(m: map<string, nat>, k: string)
    requires k in m
    ensures MapSum(m) == m[k] + MapSum(m - {k})
    decreases |m|
  {
    var j :| j in m && MapSum(m) == m[j] + MapSum(m - {j});
    if j != k {
      MapSumRemove(m - {j}, k);
      MapSumRemove(m - {k}, j);
      assert m - {j} - {k} == m - {k} - {j};
    }
  }

  lemma TallySnoc(rows: seq<Row>)
    requires |rows| > 0
    ensures var p := rows[..|rows| - 1]; var t := rows[|rows| - 1].voteType;
      Tally(rows) == Tally(p)[t := CountType(p, t) + 1]
  {
  }

  /** The counts add up to the number of rows. */
  lemma {:induction false} TallySum(rows: seq<Row>)
    ensures MapSum(Tally(rows)) == |rows|
  {
    if |rows| == 0 {
      assert Tally(rows) == map[];
    } else {
      var p := rows[..|rows| - 1];
      var t := rows[|rows| - 1].voteType;
      var m := Tally(p);
      TallySum(p);
      TallySnoc(rows);
      MapSumRemove(m[t := CountType(p, t) + 1], t);
      assert m[t := CountType(p, t) + 1] - {t} == m - {t};
      if t in m {
        MapSumRemove(m, t);
      } else {
        CountTypePositive(p, t);
        assert m - {t} == m;
      }
    }
  }

  /** With one row per user, a vote type's count is the number of users whose vote it is. */
  lemma {:induction false} CountTypeIsVoters(rows: seq<Row>, voteType: string)
    requires AtMostOnePerUser(rows)
    ensures CountType(rows, voteType) == |VotersFor(rows, voteType)|
  {
    if |rows| > 0 {
      var p := rows[..|rows| - 1];
      var last := rows[|rows| - 1];
      assert AtMostOnePerUser(p);
      CountTypeIsVoters(p, voteType);
      assert rows == p + [last];
      if last.voteType == voteType {
        assert VotersFor(rows, voteType) == VotersFor(p, voteType) + {last.userId};
        assert last.userId !in VotersFor(p, voteType);
      } else {
        assert VotersFor(rows, voteType) == VotersFor(p, voteType);
      }
    }
  }

  /** With one row per user, there are as many rows as voters. */
  lemma {:induction false} RowsAreVoters(rows: seq<Row>)
    requires AtMostOnePerUser(rows)
    ensures |rows| == |Voters(rows)|
  {
    if |rows| > 0 {
      var p := rows[..|rows| - 1];
      var last := rows[|rows| - 1];
      assert AtMostOnePerUser(p);
      RowsAreVoters(p);
      assert rows == p + [last];
      assert Voters(rows) == Voters(p) + {last.userId};
      assert last.userId !in Voters(p);
    }
  }

  /**
   * Under one row per user, each count in the tally is the number of users whose
   * current vote is that type, and the counts add up to the number of voters.
   */
  lemma TallyCountsVoters(rows: seq<Row>)
    requires AtMostOnePerUser(rows)
    ensures forall t :: t in Tally(rows) ==> Tally(rows)[t] == |VotersFor(rows, t)|
    ensures MapSum(Tally(rows)) == |Voters(rows)|
  {
    forall t | t in Tally(rows) ensures Tally(rows)[t] == |VotersFor(rows, t)| {
      CountTypeIsVoters(rows, t);
    }
    TallySum(rows);
    RowsAreVoters(rows);
  }

  lemma {:induction false} CountTypeReplace(rows: seq<Row>, i: nat, r: Row, voteType: string)
    requires i < |rows|
    ensures CountType(rows[i := r], voteType) + (if rows[i].voteType == voteType then 1 else 0)
         == CountType(rows, voteType) + (if r.voteType == voteType then 1 else 0)
  {
    var n := |rows|;
    if i == n - 1 {
      assert rows[i := r][..n - 1] == rows[..n - 1];
    } else {
      CountTypeReplace(rows[..n - 1], i, r, voteType);
      assert rows[i := r][..n - 1] == rows[..n - 1][i := r];
    }
  }

  /**
   * Recording a vote moves one unit of count to the new vote type, taken from
   * the type of the user's previous row when there was one.
   */
  lemma RecordedMovesOneVote(rows: seq<Row>, voteType: string, userId: string, t: string)
    requires AtMostOnePerUser(rows)
    ensures !HasVoted(rows, userId) ==>
      CountType(Recorded(rows, voteType, userId), t) == CountType(rows, t) + (if voteType == t then 1 else 0)
    ensures forall i :: 0 <= i < |rows| && rows[i].userId == userId ==>
      CountType(Recorded(rows, voteType, userId), t) + (if rows[i].voteType == t then 1 else 0)
      == CountType(rows, t) + (if voteType == t then 1 else 0)
  {
    if HasVoted(rows, userId) {
      forall i | 0 <= i < |rows| && rows[i].userId == userId
        ensures CountType(Recorded(rows, voteType, userId), t) + (if rows[i].voteType == t then 1 else 0)
             == CountType(rows, t) + (if voteType == t then 1 else 0)
      {
        assert UpdateWhere(rows, userId, voteType) == rows[i := Row(userId, voteType)];
        CountTypeReplace(rows, i, Row(userId, voteType), t);
      }
    } else {
      assert (rows + [Row(userId, voteType)])[..|rows|] == rows;
    }
  }

  /**
   * The listed counts add up to the number of rows, less the rows whose vote
   * type is `__proto__`, which are stored but never listed.
   */
  lemma ShownTallySum(rows: seq<Row>)
    ensures MapSum(ShownTally(rows)) + CountType(rows, ProtoKey) == |rows|
    ensures ProtoKey !in ShownTally(rows)
  {
    TallySum(rows);
    CountTypePositive(rows, ProtoKey);
    if ProtoKey in Tally(rows) {
      MapSumRemove(Tally(rows), ProtoKey);
    } else {
      assert ShownTally(rows) == Tally(rows);
    }
  }
}
