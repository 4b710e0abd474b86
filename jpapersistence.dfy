/**
 * The table ai_user_behavior behind the history store and the native query
 * JpaBehaviorRepository.findRecentByUserIdNative:
 *   SELECT * FROM ai_user_behavior WHERE user_id = :userId
 *   ORDER BY timestamp DESC LIMIT :limit
 * The table is an in-memory sequence of rows in insertion order; ids come
 * from an increasing counter (GenerationType.IDENTITY, starting at 1).
 */
module JpaPersistence {
  import opened RiskModel

  /** One row (UserBehaviorEntity); `id` is `None` until the row is inserted. */
  datatype UserBehaviorEntity = UserBehaviorEntity(
    id: Option<nat>,
    userId: string,
    ipAddress: string,
    eventType: string,
    requestUrl: string,
    riskScore: int,
    timestamp: int)

  /** WHERE user_id = :userId, keeping table order. */
  function Matching(table: seq<UserBehaviorEntity>, userId: string): (rows: seq<UserBehaviorEntity>)
    ensures forall i :: 0 <= i < |rows| ==> rows[i].userId == userId
    ensures multiset(rows) <= multiset(table)
  {
    if table == [] then []
    else
      assert table == [table[0]] + table[1..];
      (if table[0].userId == userId then [table[0]] else []) + Matching(table[1..], userId)
  }

  /** Each row of the user occurs in the selection as often as in the table; no other row does. */
  lemma {:induction false} MatchingMultiplicity(table: seq<UserBehaviorEntity>, userId: string, e: UserBehaviorEntity)
    ensures multiset(Matching(table, userId))[e] == if e.userId == userId then multiset(table)[e] else 0
  {
    if table != [] {
      assert table == [table[0]] + table[1..];
      MatchingMultiplicity(table[1..], userId, e);
    }
  }

  lemma {:induction false} MatchingAppend(table: seq<UserBehaviorEntity>, e: UserBehaviorEntity)
    ensures Matching(table + [e], e.userId) == Matching(table, e.userId) + [e]
  {
    if table == [] {
      assert table + [e] == [e];
      assert [e][1..] == [];
    } else {
      assert (table + [e])[1..] == table[1..] + [e];
      MatchingAppend(table[1..], e);
    }
  }

  /** ORDER BY timestamp DESC holds of `s`. */
  predicate SortedByTimestampDesc(s: seq<UserBehaviorEntity>)
  {
    forall i, j :: 0 <= i < j < |s| ==> s[i].timestamp >= s[j].timestamp
  }

  /** A row no older than the head of a sorted sequence can go in front of it. */
  lemma ConsSorted(h: UserBehaviorEntity, t: seq<UserBehaviorEntity>)
    requires SortedByTimestampDesc(t)
    requires t != [] ==> h.timestamp >= t[0].timestamp
    ensures SortedByTimestampDesc([h] + t)
  {
    var r := [h] + t;
    forall i, j | 0 <= i < j < |r| ensures r[i].timestamp >= r[j].timestamp {
      if i == 0 {
        assert r[j] == t[j - 1];
      } else {
        assert r[i] == t[i - 1] && r[j] == t[j - 1];
      }
    }
  }

  /**
   * Inserts a row into a timestamp-descending sequence, after the rows with
   * the same timestamp.
   */
  function InsertByTimestamp(x: UserBehaviorEntity, s: seq<UserBehaviorEntity>): (r: seq<UserBehaviorEntity>)
    requires SortedByTimestampDesc(s)
    ensures SortedByTimestampDesc(r)
    ensures multiset(r) == multiset(s) + multiset{x}
    ensures |r| == |s| + 1
    ensures r[0] == x || (s != [] && r[0] == s[0])
  {
    if s == [] then [x]
    else if x.timestamp > s[0].timestamp then ConsSorted(x, s); [x] + s
    else
      var rest := InsertByTimestamp(x, s[1..]);
      assert s == [s[0]] + s[1..];
      ConsSorted(s[0], rest);
      [s[0]] + rest
  }

  /** Sorts rows by timestamp, newest first; among equal timestamps the later row of `s` comes first. */
  function SortByTimestampDesc(s: seq<UserBehaviorEntity>): (r: seq<UserBehaviorEntity>)
    ensures SortedByTimestampDesc(r)
    ensures multiset(r) == multiset(s)
    ensures |r| == |s|
  {
    if s == [] then []
    else
      assert s == [s[0]] + s[1..];
      InsertByTimestamp(s[0], SortByTimestampDesc(s[1..]))
  }

  /** The rows the native query returns: matching rows, newest first, at most `limit`. */
  function RecentRows(table: seq<UserBehaviorEntity>, userId: string, limit: nat): (rows: seq<UserBehaviorEntity>)
    ensures |rows| == Min(limit, |Matching(table, userId)|)
    ensures forall i :: 0 <= i < |rows| ==> rows[i].userId == userId
    ensures SortedByTimestampDesc(rows)
  {
    var matching := Matching(table, userId);
    var sorted := SortByTimestampDesc(matching);
    RearrangedRowsOfUser(sorted, matching, userId);
    if limit < |sorted| then sorted[..limit] else sorted
  }

  /**
   * What SQL promises of the query's answer, whatever order it gives rows
   * with equal timestamps: rows of the user, timestamp descending, as many
   * as the limit allows, each a row of the table, and no omitted row of the
   * user newer than a returned one.
   */
  ghost predicate IsRecentAnswer(table: seq<UserBehaviorEntity>, userId: string, limit: nat, result: seq<UserBehaviorEntity>)
    ensures IsRecentAnswer(table, userId, limit, result) ==> |result| <= limit && multiset(result) <= multiset(table)
  {
    var matching := Matching(table, userId);
    && (forall i :: 0 <= i < |result| ==> result[i].userId == userId)
    && SortedByTimestampDesc(result)
    && |result| == Min(limit, |matching|)
    && multiset(result) <= multiset(matching)
    && (forall e, i :: e in multiset(matching) - multiset(result) && 0 <= i < |result| ==>
          e.timestamp <= result[i].timestamp)
  }

  /** In a sorted sequence, nothing after position `k` is newer than anything before it. */
  lemma SortedSuffixNotNewer(sorted: seq<UserBehaviorEntity>, k: nat)
    requires SortedByTimestampDesc(sorted) && k <= |sorted|
    ensures forall e, i :: e in multiset(sorted[k..]) && 0 <= i < k ==> e.timestamp <= sorted[i].timestamp
  {
    forall e: UserBehaviorEntity, i | e in multiset(sorted[k..]) && 0 <= i < k
      ensures e.timestamp <= sorted[i].timestamp
    {
      assert e in sorted[k..];
      var j :| 0 <= j < |sorted[k..]| && sorted[k..][j] == e;
      assert sorted[k + j] == e;
    }
  }

  lemma SplitMultiset(s: seq<UserBehaviorEntity>, k: nat)
    requires k <= |s|
    ensures multiset(s) - multiset(s[..k]) == multiset(s[k..])
    ensures multiset(s[..k]) <= multiset(s)
  {
    assert s == s[..k] + s[k..];
  }

  /** A rearrangement of one user's rows holds only that user's rows. */
  lemma RearrangedRowsOfUser(rows: seq<UserBehaviorEntity>, original: seq<UserBehaviorEntity>, userId: string)
    requires forall i :: 0 <= i < |original| ==> original[i].userId == userId
    requires multiset(rows) == multiset(original)
    ensures forall i :: 0 <= i < |rows| ==> rows[i].userId == userId
  {
    forall i | 0 <= i < |rows| ensures rows[i].userId == userId {
      assert rows[i] in multiset(original);
    }
  }

  /** The first k rows of a sorted rearrangement are rows of the original, and every row left out is no newer. */
  lemma SortedPrefixIsTop(sorted: seq<UserBehaviorEntity>, original: seq<UserBehaviorEntity>, k: nat)
    requires multiset(sorted) == multiset(original) && SortedByTimestampDesc(sorted) && k <= |sorted|
    ensures multiset(sorted[..k]) <= multiset(original)
    ensures forall e, i :: e in multiset(original) - multiset(sorted[..k]) && 0 <= i < k ==>
              e.timestamp <= sorted[..k][i].timestamp
  {
    SplitMultiset(sorted, k);
    SortedSuffixNotNewer(sorted, k);
  }

  /** The first rows of any sorted rearrangement of the user's rows form an answer SQL allows. */
  lemma SortedPrefixIsAnswer(table: seq<UserBehaviorEntity>, userId: string, limit: nat, sorted: seq<UserBehaviorEntity>, k: nat)
    requires multiset(sorted) == multiset(Matching(table, userId)) && |sorted| == |Matching(table, userId)|
    requires SortedByTimestampDesc(sorted)
    requires k == Min(limit, |sorted|)
    ensures IsRecentAnswer(table, userId, limit, sorted[..k])
  {
    var matching := Matching(table, userId);
    RearrangedRowsOfUser(sorted, matching, userId);
    SortedPrefixIsTop(sorted, matching, k);
  }

  /** The modelled query gives an answer SQL allows. */
  lemma RecentRowsIsAnswer(table: seq<UserBehaviorEntity>, userId: string, limit: nat)
    ensures IsRecentAnswer(table, userId, limit, RecentRows(table, userId, limit))
  {
    var sorted := SortByTimestampDesc(Matching(table, userId));
    var k := Min(limit, |sorted|);
    assert RecentRows(table, userId, limit) == sorted[..k];
    SortedPrefixIsAnswer(table, userId, limit, sorted, k);
  }

  /** Every returned row is a distinct row of the table. */
  lemma RecentRowsFromTable(table: seq<UserBehaviorEntity>, userId: string, limit: nat)
    ensures multiset(RecentRows(table, userId, limit)) <= multiset(table)
  {
    RecentRowsIsAnswer(table, userId, limit);
  }

  lemma {:induction false} NewestLastSortsFirst(s: seq<UserBehaviorEntity>, e: UserBehaviorEntity)
    requires forall i :: 0 <= i < |s| ==> s[i].timestamp <= e.timestamp
    ensures SortByTimestampDesc(s + [e]) != [] && SortByTimestampDesc(s + [e])[0] == e
  {
    if s == [] {
      assert [e][1..] == [];
    } else {
      assert (s + [e])[0] == s[0];
      assert (s + [e])[1..] == s[1..] + [e];
      NewestLastSortsFirst(s[1..], e);
    }
  }

  /**
   * A row at least as new as every row already stored is the first answer
   * of its user's query afterwards: the most recently saved row comes first.
   */
  lemma NewestRowComesFirst(table: seq<UserBehaviorEntity>, e: UserBehaviorEntity, limit: nat)
    requires forall i :: 0 <= i < |table| ==> table[i].timestamp <= e.timestamp
    requires limit >= 1
    ensures RecentRows(table + [e], e.userId, limit) != []
    ensures RecentRows(table + [e], e.userId, limit)[0] == e
  {
    var m := Matching(table, e.userId);
    MatchingAppend(table, e);
    forall i | 0 <= i < |m| ensures m[i].timestamp <= e.timestamp {
      assert m[i] in multiset(m);
      assert m[i] in multiset(table);
      assert m[i] in table;
    }
    NewestLastSortsFirst(m, e);
    var sorted := SortByTimestampDesc(m + [e]);
    assert RecentRows(table + [e], e.userId, limit) == if limit < |sorted| then sorted[..limit] else sorted;
  }

  /**
   * The JPA repository over the table: `save` inserts a row under the next
   * identity value; the native query reads the table.
   */
  class JpaBehaviorRepository {
    var table: seq<UserBehaviorEntity>
    var nextId: nat

    /** Every stored row has an id below the counter, and ids increase in insertion order. */
    ghost predicate Valid()
      reads this
    {
      && nextId >= 1
      && (forall i :: 0 <= i < |table| ==> table[i].id.Some? && 1 <= table[i].id.value < nextId)
      && (forall i, j :: 0 <= i < j < |table| ==>
            table[i].id.Some? && table[j].id.Some? && table[i].id.value < table[j].id.value)
    }

    constructor ()
      ensures Valid()
      ensures table == [] && nextId == 1
    {
      table := [];
      nextId := 1;
    }

    /** JpaRepository.save on a new entity: an INSERT that assigns the next id. */
    method Save(entity: UserBehaviorEntity) returns (saved: UserBehaviorEntity)
      requires Valid()
      requires entity.id.None?
      modifies this
      ensures Valid()
      ensures saved == entity.(id := Some(old(nextId)))
      ensures table == old(table) + [saved]
      ensures nextId == old(nextId) + 1
    {
      saved := entity.(id := Some(nextId));
      table := table + [saved];
      nextId := nextId + 1;
    }

    /** findRecentByUserIdNative: a query answer as SQL defines it. */
    function FindRecentByUserIdNative(userId: string, limit: nat): (rows: seq<UserBehaviorEntity>)
      reads this
      ensures IsRecentAnswer(table, userId, limit, rows)
    {
      RecentRowsIsAnswer(table, userId, limit);
      RecentRows(table, userId, limit)
    }
  }

  /** Stored rows never share an id. */
  lemma StoredIdsDistinct(repo: JpaBehaviorRepository)
    requires repo.Valid()
    ensures forall i, j :: 0 <= i < |repo.table| && 0 <= j < |repo.table| && i != j ==>
              repo.table[i].id != repo.table[j].id
  {
    forall i, j | 0 <= i < |repo.table| && 0 <= j < |repo.table| && i != j
      ensures repo.table[i].id != repo.table[j].id
    {
      if i < j {
        assert repo.table[i].id.value < repo.table[j].id.value;
      } else {
        assert repo.table[j].id.value < repo.table[i].id.value;
      }
    }
  }
}
