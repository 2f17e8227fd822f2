/**
 * The `feedback_manager` table: the row shape and the two queries the core
 * runs against it (the rate-limit count and the delete by id list), as
 * functions over the sequence of stored rows.
 */
module Storage {
  import opened Php

  /** One stored submission; `createdAt` is the server time of the insert in whole seconds. */
  datatype Row = Row(
    id: int,
    name: string,
    email: string,
    message: string,
    ipAddress: string,
    userAgent: string,
    createdAt: int)

  /** Length of the rate-limit look-back, in seconds. */
  const RateWindow: int := 30

  /** A row as the intake path writes it: name, email and message are all present. */
  predicate Complete(r: Row)
  {
    !Empty(r.name) && !Empty(r.email) && !Empty(r.message)
  }

  /** AUTO_INCREMENT ids with append-only inserts: row order is strictly ascending id order. */
  predicate IdsAscending(rows: seq<Row>)
  {
    forall i, j :: 0 <= i < j < |rows| ==> rows[i].id < rows[j].id
  }

  /** The set of ids present in the table. */
  function Ids(rows: seq<Row>): set<int>
  {
    set r | r in rows :: r.id
  }

  /** Whether some stored row carries `id`. */
  ghost predicate HasId(rows: seq<Row>, id: int)
  {
    exists i :: 0 <= i < |rows| && rows[i].id == id
  }

  /** `ip_address = ip AND created_at > NOW() - INTERVAL 30 SECOND` for one row. */
  predicate IsRecentFrom(r: Row, ip: string, now: int)
  {
    r.ipAddress == ip && r.createdAt > now - RateWindow
  }

  /** Some stored row came from `ip` within the trailing window. */
  ghost predicate SubmittedWithin(rows: seq<Row>, ip: string, now: int)
  {
    exists i :: 0 <= i < |rows| && IsRecentFrom(rows[i], ip, now)
  }

  /** The value of the rate-limit `SELECT COUNT(*)`. */
  function RecentCount(rows: seq<Row>, ip: string, now: int): (n: nat)
    ensures n <= |rows|
  {
    if rows == [] then 0
    else
      var last := |rows| - 1;
      RecentCount(rows[..last], ip, now) + (if IsRecentFrom(rows[last], ip, now) then 1 else 0)
  }

  /** The count is positive exactly when some stored row from `ip` lies inside the window. */
  lemma {:induction false} RecentCountPositive(rows: seq<Row>, ip: string, now: int)
    ensures RecentCount(rows, ip, now) > 0 <==> SubmittedWithin(rows, ip, now)
  {
    if rows != [] {
      var last := |rows| - 1;
      var init := rows[..last];
      RecentCountPositive(init, ip, now);
      if SubmittedWithin(init, ip, now) {
        var i :| 0 <= i < |init| && IsRecentFrom(init[i], ip, now);
        assert IsRecentFrom(rows[i], ip, now);
      } else if IsRecentFrom(rows[last], ip, now) {
        assert SubmittedWithin(rows, ip, now);
      } else {
        forall i | 0 <= i < |rows|
          ensures !IsRecentFrom(rows[i], ip, now)
        {
          if i < last {
            assert rows[i] == init[i];
          }
        }
      }
    }
  }

  /** The rows left by `DELETE ... WHERE id IN (ids)`, in their original order. */
  function Without(rows: seq<Row>, ids: seq<int>): (kept: seq<Row>)
    ensures |kept| <= |rows|
  {
    if rows == [] then []
    else
      var last := |rows| - 1;
      Without(rows[..last], ids) + (if rows[last].id in ids then [] else [rows[last]])
  }

  /** A row survives the delete exactly when it was stored and its id is not listed. */
  lemma {:induction false} WithoutMember(rows: seq<Row>, ids: seq<int>)
    ensures forall r :: r in Without(rows, ids) <==> r in rows && r.id !in ids
  {
    if rows != [] {
      var last := |rows| - 1;
      WithoutMember(rows[..last], ids);
      assert rows == rows[..last] + [rows[last]];
    }
  }

  /** The delete removes exactly the listed ids that exist and ignores the others. */
  lemma WithoutIds(rows: seq<Row>, ids: seq<int>)
    ensures Ids(Without(rows, ids)) == Ids(rows) - (set x | x in ids)
  {
    WithoutMember(rows, ids);
    var kept := Without(rows, ids);
    forall x | x in Ids(rows) - (set x | x in ids)
      ensures x in Ids(kept)
    {
      var r :| r in rows && r.id == x;
      assert r in kept;
    }
  }

  /** Deleting keeps the id order, so the table invariant survives a delete. */
  lemma {:induction false} WithoutAscending(rows: seq<Row>, ids: seq<int>)
    requires IdsAscending(rows)
    ensures IdsAscending(Without(rows, ids))
  {
    if rows != [] {
      var last := |rows| - 1;
      var init := rows[..last];
      WithoutAscending(init, ids);
      WithoutMember(init, ids);
      var w := Without(init, ids);
      forall k | 0 <= k < |w|
        ensures w[k].id < rows[last].id
      {
        assert w[k] in init;
        var j :| 0 <= j < |init| && init[j] == w[k];
        assert rows[j] == init[j];
      }
    }
  }

  /** When no stored id is listed, the delete leaves the table as it was. */
  lemma {:induction false} WithoutNoneListed(rows: seq<Row>, ids: seq<int>)
    requires forall i :: 0 <= i < |rows| ==> rows[i].id !in ids
    ensures Without(rows, ids) == rows
  {
    if rows != [] {
      var last := |rows| - 1;
      assert forall i :: 0 <= i < last ==> rows[..last][i] == rows[i];
      WithoutNoneListed(rows[..last], ids);
      assert rows == rows[..last] + [rows[last]];
    }
  }

  /** When some stored id is listed, the delete removes at least one row. */
  lemma {:induction false} WithoutDropsListed(rows: seq<Row>, ids: seq<int>)
    requires exists i :: 0 <= i < |rows| && rows[i].id in ids
    ensures |Without(rows, ids)| < |rows|
  {
    var last := |rows| - 1;
    if rows[last].id !in ids {
      var i :| 0 <= i < |rows| && rows[i].id in ids;
      assert rows[..last][i].id in ids;
      WithoutDropsListed(rows[..last], ids);
    }
  }

  /** Deleting one id removes a row exactly when a row with that id is stored, and otherwise changes nothing. */
  lemma RemovesIffPresent(rows: seq<Row>, id: int)
    ensures |Without(rows, [id])| < |rows| <==> HasId(rows, id)
    ensures !HasId(rows, id) ==> Without(rows, [id]) == rows
  {
    if HasId(rows, id) {
      WithoutDropsListed(rows, [id]);
    } else {
      WithoutNoneListed(rows, [id]);
    }
  }

  lemma IdsSnoc(init: seq<Row>, r: Row)
    ensures Ids(init + [r]) == Ids(init) + {r.id}
  {
    assert forall x :: x in init + [r] <==> x in init || x == r;
  }

  lemma AscendingSplit(rows: seq<Row>)
    requires IdsAscending(rows) && rows != []
    ensures IdsAscending(rows[..|rows| - 1])
    ensures rows[|rows| - 1].id !in Ids(rows[..|rows| - 1])
  {
    var last := |rows| - 1;
    var init := rows[..last];
    forall r | r in init
      ensures r.id < rows[last].id
    {
      var j :| 0 <= j < last && init[j] == r;
      assert rows[j] == r;
    }
  }

  /** With ascending ids, the table holds one row per id. */
  lemma {:induction false} IdsCount(rows: seq<Row>)
    requires IdsAscending(rows)
    ensures |Ids(rows)| == |rows|
  {
    if rows != [] {
      var last := |rows| - 1;
      var init := rows[..last];
      AscendingSplit(rows);
      IdsCount(init);
      assert rows == init + [rows[last]];
      IdsSnoc(init, rows[last]);
    }
  }

  /**
   * The number of rows a delete removes is the number of listed ids that are
   * present: deleting ids [3, 7, 999] from a table holding 3 and 7 but not 999
   * removes two rows.
   */
  lemma WithoutCount(rows: seq<Row>, ids: seq<int>)
    requires IdsAscending(rows)
    ensures |Without(rows, ids)| == |rows| - |Ids(rows) * (set x | x in ids)|
  {
    var listed := set x | x in ids;
    var kept := Without(rows, ids);
    WithoutAscending(rows, ids);
    IdsCount(rows);
    IdsCount(kept);
    WithoutIds(rows, ids);
    var present := Ids(rows);
    assert present == (present - listed) + (present * listed);
    assert (present - listed) * (present * listed) == {};
  }
}
