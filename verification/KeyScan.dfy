/**
 The signing key table: its two ordered queries and the scan of the clean-up job.
 Both queries sort by creation time, oldest first, and keep the order of insertion among equals.
 */
module KeyScan {
  import opened Wrappers

  datatype Alg = RS256 | RS384 | RS512 | EdDSA

  datatype Jwk = Jwk(kid: string, createdAt: int, alg: Alg)

  /** 90 days in seconds. */
  const KEY_RETENTION: int := 3600 * 24 * 90

  predicate Ascending(rows: seq<Jwk>) {
    forall i, j :: 0 <= i < j < |rows| ==> rows[i].createdAt <= rows[j].createdAt
  }

  predicate UniqueKids(rows: seq<Jwk>) {
    forall i, j :: 0 <= i < j < |rows| ==> rows[i].kid != rows[j].kid
  }

  function Insert(row: Jwk, rows: seq<Jwk>): seq<Jwk> {
    if rows == [] || row.createdAt <= rows[0].createdAt then [row] + rows
    else [rows[0]] + Insert(row, rows[1..])
  }

  /** `order by created_at asc` and the stable `sort_by` on `created_at`. */
  function OrderByCreated(rows: seq<Jwk>): seq<Jwk> {
    if rows == [] then [] else Insert(rows[0], OrderByCreated(rows[1..]))
  }

  function OfAlg(rows: seq<Jwk>, alg: Alg): seq<Jwk> {
    if rows == [] then []
    else (if rows[0].alg == alg then [rows[0]] else []) + OfAlg(rows[1..], alg)
  }

  /** The database part of `find_latest`: filter by algorithm, sort, take the first. */
  function QueryLatest(rows: seq<Jwk>, alg: Alg): Option<Jwk> {
    var sorted := OrderByCreated(OfAlg(rows, alg));
    if sorted == [] then None else Some(sorted[0])
  }

  /** The first row of an algorithm in table order. */
  function First(rows: seq<Jwk>, alg: Alg): Option<Jwk> {
    if rows == [] then None
    else if rows[0].alg == alg then Some(rows[0])
    else First(rows[1..], alg)
  }

  /** Row i is not the first of its algorithm. */
  predicate Repeats(rows: seq<Jwk>, i: nat)
    requires i < |rows|
  {
    exists j :: 0 <= j < i && rows[j].alg == rows[i].alg
  }

  /** What the clean-up is meant to delete: older than the cutoff, and not the first of its algorithm. */
  predicate Expired(rows: seq<Jwk>, i: nat, cutoff: int)
    requires i < |rows|
  {
    Repeats(rows, i) && rows[i].createdAt < cutoff
  }

  ghost function Doomed(rows: seq<Jwk>, cutoff: int): set<string> {
    set i | 0 <= i < |rows| && Expired(rows, i, cutoff) :: rows[i].kid
  }

  function Without(rows: seq<Jwk>, kids: set<string>): seq<Jwk> {
    if rows == [] then []
    else (if rows[0].kid in kids then [] else [rows[0]]) + Without(rows[1..], kids)
  }

  /** The scan of `jwks_cleanup` with its two hash sets. */
  method ScanForExpired(rows: seq<Jwk>, cutoff: int) returns (toDelete: set<string>)
    ensures toDelete == Doomed(rows, cutoff)
  {
    var found: set<Alg> := {};
    toDelete := {};
    for n := 0 to |rows|
      invariant found == set i | 0 <= i < n :: rows[i].alg
      invariant toDelete == set i | 0 <= i < n && Expired(rows, i, cutoff) :: rows[i].kid
    {
      if rows[n].alg in found {
        if rows[n].createdAt < cutoff {
          toDelete := toDelete + {rows[n].kid};
        }
      } else {
        found := found + {rows[n].alg};
      }
    }
  }

  // ---------------------------------------------------------------------------------------------
  // Ordering

  lemma AscendingCons(row: Jwk, rows: seq<Jwk>)
    requires Ascending(rows) && forall x :: x in rows ==> row.createdAt <= x.createdAt
    ensures Ascending([row] + rows)
  {
  }

  lemma {:induction false} InsertKeepsRows(row: Jwk, rows: seq<Jwk>)
    ensures multiset(Insert(row, rows)) == multiset([row]) + multiset(rows)
    ensures forall x :: x in Insert(row, rows) <==> x == row || x in rows
  {
    if rows != [] && row.createdAt > rows[0].createdAt {
      InsertKeepsRows(row, rows[1..]);
      assert rows == [rows[0]] + rows[1..];
    }
  }

  lemma {:induction false} InsertKeepsOrder(row: Jwk, rows: seq<Jwk>)
    requires Ascending(rows)
    ensures Ascending(Insert(row, rows))
    ensures multiset(Insert(row, rows)) == multiset([row]) + multiset(rows)
  {
    InsertKeepsRows(row, rows);
    if rows != [] && row.createdAt > rows[0].createdAt {
      InsertKeepsOrder(row, rows[1..]);
      InsertKeepsRows(row, rows[1..]);
      AscendingCons(rows[0], Insert(row, rows[1..]));
    } else {
      AscendingCons(row, rows);
    }
  }

  /** The ordered query returns every row once, oldest first. */
  lemma {:induction false} OrderByCreatedSorts(rows: seq<Jwk>)
    ensures Ascending(OrderByCreated(rows))
    ensures multiset(OrderByCreated(rows)) == multiset(rows)
  {
    if rows != [] {
      OrderByCreatedSorts(rows[1..]);
      InsertKeepsOrder(rows[0], OrderByCreated(rows[1..]));
      assert rows == [rows[0]] + rows[1..];
    }
  }

  /** A table filled in the order of creation comes back as it is. */
  lemma {:induction false} OrderByCreatedOfAscending(rows: seq<Jwk>)
    requires Ascending(rows)
    ensures OrderByCreated(rows) == rows
  {
    if rows != [] {
      OrderByCreatedOfAscending(rows[1..]);
      assert rows == [rows[0]] + rows[1..];
      if |rows| > 1 { assert rows[0].createdAt <= rows[1].createdAt; }
    }
  }

  lemma {:induction false} OfAlgMembers(rows: seq<Jwk>, alg: Alg, row: Jwk)
    ensures row in OfAlg(rows, alg) <==> row in rows && row.alg == alg
  {
    if rows != [] {
      OfAlgMembers(rows[1..], alg, row);
      assert rows == [rows[0]] + rows[1..];
    }
  }

  lemma {:induction false} OfAlgKeepsOrder(rows: seq<Jwk>, alg: Alg)
    requires Ascending(rows)
    ensures Ascending(OfAlg(rows, alg))
    ensures First(rows, alg) == if OfAlg(rows, alg) == [] then None else Some(OfAlg(rows, alg)[0])
  {
    if rows != [] {
      OfAlgKeepsOrder(rows[1..], alg);
      forall row | row in OfAlg(rows[1..], alg) ensures rows[0].createdAt <= row.createdAt {
        OfAlgMembers(rows[1..], alg, row);
      }
      AscendingCons(rows[0], OfAlg(rows[1..], alg));
      hide Ascending;
    }
  }

  /** `find_latest` reads the oldest row of the algorithm: the sort is ascending and the first row is taken. */
  lemma QueryLatestIsFirst(rows: seq<Jwk>, alg: Alg)
    requires Ascending(rows)
    ensures QueryLatest(rows, alg) == First(rows, alg)
  {
    OfAlgKeepsOrder(rows, alg);
    OrderByCreatedOfAscending(OfAlg(rows, alg));
  }

  lemma {:induction false} FirstIsOldest(rows: seq<Jwk>, alg: Alg, row: Jwk)
    requires Ascending(rows) && row in rows && row.alg == alg
    ensures First(rows, alg).Some? && First(rows, alg).value.createdAt <= row.createdAt
  {
    if rows[0].alg != alg {
      assert row in rows[1..] by {
        var k :| 0 <= k < |rows| && rows[k] == row;
        assert rows[1..][k - 1] == row;
      }
      FirstIsOldest(rows[1..], alg, row);
    }
  }

  lemma {:induction false} FirstAt(rows: seq<Jwk>, alg: Alg)
    ensures First(rows, alg).Some? ==>
              exists i :: 0 <= i < |rows| && rows[i] == First(rows, alg).value && rows[i].alg == alg
                  && !Repeats(rows, i)
  {
    if rows != [] {
      if rows[0].alg == alg {
        assert !Repeats(rows, 0);
      } else {
        FirstAt(rows[1..], alg);
        if First(rows, alg).Some? {
          var i :| 0 <= i < |rows[1..]| && rows[1..][i] == First(rows, alg).value && rows[1..][i].alg == alg
              && !Repeats(rows[1..], i);
          forall j | 0 <= j < i + 1 ensures rows[j].alg != rows[i + 1].alg {
            if j > 0 { assert rows[1..][j - 1].alg != rows[1..][i].alg; }
          }
          assert rows[i + 1] == First(rows, alg).value;
        }
      }
    }
  }

  lemma {:induction false} NoFirst(rows: seq<Jwk>, alg: Alg)
    ensures First(rows, alg).None? <==> forall row :: row in rows ==> row.alg != alg
  {
    if rows != [] {
      NoFirst(rows[1..], alg);
      assert rows == [rows[0]] + rows[1..];
    }
  }

  // ---------------------------------------------------------------------------------------------
  // The clean-up

  lemma {:induction false} WithoutMembers(rows: seq<Jwk>, kids: set<string>, row: Jwk)
    ensures row in Without(rows, kids) <==> row in rows && row.kid !in kids
  {
    if rows != [] {
      WithoutMembers(rows[1..], kids, row);
      assert rows == [rows[0]] + rows[1..];
    }
  }

  lemma DoomedIffExpired(rows: seq<Jwk>, cutoff: int, i: nat)
    requires UniqueKids(rows) && i < |rows|
    ensures rows[i].kid in Doomed(rows, cutoff) <==> Expired(rows, i, cutoff)
  {
    if rows[i].kid in Doomed(rows, cutoff) {
      var k :| 0 <= k < |rows| && Expired(rows, k, cutoff) && rows[k].kid == rows[i].kid;
      assert k == i;
    }
  }

  /** The survivors are exactly the first key of each algorithm and every key not older than the cutoff. */
  lemma CleanupSurvivors(rows: seq<Jwk>, cutoff: int, i: nat)
    requires UniqueKids(rows) && i < |rows|
    ensures rows[i] in Without(rows, Doomed(rows, cutoff)) <==> !Repeats(rows, i) || rows[i].createdAt >= cutoff
  {
    DoomedIffExpired(rows, cutoff, i);
    WithoutMembers(rows, Doomed(rows, cutoff), rows[i]);
  }

  lemma FirstNotDoomed(rows: seq<Jwk>, cutoff: int, alg: Alg)
    requires UniqueKids(rows)
    ensures First(rows, alg).Some? ==> First(rows, alg).value.kid !in Doomed(rows, cutoff)
  {
    FirstAt(rows, alg);
    if First(rows, alg).Some? {
      var i :| 0 <= i < |rows| && rows[i] == First(rows, alg).value && !Repeats(rows, i);
      DoomedIffExpired(rows, cutoff, i);
    }
  }

  lemma {:induction false} FirstOfWithout(rows: seq<Jwk>, kids: set<string>, alg: Alg)
    requires First(rows, alg).Some? ==> First(rows, alg).value.kid !in kids
    ensures First(Without(rows, kids), alg) == First(rows, alg)
  {
    if rows != [] {
      if rows[0].alg != alg {
        FirstOfWithout(rows[1..], kids, alg);
        if rows[0].kid in kids {
          assert Without(rows, kids) == Without(rows[1..], kids);
        } else {
          assert Without(rows, kids)[1..] == Without(rows[1..], kids);
        }
      }
    }
  }

  /** A clean-up leaves the first key of every algorithm in place, so no algorithm loses its last key. */
  lemma CleanupKeepsFirst(rows: seq<Jwk>, cutoff: int, alg: Alg)
    requires UniqueKids(rows)
    ensures First(Without(rows, Doomed(rows, cutoff)), alg) == First(rows, alg)
  {
    FirstNotDoomed(rows, cutoff, alg);
    FirstOfWithout(rows, Doomed(rows, cutoff), alg);
  }

  /** The last key of an algorithm survives exactly when it is young enough or the only one. */
  lemma NewestSurvives(rows: seq<Jwk>, cutoff: int, i: nat)
    requires UniqueKids(rows) && Ascending(rows) && i < |rows|
    requires forall j :: i < j < |rows| ==> rows[j].alg != rows[i].alg
    ensures rows[i] in Without(rows, Doomed(rows, cutoff)) <==>
              rows[i].createdAt >= cutoff || forall j :: 0 <= j < |rows| && rows[j].alg == rows[i].alg ==> j == i
  {
    CleanupSurvivors(rows, cutoff, i);
  }

  lemma {:induction false} WithoutKeepsShape(rows: seq<Jwk>, kids: set<string>)
    requires Ascending(rows) && UniqueKids(rows)
    ensures Ascending(Without(rows, kids)) && UniqueKids(Without(rows, kids))
  {
    if rows != [] {
      WithoutKeepsShape(rows[1..], kids);
      forall row | row in Without(rows[1..], kids)
        ensures rows[0].createdAt <= row.createdAt && rows[0].kid != row.kid
      {
        WithoutMembers(rows[1..], kids, row);
        var k :| 0 <= k < |rows[1..]| && rows[1..][k] == row;
        assert rows[k + 1] == row;
      }
    }
  }

  lemma {:induction false} WithoutTwice(rows: seq<Jwk>, a: set<string>, b: set<string>)
    ensures Without(Without(rows, a), b) == Without(rows, a + b)
  {
    if rows != [] {
      WithoutTwice(rows[1..], a, b);
      if rows[0].kid in a {
        assert Without(rows, a) == Without(rows[1..], a);
      } else {
        assert Without(rows, a)[1..] == Without(rows[1..], a);
      }
    }
  }

  lemma {:induction false} WithoutNothing(rows: seq<Jwk>, kids: set<string>)
    requires forall row :: row in rows ==> row.kid !in kids
    ensures Without(rows, kids) == rows
  {
    if rows != [] {
      WithoutNothing(rows[1..], kids);
      assert rows == [rows[0]] + rows[1..];
      assert rows[0] in rows;
    }
  }

  /** A row is the first of its algorithm exactly when no earlier row has the same algorithm. */
  lemma {:induction false} FirstIsUnrepeated(rows: seq<Jwk>, i: nat)
    requires UniqueKids(rows) && i < |rows|
    ensures First(rows, rows[i].alg) == Some(rows[i]) <==> !Repeats(rows, i)
  {
    var alg := rows[i].alg;
    FirstAt(rows, alg);
    NoFirst(rows, alg);
    assert rows[i] in rows;
    var f :| 0 <= f < |rows| && rows[f] == First(rows, alg).value && rows[f].alg == alg && !Repeats(rows, f);
    if f < i {
      assert rows[f].kid != rows[i].kid;
    }
  }

  /** Scanning again at the same time finds nothing more to delete. */
  lemma CleanupIdempotent(rows: seq<Jwk>, cutoff: int)
    requires Ascending(rows) && UniqueKids(rows)
    ensures var once := Without(rows, Doomed(rows, cutoff));
            Without(once, Doomed(once, cutoff)) == once
  {
    var once := Without(rows, Doomed(rows, cutoff));
    WithoutKeepsShape(rows, Doomed(rows, cutoff));
    forall row | row in once ensures row.kid !in Doomed(once, cutoff) {
      var k :| 0 <= k < |once| && once[k] == row;
      WithoutMembers(rows, Doomed(rows, cutoff), row);
      var i :| 0 <= i < |rows| && rows[i] == row;
      CleanupSurvivors(rows, cutoff, i);
      CleanupKeepsFirst(rows, cutoff, row.alg);
      FirstIsUnrepeated(rows, i);
      FirstIsUnrepeated(once, k);
      DoomedIffExpired(once, cutoff, k);
    }
    WithoutNothing(once, Doomed(once, cutoff));
  }
}
