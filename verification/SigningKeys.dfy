/**
 Signing keys over whole runs: rotation, signing, key lookup, the published key set and the clean-up
 job, with the three kinds of cache entries between them. A run is a list of small steps, so that a
 rotation may be interleaved with other requests and may stop at any of its fallible operations.
 */
module SigningKeys {
  import opened Wrappers
  import opened KeyScan

  datatype KeyPair = KeyPair(kid: string, typ: Alg)

  function Pair(row: Jwk): KeyPair {
    KeyPair(row.kid, row.alg)
  }

  datatype State = State(
    table: seq<Jwk>,
    latest: map<Alg, KeyPair>,
    byKid: map<string, KeyPair>,
    published: Option<seq<KeyPair>>,
    now: int,
    known: set<string>,       // history: every kid ever saved
    signers: set<KeyPair>,    // history: every key that has signed a token
    stale: set<string>)       // history: kids whose row was deleted while the cache entry stayed

  datatype Step =
    | SaveKey(alg: Alg, kid: string, after: nat)  // the key is generated for `after` seconds
    | DropLatest(alg: Alg)                         // cache_del, or the cache entry's lifetime ends
    | DropByKid(kid: string)
    | DropPublished
    | Sign(alg: Alg)
    | FindKey(kid: string)
    | FindPublished
    | Cleanup(rowFails: set<string>, cacheFails: set<string>)
    | Tick(secs: nat)

  function RowOf(rows: seq<Jwk>, kid: string): Option<Jwk> {
    if rows == [] then None
    else if rows[0].kid == kid then Some(rows[0])
    else RowOf(rows[1..], kid)
  }

  function Pairs(rows: seq<Jwk>): seq<KeyPair> {
    seq(|rows|, i requires 0 <= i < |rows| => Pair(rows[i]))
  }

  function PairOpt(row: Option<Jwk>): Option<KeyPair> {
    if row.None? then None else Some(Pair(row.value))
  }

  /** The read-through lookups. */
  function LatestKey(s: State, alg: Alg): Option<KeyPair> {
    if alg in s.latest then Some(s.latest[alg]) else PairOpt(QueryLatest(s.table, alg))
  }

  function KeyById(s: State, kid: string): Option<KeyPair> {
    if kid in s.byKid then Some(s.byKid[kid]) else PairOpt(RowOf(s.table, kid))
  }

  function PublishedKeys(s: State): seq<KeyPair> {
    if s.published.Some? then s.published.value else Pairs(s.table)
  }

  ghost function Deleted(s: State, rowFails: set<string>): set<string> {
    Doomed(OrderByCreated(s.table), s.now - KEY_RETENTION) - rowFails
  }

  function AfterDeleting(s: State, deleted: set<string>, cacheFails: set<string>): State {
    s.(table := Without(s.table, deleted),
       byKid := s.byKid - (deleted - cacheFails),
       stale := s.stale + deleted * cacheFails)
  }

  ghost function Apply(s: State, step: Step): State {
    match step
    case SaveKey(alg, kid, after) =>
      var t := s.(now := s.now + after);
      if kid in s.known then t    // the primary key is taken and the insert fails
      else t.(table := s.table + [Jwk(kid, t.now, alg)], known := s.known + {kid})
    case DropLatest(alg) => s.(latest := s.latest - {alg})
    case DropByKid(kid) => s.(byKid := s.byKid - {kid})
    case DropPublished => s.(published := None)
    case Sign(alg) =>
      (match LatestKey(s, alg)
       case None => s
       case Some(key) => s.(latest := s.latest[alg := key], signers := s.signers + {key}))
    case FindKey(kid) =>
      (match KeyById(s, kid)
       case None => s
       case Some(key) => s.(byKid := s.byKid[kid := key]))
    case FindPublished => s.(published := Some(PublishedKeys(s)))
    case Cleanup(rowFails, cacheFails) =>
      AfterDeleting(s, Deleted(s, rowFails), cacheFails)
    case Tick(secs) => s.(now := s.now + secs)
  }

  /** The state after the first n steps of a run. */
  ghost function Exec(s: State, steps: seq<Step>, n: nat): State
    requires n <= |steps|
  {
    if n == 0 then s else Apply(Exec(s, steps, n - 1), steps[n - 1])
  }

  /** The fallible operations of one rotation, in order. */
  function RotationSteps(kids: seq<string>, after: seq<nat>): (steps: seq<Step>)
    requires |kids| == 4 && |after| == 4
  {
    [SaveKey(RS256, kids[0], after[0]), SaveKey(RS384, kids[1], after[1]),
     SaveKey(RS512, kids[2], after[2]), SaveKey(EdDSA, kids[3], after[3]),
     DropLatest(RS256), DropLatest(RS384), DropLatest(RS512), DropLatest(EdDSA), DropPublished]
  }

  lemma DeletingOneMore(s: State, done: set<string>, kid: string, cacheFails: set<string>)
    ensures AfterDeleting(AfterDeleting(s, done, cacheFails), {kid}, cacheFails)
         == AfterDeleting(s, done + {kid}, cacheFails)
  {
    WithoutTwice(s.table, done, {kid});
  }

  class KeyStore {
    var table: seq<Jwk>
    var latest: map<Alg, KeyPair>
    var byKid: map<string, KeyPair>
    var published: Option<seq<KeyPair>>
    var now: int
    ghost var known: set<string>
    ghost var signers: set<KeyPair>
    ghost var stale: set<string>

    ghost function Contents(): State
      reads this
    {
      State(table, latest, byKid, published, now, known, signers, stale)
    }

    /** `Jwk::save` of a freshly generated key; its kid is random and never seen before. */
    method SaveKey(alg: Alg, kid: string, after: nat)
      requires kid !in known
      modifies this
      ensures Contents() == Apply(old(Contents()), Step.SaveKey(alg, kid, after))
    {
      now := now + after;
      table := table + [Jwk(kid, now, alg)];
      known := known + {kid};
    }

    method DropLatest(alg: Alg)
      modifies this
      ensures Contents() == Apply(old(Contents()), Step.DropLatest(alg))
    {
      latest := latest - {alg};
    }

    method DropPublished()
      modifies this
      ensures Contents() == Apply(old(Contents()), Step.DropPublished)
    {
      published := None;
    }

    /** The four saves of `rotate_jwks`. */
    method SaveNewKeys(kids: seq<string>, after: seq<nat>, stopAt: nat) returns (ok: bool)
      requires |kids| == 4 && |after| == 4
      requires forall i, j :: 0 <= i < j < 4 ==> kids[i] != kids[j]
      requires forall i :: 0 <= i < 4 ==> kids[i] !in known
      modifies this
      ensures ok <==> stopAt >= 4
      ensures Contents() == Exec(old(Contents()), RotationSteps(kids, after), if ok then 4 else stopAt)
    {
      ghost var start := Contents();
      ghost var steps := RotationSteps(kids, after);
      ok := false;
      if stopAt == 0 { return; }
      SaveKey(RS256, kids[0], after[0]);
      assert Contents() == Exec(start, steps, 1);
      if stopAt == 1 { return; }
      SaveKey(RS384, kids[1], after[1]);
      assert Contents() == Exec(start, steps, 2);
      if stopAt == 2 { return; }
      SaveKey(RS512, kids[2], after[2]);
      assert Contents() == Exec(start, steps, 3);
      if stopAt == 3 { return; }
      SaveKey(EdDSA, kids[3], after[3]);
      ok := true;
    }

    /** The five cache deletions of `rotate_jwks`. */
    method ClearCaches(stopAt: nat, ghost start: State, ghost steps: seq<Step>) returns (ok: bool)
      requires |steps| == 9
      requires steps[4] == Step.DropLatest(RS256) && steps[5] == Step.DropLatest(RS384)
      requires steps[6] == Step.DropLatest(RS512) && steps[7] == Step.DropLatest(EdDSA)
                && steps[8] == Step.DropPublished
      requires stopAt >= 4 && Contents() == Exec(start, steps, 4)
      modifies this
      ensures ok <==> stopAt >= 9
      ensures Contents() == Exec(start, steps, if ok then 9 else stopAt)
    {
      ok := false;
      if stopAt == 4 { return; }
      DropLatest(RS256);
      assert Contents() == Exec(start, steps, 5);
      if stopAt == 5 { return; }
      DropLatest(RS384);
      assert Contents() == Exec(start, steps, 6);
      if stopAt == 6 { return; }
      DropLatest(RS512);
      assert Contents() == Exec(start, steps, 7);
      if stopAt == 7 { return; }
      DropLatest(EdDSA);
      assert Contents() == Exec(start, steps, 8);
      if stopAt == 8 { return; }
      DropPublished();
      ok := true;
    }

    /** `rotate_jwks`; `stopAt` is the operation that fails, 9 or more when none does. */
    method RotateJwks(kids: seq<string>, after: seq<nat>, stopAt: nat) returns (ok: bool)
      requires |kids| == 4 && |after| == 4
      requires forall i, j :: 0 <= i < j < 4 ==> kids[i] != kids[j]
      requires forall i :: 0 <= i < 4 ==> kids[i] !in known
      modifies this
      ensures ok <==> stopAt >= 9
      ensures Contents() == Exec(old(Contents()), RotationSteps(kids, after), if ok then 9 else stopAt)
    {
      ghost var start := Contents();
      ok := SaveNewKeys(kids, after, stopAt);
      if !ok { return; }
      ok := ClearCaches(stopAt, start, RotationSteps(kids, after));
    }

    /** `sign_*`: reads the newest-key cache through `find_latest` and signs with what it returns. */
    method Sign(alg: Alg) returns (key: Option<KeyPair>)
      modifies this
      ensures Contents() == Apply(old(Contents()), Step.Sign(alg))
      ensures key == LatestKey(old(Contents()), alg)
    {
      if alg in latest {
        key := Some(latest[alg]);
      } else {
        var row := QueryLatest(table, alg);
        if row.None? { return None; }
        key := Some(Pair(row.value));
      }
      latest := latest[alg := key.value];
      signers := signers + {key.value};
    }

    /** `JwkKeyPair::find`. */
    method Find(kid: string) returns (key: Option<KeyPair>)
      modifies this
      ensures Contents() == Apply(old(Contents()), FindKey(kid))
      ensures key == KeyById(old(Contents()), kid)
    {
      if kid in byKid {
        assert byKid == byKid[kid := byKid[kid]];
        return Some(byKid[kid]);
      }
      var row := RowOf(table, kid);
      if row.None? { return None; }
      key := Some(Pair(row.value));
      byKid := byKid[kid := key.value];
    }

    /** `JWKS::find_pk`. */
    method FindPk() returns (keys: seq<KeyPair>)
      modifies this
      ensures Contents() == Apply(old(Contents()), FindPublished)
      ensures keys == PublishedKeys(old(Contents()))
    {
      if published.Some? { return published.value; }
      keys := [];
      for i := 0 to |table|
        invariant keys == Pairs(table[..i])
      {
        keys := keys + [Pair(table[i])];
      }
      assert table[..|table|] == table;
      published := Some(keys);
    }

    /** Deletes one row and then its cache entry. */
    method DeleteKey(kid: string, cacheFails: set<string>)
      modifies this
      ensures Contents() == AfterDeleting(old(Contents()), {kid}, cacheFails)
    {
      table := Without(table, {kid});
      if kid !in cacheFails {
        byKid := byKid - {kid};
        assert {kid} - cacheFails == {kid} && {kid} * cacheFails == {};
      } else {
        stale := stale + {kid};
        assert {kid} - cacheFails == {} && {kid} * cacheFails == {kid};
      }
    }

    /** The deletion loop of `jwks_cleanup`; a row or cache entry whose deletion fails stays. */
    method DeleteKeys(kids: set<string>, rowFails: set<string>, cacheFails: set<string>)
      modifies this
      ensures Contents() == AfterDeleting(old(Contents()), kids - rowFails, cacheFails)
    {
      ghost var start := Contents();
      ghost var done: set<string> := {};
      var toDelete := kids;
      WithoutNothing(table, {});
      assert start == AfterDeleting(start, {}, cacheFails);
      while toDelete != {}
        invariant done + (toDelete - rowFails) == kids - rowFails
        invariant Contents() == AfterDeleting(start, done, cacheFails)
        decreases toDelete
      {
        var kid :| kid in toDelete;
        toDelete := toDelete - {kid};
        if kid !in rowFails {
          DeleteKey(kid, cacheFails);
          DeletingOneMore(start, done, kid, cacheFails);
          done := done + {kid};
        }
      }
      assert done == kids - rowFails;
    }

    /** `jwks_cleanup`: the scan over the ordered query, then the deletions. */
    method JwksCleanup(rowFails: set<string>, cacheFails: set<string>)
      modifies this
      ensures Contents() == Apply(old(Contents()), Cleanup(rowFails, cacheFails))
    {
      var toDelete := ScanForExpired(OrderByCreated(table), now - KEY_RETENTION);
      DeleteKeys(toDelete, rowFails, cacheFails);
    }
  }

  // ---------------------------------------------------------------------------------------------
  // What every step keeps

  /** A server that starts on an existing table with cold caches. */
  predicate Init(s: State) {
    && Ascending(s.table) && UniqueKids(s.table)
    && (forall row :: row in s.table ==> row.createdAt <= s.now && row.kid in s.known)
    && s.latest == map[] && s.byKid == map[] && s.published == None
    && s.signers == {} && s.stale == {}
  }

  predicate TableInv(s: State) {
    && Ascending(s.table) && UniqueKids(s.table)
    && (forall row :: row in s.table ==> row.createdAt <= s.now && row.kid in s.known && row.kid !in s.stale)
    && s.stale <= s.known
  }

  /** The newest-key cache and every past signer are the first row of their algorithm. */
  predicate SignerInv(s: State) {
    && (forall alg :: alg in s.latest ==> PairOpt(First(s.table, alg)) == Some(s.latest[alg]))
    && (forall key :: key in s.signers ==> PairOpt(First(s.table, key.typ)) == Some(key))
  }

  predicate ByKidInv(s: State) {
    forall kid :: kid in s.byKid ==>
      s.byKid[kid].kid == kid && (kid in s.stale || PairOpt(RowOf(s.table, kid)) == Some(s.byKid[kid]))
  }

  predicate Inv(s: State) {
    TableInv(s) && SignerInv(s) && ByKidInv(s)
  }

  lemma {:induction false} FirstOfAppend(rows: seq<Jwk>, row: Jwk, alg: Alg)
    ensures First(rows + [row], alg) ==
            if First(rows, alg).Some? then First(rows, alg) else if row.alg == alg then Some(row) else None
  {
    if rows != [] && rows[0].alg != alg {
      assert (rows + [row])[1..] == rows[1..] + [row];
      FirstOfAppend(rows[1..], row, alg);
    } else if rows == [] {
      assert [row][1..] == [];
    }
  }

  lemma {:induction false} RowOfIff(rows: seq<Jwk>, kid: string)
    ensures RowOf(rows, kid).Some? ==> RowOf(rows, kid).value in rows && RowOf(rows, kid).value.kid == kid
    ensures RowOf(rows, kid).None? ==> forall row :: row in rows ==> row.kid != kid
  {
    if rows != [] {
      RowOfIff(rows[1..], kid);
      assert rows == [rows[0]] + rows[1..];
    }
  }

  lemma RowOfUnique(rows: seq<Jwk>, row: Jwk)
    requires UniqueKids(rows) && row in rows
    ensures RowOf(rows, row.kid) == Some(row)
  {
    RowOfIff(rows, row.kid);
    var i :| 0 <= i < |rows| && rows[i] == row;
    var j :| 0 <= j < |rows| && rows[j] == RowOf(rows, row.kid).value;
    assert i == j;
  }

  lemma {:induction false} RowOfWithout(rows: seq<Jwk>, kids: set<string>, kid: string)
    requires kid !in kids
    ensures RowOf(Without(rows, kids), kid) == RowOf(rows, kid)
  {
    if rows != [] && rows[0].kid != kid {
      RowOfWithout(rows[1..], kids, kid);
      if rows[0].kid in kids {
        assert Without(rows, kids) == Without(rows[1..], kids);
      } else {
        assert Without(rows, kids)[1..] == Without(rows[1..], kids);
      }
    }
  }

  /** No step replaces the first key of an algorithm once there is one. */
  lemma ApplyKeepsFirst(s: State, step: Step, alg: Alg)
    requires TableInv(s) && First(s.table, alg).Some?
    ensures First(Apply(s, step).table, alg) == First(s.table, alg)
  {
    match step
    case SaveKey(a, kid, after) =>
      FirstOfAppend(s.table, Jwk(kid, s.now + after, a), alg);
    case Cleanup(rowFails, cacheFails) =>
      OrderByCreatedOfAscending(s.table);
      FirstNotDoomed(s.table, s.now - KEY_RETENTION, alg);
      FirstOfWithout(s.table, Deleted(s, rowFails), alg);
    case _ =>
  }

  lemma ApplyKeepsTableInv(s: State, step: Step)
    requires TableInv(s)
    ensures TableInv(Apply(s, step))
  {
    match step
    case SaveKey(alg, kid, after) =>
      assert forall row :: row in s.table ==> row.kid in s.known;
    case Cleanup(rowFails, cacheFails) =>
      var deleted := Deleted(s, rowFails);
      OrderByCreatedOfAscending(s.table);
      WithoutKeepsShape(s.table, deleted);
      forall row | row in Without(s.table, deleted) ensures row in s.table && row.kid !in deleted {
        WithoutMembers(s.table, deleted, row);
      }
      forall kid | kid in deleted ensures kid in s.known {
        var i :| 0 <= i < |s.table| && s.table[i].kid == kid;
        assert s.table[i] in s.table;
      }
    case _ =>
  }

  lemma ApplyKeepsSignerInv(s: State, step: Step)
    requires TableInv(s) && SignerInv(s)
    ensures SignerInv(Apply(s, step))
  {
    var t := Apply(s, step);
    forall alg ensures First(s.table, alg).Some? ==> First(t.table, alg) == First(s.table, alg) {
      if First(s.table, alg).Some? { ApplyKeepsFirst(s, step, alg); }
    }
    if step.Sign? {
      QueryLatestIsFirst(s.table, step.alg);
      assert t.table == s.table;
      if First(s.table, step.alg).Some? { FirstAt(s.table, step.alg); }
    }
  }

  lemma ApplyKeepsByKidInv(s: State, step: Step)
    requires TableInv(s) && ByKidInv(s)
    ensures ByKidInv(Apply(s, step))
  {
    var t := Apply(s, step);
    match step
    case SaveKey(alg, kid, after) =>
      forall k | k in t.byKid && k !in t.stale ensures PairOpt(RowOf(t.table, k)) == Some(t.byKid[k]) {
        RowOfIff(s.table, k);
        if t.table != s.table {
          ApplyKeepsTableInv(s, step);
          assert RowOf(s.table, k).value in t.table;
          RowOfUnique(t.table, RowOf(s.table, k).value);
        }
      }
    case FindKey(kid) =>
      RowOfIff(s.table, kid);
    case Cleanup(rowFails, cacheFails) =>
      forall k | k in t.byKid && k !in t.stale ensures PairOpt(RowOf(t.table, k)) == Some(t.byKid[k]) {
        RowOfWithout(s.table, Deleted(s, rowFails), k);
      }
    case _ =>
  }

  lemma {:induction false} ExecKeepsInv(s: State, steps: seq<Step>, n: nat)
    requires Init(s) && n <= |steps|
    ensures Inv(Exec(s, steps, n))
  {
    if n != 0 {
      var before := Exec(s, steps, n - 1);
      ExecKeepsInv(s, steps, n - 1);
      ApplyKeepsTableInv(before, steps[n - 1]);
      ApplyKeepsSignerInv(before, steps[n - 1]);
      ApplyKeepsByKidInv(before, steps[n - 1]);
    }
  }

  // ---------------------------------------------------------------------------------------------
  // Main results, for every run and every point n of it

  /**
   Wherever a rotation or clean-up may have stopped, the newest-key lookup through the cache agrees
   with the database, and an entry of the key cache is the stored key of that kid unless the clean-up
   deleted its row and failed to delete the entry.
   */
  lemma CachesAgreeWithDatabase(s0: State, steps: seq<Step>, n: nat, alg: Alg, kid: string)
    requires Init(s0) && n <= |steps|
    ensures var s := Exec(s0, steps, n);
            && LatestKey(s, alg) == PairOpt(QueryLatest(s.table, alg))
            && (alg in s.latest ==> exists row :: row in s.table && row.alg == alg && Pair(row) == s.latest[alg])
            && (kid !in s.stale ==> KeyById(s, kid) == PairOpt(RowOf(s.table, kid)))
  {
    var s := Exec(s0, steps, n);
    ExecKeepsInv(s0, steps, n);
    QueryLatestIsFirst(s.table, alg);
    FirstAt(s.table, alg);
  }

  lemma LatestKeyIsFirst(s0: State, steps: seq<Step>, n: nat, alg: Alg)
    requires Init(s0) && n <= |steps|
    ensures LatestKey(Exec(s0, steps, n), alg) == PairOpt(First(Exec(s0, steps, n).table, alg))
  {
    CachesAgreeWithDatabase(s0, steps, n, alg, "");
    ExecKeepsInv(s0, steps, n);
    QueryLatestIsFirst(Exec(s0, steps, n).table, alg);
  }

  lemma {:induction false} FirstIsFixed(s0: State, steps: seq<Step>, m: nat, n: nat, alg: Alg)
    requires Init(s0) && m <= n <= |steps| && First(Exec(s0, steps, m).table, alg).Some?
    ensures First(Exec(s0, steps, n).table, alg) == First(Exec(s0, steps, m).table, alg)
    decreases n
  {
    hide Apply, First;
    if m < n {
      FirstIsFixed(s0, steps, m, n - 1, alg);
      ExecKeepsInv(s0, steps, n - 1);
      ApplyKeepsFirst(Exec(s0, steps, n - 1), steps[n - 1], alg);
    }
  }

  /** Once an algorithm has a signing key, that key signs for the rest of every run. */
  lemma SigningKeyIsFixed(s0: State, steps: seq<Step>, m: nat, n: nat, alg: Alg)
    requires Init(s0) && m <= n <= |steps| && LatestKey(Exec(s0, steps, m), alg).Some?
    ensures LatestKey(Exec(s0, steps, n), alg) == LatestKey(Exec(s0, steps, m), alg)
  {
    LatestKeyIsFirst(s0, steps, m, alg);
    LatestKeyIsFirst(s0, steps, n, alg);
    FirstIsFixed(s0, steps, m, n, alg);
  }

  function Position(alg: Alg): nat {
    match alg
    case RS256 => 0
    case RS384 => 1
    case RS512 => 2
    case EdDSA => 3
  }

  lemma SavedFirst(s: State, step: Step)
    requires step.SaveKey? && step.kid !in s.known
    ensures First(Apply(s, step).table, step.alg) ==
            if First(s.table, step.alg).None? then Some(Jwk(step.kid, s.now + step.after, step.alg))
            else First(s.table, step.alg)
  {
    FirstOfAppend(s.table, Jwk(step.kid, s.now + step.after, step.alg), step.alg);
  }

  lemma FirstIsStored(s: State, alg: Alg)
    requires Inv(s)
    ensures First(s.table, alg).Some? ==> First(s.table, alg).value.kid in s.known
  {
    FirstAt(s.table, alg);
  }

  /**
   A saved key, whether its rotation is completed or not, is the signing key from then on exactly when no key
   of its algorithm was stored before. Otherwise tokens go on being signed with the oldest key.
   */
  lemma SavedKeySignsIff(s0: State, steps: seq<Step>, p: nat, n: nat)
    requires Init(s0) && p < n <= |steps| && steps[p].SaveKey? && steps[p].kid !in Exec(s0, steps, p).known
    ensures LatestKey(Exec(s0, steps, n), steps[p].alg) == Some(KeyPair(steps[p].kid, steps[p].alg))
       <==> First(Exec(s0, steps, p).table, steps[p].alg).None?
  {
    var alg := steps[p].alg;
    SavedFirst(Exec(s0, steps, p), steps[p]);
    assert Exec(s0, steps, p + 1) == Apply(Exec(s0, steps, p), steps[p]);
    ExecKeepsInv(s0, steps, p);
    FirstIsStored(Exec(s0, steps, p), alg);
    hide Exec, Apply, First, LatestKey;
    LatestKeyIsFirst(s0, steps, n, alg);
    FirstIsFixed(s0, steps, p + 1, n, alg);
  }

  /** A rotation whose nine operations are the steps at these places, with any other steps in between. */
  predicate Rotates(steps: seq<Step>, places: seq<nat>, kids: seq<string>, after: seq<nat>) {
    && |places| == 9 && |kids| == 4 && |after| == 4
    && (forall i, j :: 0 <= i < j < 9 ==> places[i] < places[j])
    && forall i :: 0 <= i < 9 ==> places[i] < |steps| && steps[places[i]] == RotationSteps(kids, after)[i]
  }

  /**
   A rotation, however interleaved with other requests, changes the signing key of exactly those algorithms
   that had none.
   */
  lemma RotationTakesEffect(s0: State, steps: seq<Step>, places: seq<nat>, kids: seq<string>, after: seq<nat>, n: nat,
                            alg: Alg)
    requires Init(s0) && Rotates(steps, places, kids, after) && places[8] < n <= |steps|
    requires kids[Position(alg)] !in Exec(s0, steps, places[Position(alg)]).known
    ensures LatestKey(Exec(s0, steps, n), alg) == Some(KeyPair(kids[Position(alg)], alg))
       <==> First(Exec(s0, steps, places[Position(alg)]).table, alg).None?
  {
    hide Exec, Apply, First, LatestKey;
    var p := places[Position(alg)];
    assert steps[p] == RotationSteps(kids, after)[Position(alg)];
    SavedKeySignsIff(s0, steps, p, n);
  }

  /**
   Every key that ever signed a token is still stored and found by its kid after any run of rotations,
   signatures, lookups, clean-ups and cache losses, whatever the lifetime of the token.
   */
  lemma SigningKeysStayAvailable(s0: State, steps: seq<Step>, n: nat, key: KeyPair)
    requires Init(s0) && n <= |steps| && key in Exec(s0, steps, n).signers
    ensures var s := Exec(s0, steps, n);
            PairOpt(RowOf(s.table, key.kid)) == Some(key) && KeyById(s, key.kid) == Some(key)
  {
    var s := Exec(s0, steps, n);
    ExecKeepsInv(s0, steps, n);
    FirstAt(s.table, key.typ);
    RowOfUnique(s.table, First(s.table, key.typ).value);
  }

  lemma DeletedIff(s: State, rowFails: set<string>, i: nat)
    requires TableInv(s) && i < |s.table|
    ensures s.table[i].kid in Deleted(s, rowFails) <==>
              Repeats(s.table, i) && s.table[i].createdAt < s.now - 90 * 24 * 3600 && s.table[i].kid !in rowFails
  {
    hide Doomed, Repeats, OrderByCreated, Ascending, UniqueKids;
    OrderByCreatedOfAscending(s.table);
    DoomedIffExpired(s.table, s.now - KEY_RETENTION, i);
  }

  lemma CleanupTable(s: State, rowFails: set<string>, cacheFails: set<string>, i: nat)
    requires TableInv(s) && i < |s.table|
    ensures var row, t := s.table[i], Apply(s, Cleanup(rowFails, cacheFails));
            && (row in t.table <==> row.kid !in Deleted(s, rowFails))
            && (row.kid in s.byKid ==> (row.kid in t.byKid <==> row in t.table || row.kid in cacheFails))
  {
    hide Deleted, Without, Ascending, UniqueKids;
    WithoutMembers(s.table, Deleted(s, rowFails), s.table[i]);
  }

  lemma CleanupOnlyDeletes(s: State, rowFails: set<string>, cacheFails: set<string>, row: Jwk)
    requires TableInv(s) && row in Apply(s, Cleanup(rowFails, cacheFails)).table
    ensures row in s.table
  {
    hide Deleted, Without, Ascending, UniqueKids;
    WithoutMembers(s.table, Deleted(s, rowFails), row);
  }

  /**
   A clean-up at any point of any run deletes exactly the keys that are older than 90 days and not the first of
   their algorithm in the table, except those whose deletion fails. A cached key goes exactly with its row,
   unless that deletion fails.
   */
  lemma CleanupLeaves(s0: State, steps: seq<Step>, n: nat, i: nat)
    requires Init(s0) && n < |steps| && steps[n].Cleanup? && i < |Exec(s0, steps, n).table|
    ensures var s, t := Exec(s0, steps, n), Exec(s0, steps, n + 1);
            var row := s.table[i];
            && (row in t.table <==>
                  || (forall j :: 0 <= j < i ==> s.table[j].alg != row.alg)
                  || row.createdAt >= s.now - 90 * 24 * 3600 || row.kid in steps[n].rowFails)
            && (forall x :: x in t.table ==> x in s.table)
            && (row.kid in s.byKid ==>
                  (row.kid in t.byKid <==> row in t.table || row.kid in steps[n].cacheFails))
  {
    var s := Exec(s0, steps, n);
    ExecKeepsInv(s0, steps, n);
    assert Exec(s0, steps, n + 1) == Apply(s, steps[n]);
    hide Exec, Apply, Deleted, SignerInv, ByKidInv, TableInv, Init;
    DeletedIff(s, steps[n].rowFails, i);
    CleanupTable(s, steps[n].rowFails, steps[n].cacheFails, i);
    forall x | x in Exec(s0, steps, n + 1).table ensures x in s.table {
      CleanupOnlyDeletes(s, steps[n].rowFails, steps[n].cacheFails, x);
    }
  }

  /** All four algorithms have a key, and a cached key set shows the signing key of each. */
  predicate PublishedInv(s: State) {
    && (forall alg :: First(s.table, alg).Some?)
    && (s.published.Some? ==> forall alg :: Pair(First(s.table, alg).value) in s.published.value)
  }

  lemma FirstIsPublished(rows: seq<Jwk>, alg: Alg)
    requires First(rows, alg).Some?
    ensures Pair(First(rows, alg).value) in Pairs(rows) && First(rows, alg).value.alg == alg
  {
    FirstAt(rows, alg);
    var i :| 0 <= i < |rows| && rows[i] == First(rows, alg).value;
    assert Pairs(rows)[i] == Pair(rows[i]);
  }

  lemma ApplyKeepsPublishedInv(s: State, step: Step)
    requires TableInv(s) && PublishedInv(s)
    ensures PublishedInv(Apply(s, step))
  {
    var t := Apply(s, step);
    forall alg
      ensures First(t.table, alg) == First(s.table, alg)
      ensures Pair(First(s.table, alg).value) in Pairs(s.table)
    {
      ApplyKeepsFirst(s, step, alg);
      FirstIsPublished(s.table, alg);
    }
    assert t.published == s.published || t.published == None || t.published == Some(Pairs(s.table));
  }

  lemma {:induction false} ExecKeepsPublishedInv(s0: State, steps: seq<Step>, n: nat)
    requires Init(s0) && n <= |steps| && forall alg :: First(s0.table, alg).Some?
    ensures PublishedInv(Exec(s0, steps, n))
  {
    if n != 0 {
      ExecKeepsPublishedInv(s0, steps, n - 1);
      ExecKeepsInv(s0, steps, n - 1);
      ApplyKeepsPublishedInv(Exec(s0, steps, n - 1), steps[n - 1]);
    }
  }

  /** Step f reads the published set into the cache, from where it is still served after n steps. */
  ghost predicate ReadAt(s0: State, steps: seq<Step>, f: nat, n: nat)
    requires n <= |steps|
  {
    && f < n && steps[f].FindPublished? && Exec(s0, steps, f).published.None?
    && forall j :: f < j < n ==> !steps[j].DropPublished?
  }

  lemma PublishedAfter(s: State, step: Step)
    ensures Apply(s, step).published ==
            if step.DropPublished? then None else if step.FindPublished? then Some(PublishedKeys(s)) else s.published
  {
  }

  /** A cached set is the table as it was when the set was last read. */
  lemma {:induction false} PublishedIsAsRead(s0: State, steps: seq<Step>, n: nat)
    requires Init(s0) && n <= |steps|
    ensures Exec(s0, steps, n).published.Some? ==> exists f :: ReadAt(s0, steps, f, n)
    ensures forall f :: ReadAt(s0, steps, f, n) ==>
              Exec(s0, steps, n).published == Some(Pairs(Exec(s0, steps, f).table))
  {
    if n != 0 {
      PublishedIsAsRead(s0, steps, n - 1);
      var before := Exec(s0, steps, n - 1);
      PublishedAfter(before, steps[n - 1]);
      assert Exec(s0, steps, n) == Apply(before, steps[n - 1]);
      hide Apply, Exec, Pairs;
      forall f: nat | ReadAt(s0, steps, f, n)
        ensures Exec(s0, steps, n).published == Some(Pairs(Exec(s0, steps, f).table))
      {
        if f < n - 1 { assert ReadAt(s0, steps, f, n - 1); }
      }
      if Exec(s0, steps, n).published.Some? {
        if before.published.Some? {
          var f :| ReadAt(s0, steps, f, n - 1);
          assert ReadAt(s0, steps, f, n);
        } else {
          assert ReadAt(s0, steps, n - 1, n);
        }
      }
    }
  }

  lemma {:induction false} PairsContain(rows: seq<Jwk>, row: Jwk)
    requires row in rows
    ensures Pair(row) in Pairs(rows)
  {
    var i :| 0 <= i < |rows| && rows[i] == row;
    assert Pairs(rows)[i] == Pair(row);
  }

  lemma SignerIsPublishedFromTable(s0: State, steps: seq<Step>, n: nat, key: KeyPair)
    requires Init(s0) && n <= |steps| && key in Exec(s0, steps, n).signers
    ensures key in Pairs(Exec(s0, steps, n).table)
  {
    var table := Exec(s0, steps, n).table;
    SigningKeysStayAvailable(s0, steps, n, key);
    RowOfIff(table, key.kid);
    PairsContain(table, RowOf(table, key.kid).value);
  }

  /**
   The published set contains a key that has signed exactly when the set, if it comes from the cache, was
   read after the key had been saved.
   */
  lemma PublishedSetShowsSignerIff(s0: State, steps: seq<Step>, n: nat, key: KeyPair)
    requires Init(s0) && n <= |steps| && key in Exec(s0, steps, n).signers
    ensures key in PublishedKeys(Exec(s0, steps, n))
       <==> forall f :: ReadAt(s0, steps, f, n) ==> key in Pairs(Exec(s0, steps, f).table)
  {
    PublishedIsAsRead(s0, steps, n);
    SignerIsPublishedFromTable(s0, steps, n, key);
    hide Exec, Pairs, ReadAt;
  }

  lemma KnownPairs(s: State, key: KeyPair)
    requires TableInv(s) && key in Pairs(s.table)
    ensures key.kid in s.known
  {
    var i :| 0 <= i < |s.table| && Pairs(s.table)[i] == key;
    assert s.table[i] in s.table;
  }

  lemma InitIsInv(s0: State)
    requires Init(s0)
    ensures TableInv(s0)
  {
    ExecKeepsInv(s0, [], 0);
  }

  lemma NotYetPublished(s0: State, key: KeyPair)
    requires Init(s0) && key.kid !in s0.known
    ensures key !in Pairs(s0.table)
  {
    hide Pairs, Init;
    InitIsInv(s0);
    if key in Pairs(s0.table) { KnownPairs(s0, key); }
  }

  lemma FirstSteps(s0: State, steps: seq<Step>, alg: Alg, kid: string, after: nat)
    requires s0.published.None? && |steps| >= 2 && kid !in s0.known
    requires steps[0] == FindPublished && steps[1] == SaveKey(alg, kid, after)
    ensures var t := s0.(published := Some(Pairs(s0.table)));
            Exec(s0, steps, 2) == t.(now := s0.now + after, table := s0.table + [Jwk(kid, s0.now + after, alg)],
                                     known := s0.known + {kid})
  {
    hide Pairs, QueryLatest, RowOf, Deleted, AfterDeleting;
    assert Exec(s0, steps, 0) == s0;
    assert Exec(s0, steps, 1) == Apply(s0, steps[0]);
    assert Exec(s0, steps, 2) == Apply(Exec(s0, steps, 1), steps[1]);
    hide Exec;
  }

  /**
   On a table that lacks an algorithm, as an initialisation leaves it that breaks off between its saves: the set
   is read, a rotation saves the missing key, and this key signs without being in the set.
   */
  lemma MissingAlgorithmHidesSigner(s0: State, steps: seq<Step>, alg: Alg, kid: string, after: nat)
    requires Init(s0) && First(s0.table, alg).None? && kid !in s0.known && |steps| == 3
    requires steps[0] == FindPublished && steps[1] == SaveKey(alg, kid, after) && steps[2] == Sign(alg)
    ensures KeyPair(kid, alg) in Exec(s0, steps, 3).signers && KeyPair(kid, alg) !in PublishedKeys(Exec(s0, steps, 3))
  {
    var key, row := KeyPair(kid, alg), Jwk(kid, s0.now + after, alg);
    var t := s0.(published := Some(Pairs(s0.table)));
    var u := t.(now := s0.now + after, table := s0.table + [row], known := s0.known + {kid});
    FirstSteps(s0, steps, alg, kid, after);
    LatestKeyIsFirst(s0, steps, 2, alg);
    FirstOfAppend(s0.table, row, alg);
    NotYetPublished(s0, key);
    assert Exec(s0, steps, 3) == Apply(u, steps[2]);
    hide Exec, First, Pairs, Init, LatestKey;
  }

  /** A text longer than every text of a finite set. */
  lemma FreshText(texts: set<string>) returns (newer: string)
    ensures forall text :: text in texts ==> |text| < |newer|
  {
    if texts == {} {
      newer := "";
    } else {
      var text :| text in texts;
      var longer := FreshText(texts - {text});
      newer := longer + text + "x";
    }
  }

  /** When every algorithm has a key to begin with, the published set always contains every key that has signed. */
  lemma PublishedSetCoversSigners(s0: State, steps: seq<Step>, n: nat, key: KeyPair)
    requires Init(s0) && n <= |steps| && forall alg :: First(s0.table, alg).Some?
    requires key in Exec(s0, steps, n).signers
    ensures key in PublishedKeys(Exec(s0, steps, n))
  {
    var s := Exec(s0, steps, n);
    ExecKeepsInv(s0, steps, n);
    ExecKeepsPublishedInv(s0, steps, n);
    FirstIsPublished(s.table, key.typ);
  }

  /** In every run after n steps the published set contains the key, if it has signed. */
  ghost predicate Shown(s0: State, steps: seq<Step>, n: nat, key: KeyPair) {
    n <= |steps| && key in Exec(s0, steps, n).signers ==> key in PublishedKeys(Exec(s0, steps, n))
  }

  lemma MissingAlgorithmNotShown(s0: State, alg: Alg) returns (steps: seq<Step>, n: nat, key: KeyPair)
    requires Init(s0) && First(s0.table, alg).None?
    ensures !Shown(s0, steps, n, key)
  {
    var kid := FreshText(s0.known);
    steps, n, key := [FindPublished, SaveKey(alg, kid, 0), Sign(alg)], 3, KeyPair(kid, alg);
    hide Exec, First, PublishedKeys, Init;
    MissingAlgorithmHidesSigner(s0, steps, alg, kid, 0);
  }

  /**
   Exactly the tables with a key of every algorithm, as a completed initialisation leaves them, never lead to a
   published set that lacks a signer.
   */
  lemma PublishedAlwaysCoversIff(s0: State)
    requires Init(s0)
    ensures (forall steps, n: nat, key :: Shown(s0, steps, n, key)) <==> forall alg :: First(s0.table, alg).Some?
  {
    if alg :| First(s0.table, alg).None? {
      var steps, n, key := MissingAlgorithmNotShown(s0, alg);
    } else {
      forall steps, n: nat, key ensures Shown(s0, steps, n, key) {
        if n <= |steps| && key in Exec(s0, steps, n).signers { PublishedSetCoversSigners(s0, steps, n, key); }
      }
    }
  }

  /** Where every algorithm has a key to begin with, no rotation ever changes a signing key. */
  lemma SeededKeysSignForEver(s0: State, steps: seq<Step>, n: nat, alg: Alg)
    requires Init(s0) && n <= |steps| && First(s0.table, alg).Some?
    ensures LatestKey(Exec(s0, steps, n), alg) == LatestKey(s0, alg) == PairOpt(First(s0.table, alg))
  {
    assert Exec(s0, steps, 0) == s0;
    hide Exec, LatestKey, Init;
    LatestKeyIsFirst(s0, steps, 0, alg);
    LatestKeyIsFirst(s0, steps, n, alg);
    FirstIsFixed(s0, steps, 0, n, alg);
  }
}
