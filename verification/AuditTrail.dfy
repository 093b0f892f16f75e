/** The audit trail: a hash chain of records behind a stored head. The hash is any function from
    records to digests; where tampering is concerned it is taken to be free of collisions. */
module AuditTrail {
  import opened Common

  type Digest = nat

  /** What a caller asks to have recorded. */
  datatype Payload = Payload(action: nat, actor: nat, timestamp: nat, details: map<nat, string>,
      overrideNonce: Option<nat>)

  datatype Record = Record(index: nat, payload: Payload, prevHash: Digest)

  datatype Head = Head(latestIndex: nat, latestHash: Digest)

  /** The stored head (none before the first record) and the stored records by index. */
  datatype Trail = Trail(head: Option<Head>, records: map<nat, Record>)

  type Hash = Record -> Digest

  const GENESIS: Digest := 0
  const EMPTY := Trail(None, map[])

  ghost predicate CollisionFree(hash: Hash) {
    forall r, q :: hash(r) == hash(q) ==> r == q
  }

  function HeadOf(t: Trail): Head {
    if t.head.Some? then t.head.value else Head(0, GENESIS)
  }

  function Append(hash: Hash, t: Trail, p: Payload): Trail {
    var head := HeadOf(t);
    var r := Record(head.latestIndex + 1, p, head.latestHash);
    Trail(Some(Head(head.latestIndex + 1, hash(r))), t.records[head.latestIndex + 1 := r])
  }

  function AppendAll(hash: Hash, ps: seq<Payload>): Trail {
    if ps == [] then EMPTY else Append(hash, AppendAll(hash, ps[..|ps| - 1]), ps[|ps| - 1])
  }

  /** The verifier's walk: from `index` down, at most `depth` records, each matching the hash expected of it. */
  predicate Walk(hash: Hash, records: map<nat, Record>, index: nat, expected: Digest, depth: nat)
    decreases depth
  {
    index == 0 || depth == 0 ||
    (index in records && hash(records[index]) == expected
     && Walk(hash, records, index - 1, records[index].prevHash, depth - 1))
  }

  predicate Verify(hash: Hash, t: Trail, depth: nat) {
    t.head.None? || Walk(hash, t.records, t.head.value.latestIndex, t.head.value.latestHash, depth)
  }

  /** The latest records, newest first, skipping indices that are not stored. */
  function Latest(records: map<nat, Record>, index: nat, limit: nat): seq<Record>
    decreases limit
  {
    if index == 0 || limit == 0 then []
    else (if index in records then [records[index]] else []) + Latest(records, index - 1, limit - 1)
  }

  // ----- what the verifier establishes -----

  /** The hash the record at `i` must have: the head's for the latest, the back-reference of the record
      above it for the others. */
  function Expected(t: Trail, i: nat): Digest {
    if t.head.None? then GENESIS
    else if i == t.head.value.latestIndex then t.head.value.latestHash
    else if i + 1 in t.records then t.records[i + 1].prevHash
    else GENESIS
  }

  /** Index `i` is among the `depth` latest. */
  predicate Within(t: Trail, depth: nat, i: nat) {
    t.head.Some? && 0 < i <= t.head.value.latestIndex < i + depth
  }

  lemma {:induction false} WalkIff(hash: Hash, t: Trail, index: nat, expected: Digest, depth: nat)
    requires t.head.Some? && index <= t.head.value.latestIndex && (index > 0 ==> expected == Expected(t, index))
    ensures Walk(hash, t.records, index, expected, depth) <==>
              forall i :: 0 < i <= index < i + depth ==> i in t.records && hash(t.records[i]) == Expected(t, i)
    decreases depth
  {
    if index > 0 && depth > 0 && index in t.records && hash(t.records[index]) == expected {
      WalkIff(hash, t, index - 1, t.records[index].prevHash, depth - 1);
    }
  }

  /** Verification to a depth accepts exactly the trails in which every one of the latest `depth` records
      is stored and hashes to what the record above it, or the head, says. */
  lemma VerifyIff(hash: Hash, t: Trail, depth: nat)
    ensures Verify(hash, t, depth) <==>
              forall i :: Within(t, depth, i) ==> i in t.records && hash(t.records[i]) == Expected(t, i)
  {
    if t.head.Some? {
      WalkIff(hash, t, t.head.value.latestIndex, t.head.value.latestHash, depth);
      assert forall i: nat :: Within(t, depth, i) <==> 0 < i <= t.head.value.latestIndex < i + depth;
    }
  }

  // ----- tamper evidence -----

  lemma {:induction false} WalkAgrees(hash: Hash, a: map<nat, Record>, b: map<nat, Record>, index: nat,
      expected: Digest, depth: nat, i: nat)
    requires CollisionFree(hash)
    requires Walk(hash, a, index, expected, depth) && Walk(hash, b, index, expected, depth)
    requires 0 < i <= index < i + depth
    ensures i in a && i in b && a[i] == b[i]
    decreases depth
  {
    if i < index {
      WalkAgrees(hash, a, b, index - 1, a[index].prevHash, depth - 1, i);
    }
  }

  /** Two trails with the same head that both verify to some depth hold identical records that deep. */
  lemma SameHeadSameRecords(hash: Hash, a: Trail, b: Trail, depth: nat)
    requires CollisionFree(hash) && a.head == b.head
    requires Verify(hash, a, depth) && Verify(hash, b, depth)
    ensures forall i :: Within(a, depth, i) ==> i in a.records && i in b.records && a.records[i] == b.records[i]
  {
    forall i | Within(a, depth, i) ensures i in a.records && i in b.records && a.records[i] == b.records[i] {
      WalkAgrees(hash, a.records, b.records, a.head.value.latestIndex, a.head.value.latestHash, depth, i);
    }
  }

  /** Replacing one record of a verified trail under its unchanged head is noticed exactly when the
      record lies within the verified depth. */
  lemma ReplacementNoticedIff(hash: Hash, t: Trail, depth: nat, i: nat, r: Record)
    requires CollisionFree(hash) && Verify(hash, t, depth)
    requires i in t.records && t.records[i] != r
    ensures !Verify(hash, t.(records := t.records[i := r]), depth) <==> Within(t, depth, i)
  {
    var u := t.(records := t.records[i := r]);
    if Within(t, depth, i) {
      if Verify(hash, u, depth) {
        SameHeadSameRecords(hash, t, u, depth);
      }
    } else if t.head.Some? {
      WalkFrame(hash, t.records, u.records, t.head.value.latestIndex, t.head.value.latestHash, depth);
    }
  }

  /** So is deleting one. */
  lemma DeletionNoticedIff(hash: Hash, t: Trail, depth: nat, i: nat)
    requires Verify(hash, t, depth) && i in t.records
    ensures !Verify(hash, t.(records := t.records - {i}), depth) <==> Within(t, depth, i)
  {
    var u := t.(records := t.records - {i});
    if Within(t, depth, i) {
      VerifyIff(hash, u, depth);
      assert Within(u, depth, i);
    } else if t.head.Some? {
      WalkFrame(hash, t.records, u.records, t.head.value.latestIndex, t.head.value.latestHash, depth);
    }
  }

  lemma {:induction false} WalkFrame(hash: Hash, a: map<nat, Record>, b: map<nat, Record>, index: nat,
      expected: Digest, depth: nat)
    requires forall i :: 0 < i <= index < i + depth ==> (i in a <==> i in b) && (i in a ==> a[i] == b[i])
    ensures Walk(hash, a, index, expected, depth) <==> Walk(hash, b, index, expected, depth)
    decreases depth
  {
    if index > 0 && depth > 0 && index in a {
      WalkFrame(hash, a, b, index - 1, a[index].prevHash, depth - 1);
    }
  }

  // ----- honest trails -----

  /** A trail built by appending payloads holds them in order under consecutive indices, nothing else,
      and verifies to every depth. */
  lemma {:induction false} HonestTrail(hash: Hash, ps: seq<Payload>, depth: nat)
    ensures var t := AppendAll(hash, ps);
            && (t.head.Some? <==> ps != []) && HeadOf(t).latestIndex == |ps|
            && (forall i :: i in t.records <==> 0 < i <= |ps|)
            && (forall i | 0 < i <= |ps| :: t.records[i].index == i && t.records[i].payload == ps[i - 1])
            && Verify(hash, t, depth)
  {
    if ps == [] {
    } else {
      var k := |ps| - 1;
      var t := AppendAll(hash, ps[..k]);
      var u := AppendAll(hash, ps);
      HonestTrail(hash, ps[..k], if depth == 0 then 0 else depth - 1);
      if depth > 0 {
        WalkFrame(hash, t.records, u.records, k, HeadOf(t).latestHash, depth - 1);
      }
    }
  }

  /** The first record of an honest trail refers back to the genesis hash. */
  lemma {:induction false} FirstRefersToGenesis(hash: Hash, ps: seq<Payload>)
    requires ps != []
    ensures 1 in AppendAll(hash, ps).records && AppendAll(hash, ps).records[1].prevHash == GENESIS
  {
    var k := |ps| - 1;
    HonestTrail(hash, ps[..k], 0);
    if k > 0 {
      FirstRefersToGenesis(hash, ps[..k]);
    }
  }

  /** Appending to any trail, tampered with or not, adds one record to what verifies: it holds to one more
      than before, and hides nothing that was wrong. */
  lemma AppendVerifiesIff(hash: Hash, t: Trail, p: Payload, depth: nat)
    ensures Verify(hash, Append(hash, t, p), depth + 1) <==> Verify(hash, t, depth)
    ensures Verify(hash, Append(hash, t, p), 0)
  {
    var head := HeadOf(t);
    WalkFrame(hash, t.records, Append(hash, t, p).records, head.latestIndex, head.latestHash, depth);
  }

  /** Appending never changes a record already written. */
  lemma {:induction false} AppendOnly(hash: Hash, ps: seq<Payload>, n: nat, i: nat)
    requires 0 < i <= n <= |ps|
    ensures i in AppendAll(hash, ps[..n]).records && i in AppendAll(hash, ps).records
    ensures AppendAll(hash, ps).records[i] == AppendAll(hash, ps[..n]).records[i]
  {
    HonestTrail(hash, ps[..n], 0);
    if n == |ps| {
      assert ps[..n] == ps;
    } else {
      var k := |ps| - 1;
      assert ps[..k][..n] == ps[..n];
      AppendOnly(hash, ps[..k], n, i);
      HonestTrail(hash, ps[..k], 0);
    }
  }

  /** The head authenticates the whole history: any store with the head of an honest trail that passes
      full verification holds exactly the payloads that were appended, at their places. */
  lemma HeadAuthenticatesHistory(hash: Hash, ps: seq<Payload>, t: Trail)
    requires CollisionFree(hash) && t.head == AppendAll(hash, ps).head && Verify(hash, t, |ps|)
    ensures forall i | 0 < i <= |ps| :: i in t.records && t.records[i].index == i && t.records[i].payload == ps[i - 1]
  {
    var u := AppendAll(hash, ps);
    HonestTrail(hash, ps, |ps|);
    SameHeadSameRecords(hash, u, t, |ps|);
    forall i | 0 < i <= |ps| ensures i in t.records && t.records[i] == u.records[i] {
      assert Within(u, |ps|, i);
    }
  }

  /** On an honest trail the latest records are the last payloads, newest first. */
  lemma {:induction false} LatestOfHonest(hash: Hash, ps: seq<Payload>, index: nat, limit: nat)
    requires index <= |ps|
    ensures var l := Latest(AppendAll(hash, ps).records, index, limit);
            && |l| == (if limit < index then limit else index)
            && forall j | 0 <= j < |l| :: l[j].index == index - j && l[j].payload == ps[index - j - 1]
    decreases limit
  {
    if index > 0 && limit > 0 {
      HonestTrail(hash, ps, 0);
      LatestOfHonest(hash, ps, index - 1, limit - 1);
    }
  }

  // ----- the stored trail -----

  class AuditTrailStore {
    const hash: Hash
    var head: Option<Head>
    var records: map<nat, Record>

    constructor (hash: Hash)
      ensures this.hash == hash && Model() == EMPTY
    {
      this.hash, this.head, this.records := hash, None, map[];
    }

    function Model(): Trail
      reads this
    {
      Trail(head, records)
    }

    method AppendRecord(payload: Payload) returns (index: nat)
      modifies this`head, this`records
      ensures Model() == Append(hash, old(Model()), payload)
      ensures index == HeadOf(old(Model())).latestIndex + 1 && index in records && records[index].payload == payload
      ensures forall i | i != index :: i in records <==> i in old(records)
      ensures forall i | i in old(records) && i != index :: records[i] == old(records)[i]
      ensures forall depth: nat :: Verify(hash, Model(), depth + 1) <==> Verify(hash, old(Model()), depth)
    {
      var current := if head.Some? then head.value else Head(0, GENESIS);
      index := current.latestIndex + 1;
      var record := Record(index, payload, current.latestHash);
      records := records[index := record];
      current := current.(latestIndex := index);
      current := current.(latestHash := hash(record));
      head := Some(current);
      forall depth: nat ensures Verify(hash, Model(), depth + 1) <==> Verify(hash, old(Model()), depth) {
        AppendVerifiesIff(hash, old(Model()), payload, depth);
      }
    }

    method GetLatestRecords(limit: nat) returns (found: seq<Record>)
      ensures found == if head.None? then [] else Latest(records, head.value.latestIndex, limit)
    {
      if head.None? {
        return [];
      }
      found := [];
      var currentIndex := head.value.latestIndex;
      var count := 0;
      while currentIndex > 0 && count < limit
        invariant count <= limit
        invariant found + Latest(records, currentIndex, limit - count) == Latest(records, head.value.latestIndex, limit)
      {
        if currentIndex in records {
          found := found + [records[currentIndex]];
        }
        currentIndex := currentIndex - 1;
        count := count + 1;
      }
    }

    method VerifyIntegrity(depth: nat) returns (intact: bool)
      ensures intact == Verify(hash, Model(), depth)
    {
      if head.None? {
        return true;
      }
      var currentIndex := head.value.latestIndex;
      var expectedHash := head.value.latestHash;
      var checked := 0;
      while currentIndex > 0 && checked < depth
        invariant checked <= depth
        invariant Walk(hash, records, currentIndex, expectedHash, depth - checked) == Verify(hash, Model(), depth)
      {
        if currentIndex !in records {
          return false;
        }
        var record := records[currentIndex];
        if hash(record) != expectedHash {
          return false;
        }
        expectedHash := record.prevHash;
        currentIndex := currentIndex - 1;
        checked := checked + 1;
      }
      return true;
    }
  }
}
