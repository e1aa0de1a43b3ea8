/** The hash-chained audit log.

    The hash is any function of the previous hash and the record body that is injective and never
    yields the genesis marker; nothing else about it is used. */
module Audit {
  const GENESIS := "GENESIS"

  /** The fields the chain covers; `content` stands for all descriptive fields of a record. */
  datatype Body = Body(id: string, content: string, prevHash: string)

  /** `updatedAt` is touched by storage after hashing, so the chain leaves it out. */
  datatype AuditRecord = AuditRecord(id: string, content: string, prevHash: string, recordHash: string, updatedAt: int)

  type HashFn = (string, Body) -> string

  ghost predicate GoodHash(h: HashFn) {
    && (forall p, b :: h(p, b) != GENESIS)
    && (forall p, b, q, c :: h(p, b) == h(q, c) ==> p == q && b == c)
  }

  function BodyOf(r: AuditRecord): Body {
    Body(r.id, r.content, r.prevHash)
  }

  predicate HashOk(h: HashFn, r: AuditRecord) {
    r.recordHash == h(r.prevHash, BodyOf(r))
  }

  /** A chain from genesis, each record linked to the one before it and correctly hashed. */
  ghost predicate IsChain(h: HashFn, c: seq<AuditRecord>) {
    && (forall i :: 0 <= i < |c| ==> HashOk(h, c[i]))
    && (c != [] ==> c[0].prevHash == GENESIS)
    && (forall i, j :: 0 <= i && j == i + 1 && j < |c| ==> c[j].prevHash == c[i].recordHash)
  }

  /** The stored rows, in whatever order, are exactly the records of one chain. */
  ghost predicate Intact(h: HashFn, records: seq<AuditRecord>) {
    exists c :: IsChain(h, c) && multiset(c) == multiset(records)
  }

  ghost predicate DistinctPrev(s: seq<AuditRecord>) {
    forall i, j :: 0 <= i < j < |s| ==> s[i].prevHash != s[j].prevHash
  }

  // ---- a hash of the kind -------------------------------------------------------------------

  /** Each character marked, and the end marked differently: no text is the beginning of another. */
  function Marked(s: string): string {
    if s == "" then "0" else ['1', s[0]] + Marked(s[1..])
  }

  lemma {:induction false} MarkedSplits(a: string, b: string, x: string, y: string)
    requires Marked(a) + x == Marked(b) + y
    ensures a == b && x == y
  {
    var s, t := Marked(a) + x, Marked(b) + y;
    assert s[0] == t[0];
    if a == "" || b == "" {
      assert a == b == "";
      assert s[1..] == x && t[1..] == y;
    } else {
      assert s[1] == a[0] && t[1] == b[0];
      assert s[2..] == Marked(a[1..]) + x && t[2..] == Marked(b[1..]) + y;
      MarkedSplits(a[1..], b[1..], x, y);
    }
  }

  function PlainHash(prev: string, body: Body): string {
    Marked(prev) + (Marked(body.id) + (Marked(body.content) + (Marked(body.prevHash) + "")))
  }

  /** There is such a hash. */
  lemma GoodHashExists() returns (h: HashFn)
    ensures GoodHash(h)
  {
    h := PlainHash;
    forall p, b ensures PlainHash(p, b) != GENESIS { assert PlainHash(p, b)[0] in {'0', '1'}; }
    forall p, b, q, c | PlainHash(p, b) == PlainHash(q, c) ensures p == q && b == c { PlainInjective(p, b, q, c); }
  }

  lemma PlainInjective(p: string, b: Body, q: string, c: Body)
    requires PlainHash(p, b) == PlainHash(q, c)
    ensures p == q && b == c
  {
    hide Marked;
    MarkedSplits(p, q, Marked(b.id) + (Marked(b.content) + (Marked(b.prevHash) + "")),
                 Marked(c.id) + (Marked(c.content) + (Marked(c.prevHash) + "")));
    MarkedSplits(b.id, c.id, Marked(b.content) + (Marked(b.prevHash) + ""), Marked(c.content) + (Marked(c.prevHash) + ""));
    MarkedSplits(b.content, c.content, Marked(b.prevHash) + "", Marked(c.prevHash) + "");
    MarkedSplits(b.prevHash, c.prevHash, "", "");
  }

  // ---- chains ---------------------------------------------------------------------------

  lemma {:induction false} PrevDiffers(h: HashFn, c: seq<AuditRecord>, i: nat, j: nat)
    requires GoodHash(h) && IsChain(h, c) && i < j < |c|
    ensures c[i].prevHash != c[j].prevHash
  {
    assert HashOk(h, c[j - 1]) && c[j].prevHash == c[j - 1].recordHash;
    if i > 0 {
      assert HashOk(h, c[i - 1]) && c[i].prevHash == c[i - 1].recordHash;
      PrevDiffers(h, c, i - 1, j - 1);
    }
  }

  lemma ChainDistinct(h: HashFn, c: seq<AuditRecord>)
    requires GoodHash(h) && IsChain(h, c)
    ensures DistinctPrev(c)
  {
    forall i, j | 0 <= i < j < |c| ensures c[i].prevHash != c[j].prevHash { PrevDiffers(h, c, i, j); }
  }

  lemma Occurrences(s: seq<AuditRecord>, i: nat, j: nat)
    requires i < j < |s|
    ensures s[i] == s[j] ==> multiset(s)[s[i]] >= 2
  {
    assert s == s[..j] + s[j..] && s[..j][i] == s[i] && s[j..][0] == s[j];
    assert multiset(s) == multiset(s[..j]) + multiset(s[j..]);
    assert s[i] in s[..j] && s[j] in s[j..];
  }

  lemma {:induction false} DistinctOnce(s: seq<AuditRecord>, r: AuditRecord)
    requires DistinctPrev(s)
    ensures multiset(s)[r] <= 1
  {
    if s != [] {
      var front := s[..|s| - 1];
      assert s == front + [s[|s| - 1]];
      DistinctOnce(front, r);
      if r in front {
        var i :| 0 <= i < |front| && front[i] == r;
        assert s[i].prevHash != s[|s| - 1].prevHash;
      }
    }
  }

  lemma MemberOf(s: seq<AuditRecord>, t: seq<AuditRecord>, i: nat) returns (k: nat)
    requires multiset(s) <= multiset(t) && i < |s|
    ensures k < |t| && t[k] == s[i]
  {
    assert s[i] in multiset(s);
    assert s[i] in t;
    k :| 0 <= k < |t| && t[k] == s[i];
  }

  /** Reordering keeps links unique. */
  lemma DistinctPermutes(s: seq<AuditRecord>, t: seq<AuditRecord>)
    requires DistinctPrev(s) && multiset(s) == multiset(t)
    ensures DistinctPrev(t)
  {
    forall i, j | 0 <= i < j < |t| ensures t[i].prevHash != t[j].prevHash {
      var a := MemberOf(t, s, i);
      var b := MemberOf(t, s, j);
      if a == b {
        Occurrences(t, i, j);
        DistinctOnce(s, t[i]);
      } else {
        assert s[if a < b then a else b].prevHash != s[if a < b then b else a].prevHash;
      }
    }
  }

  /** Inside the records of one chain every chain follows it from the start. */
  lemma {:induction false} ChainsAgree(h: HashFn, c: seq<AuditRecord>, d: seq<AuditRecord>, n: nat)
    requires GoodHash(h) && IsChain(h, c) && IsChain(h, d)
    requires (forall r :: r in d ==> r in c) && n <= |d|
    ensures n <= |c| && d[..n] == c[..n]
  {
    if n > 0 {
      ChainsAgree(h, c, d, n - 1);
      var i := n - 1;
      assert d[i] in d;
      var k :| 0 <= k < |c| && c[k] == d[i];
      if i == 0 {
        if k > 0 { PrevDiffers(h, c, 0, k); }
      } else {
        assert d[i - 1] == d[..i][i - 1] == c[..i][i - 1] == c[i - 1];
        assert HashOk(h, c[i - 1]) && d[i].prevHash == c[i - 1].recordHash;
        FollowerOf(h, c, i - 1, k);
      }
      assert k == i;
      assert d[..n] == d[..i] + [d[i]] && c[..n] == c[..i] + [c[i]];
    }
  }

  /** Only the next record links to record `i`. */
  lemma FollowerOf(h: HashFn, c: seq<AuditRecord>, i: nat, k: nat)
    requires GoodHash(h) && IsChain(h, c) && i < |c| && k < |c|
    requires c[k].prevHash == c[i].recordHash
    ensures k == i + 1
  {
    assert HashOk(h, c[i]);
    if k > 0 {
      assert HashOk(h, c[k - 1]) && c[k].prevHash == c[k - 1].recordHash;
      if k - 1 < i { PrevDiffers(h, c, k - 1, i); }
      if i < k - 1 { PrevDiffers(h, c, i, k - 1); }
    }
  }

  // ---- what the walk decides ----------------------------------------------------------------

  /** `c` is a chain inside the records that no record continues. */
  ghost predicate MaximalChain(h: HashFn, records: seq<AuditRecord>, c: seq<AuditRecord>) {
    && IsChain(h, c) && c != []
    && (forall r :: r in c ==> r in records)
    && (forall r :: r in records ==> r.prevHash != c[|c| - 1].recordHash)
  }

  lemma {:induction false} InsideShorter(s: seq<AuditRecord>, t: seq<AuditRecord>)
    requires DistinctPrev(s) && forall r :: r in s ==> r in t
    ensures |s| <= |t| && multiset(s) <= multiset(t)
  {
    forall r ensures multiset(s)[r] <= multiset(t)[r] {
      DistinctOnce(s, r);
      assert r in s ==> r in t;
    }
    var rest := multiset(t) - multiset(s);
    assert multiset(t) == multiset(s) + rest;
    assert |multiset(t)| == |multiset(s)| + |rest|;
  }

  /** The walk uses up all records exactly when they form one chain. */
  lemma WalkDecides(h: HashFn, records: seq<AuditRecord>, c: seq<AuditRecord>)
    requires GoodHash(h) && MaximalChain(h, records, c)
    ensures |c| <= |records|
    ensures |c| == |records| <==> Intact(h, records)
  {
    ChainDistinct(h, c);
    InsideShorter(c, records);
    if |c| == |records| {
      var rest := multiset(records) - multiset(c);
      assert multiset(records) == multiset(c) + rest;
      assert |multiset(records)| == |multiset(c)| + |rest|;
      assert multiset(c) == multiset(records);
    }
    if Intact(h, records) {
      var d: seq<AuditRecord> :| IsChain(h, d) && multiset(d) == multiset(records);
      SameMembers(d, records);
      ChainsAgree(h, d, c, |c|);
      SameSize(d, records);
      assert d[..|c|] == c && c[|c| - 1] == d[|c| - 1];
      if |c| < |d| { NextLinks(h, d, |c|); }
    }
  }

  lemma NextLinks(h: HashFn, c: seq<AuditRecord>, n: nat)
    requires IsChain(h, c) && 0 < n < |c|
    ensures exists r :: r in c && r.prevHash == c[n - 1].recordHash
  {
    assert c[n] in c && c[n].prevHash == c[n - 1].recordHash;
  }

  lemma PairDiffers(s: seq<AuditRecord>, i: nat, j: nat)
    requires DistinctPrev(s) && i < j < |s|
    ensures s[i].prevHash != s[j].prevHash
  {
  }

  lemma EmptyIfNone(s: seq<AuditRecord>)
    ensures (forall r :: r !in s) ==> s == []
  {
    if s != [] { assert s[0] in s; }
  }

  lemma SameMembers(s: seq<AuditRecord>, t: seq<AuditRecord>)
    requires multiset(s) == multiset(t)
    ensures forall r :: r in s <==> r in t
  {
    forall r ensures r in s <==> r in t {
      assert r in s <==> r in multiset(s);
      assert r in t <==> r in multiset(t);
    }
  }

  lemma SameSize(s: seq<AuditRecord>, t: seq<AuditRecord>)
    requires multiset(s) == multiset(t)
    ensures |s| == |t|
  {
    assert |multiset(s)| == |s| && |multiset(t)| == |t|;
  }

  // ---- tampering ----------------------------------------------------------------------------

  /** Deleting rows from an intact log goes unnoticed exactly when what remains is a prefix of its chain. */
  lemma DeletionUndetectedIffPrefix(h: HashFn, c: seq<AuditRecord>, kept: seq<AuditRecord>)
    requires GoodHash(h) && IsChain(h, c) && multiset(kept) <= multiset(c)
    ensures Intact(h, kept) <==> |kept| <= |c| && multiset(kept) == multiset(c[..|kept|])
  {
    if Intact(h, kept) {
      var d: seq<AuditRecord> :| IsChain(h, d) && multiset(d) == multiset(kept);
      SameSize(d, kept);
      forall r | r in d ensures r in c {
        assert r in multiset(d);
        assert r in multiset(c);
      }
      ChainsAgree(h, c, d, |d|);
      assert d[..|d|] == d;
    }
    if |kept| <= |c| {
      assert IsChain(h, c[..|kept|]);
    }
  }

  /** Equal in every field but the storage stamp. */
  predicate SameButStamp(r: AuditRecord, s: AuditRecord) {
    r == s.(updatedAt := r.updatedAt)
  }

  /** The hash covers every field but itself and the storage stamp. */
  lemma HashCoversFields(h: HashFn, r: AuditRecord, s: AuditRecord)
    requires GoodHash(h) && HashOk(h, r) && HashOk(h, s)
    ensures r.recordHash == s.recordHash <==> r.id == s.id && r.content == s.content && r.prevHash == s.prevHash
  {
    assert BodyOf(r) == BodyOf(s) <==> r.id == s.id && r.content == s.content && r.prevHash == s.prevHash;
  }

  /** A well-hashed record stays so exactly under changes of the storage stamp alone, if its stored hash is kept. */
  lemma HashStaysIff(h: HashFn, r: AuditRecord, s: AuditRecord)
    requires GoodHash(h) && HashOk(h, r) && s.recordHash == r.recordHash
    ensures HashOk(h, s) <==> SameButStamp(s, r)
  {
    if HashOk(h, s) { HashCoversFields(h, r, s); }
  }

  /** Inside the chain only a change of the storage stamp goes unnoticed. */
  lemma EditInsideIff(h: HashFn, c: seq<AuditRecord>, i: nat, r: AuditRecord)
    requires GoodHash(h) && IsChain(h, c) && i < |c| - 1
    ensures Intact(h, c[i := r]) <==> r == c[i].(updatedAt := r.updatedAt)
  {
    EditUndetectedIff(h, c, i, r);
  }

  /** The rows are those of a chain but for the content of one record, with that id. */
  ghost predicate ContentEdited(h: HashFn, rows: seq<AuditRecord>, id: string) {
    exists c: seq<AuditRecord>, i, content ::
      0 <= i < |c| && IsChain(h, c) && c[i].id == id && OtherContent(c, i, content, rows)
  }

  predicate OtherContent(c: seq<AuditRecord>, i: nat, content: string, rows: seq<AuditRecord>)
    requires i < |c|
  {
    content != c[i].content && multiset(rows) == multiset(c[i := c[i].(content := content)])
  }

  /** Such a row is the only one with a wrong hash. */
  lemma EditedRowStandsOut(h: HashFn, rows: seq<AuditRecord>, id: string)
    requires GoodHash(h) && ContentEdited(h, rows, id)
    ensures !AllHashed(h, rows)
    ensures forall k :: 0 <= k < |rows| && !HashOk(h, rows[k]) ==> rows[k].id == id
  {
    var c: seq<AuditRecord>, i, content :|
      0 <= i < |c| && IsChain(h, c) && c[i].id == id && OtherContent(c, i, content, rows);
    var edited := c[i := c[i].(content := content)];
    HashStaysIff(h, c[i], edited[i]);
    var k := MemberOf(edited, rows, i);
    hide GoodHash, HashOk;
    forall k | 0 <= k < |rows| && !HashOk(h, rows[k]) ensures rows[k].id == id {
      var j := MemberOf(rows, edited, k);
      assert HashOk(h, c[j]);
    }
  }

  /** Replacing one row goes unnoticed exactly when it changes nothing but the storage stamp, or when it is the
      last row and is replaced by another correctly hashed record with the same link. */
  lemma EditUndetectedIff(h: HashFn, c: seq<AuditRecord>, i: nat, r: AuditRecord)
    requires GoodHash(h) && IsChain(h, c) && i < |c|
    ensures Intact(h, c[i := r]) <==>
      SameButStamp(r, c[i]) || (i == |c| - 1 && HashOk(h, r) && r.prevHash == c[i].prevHash)
  {
    assert HashOk(h, c[i]);
    var edited := c[i := r];
    if Intact(h, edited) {
      var d: seq<AuditRecord> :| IsChain(h, d) && multiset(d) == multiset(edited);
      if i < |c| - 1 {
        EditInside(h, c, i, r, d);
      } else {
        EditLast(h, c, r, d);
      }
    }
    if SameButStamp(r, c[i]) || (i == |c| - 1 && HashOk(h, r) && r.prevHash == c[i].prevHash) {
      assert IsChain(h, edited);
    }
  }

  /** So the end of a log is open: the last record may be replaced by another one, or be missing. */
  lemma EndIsOpen(h: HashFn) returns (c: seq<AuditRecord>, r: AuditRecord)
    requires GoodHash(h)
    ensures |c| == 1 && Intact(h, c) && r.content != c[0].content
    ensures Intact(h, c[0 := r]) && Intact(h, [])
  {
    var b0, b1 := Body("1", "granted", GENESIS), Body("1", "denied", GENESIS);
    c := [AuditRecord("1", "granted", GENESIS, h(GENESIS, b0), 0)];
    r := AuditRecord("1", "denied", GENESIS, h(GENESIS, b1), 0);
    assert IsChain(h, c) && IsChain(h, []);
    EditUndetectedIff(h, c, 0, r);
  }

  lemma EditInside(h: HashFn, c: seq<AuditRecord>, i: nat, r: AuditRecord, d: seq<AuditRecord>)
    requires GoodHash(h) && IsChain(h, c) && i < |c| - 1
    requires IsChain(h, d) && multiset(d) == multiset(c[i := r])
    ensures SameButStamp(r, c[i])
  {
    var edited := c[i := r];
    assert HashOk(h, c[i]) && c[i + 1].prevHash == c[i].recordHash;
    var k := MemberOf(edited, d, i + 1);
    assert k > 0;
    assert HashOk(h, d[k - 1]) && d[k].prevHash == d[k - 1].recordHash;
    var j := MemberOf(d, edited, k - 1);
    if j != i {
      assert HashOk(h, c[j]) && c[j].recordHash == c[i].recordHash;
      PrevDiffers(h, c, if i < j then i else j, if i < j then j else i);
    }
  }

  lemma EditLast(h: HashFn, c: seq<AuditRecord>, r: AuditRecord, d: seq<AuditRecord>)
    requires GoodHash(h) && IsChain(h, c) && c != []
    requires IsChain(h, d) && multiset(d) == multiset(c[|c| - 1 := r])
    ensures HashOk(h, r) && r.prevHash == c[|c| - 1].prevHash
  {
    var i := |c| - 1;
    var edited := c[i := r];
    ChainDistinct(h, d);
    DistinctPermutes(d, edited);
    var k := MemberOf(edited, d, i);
    assert HashOk(h, d[k]);
    if k == 0 {
      if i > 0 { PairDiffers(edited, 0, i); }
    } else {
      var j := MemberOf(d, edited, k - 1);
      assert d[k].prevHash == d[k - 1].recordHash && d[k - 1].prevHash != d[k].prevHash;
      assert j < i;
      assert c[j + 1].prevHash == c[j].recordHash;
      if j + 1 < i { PairDiffers(edited, j + 1, i); }
    }
  }

  // ---- the verifier ----------------------------------------------------------------------------

  datatype Verdict = Verified | BadHash(id: string) | Fork | MultipleHeads | Gap

  function GroupOf(records: seq<AuditRecord>, prev: string): seq<AuditRecord> {
    if records == [] then []
    else
      var front, last := records[..|records| - 1], records[|records| - 1];
      GroupOf(front, prev) + if last.prevHash == prev then [last] else []
  }

  lemma {:induction false} GroupMembers(records: seq<AuditRecord>, prev: string)
    ensures forall r :: r in GroupOf(records, prev) <==> r in records && r.prevHash == prev
  {
    if records != [] {
      GroupMembers(records[..|records| - 1], prev);
      assert records == records[..|records| - 1] + [records[|records| - 1]];
    }
  }

  lemma {:induction false} GroupSizes(records: seq<AuditRecord>)
    ensures DistinctPrev(records) <==> forall p :: |GroupOf(records, p)| <= 1
  {
    if records != [] {
      var front, last := records[..|records| - 1], records[|records| - 1];
      GroupSizes(front);
      GroupMembers(front, last.prevHash);
      if DistinctPrev(records) {
        forall r | r in front ensures r.prevHash != last.prevHash {
          var i :| 0 <= i < |front| && front[i] == r;
          PairDiffers(records, i, |front|);
        }
        EmptyIfNone(GroupOf(front, last.prevHash));
        assert DistinctPrev(front) by {
          forall i, j | 0 <= i < j < |front| ensures front[i].prevHash != front[j].prevHash {
            PairDiffers(records, i, j);
          }
        }
        forall p ensures |GroupOf(records, p)| <= 1 { assert |GroupOf(front, p)| <= 1; }
      } else if DistinctPrev(front) {
        var i :| 0 <= i < |front| && records[i].prevHash == last.prevHash;
        assert front[i] in GroupOf(front, last.prevHash);
        assert |GroupOf(records, last.prevHash)| >= 2;
      } else {
        var p :| |GroupOf(front, p)| > 1;
        assert |GroupOf(records, p)| > 1;
      }
    }
  }

  type Index = map<string, seq<AuditRecord>>

  /** The index lists, for every link value that occurs, the records carrying it. */
  ghost predicate Indexes(byPrev: Index, records: seq<AuditRecord>) {
    && (forall p :: p in byPrev ==> byPrev[p] == GroupOf(records, p))
    && (forall p :: p !in byPrev ==> GroupOf(records, p) == [])
  }

  lemma IndexNext(byPrev: Index, records: seq<AuditRecord>, r: AuditRecord)
    requires Indexes(byPrev, records)
    ensures Indexes(byPrev[r.prevHash := (if r.prevHash in byPrev then byPrev[r.prevHash] else []) + [r]], records + [r])
  {
    assert (records + [r])[..|records|] == records;
    forall p ensures GroupOf(records + [r], p) == GroupOf(records, p) + if r.prevHash == p then [r] else [] {}
  }

  method BuildIndex(records: seq<AuditRecord>) returns (byPrev: Index)
    ensures Indexes(byPrev, records)
  {
    byPrev := map[];
    for i := 0 to |records|
      invariant Indexes(byPrev, records[..i])
    {
      hide Indexes, GroupOf;
      IndexNext(byPrev, records[..i], records[i]);
      assert records[..i + 1] == records[..i] + [records[i]];
      var prev := records[i].prevHash;
      byPrev := byPrev[prev := (if prev in byPrev then byPrev[prev] else []) + [records[i]]];
    }
    assert records[..|records|] == records;
  }

  function Lookup(byPrev: Index, p: string): seq<AuditRecord> {
    if p in byPrev then byPrev[p] else []
  }

  /** Follows the links from the head until no record continues; cannot loop, because hashes do not collide. */
  method Walk(h: HashFn, records: seq<AuditRecord>, byPrev: Index, head: AuditRecord) returns (onChain: nat, ghost chain: seq<AuditRecord>)
    requires GoodHash(h) && Indexes(byPrev, records)
    requires forall r :: r in records ==> HashOk(h, r)
    requires head in records && head.prevHash == GENESIS
    ensures MaximalChain(h, records, chain) && onChain == |chain|
    ensures onChain == |records| <==> Intact(h, records)
  {
    hide GoodHash, Intact, GroupOf;
    var current := head;
    onChain := 1;
    chain := [head];
    while true
      invariant IsChain(h, chain) && chain != [] && onChain == |chain| && current == chain[|chain| - 1]
      invariant forall r :: r in chain ==> r in records
      decreases |records| - |chain|
    {
      var next := Lookup(byPrev, current.recordHash);
      GroupMembers(records, current.recordHash);
      if next == [] {
        WalkDecides(h, records, chain);
        return;
      }
      assert next[0] in next;
      chain := chain + [next[0]];
      ChainDistinct(h, chain);
      InsideShorter(chain, records);
      current := next[0];
      onChain := onChain + 1;
    }
  }

  ghost predicate AllHashed(h: HashFn, records: seq<AuditRecord>) {
    forall i :: 0 <= i < |records| ==> HashOk(h, records[i])
  }

  ghost predicate NoHead(records: seq<AuditRecord>) {
    forall r :: r in records ==> r.prevHash != GENESIS
  }

  ghost predicate FirstBadRow(h: HashFn, records: seq<AuditRecord>, i: nat) {
    i < |records| && !HashOk(h, records[i]) && forall j :: 0 <= j < i ==> HashOk(h, records[j])
  }

  /** Accepts exactly the tables whose rows form one chain from genesis, whatever their order. */
  method Verify(h: HashFn, records: seq<AuditRecord>) returns (v: Verdict)
    requires GoodHash(h)
    ensures v == Verified <==> Intact(h, records)
    ensures v.BadHash? ==> exists i :: 0 <= i < |records| && FirstBadRow(h, records, i) && records[i].id == v.id
    ensures v.BadHash? <==> !AllHashed(h, records)
    ensures v == Fork <==> AllHashed(h, records) && !DistinctPrev(records)
    ensures v == MultipleHeads <==> AllHashed(h, records) && DistinctPrev(records) && records != [] && NoHead(records)
    ensures forall id :: ContentEdited(h, records, id) ==> v == BadHash(id)
  {
    hide GoodHash, Intact, IsChain, DistinctPrev, GroupOf, ContentEdited;
    for i := 0 to |records|
      invariant forall j :: 0 <= j < i ==> HashOk(h, records[j])
    {
      if !HashOk(h, records[i]) {
        BadRowMeans(h, records, i);
        assert FirstBadRow(h, records, i);
        EditedIsBadRow(h, records, i);
        return BadHash(records[i].id);
      }
    }
    NothingEdited(h, records);
    var byPrev := BuildIndex(records);
    if exists p | p in byPrev :: |byPrev[p]| > 1 {
      var p :| p in byPrev && |byPrev[p]| > 1;
      ForkMeans(h, records, p);
      return Fork;
    }
    NoForkMeans(byPrev, records);
    if records == [] {
      EmptyIntact(h);
      return Verified;
    }
    var heads := Lookup(byPrev, GENESIS);
    GroupMembers(records, GENESIS);
    if |heads| != 1 {
      NoHeadMeans(h, byPrev, records);
      return MultipleHeads;
    }
    assert heads[0] in heads;
    var onChain, chain := Walk(h, records, byPrev, heads[0]);
    return if onChain != |records| then Gap else Verified;
  }

  lemma EditedIsBadRow(h: HashFn, records: seq<AuditRecord>, k: nat)
    requires GoodHash(h) && k < |records| && !HashOk(h, records[k])
    ensures forall id :: ContentEdited(h, records, id) ==> records[k].id == id
  {
    hide GoodHash, HashOk, ContentEdited;
    forall id | ContentEdited(h, records, id) ensures records[k].id == id { EditedRowStandsOut(h, records, id); }
  }

  lemma NothingEdited(h: HashFn, records: seq<AuditRecord>)
    requires GoodHash(h) && AllHashed(h, records)
    ensures forall id :: !ContentEdited(h, records, id)
  {
    hide GoodHash, HashOk, ContentEdited;
    forall id ensures !ContentEdited(h, records, id) {
      if ContentEdited(h, records, id) { EditedRowStandsOut(h, records, id); }
    }
  }

  lemma BadRowMeans(h: HashFn, records: seq<AuditRecord>, i: nat)
    requires GoodHash(h) && i < |records| && !HashOk(h, records[i])
    ensures !Intact(h, records)
  {
    hide GoodHash, HashOk, Intact;
    if Intact(h, records) { IntactMeans(h, records); }
  }

  lemma ForkMeans(h: HashFn, records: seq<AuditRecord>, p: string)
    requires GoodHash(h) && |GroupOf(records, p)| > 1
    ensures !DistinctPrev(records) && !Intact(h, records)
  {
    hide GoodHash, Intact, DistinctPrev, GroupOf;
    GroupSizes(records);
    if Intact(h, records) { IntactMeans(h, records); }
  }

  lemma NoForkMeans(byPrev: Index, records: seq<AuditRecord>)
    requires Indexes(byPrev, records) && forall p :: p in byPrev ==> |byPrev[p]| <= 1
    ensures DistinctPrev(records)
  {
    hide DistinctPrev, GroupOf;
    GroupSizes(records);
    forall p ensures |GroupOf(records, p)| <= 1 {}
  }

  lemma EmptyIntact(h: HashFn)
    ensures Intact(h, [])
  {
    assert IsChain(h, []);
  }

  lemma NoHeadMeans(h: HashFn, byPrev: Index, records: seq<AuditRecord>)
    requires GoodHash(h) && Indexes(byPrev, records) && records != []
    requires |Lookup(byPrev, GENESIS)| != 1 && (GENESIS in byPrev ==> |byPrev[GENESIS]| <= 1)
    ensures !Intact(h, records) && forall r :: r in records ==> r.prevHash != GENESIS
  {
    hide GoodHash, Intact, DistinctPrev, GroupOf;
    GroupMembers(records, GENESIS);
    assert GroupOf(records, GENESIS) == [];
    if Intact(h, records) { IntactMeans(h, records); }
  }

  lemma IntactMeans(h: HashFn, records: seq<AuditRecord>)
    requires GoodHash(h) && Intact(h, records)
    ensures forall i :: 0 <= i < |records| ==> HashOk(h, records[i])
    ensures DistinctPrev(records)
    ensures records != [] ==> exists r :: r in records && r.prevHash == GENESIS
  {
    var c: seq<AuditRecord> :| IsChain(h, c) && multiset(c) == multiset(records);
    ChainDistinct(h, c);
    DistinctPermutes(c, records);
    forall i | 0 <= i < |records| ensures HashOk(h, records[i]) {
      var k := MemberOf(records, c, i);
      assert HashOk(h, c[k]);
    }
    SameSize(c, records);
    if c != [] {
      var k := MemberOf(c, records, 0);
      assert records[k] in records;
    }
  }

  // ---- the log ------------------------------------------------------------------------------------

  datatype Tail = Unknown | Known(hash: string)

  /** The rows but those of an id, in order. */
  function Without(rows: seq<AuditRecord>, id: string): seq<AuditRecord> {
    if rows == [] then []
    else
      var last := rows[|rows| - 1];
      Without(rows[..|rows| - 1], id) + if last.id != id then [last] else []
  }

  lemma WithoutNext(rows: seq<AuditRecord>, r: AuditRecord, id: string)
    ensures Without(rows + [r], id) == Without(rows, id) + if r.id != id then [r] else []
  {
    assert (rows + [r])[..|rows|] == rows;
  }

  lemma {:induction false} WithoutMembers(rows: seq<AuditRecord>, id: string)
    ensures forall r :: r in Without(rows, id) <==> r in rows && r.id != id
  {
    if rows != [] { WithoutMembers(rows[..|rows| - 1], id); }
  }

  ghost predicate DistinctRowIds(rows: seq<AuditRecord>) {
    forall i, j :: 0 <= i < j < |rows| ==> rows[i].id != rows[j].id
  }

  lemma {:induction false} WithoutFirst(head: AuditRecord, rows: seq<AuditRecord>)
    requires forall r :: r in rows ==> r.id != head.id
    ensures Without([head] + rows, head.id) == rows
  {
    if rows == [] {
      assert [head] + rows == [] + [head];
      WithoutNext([], head, head.id);
    } else {
      hide Without;
      var front, last := rows[..|rows| - 1], rows[|rows| - 1];
      assert rows == front + [last] && last in rows;
      forall r | r in front ensures r.id != head.id { assert r in rows; }
      WithoutFirst(head, front);
      assert [head] + rows == ([head] + front) + [last];
      WithoutNext([head] + front, last, head.id);
    }
  }

  lemma WithoutHead(rows: seq<AuditRecord>, i: nat)
    requires DistinctRowIds(rows) && i < |rows|
    ensures Without(rows[i..], rows[i].id) == rows[i + 1..]
  {
    assert rows[i..] == [rows[i]] + rows[i + 1..];
    forall r | r in rows[i + 1..] ensures r.id != rows[i].id {
      var k :| 0 <= k < |rows[i + 1..]| && rows[i + 1..][k] == r;
      assert rows[i + 1 + k] == r;
    }
    WithoutFirst(rows[i], rows[i + 1..]);
  }

  /** A rotation cut short leaves a log that verifies exactly if nothing or everything had been deleted. */
  lemma DeathInRotation(h: HashFn, c: seq<AuditRecord>, k: nat)
    requires GoodHash(h) && IsChain(h, c) && k <= |c|
    ensures Intact(h, c[k..]) <==> k == 0 || k == |c|
  {
    if k == 0 {
      assert c[k..] == c;
    } else if k == |c| {
      assert c[k..] == [];
      EmptyIntact(h);
    } else {
      hide GoodHash, HashOk, Intact;
      if Intact(h, c[k..]) {
        IntactMeans(h, c[k..]);
        HeadIsFirst(h, c, k);
      }
    }
  }

  lemma HeadIsFirst(h: HashFn, c: seq<AuditRecord>, k: nat)
    requires GoodHash(h) && IsChain(h, c) && 0 < k <= |c|
    ensures forall r :: r in c[k..] ==> r.prevHash != GENESIS
  {
    forall r | r in c[k..] ensures r.prevHash != GENESIS {
      var i :| 0 <= i < |c[k..]| && c[k..][i] == r;
      assert HashOk(h, c[k + i - 1]) && c[k + i].prevHash == c[k + i - 1].recordHash;
    }
  }

  /** After a tail was deleted, the next record of a process that remembers the old tail gives the deletion away.  (One
      of a reopened process links to what is left, and the log is intact again.) */
  lemma NextRecordShows(h: HashFn, c: seq<AuditRecord>, n: nat, r: AuditRecord)
    requires GoodHash(h) && IsChain(h, c) && n <= |c| && HashOk(h, r)
    ensures r.prevHash == AuditLog.LastHash(c) ==> (Intact(h, c[..n] + [r]) <==> n == |c|)
    ensures r.prevHash == AuditLog.LastHash(c[..n]) ==> Intact(h, c[..n] + [r])
  {
    if r.prevHash == AuditLog.LastHash(c) {
      ChainGrows(h, c, r);
      hide HashOk;
      TailThenRecord(h, c, n, r);
    }
    if r.prevHash == AuditLog.LastHash(c[..n]) {
      assert IsChain(h, c[..n]);
      ChainGrows(h, c[..n], r);
      assert multiset(c[..n] + [r]) == multiset(c[..n] + [r]);
    }
  }

  lemma TailThenRecord(h: HashFn, c: seq<AuditRecord>, n: nat, r: AuditRecord)
    requires GoodHash(h) && IsChain(h, c + [r]) && n <= |c|
    ensures Intact(h, c[..n] + [r]) <==> n == |c|
  {
    var whole, kept := c + [r], c[..n] + [r];
    assert c == c[..n] + c[n..];
    assert multiset(kept) <= multiset(whole);
    DeletionUndetectedIffPrefix(h, whole, kept);
    if n == |c| {
      assert kept == whole && whole[..|kept|] == whole;
    } else {
      ChainDistinct(h, whole);
      hide GoodHash, IsChain, Intact;
      assert whole[..n + 1] == c[..n + 1];
      LastNotBefore(whole, n + 1);
      assert r in multiset(kept);
    }
  }

  lemma LastNotBefore(s: seq<AuditRecord>, n: nat)
    requires DistinctPrev(s) && n < |s|
    ensures s[|s| - 1] !in multiset(s[..n])
  {
    forall i | 0 <= i < n ensures s[..n][i] != s[|s| - 1] { PairDiffers(s, i, |s| - 1); }
  }

  class AuditLog {
    const h: HashFn
    /** The rows in storage order, that is by update stamp. */
    var table: seq<AuditRecord>
    /** The tail hash as this process remembers it. */
    var tail: Tail

    constructor (h: HashFn)
      ensures this.h == h && table == [] && tail == Unknown && Valid()
    {
      this.h := h;
      table := [];
      tail := Unknown;
    }

    static function LastHash(table: seq<AuditRecord>): string {
      if table == [] then GENESIS else table[|table| - 1].recordHash
    }

    ghost predicate Valid()
      reads this
    {
      IsChain(h, table) && (tail.Known? ==> tail.hash == LastHash(table))
    }

    /** A new process over the same table. */
    method Reopen()
      modifies this
      ensures table == old(table) && tail == Unknown
      ensures old(Valid()) ==> Valid()
    {
      tail := Unknown;
    }

    /** Appends one record linked to the remembered tail; an undamaged log stays undamaged. */
    method Record(id: string, content: string, stamp: int) returns (r: AuditRecord)
      modifies this
      ensures table == old(table) + [r] && tail == Known(r.recordHash)
      ensures r.id == id && r.content == content && HashOk(h, r)
      ensures r.prevHash == if old(tail).Known? then old(tail).hash else LastHash(old(table))
      ensures r.recordHash == h(r.prevHash, Body(id, content, r.prevHash))
      ensures old(tail) == Unknown ==>
        r.prevHash == if old(table) == [] then GENESIS else old(table)[|old(table)| - 1].recordHash
      ensures old(Valid()) ==> Valid() && Intact(h, table)
    {
      if tail == Unknown {
        tail := Known(LastHash(table));
      }
      r := AuditRecord(id, content, tail.hash, h(tail.hash, Body(id, content, tail.hash)), stamp);
      table := table + [r];
      tail := Known(r.recordHash);
      assert old(Valid()) ==> IsChain(h, table) by {
        if old(Valid()) { ChainGrows(h, old(table), r); }
      }
    }

    method Delete(id: string)
      modifies this`table
      ensures table == Without(old(table), id)
      ensures forall r :: r in table <==> r in old(table) && r.id != id
    {
      var kept: seq<AuditRecord> := [];
      for i := 0 to |table|
        invariant table == old(table)
        invariant kept == Without(table[..i], id)
      {
        assert table[..i + 1] == table[..i] + [table[i]];
        WithoutNext(table[..i], table[i], id);
        if table[i].id != id { kept := kept + [table[i]]; }
      }
      assert table[..|table|] == table;
      WithoutMembers(table, id);
      table := kept;
    }

    /** The process dies while the exported rows are deleted, `k` of them being gone. */
    method CrashWhileRotating(k: nat) returns (exported: seq<AuditRecord>)
      requires k <= |table|
      modifies this`table
      ensures exported == old(table)
      ensures DistinctRowIds(old(table)) ==> table == old(table)[k..]
    {
      exported := table;
      for i := 0 to k
        invariant DistinctRowIds(exported) ==> table == exported[i..]
      {
        ghost var before := table;
        Delete(exported[i].id);
        if DistinctRowIds(exported) { WithoutHead(exported, i); }
      }
    }

    /** Exports and clears the table and starts a fresh chain with one checkpoint, damaged log or not. */
    method Rotate(id: string, checkpoint: string, stamp: int) returns (exported: seq<AuditRecord>)
      modifies this
      ensures multiset(exported) == multiset(old(table))
      ensures |table| == 1 && table[0].id == id && table[0].content == checkpoint && table[0].prevHash == GENESIS
      ensures Valid() && Intact(h, table)
    {
      exported := table;
      for i := 0 to |exported|
        invariant forall r :: r in table ==> r in exported[i..]
      {
        assert forall r :: r in exported[i..] && r.id != exported[i].id ==> r in exported[i + 1..] by {
          assert exported[i..] == [exported[i]] + exported[i + 1..];
        }
        Delete(exported[i].id);
      }
      EmptyIfNone(table);
      tail := Unknown;
      assert Valid();
      var r := Record(id, checkpoint, stamp);
    }
  }

  lemma ChainGrows(h: HashFn, c: seq<AuditRecord>, r: AuditRecord)
    requires IsChain(h, c) && HashOk(h, r) && r.prevHash == AuditLog.LastHash(c)
    ensures IsChain(h, c + [r])
  {
  }
}
