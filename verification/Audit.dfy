/** The hash-chained audit log (backend/internal/audit/audit.go, backend/internal/audit/store.go).

    SHA-256 and the JSON encoding are parameters. Nothing assumes that the hash has no collisions:
    each tamper-evidence theorem says "detected, or these very records exhibit a collision". */
module Audit {
  import opened Common

  type Bytes = seq<Byte>

  /** Times are nanoseconds. */
  datatype Entry = Entry(
    at: int, actorType: string, actorId: string, action: string, targetType: string,
    targetId: string, result: string, requestId: string, sourceIp: string,
    detail: map<string, string>)

  datatype Record = Record(seqNo: int, entry: Entry, prevHash: Bytes, hash: Bytes)

  datatype Crypto = Crypto(sha: Bytes -> Bytes, encode: Entry -> Bytes)

  /** PostgreSQL keeps microseconds, so that is what is hashed. */
  function Normalize(e: Entry): Entry {
    e.(at := e.at - e.at % 1000, result := if e.result == "" then "SUCCESS" else e.result)
  }

  function CanonicalBytes(c: Crypto, e: Entry): Bytes {
    c.encode(Normalize(e))
  }

  /** Normalizing touches two fields only: the time is rounded down to the microsecond, and an absent
      result becomes SUCCESS; a result that was given survives. */
  lemma NormalizeMeaning(e: Entry)
    ensures Normalize(e).(at := e.at, result := e.result) == e
    ensures Normalize(e).at % 1000 == 0 && Normalize(e).at <= e.at < Normalize(e).at + 1000
    ensures Normalize(e).result == if e.result == "" then "SUCCESS" else e.result
  {
  }

  /** What was hashed before the insert is what is hashed after reading the row back. */
  lemma CanonicalBytesSurviveStorage(c: Crypto, e: Entry)
    ensures CanonicalBytes(c, Normalize(e)) == CanonicalBytes(c, e)
  {
    assert (e.at - e.at % 1000) % 1000 == 0;
  }

  function ComputeHash(c: Crypto, prev: Bytes, e: Entry): Bytes {
    c.sha(prev + CanonicalBytes(c, e))
  }

  datatype Reason = NotAscending | PrevHashMismatch | ContentMismatch

  datatype ChainError = ChainError(seqNo: int, reason: Reason)

  /** What is wrong with one record, given its predecessor's hash and sequence number. */
  function Fault(c: Crypto, prev: Bytes, last: Option<int>, r: Record): Option<Reason> {
    if last.Some? && r.seqNo <= last.value then Some(NotAscending)
    else if r.prevHash != prev then Some(PrevHashMismatch)
    else if r.hash != ComputeHash(c, prev, r.entry) then Some(ContentMismatch)
    else None
  }

  /** The first fault of a log that continues from `prev`. */
  function Verdict(c: Crypto, prev: Bytes, last: Option<int>, log: seq<Record>): Option<ChainError>
    decreases |log|
  {
    if log == [] then None
    else
      var fault := Fault(c, prev, last, log[0]);
      if fault.Some? then Some(ChainError(log[0].seqNo, fault.value))
      else Verdict(c, log[0].hash, Some(log[0].seqNo), log[1..])
  }

  /** A nil and an empty slice are the same hash; otherwise byte by byte. */
  method EqualHash(a: Bytes, b: Bytes) returns (equal: bool)
    ensures equal <==> a == b
  {
    if |a| == 0 && |b| == 0 {
      return true;
    }
    if |a| != |b| {
      return false;
    }
    for i := 0 to |a|
      invariant a[..i] == b[..i]
    {
      if a[i] != b[i] {
        return false;
      }
    }
    return true;
  }

  method VerifyChainFrom(c: Crypto, prev: Bytes, records: seq<Record>) returns (err: Option<ChainError>)
    ensures err == Verdict(c, prev, None, records)
  {
    var head, last := prev, None;
    for i := 0 to |records|
      invariant last == if i == 0 then None else Some(records[i - 1].seqNo)
      invariant Verdict(c, prev, None, records) == Verdict(c, head, last, records[i..])
    {
      var record := records[i];
      assert records[i..][0] == record && records[i..][1..] == records[i + 1..];
      if i > 0 && record.seqNo <= records[i - 1].seqNo {
        return Some(ChainError(record.seqNo, NotAscending));
      }
      var linked := EqualHash(record.prevHash, head);
      if !linked {
        return Some(ChainError(record.seqNo, PrevHashMismatch));
      }
      var genuine := EqualHash(record.hash, ComputeHash(c, head, record.entry));
      if !genuine {
        return Some(ChainError(record.seqNo, ContentMismatch));
      }
      head, last := record.hash, Some(record.seqNo);
    }
    return None;
  }

  /* ----- what a verdict means ----- */

  function PrevOf(log: seq<Record>, i: nat): Bytes
    requires i <= |log|
  {
    if i == 0 then [] else log[i - 1].hash
  }

  /** The chain conditions, stated record by record. */
  ghost predicate Intact(c: Crypto, log: seq<Record>) {
    && (forall i, j :: 0 <= i < j < |log| ==> log[i].seqNo < log[j].seqNo)
    && (forall i :: 0 <= i < |log| ==> Linked(c, log, i))
  }

  ghost predicate Linked(c: Crypto, log: seq<Record>, i: nat)
    requires i < |log|
  {
    log[i].prevHash == PrevOf(log, i) && log[i].hash == ComputeHash(c, PrevOf(log, i), log[i].entry)
  }

  function LastSeq(log: seq<Record>, last: Option<int>): Option<int> {
    if log == [] then last else Some(log[|log| - 1].seqNo)
  }

  function HeadHash(log: seq<Record>, prev: Bytes): Bytes {
    if log == [] then prev else log[|log| - 1].hash
  }

  /** Verifying in two parts is verifying at once. */
  lemma {:induction false} VerdictSplits(c: Crypto, prev: Bytes, last: Option<int>, a: seq<Record>, b: seq<Record>)
    ensures Verdict(c, prev, last, a + b)
         == if Verdict(c, prev, last, a).Some? then Verdict(c, prev, last, a)
            else Verdict(c, HeadHash(a, prev), LastSeq(a, last), b)
    decreases |a|
  {
    if a == [] {
      assert a + b == b;
    } else {
      assert (a + b)[1..] == a[1..] + b;
      VerdictSplits(c, a[0].hash, Some(a[0].seqNo), a[1..], b);
    }
  }

  /** Appending one record adds exactly its own fault. */
  lemma VerdictOfLast(c: Crypto, log: seq<Record>, r: Record)
    requires Verdict(c, [], None, log).None?
    ensures var fault := Fault(c, HeadHash(log, []), LastSeq(log, None), r);
            Verdict(c, [], None, log + [r]) == if fault.Some? then Some(ChainError(r.seqNo, fault.value)) else None
  {
    VerdictSplits(c, [], None, log, [r]);
  }

  /** The verdict is clean exactly for an intact log. */
  lemma {:induction false} VerdictCleanIffIntact(c: Crypto, log: seq<Record>)
    ensures Verdict(c, [], None, log).None? <==> Intact(c, log)
    decreases |log|
  {
    if log != [] {
      var init, r := log[..|log| - 1], log[|log| - 1];
      assert log == init + [r];
      VerdictCleanIffIntact(c, init);
      VerdictSplits(c, [], None, init, [r]);
      IntactSplits(c, init, r);
    }
  }

  lemma IntactSplits(c: Crypto, init: seq<Record>, r: Record)
    ensures Intact(c, init + [r])
       <==> Intact(c, init) && Fault(c, HeadHash(init, []), LastSeq(init, None), r).None?
  {
    var log := init + [r];
    forall i | 0 <= i < |init| ensures Linked(c, log, i) <==> Linked(c, init, i) {
    }
    assert PrevOf(log, |init|) == HeadHash(init, []);
    if Intact(c, log) {
      assert forall i :: 0 <= i < |init| ==> log[i] == init[i];
      assert forall i :: 0 <= i < |init| ==> Linked(c, log, i);
      assert Linked(c, log, |init|);
    }
  }

  /** Record `k` is the first that breaks the chain. */
  ghost predicate BreaksAt(c: Crypto, log: seq<Record>, k: nat) {
    k < |log| && Intact(c, log[..k]) && !Intact(c, log[..k + 1])
  }

  /** A verdict names the first record that breaks an otherwise intact prefix. */
  lemma {:induction false} VerdictNamesFirstBroken(c: Crypto, log: seq<Record>) returns (k: nat)
    requires !Intact(c, log)
    ensures BreaksAt(c, log, k)
    ensures Verdict(c, [], None, log).Some? && Verdict(c, [], None, log).value.seqNo == log[k].seqNo
    decreases |log|
  {
    var n := |log| - 1;
    var init, r := log[..n], log[n];
    assert log == init + [r] && log[..n + 1] == log;
    VerdictCleanIffIntact(c, init);
    if Intact(c, init) {
      VerdictCleanIffIntact(c, log);
      VerdictOfLast(c, init, r);
      k := n;
    } else {
      k := VerdictNamesFirstBroken(c, init);
      BreaksEarlier(c, log, n, k);
      VerdictSplits(c, [], None, init, [r]);
    }
  }

  lemma BreaksEarlier(c: Crypto, log: seq<Record>, n: nat, k: nat)
    requires n <= |log| && BreaksAt(c, log[..n], k)
    ensures BreaksAt(c, log, k) && log[..n][k] == log[k]
  {
    assert log[..n][..k] == log[..k] && log[..n][..k + 1] == log[..k + 1];
  }

  /* ----- tamper evidence ----- */

  /** SHA-256 digests have 32 bytes. A canonical entry is a JSON object, so it starts with '{'. Its
      first member is the timestamp, of 20 to 27 characters, and `"actor_type"` follows: offset 32
      lies in the timestamp, in the punctuation after it or in that name, and holds no '{'. */
  ghost predicate Shaped(c: Crypto) {
    && (forall x :: |c.sha(x)| == 32)
    && (forall e :: |c.encode(e)| > 0 && c.encode(e)[0] == 123
                    && (|c.encode(e)| > 32 ==> c.encode(e)[32] != 123))
  }

  /** What record `i` was hashed from. */
  function Preimage(c: Crypto, log: seq<Record>, i: nat): Bytes
    requires i < |log|
  {
    PrevOf(log, i) + CanonicalBytes(c, log[i].entry)
  }

  /** Two different hashed inputs, one from each log, with one digest. */
  ghost predicate Collision(c: Crypto, a: seq<Record>, b: seq<Record>) {
    exists i, j :: 0 <= i < |a| && 0 <= j < |b| && Collide(c, a, i, b, j)
  }

  ghost predicate Collide(c: Crypto, a: seq<Record>, i: nat, b: seq<Record>, j: nat)
    requires i < |a| && j < |b|
  {
    Preimage(c, a, i) != Preimage(c, b, j) && c.sha(Preimage(c, a, i)) == c.sha(Preimage(c, b, j))
  }

  ghost predicate SameContent(c: Crypto, a: seq<Record>, b: seq<Record>) {
    |a| == |b| && forall i :: 0 <= i < |a| ==>
      CanonicalBytes(c, a[i].entry) == CanonicalBytes(c, b[i].entry) && a[i].hash == b[i].hash
  }

  lemma IntactPrefix(c: Crypto, log: seq<Record>, k: nat)
    requires Intact(c, log) && k <= |log|
    ensures Intact(c, log[..k])
  {
    forall i | 0 <= i < k ensures Linked(c, log[..k], i) {
      assert Linked(c, log, i);
    }
  }

  /** The genesis record's input is never a digest followed by a canonical entry. */
  lemma GenesisUnambiguous(c: Crypto, e: Entry, digest: Bytes, f: Entry)
    requires Shaped(c) && |digest| == 32
    ensures CanonicalBytes(c, e) != digest + CanonicalBytes(c, f)
  {
    assert (digest + CanonicalBytes(c, f))[32] == 123;
  }

  /** Equal inputs have equal parts. */
  lemma PreimageParts(c: Crypto, p: Bytes, e: Entry, q: Bytes, f: Entry)
    requires Shaped(c) && p + CanonicalBytes(c, e) == q + CanonicalBytes(c, f)
    requires |p| == 0 || |p| == 32
    requires |q| == 0 || |q| == 32
    ensures p == q && CanonicalBytes(c, e) == CanonicalBytes(c, f)
  {
    var x, y := CanonicalBytes(c, e), CanonicalBytes(c, f);
    assert |p| == |q| by {
      assert |p| == 0 ==> p + x == x;
      assert |q| == 0 ==> q + y == y;
      if |p| == 32 {
        GenesisUnambiguous(c, f, p, e);
      }
      if |q| == 32 {
        GenesisUnambiguous(c, e, q, f);
      }
    }
    assert p == (p + x)[..|p|] && q == (q + y)[..|p|];
    assert x == (p + x)[|p|..] && y == (q + y)[|p|..];
  }

  lemma HashesAreDigests(c: Crypto, log: seq<Record>, i: nat)
    requires Shaped(c) && Intact(c, log) && i <= |log|
    ensures |PrevOf(log, i)| == if i == 0 then 0 else 32
  {
    if i > 0 {
      assert Linked(c, log, i - 1);
    }
  }

  /** One step back: equal head hashes give equal last entries and equal earlier heads. */
  lemma LastRecordsAgree(c: Crypto, a: seq<Record>, b: seq<Record>, m: nat, n: nat)
    requires Shaped(c) && Intact(c, a) && Intact(c, b)
    requires |a| == m + 1 && |b| == n + 1 && a[m].hash == b[n].hash
    ensures Collide(c, a, m, b, n)
         || (PrevOf(a, m) == PrevOf(b, n) && CanonicalBytes(c, a[m].entry) == CanonicalBytes(c, b[n].entry))
  {
    assert Linked(c, a, m) && Linked(c, b, n);
    if Preimage(c, a, m) == Preimage(c, b, n) {
      HashesAreDigests(c, a, m);
      HashesAreDigests(c, b, n);
      PreimageParts(c, PrevOf(a, m), a[m].entry, PrevOf(b, n), b[n].entry);
    }
  }

  lemma SameContentExtends(c: Crypto, a: seq<Record>, b: seq<Record>, m: nat)
    requires |a| == |b| == m + 1 && SameContent(c, a[..m], b[..m])
    requires CanonicalBytes(c, a[m].entry) == CanonicalBytes(c, b[m].entry) && a[m].hash == b[m].hash
    ensures SameContent(c, a, b)
  {
    forall i | 0 <= i < m + 1
      ensures CanonicalBytes(c, a[i].entry) == CanonicalBytes(c, b[i].entry) && a[i].hash == b[i].hash
    {
      if i < m {
        assert a[..m][i] == a[i] && b[..m][i] == b[i];
      }
    }
  }

  /** The head hash commits to the whole log: two intact logs with one head hash have the same
      length and the same canonical entries throughout, or they exhibit a collision. */
  lemma {:induction false} HeadHashCommits(c: Crypto, a: seq<Record>, b: seq<Record>)
    requires Shaped(c) && Intact(c, a) && Intact(c, b)
    requires HeadHash(a, []) == HeadHash(b, [])
    ensures SameContent(c, a, b) || Collision(c, a, b)
    decreases |a|
  {
    HashesAreDigests(c, a, |a|);
    HashesAreDigests(c, b, |b|);
    if |a| > 0 && |b| > 0 {
      var m, n := |a| - 1, |b| - 1;
      LastRecordsAgree(c, a, b, m, n);
      if !Collide(c, a, m, b, n) {
        IntactPrefix(c, a, m);
        IntactPrefix(c, b, n);
        HeadHashCommits(c, a[..m], b[..n]);
        if Collision(c, a[..m], b[..n]) {
          CollisionExtends(c, a, m, b, n);
        } else {
          SameContentExtends(c, a, b, m);
        }
      }
    }
  }

  /** When the encoding loses nothing, "same content" means the same normalized entries. */
  lemma SameContentSameEntries(c: Crypto, a: seq<Record>, b: seq<Record>)
    requires SameContent(c, a, b)
    requires forall e, f :: c.encode(e) == c.encode(f) ==> e == f
    ensures forall i :: 0 <= i < |a| ==> Normalize(a[i].entry) == Normalize(b[i].entry)
  {
    forall i | 0 <= i < |a| ensures Normalize(a[i].entry) == Normalize(b[i].entry) {
      assert c.encode(Normalize(a[i].entry)) == CanonicalBytes(c, a[i].entry);
    }
  }

  lemma CollisionExtends(c: Crypto, a: seq<Record>, m: nat, b: seq<Record>, n: nat)
    requires m <= |a| && n <= |b| && Collision(c, a[..m], b[..n])
    ensures Collision(c, a, b)
  {
    var i, j :| 0 <= i < m && 0 <= j < n && Collide(c, a[..m], i, b[..n], j);
    assert Preimage(c, a[..m], i) == Preimage(c, a, i) && Preimage(c, b[..n], j) == Preimage(c, b, j);
    assert Collide(c, a, i, b, j);
  }

  /** Changing the canonical content of one record is reported at exactly that record. */
  lemma AlterationDetected(c: Crypto, log: seq<Record>, i: nat, forged: Entry)
    requires Intact(c, log) && i < |log|
    requires CanonicalBytes(c, forged) != CanonicalBytes(c, log[i].entry)
    ensures var altered := log[i := log[i].(entry := forged)];
            Verdict(c, [], None, altered) == Some(ChainError(log[i].seqNo, ContentMismatch))
            || Collide(c, log, i, altered, i)
  {
    var altered := log[i := log[i].(entry := forged)];
    assert Linked(c, log, i);
    assert altered == log[..i] + ([altered[i]] + log[i + 1..]);
    IntactPrefix(c, log, i);
    VerdictCleanIffIntact(c, log[..i]);
    VerdictSplits(c, [], None, log[..i], [altered[i]] + log[i + 1..]);
    assert HeadHash(log[..i], []) == PrevOf(log, i);
    assert PrevOf(altered, i) == PrevOf(log, i);
    var x, y := Preimage(c, log, i), Preimage(c, altered, i);
    assert x[|PrevOf(log, i)|..] == CanonicalBytes(c, log[i].entry);
    assert y[|PrevOf(log, i)|..] == CanonicalBytes(c, forged);
    assert LastSeq(log[..i], None).Some? ==> LastSeq(log[..i], None).value == log[i - 1].seqNo;
  }

  /** No two records of an intact log share a hash, or the log itself exhibits a collision. */
  lemma HashesDistinct(c: Crypto, log: seq<Record>, i: nat, j: nat)
    requires Shaped(c) && Intact(c, log) && i < j < |log| && log[i].hash == log[j].hash
    ensures Collision(c, log, log)
  {
    PrefixUpTo(c, log, i, log[i].hash);
    PrefixUpTo(c, log, j, log[j].hash);
    PrefixesCollide(c, log, i + 1, j + 1);
  }

  lemma PrefixUpTo(c: Crypto, log: seq<Record>, i: nat, head: Bytes)
    requires i < |log| && Intact(c, log) && head == log[i].hash
    ensures Intact(c, log[..i + 1]) && HeadHash(log[..i + 1], []) == head
  {
    IntactPrefix(c, log, i + 1);
  }

  lemma PrefixesCollide(c: Crypto, log: seq<Record>, m: nat, n: nat)
    requires m < n <= |log| && Shaped(c) && Intact(c, log[..m]) && Intact(c, log[..n])
    requires HeadHash(log[..m], []) == HeadHash(log[..n], [])
    ensures Collision(c, log, log)
  {
    UnequalLengthsCollide(c, log[..m], log[..n]);
    CollisionExtends(c, log, m, log, n);
  }

  lemma UnequalLengthsCollide(c: Crypto, a: seq<Record>, b: seq<Record>)
    requires Shaped(c) && Intact(c, a) && Intact(c, b) && HeadHash(a, []) == HeadHash(b, []) && |a| != |b|
    ensures Collision(c, a, b)
  {
    HeadHashCommits(c, a, b);
  }

  /** Removing a record is detected, at the record after it, unless it was the last one. */
  lemma RemovalDetected(c: Crypto, log: seq<Record>, i: nat)
    requires Shaped(c) && Intact(c, log) && i + 1 < |log|
    ensures Verdict(c, [], None, log[..i] + log[i + 1..]) == Some(ChainError(log[i + 1].seqNo, PrevHashMismatch))
            || Collision(c, log, log)
  {
    var rest := log[i + 1..];
    IntactPrefix(c, log, i);
    VerdictCleanIffIntact(c, log[..i]);
    VerdictSplits(c, [], None, log[..i], rest);
    assert Linked(c, log, i + 1) && Linked(c, log, i);
    HashesAreDigests(c, log, i + 1);
    assert rest[0] == log[i + 1] && HeadHash(log[..i], []) == PrevOf(log, i);
    if rest[0].prevHash == PrevOf(log, i) {
      HashesAreDigests(c, log, i);
      HashesDistinct(c, log, i - 1, i);
    }
  }

  /** Cutting records off the end is not detected: every prefix of an intact log verifies. */
  lemma TruncationUndetected(c: Crypto, log: seq<Record>, k: nat)
    requires Intact(c, log) && k <= |log|
    ensures Verdict(c, [], None, log[..k]).None?
  {
    IntactPrefix(c, log, k);
    VerdictCleanIffIntact(c, log[..k]);
  }

  /* ----- the store: paged reading and verification ----- */

  /** Rows in primary-key order. */
  ghost predicate Ascending(table: seq<Record>) {
    forall i, j :: 0 <= i < j < |table| ==> table[i].seqNo < table[j].seqNo
  }

  /** WHERE seq > after ORDER BY seq. */
  function RowsAfter(table: seq<Record>, after: int): seq<Record> {
    if table == [] || table[0].seqNo > after then table else RowsAfter(table[1..], after)
  }

  function PageLimit(limit: int): nat {
    if limit <= 0 || limit > 1000 then 100 else limit
  }

  function List(table: seq<Record>, after: int, limit: int): seq<Record> {
    var rows := RowsAfter(table, after);
    rows[..Min(PageLimit(limit), |rows|)]
  }

  lemma {:induction false} RowsAfterSelects(table: seq<Record>, after: int)
    requires Ascending(table)
    ensures var rows := RowsAfter(table, after);
            |rows| <= |table| && rows == table[|table| - |rows|..]
            && (forall i :: 0 <= i < |table| ==> (table[i].seqNo > after <==> i >= |table| - |rows|))
  {
    if table != [] && table[0].seqNo <= after {
      RowsAfterSelects(table[1..], after);
      var rows := RowsAfter(table, after);
      forall i | 0 <= i < |table| ensures table[i].seqNo > after <==> i >= |table| - |rows| {
        if i > 0 {
          assert table[1..][i - 1] == table[i];
        }
      }
    }
  }

  /** The rows after `cut` start where the sequence numbers exceed it. */
  lemma RowsAfterAt(table: seq<Record>, cut: int, start: nat)
    requires Ascending(table) && start <= |table|
    requires forall i :: 0 <= i < |table| ==> (table[i].seqNo > cut <==> i >= start)
    ensures RowsAfter(table, cut) == table[start..]
  {
    RowsAfterSelects(table, cut);
    var rest := RowsAfter(table, cut);
    assert start < |table| ==> table[start].seqNo > cut;
    assert |rest| > 0 ==> table[|table| - |rest|].seqNo > cut;
  }

  /** Asking after the last row of a page gives the rest. */
  lemma NextPage(table: seq<Record>, after: int, k: nat)
    requires Ascending(table) && 0 < k <= |RowsAfter(table, after)|
    ensures RowsAfter(table, RowsAfter(table, after)[k - 1].seqNo) == RowsAfter(table, after)[k..]
  {
    var rows := RowsAfter(table, after);
    RowsAfterSelects(table, after);
    var start := |table| - |rows| + k;
    assert table[start - 1] == rows[k - 1];
    RowsAfterAt(table, rows[k - 1].seqNo, start);
  }

  /** The sequence number before a page is only checked when it is out of order. */
  lemma LastIsImmaterial(c: Crypto, prev: Bytes, last: int, log: seq<Record>)
    requires log == [] || log[0].seqNo > last
    ensures Verdict(c, prev, Some(last), log) == Verdict(c, prev, None, log)
  {
  }

  /* The log while it is being verified: each page is a query of its own, and records may be
     appended between two of them. */

  /** The tables successive queries see; the last one stays. Rows are only ever appended. */
  ghost predicate Growing(tables: seq<seq<Record>>) {
    && tables != []
    && (forall k :: 0 <= k < |tables| ==> Ascending(tables[k]))
    && (forall k :: 0 <= k < |tables| - 1 ==> tables[k] <= tables[k + 1])
  }

  function SeenBy(tables: seq<seq<Record>>, k: nat): seq<Record>
    requires tables != []
  {
    if k < |tables| then tables[k] else tables[|tables| - 1]
  }

  lemma {:induction false} SeenGrows(tables: seq<seq<Record>>, j: nat, k: nat)
    requires Growing(tables) && j <= k
    ensures SeenBy(tables, j) <= SeenBy(tables, k) && Ascending(SeenBy(tables, k))
  {
    if j < k {
      SeenGrows(tables, j, k - 1);
    }
  }

  lemma {:induction false} RowsAfterGrows(table: seq<Record>, more: seq<Record>, after: int)
    ensures RowsAfter(table + more, after)
         == if RowsAfter(table, after) == [] then RowsAfter(more, after) else RowsAfter(table, after) + more
  {
    if table == [] {
      assert table + more == more;
    } else if table[0].seqNo <= after {
      assert (table + more)[1..] == table[1..] + more;
      RowsAfterGrows(table[1..], more, after);
    }
  }

  /** `verified` is what has been read of the table so far, up to sequence number `after`. */
  ghost predicate ReadSoFar(table: seq<Record>, verified: seq<Record>, after: int) {
    && RowsAfter(table, 0) == verified + RowsAfter(table, after)
    && (if verified == [] then after == 0 else after == verified[|verified| - 1].seqNo)
  }

  /** Appending leaves what was read a prefix of what there is to read. */
  lemma ReadSoFarGrows(table: seq<Record>, more: seq<Record>, verified: seq<Record>, after: int)
    requires Ascending(table + more) && Ascending(table) && ReadSoFar(table, verified, after)
    ensures ReadSoFar(table + more, verified, after)
  {
    if verified == [] {
      assert verified + RowsAfter(table + more, after) == RowsAfter(table + more, after);
    } else {
      MoreComesAfter(table, more, verified, after);
      LaterRowsGrow(table, more, after);
      RowsAfterGrows(table, more, 0);
      assert verified + RowsAfter(table, after) + more == verified + (RowsAfter(table, after) + more);
    }
  }

  lemma LaterRowsGrow(table: seq<Record>, more: seq<Record>, after: int)
    requires RowsAfter(more, after) == more
    ensures RowsAfter(table + more, after) == RowsAfter(table, after) + more
  {
    RowsAfterGrows(table, more, after);
  }

  lemma MoreComesAfter(table: seq<Record>, more: seq<Record>, verified: seq<Record>, after: int)
    requires Ascending(table + more) && Ascending(table) && ReadSoFar(table, verified, after) && verified != []
    ensures RowsAfter(more, after) == more
  {
    RowsAfterSelects(table, 0);
    var rows, k := RowsAfter(table, 0), |verified| - 1;
    assert rows[k] == verified[k];
    var at := |table| - |rows| + k;
    assert (table + more)[at] == table[at] == rows[k];
    if more != [] {
      assert (table + more)[|table|] == more[0];
    }
  }

  /** A clean log followed by later rows: only the head hash is handed on. */
  lemma VerdictContinues(c: Crypto, verified: seq<Record>, rows: seq<Record>)
    requires Verdict(c, [], None, verified).None?
    requires verified != [] && rows != [] ==> rows[0].seqNo > verified[|verified| - 1].seqNo
    ensures Verdict(c, [], None, verified + rows) == Verdict(c, HeadHash(verified, []), None, rows)
  {
    VerdictSplits(c, [], None, verified, rows);
    if verified != [] {
      LastIsImmaterial(c, HeadHash(verified, []), verified[|verified| - 1].seqNo, rows);
    }
  }

  /** Reading one more page. */
  lemma ReadPage(table: seq<Record>, verified: seq<Record>, after: int, n: nat)
    requires Ascending(table) && ReadSoFar(table, verified, after) && 0 < n <= |RowsAfter(table, after)|
    ensures var page := RowsAfter(table, after)[..n];
            ReadSoFar(table, verified + page, page[n - 1].seqNo)
  {
    var rows := RowsAfter(table, after);
    NextPage(table, after, n);
    assert verified + rows == verified + rows[..n] + rows[n..];
  }

  /** One page: what it adds to the verdict on everything read so far. */
  lemma PageVerdict(c: Crypto, table: seq<Record>, verified: seq<Record>, after: int, n: nat)
    requires Ascending(table) && ReadSoFar(table, verified, after) && Verdict(c, [], None, verified).None?
    requires 0 < n <= |RowsAfter(table, after)|
    ensures var page := RowsAfter(table, after)[..n];
            var fault := Verdict(c, HeadHash(verified, []), None, page);
            && (fault.Some? ==> Verdict(c, [], None, RowsAfter(table, 0)) == fault)
            && (fault.None? ==> Verdict(c, [], None, verified + page).None?)
  {
    var rows := RowsAfter(table, after);
    FirstRowIsLater(table, verified, after);
    VerdictContinues(c, verified, rows);
    VerdictContinues(c, verified, rows[..n]);
    assert rows == rows[..n] + rows[n..];
    VerdictSplits(c, HeadHash(verified, []), None, rows[..n], rows[n..]);
  }

  lemma FirstRowIsLater(table: seq<Record>, verified: seq<Record>, after: int)
    requires Ascending(table) && ReadSoFar(table, verified, after) && RowsAfter(table, after) != []
    ensures RowsAfter(table, after)[0].seqNo > after
  {
    RowsAfterSelects(table, after);
    var rows := RowsAfter(table, after);
    assert rows[0] == table[|table| - |rows|];
  }

  /** A fault once found stays the verdict, whatever is appended. */
  lemma FaultStays(c: Crypto, table: seq<Record>, grown: seq<Record>)
    requires table <= grown && Verdict(c, [], None, RowsAfter(table, 0)).Some?
    ensures Verdict(c, [], None, RowsAfter(grown, 0)) == Verdict(c, [], None, RowsAfter(table, 0))
  {
    var more := grown[|table|..];
    assert grown == table + more;
    RowsAfterGrows(table, more, 0);
    VerdictSplits(c, [], None, RowsAfter(table, 0), more);
  }

  /** Where the scan stands: `verified` was read from the table and found clean. */
  ghost predicate Scanning(c: Crypto, table: seq<Record>, verified: seq<Record>, after: int, prev: Bytes) {
    ReadSoFar(table, verified, after) && Verdict(c, [], None, verified).None? && prev == HeadHash(verified, [])
  }

  function Left(tables: seq<seq<Record>>, k: nat, after: int): nat
    requires tables != []
  {
    |RowsAfter(SeenBy(tables, k), after)|
  }

  lemma PageIsPrefix(table: seq<Record>, after: int, limit: int)
    ensures |List(table, after, limit)| <= |RowsAfter(table, after)|
    ensures List(table, after, limit) == RowsAfter(table, after)[..|List(table, after, limit)|]
    ensures List(table, after, limit) == [] <==> RowsAfter(table, after) == []
    ensures |List(table, after, limit)|
         == Min(if 1 <= limit <= 1000 then limit else 100, |RowsAfter(table, after)|)
  {
  }

  lemma ScanDone(c: Crypto, table: seq<Record>, verified: seq<Record>, after: int, prev: Bytes)
    requires Scanning(c, table, verified, after, prev) && RowsAfter(table, after) == []
    ensures Verdict(c, [], None, RowsAfter(table, 0)).None?
  {
    assert verified + [] == verified;
  }

  lemma ScanAdvances(c: Crypto, tables: seq<seq<Record>>, k: nat, verified: seq<Record>,
                     after: int, prev: Bytes, n: nat)
    requires Growing(tables) && Scanning(c, SeenBy(tables, k), verified, after, prev)
    requires 0 < n <= Left(tables, k, after)
    requires Verdict(c, prev, None, RowsAfter(SeenBy(tables, k), after)[..n]).None?
    ensures var page := RowsAfter(SeenBy(tables, k), after)[..n];
            && Scanning(c, SeenBy(tables, k + 1), verified + page, page[n - 1].seqNo, page[n - 1].hash)
            && |RowsAfter(SeenBy(tables, k), page[n - 1].seqNo)| < Left(tables, k, after)
  {
    var table, next := SeenBy(tables, k), SeenBy(tables, k + 1);
    SeenGrows(tables, k, k);
    SeenGrows(tables, k, k + 1);
    PageVerdict(c, table, verified, after, n);
    ReadPage(table, verified, after, n);
    ShorterRest(table, after, n);
    var page := RowsAfter(table, after)[..n];
    assert next == table + next[|table|..];
    ReadSoFarGrows(table, next[|table|..], verified + page, page[n - 1].seqNo);
  }

  lemma ScanFails(c: Crypto, tables: seq<seq<Record>>, k: nat, verified: seq<Record>, after: int, prev: Bytes, n: nat)
    requires Growing(tables) && Scanning(c, SeenBy(tables, k), verified, after, prev)
    requires 0 < n <= Left(tables, k, after)
    requires Verdict(c, prev, None, RowsAfter(SeenBy(tables, k), after)[..n]).Some?
    ensures Verdict(c, [], None, RowsAfter(SeenBy(tables, k), 0))
         == Verdict(c, prev, None, RowsAfter(SeenBy(tables, k), after)[..n])
  {
    SeenGrows(tables, k, k);
    PageVerdict(c, SeenBy(tables, k), verified, after, n);
  }

  /** `Verify` against a log that grows between the pages: for any page size the answer is the
      verdict on everything the last query could see, and a fault it reports remains the verdict on
      the log however it grows. */
  method VerifyPages(c: Crypto, page: int, tables: seq<seq<Record>>) returns (err: Option<ChainError>, queries: nat)
    requires Growing(tables)
    ensures queries >= 1 && err == Verdict(c, [], None, RowsAfter(SeenBy(tables, queries - 1), 0))
    ensures err.Some? ==> forall k: nat :: k >= queries ==> Verdict(c, [], None, RowsAfter(SeenBy(tables, k), 0)) == err
  {
    var after, prev := 0, [];
    queries := 0;
    ghost var verified := [];
    assert verified + RowsAfter(tables[0], 0) == RowsAfter(tables[0], 0);
    while true
      invariant Scanning(c, SeenBy(tables, queries), verified, after, prev)
      decreases |tables| - Min(queries, |tables|), Left(tables, queries, after)
    {
      var records := List(SeenBy(tables, queries), after, page);
      PageIsPrefix(SeenBy(tables, queries), after, page);
      ghost var k := queries;
      queries := queries + 1;
      if |records| == 0 {
        ScanDone(c, SeenBy(tables, k), verified, after, prev);
        return None, queries;
      }
      err := VerifyChainFrom(c, prev, records);
      if err.Some? {
        ScanFails(c, tables, k, verified, after, prev, |records|);
        FaultStaysSeen(c, tables, k);
        return;
      }
      ScanAdvances(c, tables, k, verified, after, prev, |records|);
      verified := verified + records;
      var last := records[|records| - 1];
      prev := last.hash;
      after := last.seqNo;
    }
  }

  lemma ShorterRest(table: seq<Record>, after: int, n: nat)
    requires Ascending(table) && 0 < n <= |RowsAfter(table, after)|
    ensures |RowsAfter(table, RowsAfter(table, after)[..n][n - 1].seqNo)| < |RowsAfter(table, after)|
  {
    NextPage(table, after, n);
  }

  lemma FaultStaysSeen(c: Crypto, tables: seq<seq<Record>>, j: nat)
    requires Growing(tables) && Verdict(c, [], None, RowsAfter(SeenBy(tables, j), 0)).Some?
    ensures forall k: nat :: k >= j ==>
              Verdict(c, [], None, RowsAfter(SeenBy(tables, k), 0))
              == Verdict(c, [], None, RowsAfter(SeenBy(tables, j), 0))
  {
    forall k: nat | k >= j
      ensures Verdict(c, [], None, RowsAfter(SeenBy(tables, k), 0))
           == Verdict(c, [], None, RowsAfter(SeenBy(tables, j), 0))
    {
      SeenGrows(tables, j, k);
      FaultStays(c, SeenBy(tables, j), SeenBy(tables, k));
    }
  }

  class Store {
    var log: seq<Record>
    var nextSeq: int

    ghost predicate Valid(c: Crypto)
      reads this
    {
      && Intact(c, log)
      && nextSeq >= 1
      && forall i :: 0 <= i < |log| ==> 0 < log[i].seqNo < nextSeq
    }

    constructor ()
      ensures forall c :: Valid(c)
      ensures log == []
    {
      log, nextSeq := [], 1;
    }

    /** One append: lock, read the head, hash, insert, commit. An entry without action or actor is
        refused; an aborted transaction only burns a sequence number. */
    method Append(c: Crypto, entry: Entry, now: int, commits: bool) returns (ok: bool)
      requires Valid(c)
      modifies this
      ensures Valid(c)
      ensures ok <==> entry.action != "" && entry.actorType != "" && commits
      ensures !ok ==> log == old(log)
      ensures ok ==> |log| == |old(log)| + 1 && log[..|old(log)|] == old(log)
                     && log[|old(log)|].entry == Normalize(entry.(at := if entry.at == 0 then now else entry.at))
    {
      var stamped := Normalize(entry.(at := if entry.at == 0 then now else entry.at));
      if stamped.action == "" || stamped.actorType == "" {
        return false;
      }
      var prevHash := [];
      if |log| > 0 {
        prevHash := log[|log| - 1].hash;
      }
      var hash := ComputeHash(c, prevHash, stamped);
      var row := Record(nextSeq, stamped, prevHash, hash);
      nextSeq := nextSeq + 1;
      if !commits {
        return false;
      }
      IntactSplits(c, log, row);
      log := log + [row];
      return true;
    }

    /** Page-by-page verification of a log at rest, for any page size and any table contents, gives
        the verdict of one pass over all rows with a positive sequence number. */
    method Verify(c: Crypto, page: int) returns (err: Option<ChainError>)
      requires Ascending(log)
      ensures err == Verdict(c, [], None, RowsAfter(log, 0))
    {
      var queries;
      err, queries := VerifyPages(c, page, [log]);
    }
  }

  /* ----- concurrent writers ----- */

  type WriterId = nat

  /** How far a writer's transaction has come. */
  datatype Phase = Idle | Locked | HeadRead(prev: Bytes) | Inserted(row: Record)

  datatype System = System(log: seq<Record>, lock: Option<WriterId>, phases: map<WriterId, Phase>, nextSeq: int)

  datatype Step =
    | TakeLock(w: WriterId)
    | ReadHead(w: WriterId)
    | InsertRow(w: WriterId, entry: Entry)
    | Commit(w: WriterId)
    | Abort(w: WriterId)            // rollback or crash; the advisory lock goes with it

  function PhaseOf(s: System, w: WriterId): Phase {
    if w in s.phases then s.phases[w] else Idle
  }

  predicate Enabled(s: System, step: Step) {
    match step
    case TakeLock(w) => s.lock.None? && PhaseOf(s, w).Idle?
    case ReadHead(w) => PhaseOf(s, w).Locked?
    case InsertRow(w, _) => PhaseOf(s, w).HeadRead?
    case Commit(w) => PhaseOf(s, w).Inserted?
    case Abort(w) => !PhaseOf(s, w).Idle?
  }

  function Next(c: Crypto, s: System, step: Step): System
    requires Enabled(s, step)
  {
    match step
    case TakeLock(w) => s.(lock := Some(w), phases := s.phases[w := Locked])
    case ReadHead(w) => s.(phases := s.phases[w := HeadRead(HeadHash(s.log, []))])
    case InsertRow(w, entry) =>
      var prev := PhaseOf(s, w).prev;
      var row := Record(s.nextSeq, Normalize(entry), prev, ComputeHash(c, prev, Normalize(entry)));
      s.(phases := s.phases[w := Inserted(row)], nextSeq := s.nextSeq + 1)
    case Commit(w) =>
      s.(log := s.log + [PhaseOf(s, w).row], lock := None, phases := s.phases[w := Idle])
    case Abort(w) => s.(lock := None, phases := s.phases[w := Idle])
  }

  ghost predicate Runs(c: Crypto, s: System, steps: seq<Step>)
    decreases |steps|
  {
    steps == [] || (Enabled(s, steps[0]) && Runs(c, Next(c, s, steps[0]), steps[1..]))
  }

  ghost function Final(c: Crypto, s: System, steps: seq<Step>): System
    requires Runs(c, s, steps)
    decreases |steps|
  {
    if steps == [] then s else Final(c, Next(c, s, steps[0]), steps[1..])
  }

  ghost predicate Inv(c: Crypto, s: System) {
    && Intact(c, s.log)
    && (forall i :: 0 <= i < |s.log| ==> s.log[i].seqNo < s.nextSeq)
    && (forall w: WriterId :: s.lock != Some(w) ==> PhaseOf(s, w).Idle?)
    && (s.lock.Some? ==> HolderInv(c, s, PhaseOf(s, s.lock.value)))
  }

  /** The lock holder's view of the head is never stale. */
  ghost predicate HolderInv(c: Crypto, s: System, phase: Phase) {
    match phase
    case Idle => true
    case Locked => true
    case HeadRead(prev) => prev == HeadHash(s.log, [])
    case Inserted(row) =>
      && Fault(c, HeadHash(s.log, []), LastSeq(s.log, None), row).None?
      && row.seqNo < s.nextSeq
  }

  lemma InvStep(c: Crypto, s: System, step: Step)
    requires Inv(c, s) && Enabled(s, step)
    ensures Inv(c, Next(c, s, step)) && s.log <= Next(c, s, step).log
  {
    if step.Commit? {
      IntactSplits(c, s.log, PhaseOf(s, step.w).row);
    }
  }

  /** Main theorem. With any number of writers interleaving lock, read, insert, commit and abort
      steps, the committed log always verifies, never forks (every record's predecessor hash is the
      hash of the record before it) and only grows. */
  lemma {:induction false} ConcurrentLogVerifies(c: Crypto, s: System, steps: seq<Step>)
    requires Inv(c, s) && Runs(c, s, steps)
    ensures var log := Final(c, s, steps).log;
            && Inv(c, Final(c, s, steps))
            && Verdict(c, [], None, log).None?
            && s.log <= log
            && forall i :: 0 <= i < |log| ==> log[i].prevHash == PrevOf(log, i)
    decreases |steps|
  {
    if steps == [] {
      VerdictCleanIffIntact(c, s.log);
      forall i | 0 <= i < |s.log| ensures s.log[i].prevHash == PrevOf(s.log, i) {
        assert Linked(c, s.log, i);
      }
    } else {
      InvStep(c, s, steps[0]);
      ConcurrentLogVerifies(c, Next(c, s, steps[0]), steps[1..]);
    }
  }

  const EMPTY_LOG := System([], None, map[], 1)

  /** From the empty log: whatever the writers did, what has been committed verifies, from the first
      record on, in one pass or page by page. */
  lemma LogVerifiesFromEmpty(c: Crypto, steps: seq<Step>)
    requires Runs(c, EMPTY_LOG, steps)
    ensures var log := Final(c, EMPTY_LOG, steps).log;
            && Verdict(c, [], None, log).None? && Verdict(c, [], None, RowsAfter(log, 0)).None?
            && forall i :: 0 <= i < |log| ==> log[i].prevHash == PrevOf(log, i)
  {
    ConcurrentLogVerifies(c, EMPTY_LOG, steps);
    PositiveOverRuns(c, EMPTY_LOG, steps);
    AllRowsListed(Final(c, EMPTY_LOG, steps).log);
  }

  /** Sequence numbers start at 1. */
  ghost predicate Positive(s: System) {
    && s.nextSeq >= 1
    && (forall i :: 0 <= i < |s.log| ==> s.log[i].seqNo >= 1)
    && (forall w :: w in s.phases && s.phases[w].Inserted? ==> s.phases[w].row.seqNo >= 1)
  }

  lemma {:induction false} PositiveOverRuns(c: Crypto, s: System, steps: seq<Step>)
    requires Positive(s) && Runs(c, s, steps)
    ensures Positive(Final(c, s, steps))
    decreases |steps|
  {
    if steps != [] {
      PositiveOverRuns(c, Next(c, s, steps[0]), steps[1..]);
    }
  }

  lemma AllRowsListed(log: seq<Record>)
    requires forall i :: 0 <= i < |log| ==> log[i].seqNo >= 1
    ensures RowsAfter(log, 0) == log
  {
  }
}
