/** The audit log: a hash chain whose last hash stands for all of its records. */
module Audit {
  import Text

  const GENESIS := "genesis"

  type Hash = string -> string

  /** What a caller reports. */
  datatype AuditEvent = AuditEvent(
    tenantId: string, runId: string, actor: string, action: string, resource: string, outcome: string, detail: string)

  /** The time is kept as the text that is hashed. */
  datatype AuditRecord = AuditRecord(sequence: nat, event: AuditEvent, prevHash: string, recordHash: string,
    recordedAt: string)

  // ---- The hashed text ----

  /** The parts, separated by bars. */
  function Join(parts: seq<string>): string {
    if parts == [] then [] else if |parts| == 1 then parts[0] else parts[0] + "|" + Join(parts[1..])
  }

  function EventParts(e: AuditEvent): seq<string> {
    [e.tenantId, e.runId, e.actor, e.action, e.resource, e.outcome, e.detail]
  }

  function Parts(sequence: nat, e: AuditEvent, prevHash: string, recordedAt: string): seq<string> {
    [Text.Decimal(sequence)] + EventParts(e) + [prevHash, recordedAt]
  }

  function ComputeHash(h: Hash, sequence: nat, e: AuditEvent, prevHash: string, recordedAt: string): string {
    h(Join(Parts(sequence, e, prevHash, recordedAt)))
  }

  /** What is hashed of a record: its number, the event's fields, the hash before it and its time, in this order. */
  lemma HashedParts(h: Hash, n: nat, e: AuditEvent, prevHash: string, recordedAt: string)
    ensures ComputeHash(h, n, e, prevHash, recordedAt) == h(Join(
      [Text.Decimal(n), e.tenantId, e.runId, e.actor, e.action, e.resource, e.outcome, e.detail, prevHash, recordedAt]))
  {
    assert Parts(n, e, prevHash, recordedAt) ==
      [Text.Decimal(n), e.tenantId, e.runId, e.actor, e.action, e.resource, e.outcome, e.detail, prevHash, recordedAt];
  }

  predicate BarFree(parts: seq<string>) {
    forall i :: 0 <= i < |parts| ==> '|' !in parts[i]
  }

  function Bars(s: string): nat {
    if s == [] then 0 else Bars(s[1..]) + if s[0] == '|' then 1 else 0
  }

  function BarsIn(parts: seq<string>): nat {
    if parts == [] then 0 else Bars(parts[0]) + BarsIn(parts[1..])
  }

  lemma {:induction false} BarsConcat(a: string, b: string)
    ensures Bars(a + b) == Bars(a) + Bars(b)
  {
    if a == [] {
      assert a + b == b;
    } else {
      assert (a + b)[1..] == a[1..] + b;
      BarsConcat(a[1..], b);
    }
  }

  lemma {:induction false} NoBars(s: string)
    ensures Bars(s) == 0 <==> '|' !in s
  {
    if s != [] {
      NoBars(s[1..]);
    }
  }

  lemma {:induction false} BarFreeIff(parts: seq<string>)
    ensures BarsIn(parts) == 0 <==> BarFree(parts)
  {
    if parts != [] {
      NoBars(parts[0]);
      BarFreeIff(parts[1..]);
      assert parts == [parts[0]] + parts[1..];
    }
  }

  /** The joined text has one bar between neighbours, besides those of the parts. */
  lemma {:induction false} BarsOfJoin(parts: seq<string>)
    requires parts != []
    ensures Bars(Join(parts)) == BarsIn(parts) + |parts| - 1
  {
    if |parts| > 1 {
      BarsOfJoin(parts[1..]);
      BarsConcat(parts[0] + "|", Join(parts[1..]));
      BarsConcat(parts[0], "|");
    }
  }

  /** What comes before the first bar, and after it, is determined. */
  lemma SplitAtBar(a: string, x: string, b: string, y: string)
    requires '|' !in a && '|' !in b && a + "|" + x == b + "|" + y
    ensures a == b && x == y
  {
    var s := a + "|" + x;
    assert s[|a|] == '|' && s[|b|] == '|';
    assert forall k :: 0 <= k < |a| ==> s[k] == a[k] && s[k] != '|';
    assert forall k :: 0 <= k < |b| ==> s[k] == b[k] && s[k] != '|';
    assert a == s[..|a|] && b == s[..|b|];
    assert x == s[|a| + 1..] && y == s[|b| + 1..];
  }

  lemma {:induction false} JoinInjective(ps: seq<string>, qs: seq<string>)
    requires BarFree(ps) && BarFree(qs) && |ps| == |qs| && Join(ps) == Join(qs)
    ensures ps == qs
  {
    if |ps| > 1 {
      assert '|' !in ps[0] && '|' !in qs[0];
      SplitAtBar(ps[0], Join(ps[1..]), qs[0], Join(qs[1..]));
      JoinInjective(ps[1..], qs[1..]);
      assert ps == [ps[0]] + ps[1..] && qs == [qs[0]] + qs[1..];
    }
  }

  /** One bar-free list is enough: as many other parts with the same text are the same. */
  lemma JoinDetermines(ps: seq<string>, qs: seq<string>)
    requires BarFree(ps) && |ps| == |qs| && ps != [] && Join(ps) == Join(qs)
    ensures ps == qs
  {
    BarsOfJoin(ps);
    BarsOfJoin(qs);
    BarFreeIff(ps);
    BarFreeIff(qs);
    JoinInjective(ps, qs);
  }

  // ---- The chain ----

  function Head(records: seq<AuditRecord>): string {
    if records == [] then GENESIS else records[|records| - 1].recordHash
  }

  predicate RecordOk(h: Hash, r: AuditRecord) {
    r.recordHash == ComputeHash(h, r.sequence, r.event, r.prevHash, r.recordedAt)
  }

  /** Each record carries its own hash and that of the record before. */
  ghost predicate Verified(h: Hash, records: seq<AuditRecord>) {
    && (forall i :: 0 <= i < |records| ==> RecordOk(h, records[i]))
    && (forall i :: 0 <= i < |records| ==> Linked(records, i))
  }

  /** The record carries the hash of the one before, or the start of the chain. */
  predicate Linked(records: seq<AuditRecord>, i: nat)
    requires i < |records|
  {
    records[i].prevHash == Head(records[..i])
  }

  /** The hash has no collisions, never looks like the start of a chain, and has no bars. */
  ghost predicate GoodHash(h: Hash) {
    && (forall x, y :: h(x) == h(y) ==> x == y)
    && (forall x :: h(x) != GENESIS && '|' !in h(x))
  }

  predicate PlainEvent(e: AuditEvent) {
    BarFree(EventParts(e))
  }

  /** No caller's field and no time holds a bar. */
  predicate Plain(records: seq<AuditRecord>) {
    forall i :: 0 <= i < |records| ==> PlainEvent(records[i].event) && '|' !in records[i].recordedAt
  }

  lemma HashPlain(h: Hash, records: seq<AuditRecord>, i: nat)
    requires GoodHash(h) && Verified(h, records) && i <= |records|
    ensures '|' !in Head(records[..i])
  {
    if i > 0 {
      assert records[..i][i - 1] == records[i - 1];
      assert RecordOk(h, records[i - 1]);
    }
  }

  lemma PartsPlain(r: AuditRecord)
    requires PlainEvent(r.event) && '|' !in r.prevHash && '|' !in r.recordedAt
    ensures BarFree(Parts(r.sequence, r.event, r.prevHash, r.recordedAt))
  {
    Text.DecimalRoundTrip(r.sequence);
    var parts := Parts(r.sequence, r.event, r.prevHash, r.recordedAt);
    forall i | 0 <= i < |parts| ensures '|' !in parts[i] {
      if 1 <= i < 8 {
        assert parts[i] == EventParts(r.event)[i - 1];
      }
    }
  }

  /** Equal parts come from equal records. */
  lemma SameParts(r: AuditRecord, q: AuditRecord)
    requires Parts(r.sequence, r.event, r.prevHash, r.recordedAt) ==
      Parts(q.sequence, q.event, q.prevHash, q.recordedAt)
    ensures r.sequence == q.sequence && r.event == q.event && r.prevHash == q.prevHash && r.recordedAt == q.recordedAt
  {
    var p, o := Parts(r.sequence, r.event, r.prevHash, r.recordedAt),
      Parts(q.sequence, q.event, q.prevHash, q.recordedAt);
    assert p[0] == o[0] && p[8] == o[8] && p[9] == o[9];
    Text.DecimalInjective(r.sequence, q.sequence);
    assert forall i :: 0 <= i < 7 ==> p[i + 1] == EventParts(r.event)[i] && o[i + 1] == EventParts(q.event)[i];
    var e, f := EventParts(r.event), EventParts(q.event);
    assert e[0] == f[0] && e[1] == f[1] && e[2] == f[2] && e[3] == f[3] && e[4] == f[4] && e[5] == f[5] && e[6] == f[6];
  }

  /** Records with the same hash are the same, if one of them is plain. */
  lemma SameHash(h: Hash, r: AuditRecord, q: AuditRecord)
    requires GoodHash(h) && RecordOk(h, r) && RecordOk(h, q) && r.recordHash == q.recordHash
    requires PlainEvent(r.event) && '|' !in r.prevHash && '|' !in r.recordedAt
    ensures r == q
  {
    PartsPlain(r);
    JoinDetermines(Parts(r.sequence, r.event, r.prevHash, r.recordedAt),
      Parts(q.sequence, q.event, q.prevHash, q.recordedAt));
    SameParts(r, q);
  }

  /** Every record is linked, and no hash looks like the start. */
  ghost predicate Chained(records: seq<AuditRecord>) {
    && (forall i :: 0 <= i < |records| ==> Linked(records, i))
    && (forall i :: 0 <= i < |records| ==> records[i].recordHash != GENESIS)
  }

  /** Records of the two logs with equal hashes are equal. */
  ghost predicate HashesTell(a: seq<AuditRecord>, b: seq<AuditRecord>) {
    forall i, j :: 0 <= i < |a| && 0 <= j < |b| && a[i].recordHash == b[j].recordHash ==> a[i] == b[j]
  }

  /** Walking back from equal heads, the two chains meet at every record. */
  lemma {:induction false} ChainsMeet(a: seq<AuditRecord>, b: seq<AuditRecord>, m: nat, n: nat)
    requires Chained(a) && Chained(b) && HashesTell(a, b) && m <= |a| && n <= |b|
    requires Head(a[..m]) == Head(b[..n])
    ensures a[..m] == b[..n]
    decreases m
  {
    assert m > 0 ==> Linked(a, m - 1);
    assert n > 0 ==> Linked(b, n - 1);
    if m > 0 && n > 0 {
      assert a[m - 1] == b[n - 1];
      ChainsMeet(a, b, m - 1, n - 1);
      assert a[..m] == a[..m - 1] + [a[m - 1]] && b[..n] == b[..n - 1] + [b[n - 1]];
    }
  }

  lemma VerifiedIsChained(h: Hash, records: seq<AuditRecord>)
    requires GoodHash(h) && Verified(h, records)
    ensures Chained(records)
  {
    forall i | 0 <= i < |records| ensures records[i].recordHash != GENESIS {
      assert RecordOk(h, records[i]);
    }
  }

  lemma PlainHashesTell(h: Hash, a: seq<AuditRecord>, b: seq<AuditRecord>)
    requires GoodHash(h) && Verified(h, a) && Verified(h, b) && Plain(a)
    ensures HashesTell(a, b)
  {
    forall i, j | 0 <= i < |a| && 0 <= j < |b| && a[i].recordHash == b[j].recordHash ensures a[i] == b[j] {
      HashPlain(h, a, i);
      assert Linked(a, i);
      SameHash(h, a[i], b[j]);
    }
  }

  /** Two verified logs with the same head are identical, if one of them is plain. */
  lemma HeadDetermines(h: Hash, a: seq<AuditRecord>, b: seq<AuditRecord>)
    requires GoodHash(h) && Verified(h, a) && Verified(h, b) && Plain(a) && Head(a) == Head(b)
    ensures a == b
  {
    VerifiedIsChained(h, a);
    VerifiedIsChained(h, b);
    PlainHashesTell(h, a, b);
    assert a[..|a|] == a && b[..|b|] == b;
    ChainsMeet(a, b, |a|, |b|);
  }

  // ---- Bars in the fields ----

  lemma {:induction false} JoinConcat(a: seq<string>, b: seq<string>)
    requires a != [] && b != []
    ensures Join(a + b) == Join(a) + "|" + Join(b)
  {
    assert (a + b)[1..] == a[1..] + b;
    if |a| > 1 {
      JoinConcat(a[1..], b);
    } else {
      assert a[1..] + b == b;
    }
  }

  /** Lists with the same text can stand for each other inside a longer list. */
  lemma JoinInside(before: seq<string>, ps: seq<string>, qs: seq<string>, after: seq<string>)
    requires ps != [] && qs != [] && Join(ps) == Join(qs)
    ensures Join(before + ps + after) == Join(before + qs + after)
  {
    if before == [] {
      assert before + ps == ps && before + qs == qs;
    } else {
      JoinConcat(before, ps);
      JoinConcat(before, qs);
    }
    if after == [] {
      assert before + ps + after == before + ps && before + qs + after == before + qs;
    } else {
      JoinConcat(before + ps, after);
      JoinConcat(before + qs, after);
    }
  }

  /** A bar inside a part can be read as the bar to its neighbour. */
  lemma Reread(ps: seq<string>, i: nat) returns (qs: seq<string>)
    requires |ps| >= 2 && i < |ps| && '|' in ps[i]
    ensures |qs| == |ps| && qs != ps && Join(qs) == Join(ps)
  {
    var k :| 0 <= k < |ps[i]| && ps[i][k] == '|';
    var u, v := ps[i][..k], ps[i][k + 1..];
    assert ps[i] == u + "|" + v;
    var j := if i + 1 < |ps| then i else i - 1;
    var pair := [ps[j], ps[j + 1]];
    var reread := if j == i then [u, v + "|" + ps[i + 1]] else [ps[j] + "|" + u, v];
    PairText(ps[j], ps[j + 1]);
    PairText(reread[0], reread[1]);
    assert ps == ps[..j] + pair + ps[j + 2..];
    qs := ps[..j] + reread + ps[j + 2..];
    assert ps[j] + "|" + ps[j + 1] == reread[0] + "|" + reread[1];
    JoinInside(ps[..j], pair, reread, ps[j + 2..]);
    assert qs[j] == reread[0] && |reread[0]| != |ps[j]|;
  }

  lemma PairText(x: string, y: string)
    ensures Join([x, y]) == x + "|" + y
  {
    assert [x, y][1..] == [y];
  }

  function EventOf(parts: seq<string>): AuditEvent
    requires |parts| == 7
  {
    AuditEvent(parts[0], parts[1], parts[2], parts[3], parts[4], parts[5], parts[6])
  }

  /** Another event with the same hashed text. */
  lemma Lookalike(r: AuditRecord) returns (e: AuditEvent)
    requires !PlainEvent(r.event)
    ensures e != r.event
    ensures Join(Parts(r.sequence, e, r.prevHash, r.recordedAt)) ==
      Join(Parts(r.sequence, r.event, r.prevHash, r.recordedAt))
  {
    var ps := EventParts(r.event);
    var i :| 0 <= i < |ps| && '|' in ps[i];
    var qs := Reread(ps, i);
    e := EventOf(qs);
    assert EventParts(e) == qs;
    JoinInside([Text.Decimal(r.sequence)], ps, qs, [r.prevHash, r.recordedAt]);
  }

  ghost predicate OnlyOne(h: Hash, records: seq<AuditRecord>) {
    forall others :: Verified(h, others) && Head(others) == Head(records) ==> others == records
  }

  /** Only the fields of one record differ, and not in their hashed text: the chain still holds. */
  lemma ReplacedVerifies(h: Hash, records: seq<AuditRecord>, i: nat, r: AuditRecord)
    requires Verified(h, records) && i < |records|
    requires RecordOk(h, r) && r.prevHash == records[i].prevHash && r.recordHash == records[i].recordHash
    ensures Verified(h, records[i := r]) && Head(records[i := r]) == Head(records)
  {
    var others := records[i := r];
    forall k | 0 <= k < |others| ensures Linked(others, k) {
      assert Linked(records, k);
      assert k > 0 ==> others[..k][k - 1].recordHash == records[..k][k - 1].recordHash;
    }
  }

  lemma Replaceable(h: Hash, records: seq<AuditRecord>, i: nat)
    requires Verified(h, records) && i < |records| && !PlainEvent(records[i].event)
    ensures !OnlyOne(h, records)
  {
    var r := records[i];
    var e := Lookalike(r);
    assert RecordOk(h, r);
    ReplacedVerifies(h, records, i, r.(event := e));
    assert records[i := r.(event := e)][i] != records[i];
  }

  /** The head stands for one log only, exactly when no caller's field holds a bar. */
  lemma OnlyOneIff(h: Hash, records: seq<AuditRecord>)
    requires GoodHash(h) && Verified(h, records)
    requires forall i :: 0 <= i < |records| ==> '|' !in records[i].recordedAt
    ensures OnlyOne(h, records) <==> forall i :: 0 <= i < |records| ==> PlainEvent(records[i].event)
  {
    if Plain(records) {
      forall others | Verified(h, others) && Head(others) == Head(records) ensures others == records {
        HeadDetermines(h, records, others);
      }
    } else {
      var i :| 0 <= i < |records| && !PlainEvent(records[i].event);
      Replaceable(h, records, i);
    }
  }

  // ---- The log ----

  class AuditLog {
    const h: Hash
    var records: seq<AuditRecord>

    /** The records verify and are numbered from one. */
    ghost predicate Valid()
      reads this
    {
      Verified(h, records) && forall i :: 0 <= i < |records| ==> records[i].sequence == i + 1
    }

    constructor (h: Hash)
      ensures Valid() && records == [] && this.h == h
    {
      this.h := h;
      records := [];
    }

    method Append(e: AuditEvent, now: string) returns (r: AuditRecord)
      modifies this
      ensures records == old(records) + [r]
      ensures r.event == e && r.recordedAt == now && r.sequence == |records|
      ensures r.prevHash == Head(old(records)) && RecordOk(h, r)
      ensures r.prevHash == if old(records) == [] then "genesis" else old(records)[|old(records)| - 1].recordHash
      ensures old(Verified(h, records)) ==> Verified(h, records)
      ensures old(Valid()) ==> Valid()
    {
      var sequence := |records| + 1;
      var prevHash := if |records| > 0 then records[|records| - 1].recordHash else GENESIS;
      r := AuditRecord(sequence, e, prevHash, ComputeHash(h, sequence, e, prevHash, now), now);
      ghost var before := records;
      records := records + [r];
      if Verified(h, before) {
        VerifiedSnoc(h, before, r);
      }
    }

    method VerifyChain() returns (ok: bool)
      ensures ok <==> Verified(h, records)
    {
      var prev := GENESIS;
      for i := 0 to |records|
        invariant prev == Head(records[..i])
        invariant forall k :: 0 <= k < i ==> RecordOk(h, records[k])
        invariant forall k :: 0 <= k < i ==> Linked(records, k)
      {
        var r := records[i];
        if r.prevHash != prev {
          assert !Linked(records, i);
          return false;
        }
        if ComputeHash(h, r.sequence, r.event, r.prevHash, r.recordedAt) != r.recordHash {
          return false;
        }
        prev := r.recordHash;
      }
      return true;
    }
  }

  lemma VerifiedSnoc(h: Hash, records: seq<AuditRecord>, r: AuditRecord)
    requires Verified(h, records) && RecordOk(h, r) && r.prevHash == Head(records)
    ensures Verified(h, records + [r])
  {
    var all := records + [r];
    forall i | 0 <= i < |all| ensures Linked(all, i) {
      if i < |records| {
        assert all[..i] == records[..i] && Linked(records, i);
      } else {
        assert all[..i] == records;
      }
    }
  }
}
