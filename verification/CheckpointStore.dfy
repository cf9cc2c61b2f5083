/** The two-map checkpoint store, as one append-only list of checkpoints. */
module CheckpointStore {
  import opened Wrappers
  import opened AgentStates

  datatype Checkpoint = Checkpoint(
    id: string,
    threadId: string,
    nodeId: string,
    state: AgentState,
    parentId: Option<string>,
    metadata: Json)

  /** Checkpoints by id, and per thread the ids in the order they were saved. */
  datatype Store = Store(checkpoints: map<string, Checkpoint>, threads: map<string, seq<string>>)

  const EMPTY := Store(map[], map[])

  // ---- The store's operations ----

  function IdsOf(st: Store, t: string): seq<string> {
    if t in st.threads then st.threads[t] else []
  }

  function Save(st: Store, c: Checkpoint): Store {
    Store(st.checkpoints[c.id := c], st.threads[c.threadId := IdsOf(st, c.threadId) + [c.id]])
  }

  /** The ids other than `id`, in order. */
  function Retain(ids: seq<string>, id: string): seq<string> {
    if ids == [] then []
    else if ids[0] == id then Retain(ids[1..], id)
    else [ids[0]] + Retain(ids[1..], id)
  }

  function Delete(st: Store, id: string): Store {
    if id !in st.checkpoints then st
    else
      var t := st.checkpoints[id].threadId;
      Store(st.checkpoints - {id}, if t in st.threads then st.threads[t := Retain(st.threads[t], id)] else st.threads)
  }

  function DeleteThread(st: Store, t: string): Store {
    Store(st.checkpoints - (set id | id in IdsOf(st, t)), st.threads - {t})
  }

  /** The checkpoints of the ids that still have one, latest first. */
  function Lookup(checkpoints: map<string, Checkpoint>, ids: seq<string>): seq<Checkpoint> {
    if ids == [] then []
    else
      var last := ids[|ids| - 1];
      (if last in checkpoints then [checkpoints[last]] else []) + Lookup(checkpoints, ids[..|ids| - 1])
  }

  function List(st: Store, t: string): seq<Checkpoint> {
    Lookup(st.checkpoints, IdsOf(st, t))
  }

  function LoadById(st: Store, id: string): Option<Checkpoint> {
    if id in st.checkpoints then Some(st.checkpoints[id]) else None
  }

  function Load(st: Store, t: string): Option<Checkpoint> {
    var ids := IdsOf(st, t);
    if ids == [] then None else LoadById(st, ids[|ids| - 1])
  }

  // ---- The log ----

  type Log = seq<Checkpoint>

  function OfThread(log: Log, t: string): (r: Log)
    ensures forall c :: c in r <==> c in log && c.threadId == t
  {
    if log == [] then []
    else if log[0].threadId == t then [log[0]] + OfThread(log[1..], t)
    else OfThread(log[1..], t)
  }

  function WithoutId(log: Log, id: string): (r: Log)
    ensures forall c :: c in r <==> c in log && c.id != id
  {
    if log == [] then []
    else if log[0].id == id then WithoutId(log[1..], id)
    else [log[0]] + WithoutId(log[1..], id)
  }

  function WithoutThread(log: Log, t: string): (r: Log)
    ensures forall c :: c in r <==> c in log && c.threadId != t
  {
    if log == [] then []
    else if log[0].threadId == t then WithoutThread(log[1..], t)
    else [log[0]] + WithoutThread(log[1..], t)
  }

  /** A reversed log, place by place. */
  lemma {:induction false} ReverseAt(log: Log, k: nat)
    requires k < |log|
    ensures |Reverse(log)| == |log| && Reverse(log)[k] == log[|log| - 1 - k]
  {
    if |log| > 1 {
      ReverseAt(log[..|log| - 1], if k == 0 then 0 else k - 1);
    }
  }

  function Ids(log: Log): seq<string> {
    seq(|log|, i requires 0 <= i < |log| => log[i].id)
  }

  function Reverse(log: Log): Log {
    if log == [] then [] else [log[|log| - 1]] + Reverse(log[..|log| - 1])
  }

  /** The store holds exactly the log: an id names one checkpoint, a thread lists its own in order. */
  ghost predicate Represents(st: Store, log: Log) {
    && (forall c :: c in log ==> c.id in st.checkpoints && st.checkpoints[c.id] == c)
    && (forall id :: id in st.checkpoints ==> st.checkpoints[id] in log && st.checkpoints[id].id == id)
    && (forall t :: IdsOf(st, t) == Ids(OfThread(log, t)))
  }

  /** The id is new, or the very same checkpoint is saved again. */
  predicate Savable(log: Log, c: Checkpoint) {
    forall d :: d in log && d.id == c.id ==> d == c
  }

  // ---- Refinement, operation by operation ----

  lemma {:induction false} OfThreadSnoc(log: Log, c: Checkpoint, t: string)
    ensures OfThread(log + [c], t) == OfThread(log, t) + if c.threadId == t then [c] else []
  {
    if log != [] {
      assert (log + [c])[1..] == log[1..] + [c];
      OfThreadSnoc(log[1..], c, t);
    }
  }

  lemma SaveListsIds(st: Store, log: Log, c: Checkpoint, t: string)
    requires IdsOf(st, t) == Ids(OfThread(log, t))
    ensures IdsOf(Save(st, c), t) == Ids(OfThread(log + [c], t))
  {
    OfThreadSnoc(log, c, t);
  }

  /** A save under an unused id, or of the same checkpoint again. */
  lemma SaveKeeps(st: Store, log: Log, c: Checkpoint)
    requires Represents(st, log) && Savable(log, c)
    ensures Represents(Save(st, c), log + [c])
  {
    forall t ensures IdsOf(Save(st, c), t) == Ids(OfThread(log + [c], t)) {
      SaveListsIds(st, log, c, t);
    }
  }

  /** Saving appends to the log, exactly when it does not put another checkpoint under a used id. */
  lemma SaveRefines(st: Store, log: Log, c: Checkpoint)
    requires Represents(st, log)
    ensures Represents(Save(st, c), log + [c]) <==> Savable(log, c)
  {
    if Savable(log, c) {
      SaveKeeps(st, log, c);
    }
    if Represents(Save(st, c), log + [c]) {
      forall d | d in log && d.id == c.id ensures d == c {
        assert d in log + [c];
      }
    }
  }

  lemma IdsCons(x: Checkpoint, log: Log)
    ensures Ids([x] + log) == [x.id] + Ids(log)
  {
  }

  lemma OfThreadCons(x: Checkpoint, log: Log, t: string)
    ensures OfThread([x] + log, t) == if x.threadId == t then [x] + OfThread(log, t) else OfThread(log, t)
  {
    assert ([x] + log)[1..] == log;
  }

  /** What is kept of a log is kept in its order, and once for each time it is there. */
  lemma WithoutCons(x: Checkpoint, log: Log, key: string)
    ensures WithoutId([x] + log, key) == (if x.id == key then [] else [x]) + WithoutId(log, key)
    ensures WithoutThread([x] + log, key) == (if x.threadId == key then [] else [x]) + WithoutThread(log, key)
  {
    assert ([x] + log)[1..] == log;
  }

  lemma RetainCons(x: string, ids: seq<string>, id: string)
    ensures Retain([x] + ids, id) == if x == id then Retain(ids, id) else [x] + Retain(ids, id)
  {
    assert ([x] + ids)[1..] == ids;
  }

  lemma {:induction false} RetainIds(log: Log, id: string, t: string)
    ensures Ids(OfThread(WithoutId(log, id), t)) == Retain(Ids(OfThread(log, t)), id)
  {
    if log != [] {
      var x, rest := log[0], WithoutId(log[1..], id);
      RetainIds(log[1..], id, t);
      OfThreadCons(x, rest, t);
      IdsCons(x, OfThread(log[1..], t));
      IdsCons(x, OfThread(rest, t));
      RetainCons(x.id, Ids(OfThread(log[1..], t)), id);
    }
  }

  lemma {:induction false} RetainAbsent(ids: seq<string>, id: string)
    requires id !in ids
    ensures Retain(ids, id) == ids
  {
    if ids != [] {
      RetainAbsent(ids[1..], id);
    }
  }

  lemma DeleteRefines(st: Store, log: Log, id: string)
    requires Represents(st, log)
    ensures Represents(Delete(st, id), WithoutId(log, id))
  {
    var st' := Delete(st, id);
    forall t ensures IdsOf(st', t) == Ids(OfThread(WithoutId(log, id), t)) {
      RetainIds(log, id, t);
      assert IdsOf(st, t) == Ids(OfThread(log, t));
      if id !in IdsOf(st, t) {
        RetainAbsent(IdsOf(st, t), id);
      } else {
        IdOwner(st, log, id, t);
      }
    }
  }

  /** An id listed under a thread belongs to a checkpoint of that thread. */
  lemma IdOwner(st: Store, log: Log, id: string, t: string)
    requires Represents(st, log)
    requires id in IdsOf(st, t)
    ensures id in st.checkpoints && st.checkpoints[id].threadId == t
  {
    var mine := OfThread(log, t);
    assert IdsOf(st, t) == Ids(mine);
    var k :| 0 <= k < |mine| && Ids(mine)[k] == id;
    assert mine[k] in mine;
  }

  lemma {:induction false} OtherThread(log: Log, t: string, u: string)
    ensures OfThread(WithoutThread(log, t), u) == if u == t then [] else OfThread(log, u)
  {
    if log != [] {
      var rest := WithoutThread(log[1..], t);
      OtherThread(log[1..], t, u);
      OfThreadCons(log[0], rest, u);
    }
  }

  lemma DeleteThreadRefines(st: Store, log: Log, t: string)
    requires Represents(st, log)
    ensures Represents(DeleteThread(st, t), WithoutThread(log, t))
  {
    var st' := DeleteThread(st, t);
    forall u ensures IdsOf(st', u) == Ids(OfThread(WithoutThread(log, t), u)) {
      OtherThread(log, t, u);
      assert IdsOf(st, u) == Ids(OfThread(log, u));
    }
    forall id | id in st.checkpoints ensures id in IdsOf(st, t) <==> st.checkpoints[id].threadId == t {
      ListedUnder(st, log, id, t);
    }
  }

  lemma ListedUnder(st: Store, log: Log, id: string, t: string)
    requires Represents(st, log) && id in st.checkpoints
    ensures id in IdsOf(st, t) <==> st.checkpoints[id].threadId == t
  {
    if id in IdsOf(st, t) {
      IdOwner(st, log, id, t);
    }
    if st.checkpoints[id].threadId == t {
      var mine := OfThread(log, t);
      assert IdsOf(st, t) == Ids(mine);
      assert st.checkpoints[id] in mine;
      var k :| 0 <= k < |mine| && mine[k] == st.checkpoints[id];
      assert Ids(mine)[k] == id;
    }
  }

  // ---- Queries ----

  lemma {:induction false} LookupIds(checkpoints: map<string, Checkpoint>, log: Log)
    requires forall c :: c in log ==> c.id in checkpoints && checkpoints[c.id] == c
    ensures Lookup(checkpoints, Ids(log)) == Reverse(log)
  {
    if log != [] {
      var n := |log| - 1;
      assert log[n] in log;
      assert Ids(log)[..n] == Ids(log[..n]);
      LookupIds(checkpoints, log[..n]);
    }
  }

  /** `list` is the reversed per-thread filter, `load` its head, `load_by_id` finds what was saved. */
  lemma QueriesAnswer(st: Store, log: Log, t: string)
    requires Represents(st, log)
    ensures List(st, t) == Reverse(OfThread(log, t))
    ensures Load(st, t) == if OfThread(log, t) == [] then None else Some(Reverse(OfThread(log, t))[0])
    ensures forall c: Checkpoint :: LoadById(st, c.id) == Some(c) <==> c in log
  {
    var mine := OfThread(log, t);
    assert IdsOf(st, t) == Ids(mine);
    LookupIds(st.checkpoints, mine);
    if mine != [] {
      assert mine[|mine| - 1] in mine;
    }
  }

  // ---- Whole histories ----

  datatype Op = SaveOp(checkpoint: Checkpoint) | DeleteOp(id: string) | DeleteThreadOp(thread: string)

  function Apply(st: Store, op: Op): Store {
    match op
    case SaveOp(c) => Save(st, c)
    case DeleteOp(id) => Delete(st, id)
    case DeleteThreadOp(t) => DeleteThread(st, t)
  }

  function ApplyToLog(log: Log, op: Op): Log {
    match op
    case SaveOp(c) => log + [c]
    case DeleteOp(id) => WithoutId(log, id)
    case DeleteThreadOp(t) => WithoutThread(log, t)
  }

  function ApplyAll(ops: seq<Op>): Store {
    if ops == [] then EMPTY else Apply(ApplyAll(ops[..|ops| - 1]), ops[|ops| - 1])
  }

  function LogOf(ops: seq<Op>): Log {
    if ops == [] then [] else ApplyToLog(LogOf(ops[..|ops| - 1]), ops[|ops| - 1])
  }

  /** Every save brings an id that is not in use, unless it repeats a checkpoint. */
  ghost predicate Legal(ops: seq<Op>) {
    forall k :: 0 <= k < |ops| && ops[k].SaveOp? ==> Savable(LogOf(ops[..k]), ops[k].checkpoint)
  }

  lemma {:induction false} HistoryRefines(ops: seq<Op>)
    requires Legal(ops)
    ensures Represents(ApplyAll(ops), LogOf(ops))
  {
    if ops != [] {
      var n := |ops| - 1;
      var before := ops[..n];
      assert forall k :: 0 <= k < n ==> before[..k] == ops[..k];
      HistoryRefines(before);
      match ops[n] {
        case SaveOp(c) => SaveRefines(ApplyAll(before), LogOf(before), c);
        case DeleteOp(id) => DeleteRefines(ApplyAll(before), LogOf(before), id);
        case DeleteThreadOp(t) => DeleteThreadRefines(ApplyAll(before), LogOf(before), t);
      }
    }
  }

  /** Reusing an id across threads: the first thread then lists, and loads, the other's checkpoint. */
  lemma ReusedIdLeaks(c: Checkpoint, d: Checkpoint)
    requires c.id == d.id && c.threadId != d.threadId
    ensures var st := ApplyAll([SaveOp(c), SaveOp(d)]); Load(st, c.threadId) == Some(d) && List(st, c.threadId) == [d]
  {
    var ops := [SaveOp(c), SaveOp(d)];
    assert ops[..1] == [SaveOp(c)];
    assert ops[..1][..0] == [];
    assert ApplyAll(ops[..1]) == Save(EMPTY, c);
    var st := Save(Save(EMPTY, c), d);
    assert IdsOf(st, c.threadId) == [c.id];
    assert [c.id][..0] == [];
    assert Lookup(st.checkpoints, [c.id]) == [d] + Lookup(st.checkpoints, []);
  }

  method LookupAll(checkpoints: map<string, Checkpoint>, ids: seq<string>) returns (r: seq<Checkpoint>)
    ensures r == Lookup(checkpoints, ids)
  {
    r := [];
    assert ids[..|ids|] == ids;
    for i := |ids| downto 0
      invariant r + Lookup(checkpoints, ids[..i]) == Lookup(checkpoints, ids)
    {
      assert ids[..i + 1][..i] == ids[..i];
      if ids[i] in checkpoints {
        r := r + [checkpoints[ids[i]]];
      }
    }
  }

  // ---- The checkpointer ----

  /** The log at some moment, and whether the maps stood for it. */
  datatype Snapshot = Snapshot(log: Log, valid: bool)

  class MemoryCheckpointer {
    var checkpoints: map<string, Checkpoint>
    var threads: map<string, seq<string>>
    ghost var log: Log

    ghost function State(): Store
      reads this
    {
      Store(checkpoints, threads)
    }

    /** The log tells the whole truth about the two maps. */
    ghost predicate Valid()
      reads this
    {
      Represents(State(), log)
    }

    ghost function Now(): Snapshot
      reads this
    {
      Snapshot(log, Valid())
    }

    constructor ()
      ensures Valid() && log == []
    {
      checkpoints := map[];
      threads := map[];
      log := [];
    }

    method SaveCheckpoint(c: Checkpoint)
      modifies this
      ensures State() == Save(old(State()), c) && log == old(log) + [c]
      ensures old(Valid()) ==> (Valid() <==> Savable(old(log), c))
    {
      var ids := if c.threadId in threads then threads[c.threadId] else [];
      checkpoints := checkpoints[c.id := c];
      threads := threads[c.threadId := ids + [c.id]];
      log := log + [c];
      if old(Valid()) {
        SaveRefines(old(State()), old(log), c);
      }
    }

    method LoadLatest(t: string) returns (r: Option<Checkpoint>)
      ensures r == Load(State(), t)
      ensures Valid() ==> r == if OfThread(log, t) == [] then None else Some(Reverse(OfThread(log, t))[0])
    {
      if Valid() {
        QueriesAnswer(State(), log, t);
      }
      if t !in threads {
        return None;
      }
      var ids := threads[t];
      if |ids| == 0 {
        return None;
      }
      var latest := ids[|ids| - 1];
      return if latest in checkpoints then Some(checkpoints[latest]) else None;
    }

    method LoadCheckpoint(id: string) returns (r: Option<Checkpoint>)
      ensures r == LoadById(State(), id)
    {
      return if id in checkpoints then Some(checkpoints[id]) else None;
    }

    method ListThread(t: string) returns (r: seq<Checkpoint>)
      ensures r == List(State(), t)
      ensures Valid() ==> r == Reverse(OfThread(log, t))
    {
      if Valid() {
        QueriesAnswer(State(), log, t);
      }
      if t !in threads {
        return [];
      }
      r := LookupAll(checkpoints, threads[t]);
    }

    /** The newest `limit` checkpoints of a thread. */
    method History(t: string, limit: nat) returns (r: seq<Checkpoint>)
      ensures r <= List(State(), t) && |r| == if limit < |List(State(), t)| then limit else |List(State(), t)|
    {
      r := ListThread(t);
      if limit < |r| {
        r := r[..limit];
      }
    }

    method DeleteCheckpoint(id: string)
      modifies this
      ensures State() == Delete(old(State()), id) && log == WithoutId(old(log), id)
      ensures old(Valid()) ==> Valid()
    {
      log := WithoutId(log, id);
      if id in checkpoints {
        var t := checkpoints[id].threadId;
        checkpoints := checkpoints - {id};
        if t in threads {
          var kept := Kept(threads[t], id);
          threads := threads[t := kept];
        }
      }
      if old(Valid()) {
        DeleteRefines(old(State()), old(log), id);
      }
    }

    method DeleteWholeThread(t: string)
      modifies this
      ensures State() == DeleteThread(old(State()), t) && log == WithoutThread(old(log), t)
      ensures old(Valid()) ==> Valid()
    {
      log := WithoutThread(log, t);
      var ids := if t in threads then threads[t] else [];
      threads := threads - {t};
      for i := 0 to |ids|
        invariant checkpoints == old(checkpoints) - (set id | id in ids[..i])
        invariant threads == old(threads) - {t} && log == WithoutThread(old(log), t)
      {
        checkpoints := checkpoints - {ids[i]};
        assert ids[..i + 1] == ids[..i] + [ids[i]];
      }
      assert ids[..|ids|] == ids;
      if old(Valid()) {
        DeleteThreadRefines(old(State()), old(log), t);
      }
    }
  }

  method Kept(ids: seq<string>, id: string) returns (r: seq<string>)
    ensures r == Retain(ids, id)
  {
    r := [];
    for i := 0 to |ids|
      invariant r + Retain(ids[i..], id) == Retain(ids, id)
    {
      assert ids[i..][1..] == ids[i + 1..];
      if ids[i] != id {
        r := r + [ids[i]];
      }
    }
  }
}
