/** Core/Memory/provider.go: one byte and record budget shared by any number of payload
    readers, each of which reserves before it reads and settles afterwards. */
module TransferBudget {
  import opened Common

  const WORD := 0x1_0000_0000_0000_0000
  const MAX_INT := 0x7fff_ffff_ffff_ffff

  type Uint64 = x: int | 0 <= x < WORD

  /** The unsigned arithmetic of the code wraps around. */
  function Add(a: Uint64, b: Uint64): Uint64 { (a + b) % WORD }
  function Sub(a: Uint64, b: Uint64): Uint64 { (a - b) % WORD }

  datatype Budget = Budget(maxRecords: Uint64, maxBytes: Uint64, records: Uint64, bytes: Uint64)

  // ----- the critical sections

  predicate Admits(b: Budget, size: Uint64) {
    b.records != b.maxRecords && size <= Sub(b.maxBytes, b.bytes)
  }

  function Admit(b: Budget, size: Uint64): Budget {
    if Admits(b, size) then b.(records := Add(b.records, 1), bytes := Add(b.bytes, size)) else b
  }

  /** How much of a buffer a reader may fill; none when the budget is spent, and then the
      reader only probes for the end of the payload. */
  function Reservation(b: Budget, len: Uint64): Option<Uint64> {
    var remaining := Sub(b.maxBytes, b.bytes);
    if remaining == 0 then None else Some(if len > remaining then remaining else len)
  }

  function Reserve(b: Budget, len: Uint64): Budget {
    match Reservation(b, len)
    case None => b
    case Some(reserved) => b.(bytes := Add(b.bytes, reserved))
  }

  /** What a read of `n` bytes into `reserved` hands on: an impossible count counts as nothing. */
  function Handed(reserved: Uint64, n: int): Uint64 {
    if 0 <= n <= reserved then n else 0
  }

  function Settle(b: Budget, reserved: Uint64, n: int): Budget {
    b.(bytes := Sub(b.bytes, if 0 <= n <= reserved then Sub(reserved, n) else reserved))
  }

  // ----- every interleaving

  /** `active` are the reads in progress with what each reserved. The last three fields are
      history: records admitted, their envelope bytes, payload bytes handed to callers. */
  datatype Machine = Machine(budget: Budget, active: map<nat, Uint64>, admitted: nat, envelopes: nat, delivered: nat)

  datatype Event =
    | Admission(size: Uint64)
    | Begin(id: nat, len: Uint64)
    | End(id: nat, n: int)

  /** Sizes and buffer lengths are lengths of slices. */
  predicate Enabled(m: Machine, ev: Event) {
    match ev
    case Admission(size) => size <= MAX_INT
    case Begin(id, len) => len <= MAX_INT && id !in m.active
    case End(id, n) => id in m.active
  }

  function Next(m: Machine, ev: Event): Machine
    requires Enabled(m, ev)
  {
    match ev
    case Admission(size) =>
      if Admits(m.budget, size)
      then m.(budget := Admit(m.budget, size), admitted := m.admitted + 1, envelopes := m.envelopes + size)
      else m
    case Begin(id, len) =>
      match Reservation(m.budget, len) {
        case None => m
        case Some(reserved) => m.(budget := Reserve(m.budget, len), active := m.active[id := reserved])
      }
    case End(id, n) =>
      m.(budget := Settle(m.budget, m.active[id], n), active := m.active - {id},
         delivered := m.delivered + Handed(m.active[id], n))
  }

  predicate IsRun(m: Machine, evs: seq<Event>)
    decreases |evs|
  {
    evs == [] || (Enabled(m, evs[0]) && IsRun(Next(m, evs[0]), evs[1..]))
  }

  function Run(m: Machine, evs: seq<Event>): Machine
    requires IsRun(m, evs)
    decreases |evs|
  {
    if evs == [] then m else Run(Next(m, evs[0]), evs[1..])
  }

  function Start(maxRecords: Uint64, maxBytes: Uint64): Machine {
    Machine(Budget(maxRecords, maxBytes, 0, 0), map[], 0, 0, 0)
  }

  // ----- conservation

  ghost function Reserved(active: map<nat, Uint64>): nat {
    if active == map[] then 0
    else
      var id :| id in active;
      active[id] + Reserved(active - {id})
  }

  lemma {:induction false} ReservedRemove(active: map<nat, Uint64>, id: nat)
    requires id in active
    ensures Reserved(active) == active[id] + Reserved(active - {id})
    decreases |active|
  {
    var first :| first in active && Reserved(active) == active[first] + Reserved(active - {first});
    if first != id {
      ReservedRemove(active - {first}, id);
      ReservedRemove(active - {id}, first);
      assert active - {first} - {id} == active - {id} - {first};
    }
  }

  lemma ReservedAdd(active: map<nat, Uint64>, id: nat, reserved: Uint64)
    requires id !in active
    ensures Reserved(active[id := reserved]) == Reserved(active) + reserved
  {
    ReservedRemove(active[id := reserved], id);
    assert active[id := reserved] - {id} == active;
  }

  /** Bytes charged are envelopes admitted, payload handed out and payload reserved. */
  ghost predicate Conserved(m: Machine) {
    && m.budget.bytes == m.envelopes + m.delivered + Reserved(m.active) <= m.budget.maxBytes
    && m.budget.records == m.admitted <= m.budget.maxRecords
  }

  /** No addition or subtraction of the step wraps around. */
  ghost predicate Exact(m: Machine, ev: Event)
    requires Enabled(m, ev)
  {
    var b := m.budget;
    && b.bytes <= b.maxBytes
    && (ev.Admission? && Admits(b, ev.size) ==> b.records + 1 < WORD && b.bytes + ev.size < WORD)
    && (ev.Begin? && Reservation(b, ev.len).Some? ==> b.bytes + Reservation(b, ev.len).value < WORD)
    && (ev.End? ==> Handed(m.active[ev.id], ev.n) <= m.active[ev.id] <= b.bytes)
  }

  lemma AdmissionConserves(m: Machine, size: Uint64)
    requires Conserved(m) && Enabled(m, Admission(size))
    ensures Conserved(Next(m, Admission(size))) && Exact(m, Admission(size))
  {
    assert Sub(m.budget.maxBytes, m.budget.bytes) == m.budget.maxBytes - m.budget.bytes;
  }

  lemma BeginConserves(m: Machine, id: nat, len: Uint64)
    requires Conserved(m) && Enabled(m, Begin(id, len))
    ensures Conserved(Next(m, Begin(id, len))) && Exact(m, Begin(id, len))
  {
    assert Sub(m.budget.maxBytes, m.budget.bytes) == m.budget.maxBytes - m.budget.bytes;
    if Reservation(m.budget, len).Some? {
      ReservedAdd(m.active, id, Reservation(m.budget, len).value);
    }
  }

  lemma EndConserves(m: Machine, id: nat, n: int)
    requires Conserved(m) && Enabled(m, End(id, n))
    ensures Conserved(Next(m, End(id, n))) && Exact(m, End(id, n))
  {
    ReservedRemove(m.active, id);
    SettleExact(m.budget, m.active[id], n);
  }

  lemma SettleExact(b: Budget, reserved: Uint64, n: int)
    requires reserved <= b.bytes
    ensures Settle(b, reserved, n).bytes == b.bytes - reserved + Handed(reserved, n)
  {
  }

  lemma NextConserves(m: Machine, ev: Event)
    requires Conserved(m) && Enabled(m, ev)
    ensures Conserved(Next(m, ev)) && Exact(m, ev)
  {
    match ev
    case Admission(size) => AdmissionConserves(m, size);
    case Begin(id, len) => BeginConserves(m, id, len);
    case End(id, n) => EndConserves(m, id, n);
  }

  lemma {:induction false} RunConserves(m: Machine, evs: seq<Event>)
    requires Conserved(m) && IsRun(m, evs)
    ensures Conserved(Run(m, evs))
    ensures Run(m, evs).budget.maxBytes == m.budget.maxBytes && Run(m, evs).budget.maxRecords == m.budget.maxRecords
    decreases |evs|
  {
    if evs != [] {
      NextConserves(m, evs[0]);
      RunConserves(Next(m, evs[0]), evs[1..]);
    }
  }

  /** Whatever the readers do, neither limit is passed, and whatever the next step is, its
      arithmetic is exact. */
  lemma LimitsHold(maxRecords: Uint64, maxBytes: Uint64, evs: seq<Event>, ev: Event)
    requires IsRun(Start(maxRecords, maxBytes), evs)
    requires Enabled(Run(Start(maxRecords, maxBytes), evs), ev)
    ensures var m := Run(Start(maxRecords, maxBytes), evs);
            && m.budget.records <= maxRecords && m.budget.bytes <= maxBytes
            && m.envelopes + m.delivered <= maxBytes && m.admitted <= maxRecords
            && Exact(m, ev)
  {
    RunConserves(Start(maxRecords, maxBytes), evs);
    NextConserves(Run(Start(maxRecords, maxBytes), evs), ev);
  }

  /** With no read in progress, the count is exactly what was used. */
  lemma QuietCountIsExact(maxRecords: Uint64, maxBytes: Uint64, evs: seq<Event>)
    requires IsRun(Start(maxRecords, maxBytes), evs)
    requires Run(Start(maxRecords, maxBytes), evs).active == map[]
    ensures var m := Run(Start(maxRecords, maxBytes), evs);
            m.budget.bytes == m.envelopes + m.delivered && m.budget.records == m.admitted
  {
    RunConserves(Start(maxRecords, maxBytes), evs);
  }

  /** Nothing is refused that fits: an admission is turned away only at the record limit or
      when the envelope exceeds what is left, and a read gets its whole buffer or all of
      what is left. */
  lemma RefusedOnlyWhenFull(m: Machine, size: Uint64, len: Uint64)
    requires Conserved(m) && size <= MAX_INT && len <= MAX_INT
    ensures Admits(m.budget, size) <==>
              m.admitted < m.budget.maxRecords && m.envelopes + m.delivered + Reserved(m.active) + size <= m.budget.maxBytes
    ensures var left := m.budget.maxBytes - (m.envelopes + m.delivered + Reserved(m.active));
            Reservation(m.budget, len) == if left == 0 then None else Some(if len > left then left else len)
  {
  }

  // ----- the code

  class SharedBudget {
    const maxRecords: Uint64
    const maxBytes: Uint64
    var records: Uint64
    var bytes: Uint64

    ghost function State(): Budget
      reads this
    {
      Budget(maxRecords, maxBytes, records, bytes)
    }

    constructor (maxRecords: Uint64, maxBytes: Uint64)
      ensures State() == Start(maxRecords, maxBytes).budget
    {
      this.maxRecords, this.maxBytes := maxRecords, maxBytes;
      records, bytes := 0, 0;
    }

    /** A budget of nothing is refused. */
    static method Make(maxRecords: Uint64, maxBytes: Uint64) returns (budget: SharedBudget?)
      ensures budget == null <==> maxRecords == 0 || maxBytes == 0
      ensures budget != null ==> fresh(budget) && budget.State() == Start(maxRecords, maxBytes).budget
    {
      if maxRecords == 0 || maxBytes == 0 {
        return null;
      }
      budget := new SharedBudget(maxRecords, maxBytes);
    }

    /** Under the limit, asked before a record is pulled: the answer is no exactly when no
        record, whatever its size, could be admitted. */
    method HasRecordCapacity() returns (ok: bool)
      ensures records <= maxRecords ==> (ok <==> exists size: Uint64 :: Admits(State(), size))
    {
      ok := records < maxRecords;
      assert records != maxRecords ==> Admits(State(), 0);
    }

    method AdmitTransfer(size: Uint64) returns (ok: bool)
      modifies this
      ensures ok == Admits(old(State()), size) && State() == Admit(old(State()), size)
    {
      if records == maxRecords || size > Sub(maxBytes, bytes) {
        return false;
      }
      records := Add(records, 1);
      bytes := Add(bytes, size);
      return true;
    }

    method ReserveBytes(len: Uint64) returns (reserved: Option<Uint64>)
      modifies `bytes
      ensures reserved == Reservation(old(State()), len) && State() == Reserve(old(State()), len)
    {
      var remaining := Sub(maxBytes, bytes);
      if remaining == 0 {
        return None;
      }
      var take := len;
      if take > remaining {
        take := remaining;
      }
      bytes := Add(bytes, take);
      return Some(take);
    }

    method SettleBytes(reserved: Uint64, n: int) returns (handed: Uint64)
      modifies `bytes
      ensures handed == Handed(reserved, n) && State() == Settle(old(State()), reserved, n)
    {
      if n < 0 || n > reserved {
        bytes := Sub(bytes, reserved);
        return 0;
      }
      bytes := Sub(bytes, Sub(reserved, n));
      return n;
    }
  }
}
