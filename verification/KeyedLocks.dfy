/** Core/Interaction/locks.go: per-key mutual exclusion with reference-counted entries. One
    step is one critical section of the map's mutex or one operation on a token channel. */
module KeyedLocks {
  import opened Common

  /** `token` says whether the one-slot channel holds its token. */
  datatype Entry = Entry(token: bool, refs: int)

  /** `pool` holds every entry ever made, by identity; `entries` is the map. */
  datatype Table<E(==)> = Table(entries: map<string, E>, pool: map<E, Entry>)

  // ----- the steps

  /** The first critical section of acquire: find or make the entry, and count in. */
  function Enter<E>(t: Table<E>, key: string, made: E): Table<E>
    requires key in t.entries ==> t.entries[key] in t.pool
  {
    if key in t.entries then
      var e := t.entries[key];
      t.(pool := t.pool[e := t.pool[e].(refs := t.pool[e].refs + 1)])
    else Table(t.entries[key := made], t.pool[made := Entry(true, 1)])
  }

  function SetToken<E>(t: Table<E>, e: E, token: bool): Table<E>
    requires e in t.pool
  {
    t.(pool := t.pool[e := t.pool[e].(token := token)])
  }

  /** drop: count out, and remove the entry with its last reference. */
  function Drop<E>(t: Table<E>, key: string, e: E): Table<E>
    requires e in t.pool
  {
    var refs := t.pool[e].refs - 1;
    Table(
      if refs == 0 && key in t.entries && t.entries[key] == e then t.entries - {key} else t.entries,
      t.pool[e := t.pool[e].(refs := refs)])
  }

  /** A caller between entering and having dropped its reference: at the select, holding
      the key, or about to drop after returning the token or being cancelled. */
  datatype Pc<E> =
    | Waiting(key: string, entry: E)
    | Holding(key: string, entry: E)
    | Leaving(key: string, entry: E)

  datatype Machine<E(==)> = Machine(table: Table<E>, callers: map<nat, Pc<E>>)

  datatype Event<E> =
    | Acquire(id: nat, key: string, made: E)
    | Take(id: nat)
    | Cancel(id: nat)
    | Release(id: nat)
    | Dropped(id: nat)

  /** `made` is an entry nobody has seen. Receiving waits for a token, and sending one
      waits for the slot to be free. */
  predicate Enabled<E>(m: Machine<E>, ev: Event<E>) {
    match ev
    case Acquire(id, key, made) =>
      && id !in m.callers && made !in m.table.pool
      && (key in m.table.entries ==> m.table.entries[key] in m.table.pool)
    case Take(id) => At(m, id) && m.callers[id].Waiting? && m.table.pool[m.callers[id].entry].token
    case Cancel(id) => At(m, id) && m.callers[id].Waiting?
    case Release(id) => At(m, id) && m.callers[id].Holding? && !m.table.pool[m.callers[id].entry].token
    case Dropped(id) => At(m, id) && m.callers[id].Leaving?
  }

  predicate At<E>(m: Machine<E>, id: nat) {
    id in m.callers && m.callers[id].entry in m.table.pool
  }

  function Next<E>(m: Machine<E>, ev: Event<E>): Machine<E>
    requires Enabled(m, ev)
  {
    match ev
    case Acquire(id, key, made) =>
      var table := Enter(m.table, key, made);
      Machine(table, m.callers[id := Waiting(key, table.entries[key])])
    case Take(id) =>
      var pc := m.callers[id];
      Machine(SetToken(m.table, pc.entry, false), m.callers[id := Holding(pc.key, pc.entry)])
    case Cancel(id) =>
      var pc := m.callers[id];
      m.(callers := m.callers[id := Leaving(pc.key, pc.entry)])
    case Release(id) =>
      var pc := m.callers[id];
      Machine(SetToken(m.table, pc.entry, true), m.callers[id := Leaving(pc.key, pc.entry)])
    case Dropped(id) =>
      var pc := m.callers[id];
      Machine(Drop(m.table, pc.key, pc.entry), m.callers - {id})
  }

  function Start<E>(): Machine<E> {
    Machine(Table(map[], map[]), map[])
  }

  predicate IsRun<E>(m: Machine<E>, evs: seq<Event<E>>)
    decreases |evs|
  {
    evs == [] || (Enabled(m, evs[0]) && IsRun(Next(m, evs[0]), evs[1..]))
  }

  function Run<E>(m: Machine<E>, evs: seq<Event<E>>): Machine<E>
    requires IsRun(m, evs)
    decreases |evs|
  {
    if evs == [] then m else Run(Next(m, evs[0]), evs[1..])
  }

  // ----- the invariant

  function Users<E(==)>(callers: map<nat, Pc<E>>, e: E): set<nat> {
    set id | id in callers && callers[id].entry == e
  }

  function Holders<E(==)>(callers: map<nat, Pc<E>>, e: E): set<nat> {
    set id | id in callers && callers[id].entry == e && callers[id].Holding?
  }

  predicate Counted<E(==)>(entry: Entry, callers: map<nat, Pc<E>>, e: E) {
    entry.refs == |Users(callers, e)| && |Holders(callers, e)| == if entry.token then 0 else 1
  }

  /** Every entry counts its users, and its token accounts for its holder. */
  predicate CountsOk<E>(pool: map<E, Entry>, callers: map<nat, Pc<E>>) {
    forall e :: e in pool ==> Counted(pool[e], callers, e)
  }

  /** The map leads to exactly the entries in use, each under the key its users asked for. */
  predicate MapOk<E>(t: Table<E>, callers: map<nat, Pc<E>>) {
    && (forall id :: id in callers ==>
          callers[id].entry in t.pool && callers[id].key in t.entries && t.entries[callers[id].key] == callers[id].entry)
    && (forall key :: key in t.entries ==> t.entries[key] in t.pool && t.pool[t.entries[key]].refs > 0)
    && (forall a, b :: a in t.entries && b in t.entries && t.entries[a] == t.entries[b] ==> a == b)
  }

  predicate Inv<E>(m: Machine<E>) {
    CountsOk(m.table.pool, m.callers) && MapOk(m.table, m.callers)
  }

  /** A caller arrives, moves or leaves: what that does to the two sets of any entry. */
  lemma CallerSet<E>(callers: map<nat, Pc<E>>, id: nat, pc: Pc<E>, e: E)
    ensures var after := callers[id := pc];
            && Users(after, e) == (if pc.entry == e then Users(callers, e) + {id} else Users(callers, e) - {id})
            && Holders(after, e) ==
               (if pc.entry == e && pc.Holding? then Holders(callers, e) + {id} else Holders(callers, e) - {id})
  {
  }

  lemma CallerGone<E>(callers: map<nat, Pc<E>>, id: nat, e: E)
    ensures Users(callers - {id}, e) == Users(callers, e) - {id}
    ensures Holders(callers - {id}, e) == Holders(callers, e) - {id}
  {
  }

  lemma CountedEnter<E>(pool: map<E, Entry>, callers: map<nat, Pc<E>>, id: nat, pc: Pc<E>, e: E)
    requires CountsOk(pool, callers) && id !in callers && pc.Waiting?
    requires forall other :: other in callers ==> callers[other].entry in pool
    ensures var was := if e in pool then pool[e] else Entry(true, 0);
            Counted(if e == pc.entry then was.(refs := was.refs + 1) else was, callers[id := pc], e)
  {
    CallerSet(callers, id, pc, e);
    if e in pool {
      assert Counted(pool[e], callers, e);
    } else {
      assert Users(callers, e) == {} && Holders(callers, e) == {};
    }
  }

  lemma CountsEnter<E>(pool: map<E, Entry>, callers: map<nat, Pc<E>>, id: nat, pc: Pc<E>)
    requires CountsOk(pool, callers) && id !in callers && pc.Waiting?
    requires forall other :: other in callers ==> callers[other].entry in pool
    ensures var e := pc.entry;
            CountsOk(pool[e := if e in pool then pool[e].(refs := pool[e].refs + 1) else Entry(true, 1)], callers[id := pc])
  {
    var made := pc.entry;
    var pool' := pool[made := if made in pool then pool[made].(refs := pool[made].refs + 1) else Entry(true, 1)];
    forall e | e in pool' ensures Counted(pool'[e], callers[id := pc], e) {
      CountedEnter(pool, callers, id, pc, e);
    }
  }

  /** A caller moves on at its entry, and the token goes along: taken by whoever comes to
      hold, put back by whoever stops holding. */
  lemma CountsMove<E>(pool: map<E, Entry>, callers: map<nat, Pc<E>>, id: nat, pc: Pc<E>, token: bool)
    requires CountsOk(pool, callers) && id in callers && pc.entry == callers[id].entry && pc.entry in pool
    requires var was := pool[pc.entry].token;
             if pc.Holding? then !callers[id].Holding? && was && !token
             else if callers[id].Holding? then !was && token
             else was == token
    ensures CountsOk(pool[pc.entry := pool[pc.entry].(token := token)], callers[id := pc])
  {
    forall e | e in pool
      ensures Counted(if e == pc.entry then pool[e].(token := token) else pool[e], callers[id := pc], e)
    {
      CallerSet(callers, id, pc, e);
      assert Counted(pool[e], callers, e);
      assert e == pc.entry ==> id in Users(callers, e);
      assert e == pc.entry && callers[id].Holding? ==> id in Holders(callers, e);
    }
  }

  lemma CountsDrop<E>(pool: map<E, Entry>, callers: map<nat, Pc<E>>, id: nat)
    requires CountsOk(pool, callers) && id in callers && callers[id].Leaving? && callers[id].entry in pool
    ensures var e := callers[id].entry;
            CountsOk(pool[e := pool[e].(refs := pool[e].refs - 1)], callers - {id})
  {
    forall e | e in pool
      ensures Counted(if e == callers[id].entry then pool[e].(refs := pool[e].refs - 1) else pool[e], callers - {id}, e)
    {
      CallerGone(callers, id, e);
      assert Counted(pool[e], callers, e);
      assert e == callers[id].entry ==> id in Users(callers, e);
    }
  }

  lemma MapEnter<E>(t: Table<E>, callers: map<nat, Pc<E>>, id: nat, key: string, made: E)
    requires MapOk(t, callers) && id !in callers && made !in t.pool
    requires forall e :: e in t.pool ==> t.pool[e].refs >= 0
    ensures var t' := Enter(t, key, made);
            MapOk(t', callers[id := Waiting(key, t'.entries[key])])
  {
  }

  lemma MapDrop<E>(t: Table<E>, callers: map<nat, Pc<E>>, id: nat)
    requires MapOk(t, callers) && id in callers && CountsOk(t.pool, callers)
    requires t.pool[callers[id].entry].refs > 0
    ensures MapOk(Drop(t, callers[id].key, callers[id].entry), callers - {id})
  {
    var pc := callers[id];
    if t.pool[pc.entry].refs == 1 {
      forall other | other in callers && callers[other].entry == pc.entry ensures other == id {
        assert Counted(t.pool[pc.entry], callers, pc.entry);
        if other != id {
          assert {id, other} <= Users(callers, pc.entry);
          NoLarger({id, other}, Users(callers, pc.entry));
        }
      }
    }
  }

  lemma CountsAreCounts<E>(pool: map<E, Entry>, callers: map<nat, Pc<E>>)
    requires CountsOk(pool, callers)
    ensures forall e :: e in pool ==> pool[e].refs >= 0
    ensures forall id :: id in callers && callers[id].entry in pool ==> pool[callers[id].entry].refs > 0
  {
    forall e | e in pool ensures pool[e].refs >= 0 {
      assert Counted(pool[e], callers, e);
    }
    forall id | id in callers && callers[id].entry in pool ensures pool[callers[id].entry].refs > 0 {
      var e := callers[id].entry;
      assert Counted(pool[e], callers, e);
      assert id in Users(callers, e);
    }
  }

  lemma NextKeeps<E>(m: Machine<E>, ev: Event<E>)
    requires Inv(m) && Enabled(m, ev)
    ensures Inv(Next(m, ev))
  {
    CountsAreCounts(m.table.pool, m.callers);
    match ev
    case Acquire(id, key, made) =>
      CountsEnter(m.table.pool, m.callers, id, Waiting(key, Enter(m.table, key, made).entries[key]));
      MapEnter(m.table, m.callers, id, key, made);
    case Take(id) => CountsMove(m.table.pool, m.callers, id, Holding(m.callers[id].key, m.callers[id].entry), false);
    case Cancel(id) =>
      var pc := m.callers[id];
      var token := m.table.pool[pc.entry].token;
      CountsMove(m.table.pool, m.callers, id, Leaving(pc.key, pc.entry), token);
      assert m.table.pool[pc.entry := m.table.pool[pc.entry].(token := token)] == m.table.pool;
    case Release(id) => CountsMove(m.table.pool, m.callers, id, Leaving(m.callers[id].key, m.callers[id].entry), true);
    case Dropped(id) =>
      CountsDrop(m.table.pool, m.callers, id);
      MapDrop(m.table, m.callers, id);
  }

  lemma {:induction false} RunKeeps<E>(m: Machine<E>, evs: seq<Event<E>>)
    requires Inv(m) && IsRun(m, evs)
    ensures Inv(Run(m, evs))
    decreases |evs|
  {
    if evs != [] {
      NextKeeps(m, evs[0]);
      RunKeeps(Next(m, evs[0]), evs[1..]);
    }
  }

  // ----- what every run guarantees

  /** A key has one holder at most. */
  lemma MutualExclusion<E>(evs: seq<Event<E>>, a: nat, b: nat)
    requires IsRun(Start<E>(), evs)
    requires var m := Run(Start<E>(), evs);
             && a in m.callers && b in m.callers && m.callers[a].Holding? && m.callers[b].Holding?
             && m.callers[a].key == m.callers[b].key
    ensures a == b
  {
    var m := Run(Start<E>(), evs);
    RunKeeps(Start<E>(), evs);
    var e := m.callers[a].entry;
    assert Counted(m.table.pool[e], m.callers, e);
    var holders := Holders(m.callers, e);
    assert a in holders && b in holders;
    if a != b {
      assert {a, b} <= holders;
      NoLarger({a, b}, holders);
    }
  }

  /** Reference counts are exact, entries out of the map have no users, and the map holds
      nothing once nobody is inside. */
  lemma EntriesAreExactlyTheUsed<E>(evs: seq<Event<E>>)
    requires IsRun(Start<E>(), evs)
    ensures var m := Run(Start<E>(), evs);
            && (forall e :: e in m.table.pool ==> m.table.pool[e].refs == |Users(m.callers, e)|)
            && (forall e :: e in m.table.pool && e !in m.table.entries.Values ==> Users(m.callers, e) == {})
            && (forall key :: key in m.table.entries ==> exists id :: id in m.callers && m.callers[id].key == key)
            && (m.callers == map[] ==> m.table.entries == map[])
  {
    var m := Run(Start<E>(), evs);
    RunKeeps(Start<E>(), evs);
    forall e | e in m.table.pool
      ensures m.table.pool[e].refs == |Users(m.callers, e)|
      ensures e !in m.table.entries.Values ==> Users(m.callers, e) == {}
    {
      assert Counted(m.table.pool[e], m.callers, e);
    }
    forall key | key in m.table.entries
      ensures exists id :: id in m.callers && m.callers[id].key == key
    {
      var e := m.table.entries[key];
      assert Counted(m.table.pool[e], m.callers, e);
      var id :| id in Users(m.callers, e);
      assert m.callers[id].key == key;
    }
  }

  /** Returning the token never blocks, drop always finds its own entry in the map, and a
      waiter can take its key exactly when nobody holds it. */
  lemma NothingBlocksButHolders<E>(evs: seq<Event<E>>, id: nat)
    requires IsRun(Start<E>(), evs) && id in Run(Start<E>(), evs).callers
    ensures var m := Run(Start<E>(), evs);
            var pc := m.callers[id];
            && (pc.Holding? ==> Enabled(m, Release(id)))
            && (pc.Leaving? ==> Enabled(m, Dropped(id)))
            && pc.key in m.table.entries && m.table.entries[pc.key] == pc.entry
            && (pc.Waiting? ==> (Enabled(m, Take(id)) <==>
                  forall other :: other in m.callers && m.callers[other].key == pc.key ==> !m.callers[other].Holding?))
  {
    var m := Run(Start<E>(), evs);
    RunKeeps(Start<E>(), evs);
    var pc := m.callers[id];
    var e := pc.entry;
    assert Counted(m.table.pool[e], m.callers, e);
    assert pc.Holding? ==> id in Holders(m.callers, e);
    if other :| other in Holders(m.callers, e) {
      assert m.callers[other].key == pc.key;
    }
    forall other | other in m.callers && m.callers[other].key == pc.key && m.callers[other].Holding?
      ensures other in Holders(m.callers, e)
    {
    }
  }

  // ----- the code, step by step

  class KeyedLock {
    var token: bool
    var refs: int

    constructor ()
      ensures token && refs == 0
    {
      token := true;
      refs := 0;
    }
  }

  /** The shared map. `made` remembers the entries it ever created. */
  class Locks {
    var entries: map<string, KeyedLock>
    ghost var made: set<KeyedLock>

    ghost predicate Valid()
      reads this
    {
      forall key :: key in entries ==> entries[key] in made
    }

    ghost function State(): Table<KeyedLock>
      reads this, made
    {
      Table(entries, map e | e in made :: Entry(e.token, e.refs))
    }

    constructor ()
      ensures Valid() && made == {} && State() == Start<KeyedLock>().table
    {
      entries := map[];
      made := {};
    }

    method CountIn(key: string) returns (entry: KeyedLock)
      requires Valid()
      modifies this, made
      ensures Valid() && made == old(made) + {entry} && fresh(made - old(made))
      ensures State() == Enter(old(State()), key, entry) && entries[key] == entry
      ensures key in old(entries) <==> entry in old(made)
    {
      if key in entries {
        entry := entries[key];
      } else {
        entry := new KeyedLock();
        entries := entries[key := entry];
        made := made + {entry};
      }
      entry.refs := entry.refs + 1;
      assert State().pool == Enter(old(State()), key, entry).pool;
    }

    method TakeToken(entry: KeyedLock)
      requires entry in made && entry.token
      modifies entry
      ensures State() == SetToken(old(State()), entry, false)
    {
      entry.token := false;
      assert State().pool == SetToken(old(State()), entry, false).pool;
    }

    method ReturnToken(entry: KeyedLock)
      requires entry in made && !entry.token
      modifies entry
      ensures State() == SetToken(old(State()), entry, true)
    {
      entry.token := true;
      assert State().pool == SetToken(old(State()), entry, true).pool;
    }

    method CountOut(key: string, entry: KeyedLock)
      requires Valid() && entry in made
      modifies `entries, entry
      ensures Valid() && State() == Drop(old(State()), key, entry)
    {
      entry.refs := entry.refs - 1;
      if entry.refs == 0 && key in entries && entries[key] == entry {
        entries := entries - {key};
      }
      assert State().pool == Drop(old(State()), key, entry).pool;
    }
  }
}
