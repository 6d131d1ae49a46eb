/** The kernel's handle table (src/xbox_krnl.cpp): a vector of slots and a stack of free ones. */
module Handles {

  datatype Option<T> = None | Some(value: T)

  datatype Table<T> = Table(objects: seq<Option<T>>, free: seq<nat>)

  function Empty<T>(): Table<T> {
    Table([], [])
  }

  function HandleOf(slot: nat): nat {
    4 * (slot + 1)
  }

  /** find_object_by_handle. */
  function Find<T>(t: Table<T>, handle: nat): Option<T> {
    if handle == 0 || handle % 4 != 0 then None
    else if handle / 4 - 1 >= |t.objects| then None
    else t.objects[handle / 4 - 1]
  }

  predicate FreeInRange<T>(t: Table<T>) {
    forall i :: 0 <= i < |t.free| ==> t.free[i] < |t.objects| && t.objects[t.free[i]].None?
  }

  /** insert_object: the slot freed last is used first. */
  function Insert<T>(t: Table<T>, value: T): (Table<T>, nat)
    requires FreeInRange(t)
  {
    if t.free != [] then
      var slot := t.free[|t.free| - 1];
      (Table(t.objects[slot := Some(value)], t.free[..|t.free| - 1]), HandleOf(slot))
    else (Table(t.objects + [Some(value)], []), HandleOf(|t.objects|))
  }

  /** NtClose. */
  function Close<T>(t: Table<T>, handle: nat): (Table<T>, bool) {
    if Find(t, handle).None? then (t, false)
    else (Table(t.objects[handle / 4 - 1 := None], t.free + [handle / 4 - 1]), true)
  }

  // ---------------------------------------------------------------------
  // The table is a finite map

  /** The free list names each empty slot exactly once and nothing else. */
  ghost predicate Inv<T>(t: Table<T>) {
    && (forall i, j :: 0 <= i < j < |t.free| ==> t.free[i] != t.free[j])
    && FreeInRange(t)
    && (forall s :: 0 <= s < |t.objects| && t.objects[s].None? ==> s in t.free)
  }

  /** The reference: live handles and what they name. */
  ghost function Abs<T>(t: Table<T>): map<nat, T> {
    map h: nat | h in LiveHandles(t) :: Find(t, h).value
  }

  function LiveHandles<T>(t: Table<T>): (r: set<nat>)
    ensures forall h: nat :: h in r <==> Find(t, h).Some?
  {
    HandleRange(|t.objects|, t)
  }

  function HandleRange<T>(n: nat, t: Table<T>): (r: set<nat>)
    requires n <= |t.objects|
    ensures forall h: nat :: h in r <==> Find(t, h).Some? && h <= 4 * n
  {
    if n == 0 then {}
    else
      HandleIsSlot(n);
      HandleRange(n - 1, t) + if t.objects[n - 1].Some? then {4 * n} else {}
  }

  /** The handles above 4 * (n - 1) and up to 4 * n that are multiples of 4: one. */
  lemma HandleIsSlot(n: nat)
    requires n > 0
    ensures (4 * n) % 4 == 0 && (4 * n) / 4 == n
    ensures forall h: nat :: 4 * (n - 1) < h <= 4 * n && h % 4 == 0 ==> h == 4 * n
  {
    forall h: nat | 4 * (n - 1) < h <= 4 * n && h % 4 == 0 ensures h == 4 * n {
      assert h == 4 * (h / 4);
    }
  }

  lemma FindSlot<T>(t: Table<T>, handle: nat)
    ensures Find(t, handle).Some? ==> handle == HandleOf(handle / 4 - 1) && 0 <= handle / 4 - 1 < |t.objects|
    ensures forall s: nat :: s < |t.objects| ==> Find(t, HandleOf(s)) == t.objects[s]
  {
    forall s: nat | s < |t.objects| ensures Find(t, HandleOf(s)) == t.objects[s] {
      HandleIsSlot(s + 1);
    }
  }

  /** Insertion adds one binding, under a handle that was not live: a nonzero multiple of 4. */
  lemma InsertRefines<T>(t: Table<T>, value: T)
    requires Inv(t)
    ensures var (t', h) := Insert(t, value);
            Inv(t') && h != 0 && h % 4 == 0 && Find(t, h).None? && Find(t', h) == Some(value)
            && forall g: nat :: g != h ==> Find(t', g) == Find(t, g)
  {
    var (t', h) := Insert(t, value);
    InsertBinds(t, value);
    forall g: nat | g != h ensures Find(t', g) == Find(t, g) {
      InsertSpares(t, value, g);
    }
    InsertFree(t, value);
  }

  /** The slot a create uses. */
  function NewSlot<T>(t: Table<T>): nat {
    if t.free != [] then t.free[|t.free| - 1] else |t.objects|
  }

  lemma InsertBinds<T>(t: Table<T>, value: T)
    requires FreeInRange(t)
    ensures var (t', h) := Insert(t, value);
            h == HandleOf(NewSlot(t)) && h != 0 && h % 4 == 0 && Find(t, h).None? && Find(t', h) == Some(value)
  {
    assert t.free != [] ==> NewSlot(t) in t.free;
    HandleIsSlot(NewSlot(t) + 1);
  }

  lemma InsertSpares<T>(t: Table<T>, value: T, g: nat)
    requires FreeInRange(t) && g != Insert(t, value).1
    ensures Find(Insert(t, value).0, g) == Find(t, g)
  {
    assert t.free != [] ==> NewSlot(t) in t.free;
    HandleIsSlot(NewSlot(t) + 1);
    OtherSlot(g, HandleOf(NewSlot(t)));
  }

  lemma InsertFree<T>(t: Table<T>, value: T)
    requires Inv(t)
    ensures Inv(Insert(t, value).0)
  {
    var t' := Insert(t, value).0;
    if t.free != [] {
      forall s | 0 <= s < |t'.objects| && t'.objects[s].None? ensures s in t'.free {
        var i :| 0 <= i < |t.free| && t.free[i] == s;
        assert t'.free[i] == s;
      }
    }
  }

  /** Closing removes exactly that binding, and refuses a handle that names nothing. */
  lemma CloseRefines<T>(t: Table<T>, handle: nat)
    requires Inv(t)
    ensures var (t', ok) := Close(t, handle);
            Inv(t') && (ok <==> Find(t, handle).Some?) && Find(t', handle).None?
            && forall g: nat :: g != handle ==> Find(t', g) == Find(t, g)
  {
    var (t', ok) := Close(t, handle);
    if ok {
      CloseFree(t, handle);
      FindSlot(t, handle);
      hide Inv;
      forall g: nat | g != handle ensures Find(t', g) == Find(t, g) {
        OtherSlot(g, handle);
      }
    }
  }

  /** Different handles that can name a slot name different ones. */
  lemma OtherSlot(g: nat, h: nat)
    requires g != h
    ensures g % 4 == 0 && h % 4 == 0 ==> g / 4 != h / 4
  {
    assert g == 4 * (g / 4) + g % 4;
    assert h == 4 * (h / 4) + h % 4;
  }

  lemma CloseFree<T>(t: Table<T>, handle: nat)
    requires Inv(t) && Find(t, handle).Some?
    ensures Inv(Close(t, handle).0)
  {
    hide Inv;
    var slot := handle / 4 - 1;
    FindSlot(t, handle);
    EmptySlot(t, slot);
    assert Close(t, handle).0 == Table(t.objects[slot := None], t.free + [slot]);
  }

  lemma EmptySlot<T>(t: Table<T>, slot: nat)
    requires Inv(t) && slot < |t.objects| && t.objects[slot].Some?
    ensures Inv(Table(t.objects[slot := None], t.free + [slot]))
  {
    var t' := Table(t.objects[slot := None], t.free + [slot]);
    assert forall i :: 0 <= i < |t.free| ==> t.free[i] != slot;
    forall s | 0 <= s < |t'.objects| && t'.objects[s].None? ensures s in t'.free {
      if s != slot {
        assert t.objects[s].None?;
      }
    }
  }

  // ---------------------------------------------------------------------
  // Sequences of creates and closes

  datatype Op<T> = Create(value: T) | Shut(handle: nat)

  function Do<T>(t: Table<T>, op: Op<T>): Table<T>
    requires FreeInRange(t)
  {
    match op
    case Create(v) => Insert(t, v).0
    case Shut(h) => Close(t, h).0
  }

  /** The same operation on the reference map; `handle` is the one a create returned. */
  function DoMap<T>(m: map<nat, T>, op: Op<T>, handle: nat): map<nat, T> {
    match op
    case Create(v) => m[handle := v]
    case Shut(h) => m - {h}
  }

  ghost predicate RunsTo<T>(t: Table<T>, ops: seq<Op<T>>, t': Table<T>)
    decreases |ops|
  {
    Inv(t) && if ops == [] then t' == t else RunsTo(Do(t, ops[0]), ops[1..], t')
  }

  /** One operation of the table is the same operation of the map. */
  lemma DoRefines<T>(t: Table<T>, op: Op<T>)
    requires Inv(t)
    ensures Inv(Do(t, op))
    ensures Abs(Do(t, op)) == DoMap(Abs(t), op, if op.Create? then Insert(t, op.value).1 else 0)
  {
    hide Find, Insert, Close, Inv;
    match op
    case Create(v) => InsertRefines(t, v);
    case Shut(h) => CloseRefines(t, h);
  }

  /** The handles that a sequence of operations returns; 0 for a close. */
  ghost function Issued<T>(t: Table<T>, ops: seq<Op<T>>): (hs: seq<nat>)
    requires Inv(t)
    ensures |hs| == |ops|
    decreases |ops|
  {
    if ops == [] then []
    else
      DoRefines(t, ops[0]);
      [if ops[0].Create? then Insert(t, ops[0].value).1 else 0] + Issued(Do(t, ops[0]), ops[1..])
  }

  /** The reference: the operations on a map, one after the other. */
  function DoAll<T>(m: map<nat, T>, ops: seq<Op<T>>, handles: seq<nat>): map<nat, T>
    requires |handles| == |ops|
    decreases |ops|
  {
    if ops == [] then m else DoAll(DoMap(m, ops[0], handles[0]), ops[1..], handles[1..])
  }

  /** Every handle that a create returns is a nonzero multiple of 4 that names nothing then. */
  predicate AllFresh<T>(m: map<nat, T>, ops: seq<Op<T>>, handles: seq<nat>)
    requires |handles| == |ops|
    decreases |ops|
  {
    ops != [] ==>
      && (ops[0].Create? ==> handles[0] != 0 && handles[0] % 4 == 0 && handles[0] !in m)
      && AllFresh(DoMap(m, ops[0], handles[0]), ops[1..], handles[1..])
  }

  /** A whole sequence on the table is the same sequence on the map, with fresh handles throughout. */
  lemma {:induction false} SequenceRefines<T>(t: Table<T>, ops: seq<Op<T>>, t': Table<T>)
    requires RunsTo(t, ops, t')
    ensures Abs(t') == DoAll(Abs(t), ops, Issued(t, ops)) && AllFresh(Abs(t), ops, Issued(t, ops))
    decreases |ops|
  {
    hide Find, Insert, Close;
    if ops != [] {
      DoRefines(t, ops[0]);
      if ops[0].Create? {
        InsertRefines(t, ops[0].value);
      }
      SequenceRefines(Do(t, ops[0]), ops[1..], t');
      assert Issued(t, ops)[1..] == Issued(Do(t, ops[0]), ops[1..]);
    }
  }

  /** Every sequence runs: the free list never goes wrong. */
  lemma {:induction false} EverySequenceRuns<T>(t: Table<T>, ops: seq<Op<T>>) returns (t': Table<T>)
    requires Inv(t)
    ensures RunsTo(t, ops, t') && Inv(t')
    decreases |ops|
  {
    if ops == [] {
      t' := t;
    } else {
      DoRefines(t, ops[0]);
      t' := EverySequenceRuns(Do(t, ops[0]), ops[1..]);
    }
  }

  /** No create of the sequence is answered with this handle. */
  ghost predicate NeverIssues<T>(t: Table<T>, ops: seq<Op<T>>, handle: nat)
    requires Inv(t)
    decreases |ops|
  {
    ops != [] ==>
      && (ops[0].Create? ==> Insert(t, ops[0].value).1 != handle)
      && Inv(Do(t, ops[0])) && NeverIssues(Do(t, ops[0]), ops[1..], handle)
  }

  /** A handle that names nothing, as after a close, names nothing until a create returns it again. */
  lemma {:induction false} DeadUntilReissued<T>(t: Table<T>, ops: seq<Op<T>>, t': Table<T>, handle: nat)
    requires RunsTo(t, ops, t') && Find(t, handle).None? && NeverIssues(t, ops, handle)
    ensures Find(t', handle).None?
    decreases |ops|
  {
    if ops != [] {
      match ops[0] {
        case Create(v) => InsertRefines(t, v);
        case Shut(h) => CloseRefines(t, h);
      }
      DeadUntilReissued(Do(t, ops[0]), ops[1..], t', handle);
    }
  }

  // ---------------------------------------------------------------------
  // The object

  class HandleTable<T> {
    var objects: seq<Option<T>>
    var free: seq<nat>

    function View(): Table<T>
      reads this
    {
      Table(objects, free)
    }

    constructor ()
      ensures View() == Empty() && Inv(View())
    {
      objects, free := [], [];
    }

    method Lookup(handle: nat) returns (r: Option<T>)
      ensures r == Find(View(), handle)
    {
      if handle == 0 || handle % 4 != 0 {
        return None;
      }
      var index := handle / 4 - 1;
      if index >= |objects| {
        return None;
      }
      return objects[index];
    }

    method InsertObject(value: T) returns (handle: nat)
      requires Inv(View())
      modifies this
      ensures (View(), handle) == Insert(old(View()), value) && Inv(View())
    {
      InsertRefines(View(), value);
      var slot;
      if |free| != 0 {
        slot := free[|free| - 1];
        free := free[..|free| - 1];
        objects := objects[slot := Some(value)];
      } else {
        slot := |objects|;
        objects := objects + [Some(value)];
      }
      return 4 * (slot + 1);
    }

    method NtClose(handle: nat) returns (ok: bool)
      requires Inv(View())
      modifies this
      ensures (View(), ok) == Close(old(View()), handle) && Inv(View())
    {
      CloseRefines(View(), handle);
      var o := Lookup(handle);
      if o.None? {
        return false;
      }
      var slot := handle / 4 - 1;
      objects := objects[slot := None];
      free := free + [slot];
      return true;
    }
  }
}
