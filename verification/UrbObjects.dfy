/** `usb::urb` with the arrays it owns: construction, assignment and destruction. */
module UrbObjects {
  import opened Types

  datatype IsoPacket = IsoPacket(offset: nat, length: int, actual: int, status: int)

  /** An URB as a value: what its user sees, wherever the arrays live. */
  datatype UrbValue = UrbValue(header: Urb, bytes: seq<u8>, packets: seq<IsoPacket>)

  /** What `new[]` and `delete[]` did: the arrays ever allocated, those alive, and those freed. */
  class Ledger {
    ghost var made: set<object>
    ghost var live: set<object>
    ghost var freed: seq<object>

    /** Nothing was freed twice, nothing freed is in use, and nothing allocated was lost. */
    ghost predicate Valid()
      reads this
    {
      && (forall i, j :: 0 <= i < j < |freed| ==> freed[i] != freed[j])
      && (forall i :: 0 <= i < |freed| ==> freed[i] !in live)
      && (forall o :: o in made ==> o in live || o in freed)
    }

    constructor ()
      ensures Valid() && made == {} && live == {} && freed == []
    {
      made, live, freed := {}, {}, [];
    }

    ghost method Allocate(o: object)
      requires Valid() && o !in live && o !in freed
      modifies this
      ensures Valid() && made == old(made) + {o} && live == old(live) + {o} && freed == old(freed)
    {
      made, live := made + {o}, live + {o};
    }

    /** `delete[]` may only be given an array that is alive. */
    ghost method Free(o: object)
      requires Valid() && o in live
      modifies this
      ensures Valid() && made == old(made) && live == old(live) - {o} && freed == old(freed) + [o]
    {
      live, freed := live - {o}, freed + [o];
    }
  }

  class UrbObject {
    var header: Urb
    var buffer: array?<u8>
    var packets: array?<IsoPacket>

    ghost predicate WellFormed()
      reads this
    {
      && 0 <= header.bufferLength && 0 <= header.packetCount
      && (if header.bufferLength == 0 then buffer == null else buffer != null && buffer.Length == header.bufferLength)
      && (if header.packetCount == 0 then packets == null else packets != null && packets.Length == header.packetCount)
    }

    ghost function Owned(): set<object>
      reads this
    {
      (if buffer == null then {} else {buffer as object})
      + (if packets == null then {} else {packets as object})
    }

    ghost function View(): UrbValue
      reads this, buffer, packets
    {
      UrbValue(header, if buffer == null then [] else buffer[..], if packets == null then [] else packets[..])
    }

    static method CopyBytes(from: array<u8>) returns (bytes: array<u8>)
      ensures fresh(bytes) && bytes[..] == from[..]
    {
      bytes := new u8[from.Length];
      var i := 0;
      while i < bytes.Length
        invariant 0 <= i <= bytes.Length && bytes[..i] == from[..i]
      {
        bytes[i] := from[i];
        i := i + 1;
      }
    }

    static method CopyPackets(from: array<IsoPacket>) returns (copies: array<IsoPacket>)
      ensures fresh(copies) && copies[..] == from[..]
    {
      copies := new IsoPacket[from.Length](_ => IsoPacket(0, 0, 0, 0));
      var i := 0;
      while i < copies.Length
        invariant 0 <= i <= copies.Length && copies[..i] == from[..i]
      {
        copies[i] := from[i];
        i := i + 1;
      }
    }

    /** _cpy: new arrays with the contents of the other URB's. */
    method Cpy(from: UrbObject, ledger: Ledger)
      requires from.WellFormed() && header == from.header && buffer == null && packets == null && this != from
      requires ledger.Valid()
      modifies this, ledger
      ensures WellFormed() && View() == old(from.View()) && fresh(Owned()) && Owned() !! old(ledger.live)
      ensures ledger.Valid() && ledger.live == old(ledger.live) + Owned() && ledger.freed == old(ledger.freed)
      ensures ledger.made == old(ledger.made) + Owned()
    {
      if header.bufferLength != 0 {
        buffer := CopyBytes(from.buffer);
        ledger.Allocate(buffer);
      }
      if header.packetCount != 0 {
        packets := CopyPackets(from.packets);
        ledger.Allocate(packets);
      }
    }

    /** The copy constructor. */
    constructor Copy(from: UrbObject, ledger: Ledger)
      requires from.WellFormed() && ledger.Valid()
      modifies ledger
      ensures WellFormed() && View() == old(from.View()) && fresh(Owned()) && Owned() !! old(ledger.live)
      ensures ledger.Valid() && ledger.live == old(ledger.live) + Owned() && ledger.freed == old(ledger.freed)
      ensures ledger.made == old(ledger.made) + Owned()
    {
      header, buffer, packets := from.header, null, null;
      new;
      Cpy(from, ledger);
    }

    /** The owning constructor after its checks: the arrays are taken over, not copied. */
    constructor Adopt(header: Urb, buffer: array?<u8>, packets: array?<IsoPacket>)
      ensures this.header == header && this.buffer == buffer && this.packets == packets
    {
      this.header, this.buffer, this.packets := header, buffer, packets;
    }

    /** The owning constructor, null being std::invalid_argument.  It takes any arrays over as they are;
        the URB is well-formed exactly if they have the lengths that its header says. */
    static method Own(header: Urb, buffer: array?<u8>, packets: array?<IsoPacket>) returns (u: UrbObject?)
      ensures u == null <==> header.Own(buffer != null, packets != null) == None
      ensures u != null ==>
        fresh(u) && Some(u.header) == header.Own(buffer != null, packets != null)
        && u.buffer == buffer && u.packets == packets
      ensures u != null ==>
        (u.WellFormed() <==>
          && (if buffer == null then header.bufferLength == 0 else header.bufferLength == buffer.Length)
          && (if packets == null then !header.kind.Iso? || header.packetCount == 0
              else header.packetCount == packets.Length))
    {
      var checked := header.Own(buffer != null, packets != null);
      if checked.None? {
        return null;
      }
      u := new UrbObject.Adopt(checked.value, buffer, packets);
    }

    /** The destructor, and the start of operator=. */
    method FreeArrays(ledger: Ledger)
      requires ledger.Valid() && Owned() <= ledger.live
      modifies ledger
      ensures ledger.Valid() && ledger.live == old(ledger.live) - Owned() && ledger.made == old(ledger.made)
      ensures forall o :: o in ledger.freed <==> o in Owned() || o in old(ledger.freed)
    {
      if buffer != null {
        ledger.Free(buffer);
      }
      if packets != null {
        ledger.Free(packets);
      }
    }

    /** operator= between distinct objects. */
    method Assign(from: UrbObject, ledger: Ledger)
      requires from.WellFormed() && this != from
      requires ledger.Valid() && Owned() <= ledger.live
      modifies this, ledger
      ensures WellFormed() && View() == old(from.View()) && fresh(Owned()) && Owned() !! old(ledger.live)
      ensures ledger.Valid() && ledger.live == old(ledger.live) - old(Owned()) + Owned()
      ensures ledger.made == old(ledger.made) + Owned()
      ensures forall o :: o in ledger.freed <==> o in old(Owned()) || o in old(ledger.freed)
    {
      FreeArrays(ledger);
      header, buffer, packets := from.header, null, null;
      Cpy(from, ledger);
    }
  }

  // ---------- programs with URBs ----------

  /** What a program may do with its URBs.  A write goes through the buffer pointer that
      get_buffer hands out. */
  datatype Op =
    | CopyOf(of: nat)
    | AssignTo(to: nat, from: nat)
    | WriteByte(in_: nat, at: nat, byte: u8)
    | SetStatus(in_: nat, status: int)

  predicate Possible(values: seq<UrbValue>, op: Op) {
    match op
    case CopyOf(of) => of < |values|
    case AssignTo(to, from) => to < |values| && from < |values| && to != from
    case WriteByte(i, at, _) => i < |values| && at < |values[i].bytes|
    case SetStatus(i, _) => i < |values|
  }

  /** The same program on plain values, where nothing can be shared. */
  function Apply(values: seq<UrbValue>, op: Op): seq<UrbValue>
    requires Possible(values, op)
  {
    match op
    case CopyOf(of) => values + [values[of]]
    case AssignTo(to, from) => values[to := values[from]]
    case WriteByte(i, at, byte) => values[i := values[i].(bytes := values[i].bytes[at := byte])]
    case SetStatus(i, status) => values[i := values[i].(header := values[i].header.(status := status))]
  }

  predicate Changes(op: Op, i: nat) {
    || (op.AssignTo? && i == op.to)
    || (op.WriteByte? && i == op.in_)
    || (op.SetStatus? && i == op.in_)
  }

  /** What an operation does, told by what can be read afterwards. */
  lemma ApplyReads(values: seq<UrbValue>, op: Op)
    requires Possible(values, op)
    ensures |Apply(values, op)| == |values| + if op.CopyOf? then 1 else 0
    ensures op.CopyOf? ==> values <= Apply(values, op) && Apply(values, op)[|values|] == values[op.of]
    ensures op.AssignTo? ==> Apply(values, op)[op.to] == values[op.from]
    ensures op.WriteByte? ==>
      var v := Apply(values, op)[op.in_];
      && v.header == values[op.in_].header && v.packets == values[op.in_].packets
      && |v.bytes| == |values[op.in_].bytes| && v.bytes[op.at] == op.byte
      && forall k :: 0 <= k < |v.bytes| && k != op.at ==> v.bytes[k] == values[op.in_].bytes[k]
    ensures op.SetStatus? ==>
      var v := Apply(values, op)[op.in_];
      v == values[op.in_].(header := values[op.in_].header.(status := op.status))
    ensures
      forall i :: 0 <= i < |values| && !Changes(op, i) ==> Apply(values, op)[i] == values[i]
  {
  }

  function ApplyAll(values: seq<UrbValue>, ops: seq<Op>): Option<seq<UrbValue>>
    decreases ops
  {
    if ops == [] then Some(values)
    else if !Possible(values, ops[0]) then None
    else ApplyAll(Apply(values, ops[0]), ops[1..])
  }

  ghost function Owners(pool: seq<UrbObject>): seq<set<object>>
    reads pool
  {
    seq(|pool|, i requires 0 <= i < |pool| reads pool => pool[i].Owned())
  }

  ghost function Union(sets: seq<set<object>>): set<object> {
    if sets == [] then {} else sets[0] + Union(sets[1..])
  }

  ghost predicate Disjoint(sets: seq<set<object>>) {
    forall i, j :: 0 <= i < j < |sets| ==> sets[i] !! sets[j]
  }

  /** What the user of the pool sees. */
  ghost predicate Shows(pool: seq<UrbObject>, values: seq<UrbValue>)
    reads *
  {
    |pool| == |values| && forall i :: 0 <= i < |pool| ==> pool[i].WellFormed() && pool[i].View() == values[i]
  }

  /** The pool shows the values, no array has two owners, and exactly the owned arrays are alive. */
  ghost predicate Sound(pool: seq<UrbObject>, values: seq<UrbValue>, ledger: Ledger)
    reads *
  {
    && Shows(pool, values)
    && (forall i, j :: 0 <= i < j < |pool| ==> pool[i] != pool[j])
    && Disjoint(Owners(pool))
    && ledger.Valid() && ledger.live == Union(Owners(pool))
  }

  lemma {:induction false} UnionHas(sets: seq<set<object>>, i: nat)
    requires i < |sets|
    ensures sets[i] <= Union(sets)
  {
    if i > 0 {
      UnionHas(sets[1..], i - 1);
    }
  }

  lemma {:induction false} UnionAppend(sets: seq<set<object>>, s: set<object>)
    ensures Union(sets + [s]) == Union(sets) + s
  {
    if sets == [] {
      assert sets + [s] == [s];
      assert Union([s]) == s;
    } else {
      assert (sets + [s])[1..] == sets[1..] + [s];
      UnionAppend(sets[1..], s);
    }
  }

  lemma {:induction false} UnionDisjoint(sets: seq<set<object>>, s: set<object>)
    requires forall i :: 0 <= i < |sets| ==> sets[i] !! s
    ensures Union(sets) !! s
  {
    if sets == [] {
    } else {
      UnionDisjoint(sets[1..], s);
    }
  }

  lemma {:induction false} UnionUpdate(sets: seq<set<object>>, k: nat, s: set<object>)
    requires k < |sets| && Disjoint(sets)
    ensures Union(sets[k := s]) == Union(sets) - sets[k] + s
  {
    if k == 0 {
      assert sets[0 := s][1..] == sets[1..];
      UnionDisjoint(sets[1..], sets[0]);
    } else {
      assert sets[k := s][1..] == sets[1..][k - 1 := s];
      UnionUpdate(sets[1..], k - 1, s);
    }
  }

  lemma DisjointUpdate(sets: seq<set<object>>, k: nat, s: set<object>)
    requires k < |sets| && Disjoint(sets) && Union(sets) !! s
    ensures Disjoint(sets[k := s])
  {
    forall j | 0 <= j < |sets| ensures sets[j] !! s {
      UnionHas(sets, j);
    }
  }

  lemma DisjointAppend(sets: seq<set<object>>, s: set<object>)
    requires Disjoint(sets) && Union(sets) !! s
    ensures Disjoint(sets + [s])
  {
    forall j | 0 <= j < |sets| ensures sets[j] !! s {
      UnionHas(sets, j);
    }
  }

  method RunCopy(pool: seq<UrbObject>, ghost values: seq<UrbValue>, of: nat, ledger: Ledger)
    returns (u: UrbObject)
    requires Sound(pool, values, ledger) && of < |pool|
    modifies ledger
    ensures Sound(pool + [u], values + [values[of]], ledger)
    ensures fresh(u) && fresh(u.Owned()) && ledger.live == old(ledger.live) + u.Owned()
    ensures old(ledger.made) <= ledger.made
  {
    ghost var owners := Owners(pool);
    u := new UrbObject.Copy(pool[of], ledger);
    assert Shows(pool + [u], values + [values[of]]);
    assert Owners(pool + [u]) == owners + [u.Owned()];
    UnionAppend(owners, u.Owned());
    DisjointAppend(owners, u.Owned());
  }

  method RunAssign(pool: seq<UrbObject>, ghost values: seq<UrbValue>, to: nat, from: nat, ledger: Ledger)
    requires Sound(pool, values, ledger) && to < |pool| && from < |pool| && to != from
    modifies ledger, pool[to]
    ensures Sound(pool, values[to := values[from]], ledger)
    ensures fresh(pool[to].Owned()) && ledger.live <= old(ledger.live) + pool[to].Owned()
    ensures old(ledger.made) <= ledger.made
  {
    ghost var owners := Owners(pool);
    UnionHas(owners, to);
    pool[to].Assign(pool[from], ledger);
    assert Shows(pool, values[to := values[from]]);
    assert Owners(pool) == owners[to := pool[to].Owned()];
    UnionUpdate(owners, to, pool[to].Owned());
    DisjointUpdate(owners, to, pool[to].Owned());
  }

  method RunWrite(pool: seq<UrbObject>, ghost values: seq<UrbValue>, k: nat, at: nat, byte: u8, ledger: Ledger)
    requires Sound(pool, values, ledger) && k < |pool| && at < |values[k].bytes|
    modifies pool[k].buffer
    ensures Sound(pool, values[k := values[k].(bytes := values[k].bytes[at := byte])], ledger)
  {
    ghost var owners := Owners(pool);
    var bytes := pool[k].buffer;
    forall j | 0 <= j < |pool| && j != k ensures pool[j].buffer != bytes {
      assert bytes in owners[k] && (pool[j].buffer != null ==> pool[j].buffer in owners[j]);
    }
    bytes[at] := byte;
    assert Owners(pool) == owners;
  }

  method RunSetStatus(pool: seq<UrbObject>, ghost values: seq<UrbValue>, k: nat, status: int, ledger: Ledger)
    requires Sound(pool, values, ledger) && k < |pool|
    modifies pool[k]
    ensures Sound(pool, values[k := values[k].(header := values[k].header.(status := status))], ledger)
    ensures pool[k].buffer == old(pool[k].buffer) && pool[k].packets == old(pool[k].packets)
  {
    ghost var owners := Owners(pool);
    pool[k].header := pool[k].header.(status := status);
    assert Owners(pool) == owners;
  }

  method RunOp(pool: seq<UrbObject>, ghost values: seq<UrbValue>, op: Op, ledger: Ledger)
    returns (pool': seq<UrbObject>)
    requires Sound(pool, values, ledger) && Possible(values, op)
    modifies ledger, pool, ledger.live
    ensures Sound(pool', Apply(values, op), ledger)
    ensures forall k :: 0 <= k < |pool'| ==> pool'[k] in pool || fresh(pool'[k])
    ensures forall o :: o in ledger.live ==> o in old(ledger.live) || fresh(o)
    ensures old(ledger.made) <= ledger.made
  {
    pool' := pool;
    match op {
      case CopyOf(of) =>
        var u := RunCopy(pool, values, of, ledger);
        pool' := pool + [u];
      case AssignTo(to, from) =>
        RunAssign(pool, values, to, from, ledger);
      case WriteByte(k, at, byte) =>
        UnionHas(Owners(pool), k);
        RunWrite(pool, values, k, at, byte, ledger);
      case SetStatus(k, status) =>
        RunSetStatus(pool, values, k, status, ledger);
    }
  }

  /** Deep copies give value semantics: whatever a program does with copying, assigning and writing
      through buffer pointers, its URBs show what the same program computes on plain values, and
      no array ever has two owners or dangles.  Every array ever allocated is either owned by exactly
      one of the URBs or was freed once. */
  method RunProgram(pool: seq<UrbObject>, ghost values: seq<UrbValue>, ops: seq<Op>, ledger: Ledger)
    returns (pool': seq<UrbObject>)
    requires Sound(pool, values, ledger) && ApplyAll(values, ops).Some?
    modifies ledger, pool, ledger.live
    ensures Sound(pool', ApplyAll(values, ops).value, ledger)
    ensures old(ledger.made) <= ledger.made
  {
    pool' := pool;
    ghost var now := values;
    var i := 0;
    while i < |ops|
      invariant 0 <= i <= |ops| && Sound(pool', now, ledger)
      invariant ApplyAll(now, ops[i..]) == ApplyAll(values, ops)
      invariant forall k :: 0 <= k < |pool'| ==> pool'[k] in pool || fresh(pool'[k])
      invariant forall o :: o in ledger.live ==> o in old(ledger.live) || fresh(o)
      invariant old(ledger.made) <= ledger.made
    {
      assert ops[i..][1..] == ops[i + 1..];
      pool' := RunOp(pool', now, ops[i], ledger);
      now := Apply(now, ops[i]);
      i := i + 1;
    }
  }

  /** Destroying all URBs leaves no array behind: every array ever allocated, by whatever constructions
      and assignments, has been freed, and none twice. */
  method DestroyAll(pool: seq<UrbObject>, ghost values: seq<UrbValue>, ledger: Ledger)
    requires Sound(pool, values, ledger)
    modifies ledger
    ensures ledger.Valid() && ledger.live == {} && ledger.made == old(ledger.made)
    ensures forall o :: o in ledger.made ==> o in ledger.freed
    ensures forall i, j :: 0 <= i < j < |ledger.freed| ==> ledger.freed[i] != ledger.freed[j]
  {
    ghost var owners := Owners(pool);
    var i := 0;
    while i < |pool|
      invariant 0 <= i <= |pool| && ledger.Valid() && ledger.live == Union(owners[i..]) && Owners(pool) == owners
      invariant ledger.made == old(ledger.made)
    {
      assert owners[i..][0] == owners[i] && owners[i..][1..] == owners[i + 1..];
      UnionDisjoint(owners[i + 1..], owners[i]);
      pool[i].FreeArrays(ledger);
      i := i + 1;
    }
  }
}
