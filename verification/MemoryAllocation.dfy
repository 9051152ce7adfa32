/**
  The move-only owner MemoryAllocation of the ONNX Runtime wrapper.

  A pointer stands for the allocation it came from, so an address that the allocator
  hands out again is a new pointer here. Objects are models of C++ objects; the calls
  AllocatorFree receives are logged in order.
 */
module MemoryAllocation {
  import opened Kernel

  type Ptr = nat

  /** The three members of the class; the allocator and the pointer may be null. */
  datatype Fields = Fields(allocator: Option<nat>, p: Option<Ptr>, size: nat)

  const EMPTY := Fields(None, None, 0)

  /** A call of AllocatorFree: the pointer and the allocator it is given back to. */
  type Free = (Ptr, Option<nat>)

  /** What destroying an object with these members frees, and with which allocator. */
  function Released(f: Fields): seq<Free> {
    if f.p.Some? then [(f.p.value, f.allocator)] else []
  }

  // ---------------------------------------------------------------- the class

  class Api {
    var freed: seq<Free>

    constructor ()
      ensures freed == []
    {
      freed := [];
    }

    method AllocatorFree(allocator: Option<nat>, p: Ptr)
      modifies this
      ensures freed == old(freed) + [(p, allocator)]
    {
      freed := freed + [(p, allocator)];
    }
  }

  class Allocation {
    var allocator_: Option<nat>
    var p_: Option<Ptr>
    var size_: nat

    function Members(): Fields
      reads this
    {
      Fields(allocator_, p_, size_)
    }

    constructor (allocator: Option<nat>, p: Option<Ptr>, size: nat)
      ensures Members() == Fields(allocator, p, size)
    {
      allocator_, p_, size_ := allocator, p, size;
    }

    /** The destructor; the object is gone afterwards. */
    method Destroy(api: Api)
      modifies api
      ensures api.freed == old(api.freed) + Released(Members())
    {
      if p_.Some? {
        api.AllocatorFree(allocator_, p_.value);
      }
    }

    /** The move constructor. */
    constructor Move(o: Allocation, api: Api)
      modifies o, api
      ensures Members() == old(o.Members()) && o.Members() == EMPTY
      ensures api.freed == old(api.freed)
    {
      allocator_, p_, size_ := None, None, 0;
      new;
      MoveAssign(o, api);
    }

    /**
      The move assignment: this takes what o held, o is left empty, and what this held is
      freed. When o is this object it ends empty and its own allocation is freed.
     */
    method MoveAssign(o: Allocation, api: Api)
      modifies this, o, api
      ensures o != this ==> Members() == old(o.Members())
      ensures o.Members() == EMPTY
      ensures api.freed == old(api.freed) + Released(old(Members()))
    {
      var alloc: Option<nat>, p: Option<Ptr>, sz := None, None, 0;
      alloc, allocator_ := allocator_, alloc;
      p, p_ := p_, p;
      sz, size_ := size_, sz;

      var t := allocator_;
      allocator_ := o.allocator_;
      o.allocator_ := t;
      var u := p_;
      p_ := o.p_;
      o.p_ := u;
      var v := size_;
      size_ := o.size_;
      o.size_ := v;

      var thisAlloc := new Allocation(alloc, p, sz);
      thisAlloc.Destroy(api);
    }
  }

  // ---------------------------------------------------------------- runs

  /** The live objects by name, every allocation made so far with its allocator, and the calls of AllocatorFree. */
  datatype State = State(objects: map<nat, Fields>, made: map<Ptr, Option<nat>>, freed: seq<Free>)

  datatype Op =
    | Create(id: nat, fields: Fields)
    | MoveConstruct(id: nat, source: nat)
    | MoveAssign(id: nat, source: nat)
    | Destroy(id: nat)

  const INIT := State(map[], map[], [])

  /** New objects take new names, a constructor is given an allocation no object was given before, and
      operands are alive. */
  predicate Enabled(s: State, op: Op) {
    match op
    case Create(i, f) => i !in s.objects && (f.p.Some? ==> f.p.value !in s.made)
    case MoveConstruct(i, j) => i !in s.objects && j in s.objects
    case MoveAssign(i, j) => i in s.objects && j in s.objects
    case Destroy(i) => i in s.objects
  }

  function Made(made: map<Ptr, Option<nat>>, f: Fields): map<Ptr, Option<nat>> {
    if f.p.Some? then made[f.p.value := f.allocator] else made
  }

  /** Each operation does to the objects it names what the contract of the class says. */
  function Step(s: State, op: Op): State
    requires Enabled(s, op)
  {
    var o := s.objects;
    match op
    case Create(i, f) =>
      State(o[i := f], Made(s.made, f), s.freed)
    case MoveConstruct(i, j) =>
      s.(objects := o[i := o[j]][j := EMPTY])
    case MoveAssign(i, j) =>
      s.(objects := o[i := o[j]][j := EMPTY], freed := s.freed + Released(o[i]))
    case Destroy(i) =>
      s.(objects := o - {i}, freed := s.freed + Released(o[i]))
  }

  /** A program that names its objects: each operation on the objects themselves is one step of the state. */
  class Program {
    const api: Api
    var objects: map<nat, Allocation>
    ghost var made: map<Ptr, Option<nat>>

    ghost predicate Valid()
      reads this
    {
      forall i, j :: i in objects && j in objects && objects[i] == objects[j] ==> i == j
    }

    ghost function Abstract(): State
      reads this, api, objects.Values
    {
      State(map i | i in objects :: objects[i].Members(), made, api.freed)
    }

    constructor ()
      ensures Valid() && Abstract() == INIT && fresh(api)
    {
      api := new Api();
      objects := map[];
      made := map[];
    }

    method Construct(i: nat, f: Fields)
      requires Valid() && Enabled(Abstract(), Create(i, f))
      modifies this
      ensures Valid() && fresh(objects.Values - old(objects.Values))
      ensures Abstract() == Step(old(Abstract()), Create(i, f))
    {
      hide Released, Made;
      ghost var before := Abstract();
      var a := new Allocation(f.allocator, f.p, f.size);
      objects := objects[i := a];
      assert Abstract().objects == before.objects[i := f];
      made := Made(made, f);
    }

    method ConstructFrom(i: nat, j: nat)
      requires Valid() && Enabled(Abstract(), MoveConstruct(i, j))
      modifies this, api, objects.Values
      ensures Valid() && fresh(objects.Values - old(objects.Values))
      ensures Abstract() == Step(old(Abstract()), MoveConstruct(i, j))
    {
      hide Released, Made;
      ghost var before := Abstract();
      var a := new Allocation.Move(objects[j], api);
      objects := objects[i := a];
      assert Abstract().objects == before.objects[i := before.objects[j]][j := EMPTY];
    }

    method Assign(i: nat, j: nat)
      requires Valid() && Enabled(Abstract(), Op.MoveAssign(i, j))
      modifies api, objects.Values
      ensures Valid() && objects == old(objects)
      ensures Abstract() == Step(old(Abstract()), Op.MoveAssign(i, j))
    {
      objects[i].MoveAssign(objects[j], api);
    }

    method EndLife(i: nat)
      requires Valid() && Enabled(Abstract(), Op.Destroy(i))
      modifies this, api
      ensures Valid() && objects.Values <= old(objects.Values)
      ensures Abstract() == Step(old(Abstract()), Op.Destroy(i))
    {
      objects[i].Destroy(api);
      objects := objects - {i};
    }
  }

  ghost predicate CanRun(s: State, ops: seq<Op>)
    decreases |ops|
  {
    ops == [] || (Enabled(s, ops[0]) && CanRun(Step(s, ops[0]), ops[1..]))
  }

  function Run(s: State, ops: seq<Op>): State
    requires CanRun(s, ops)
    decreases |ops|
  {
    if ops == [] then s else Run(Step(s, ops[0]), ops[1..])
  }

  ghost predicate HeldBy(s: State, p: Ptr, i: nat) {
    i in s.objects && s.objects[i].p == Some(p)
  }

  ghost predicate Held(s: State, p: Ptr) {
    exists i :: HeldBy(s, p, i)
  }

  /** An allocation has one owner, which holds its allocator too, or has been freed once with that allocator,
      never both; nothing else is owned or freed. */
  ghost predicate Accounted(s: State, p: Ptr) {
    && (forall i, j :: HeldBy(s, p, i) && HeldBy(s, p, j) ==> i == j)
    && (forall i :: HeldBy(s, p, i) ==> p in s.made && s.objects[i].allocator == s.made[p])
    && forall a :: multiset(s.freed)[(p, a)] == if p in s.made && !Held(s, p) && a == s.made[p] then 1 else 0
  }

  lemma ReleasedCount(freed: seq<Free>, f: Fields, p: Ptr, a: Option<nat>)
    ensures multiset(freed + Released(f))[(p, a)]
            == multiset(freed)[(p, a)] + if f.p == Some(p) && f.allocator == a then 1 else 0
  {
    assert multiset(freed + Released(f)) == multiset(freed) + multiset(Released(f));
  }

  /** Who owns what i owned before the step; no one when the step destroys i or assigns to it. */
  function OwnerAfter(op: Op, i: nat): Option<nat> {
    match op
    case Create(_, _) => Some(i)
    case MoveConstruct(k, j) => Some(if i == j then k else i)
    case MoveAssign(k, j) => if i == k then None else Some(if i == j then k else i)
    case Destroy(k) => if i == k then None else Some(i)
  }

  lemma OwnerMoves(s: State, op: Op, p: Ptr, i: nat)
    requires Enabled(s, op) && Accounted(s, p) && HeldBy(s, p, i)
    ensures forall x: nat :: HeldBy(Step(s, op), p, x) <==> OwnerAfter(op, i) == Some(x)
  {
    forall x | HeldBy(Step(s, op), p, x)
      ensures OwnerAfter(op, i) == Some(x)
    {
      assert HeldBy(s, p, if (op.MoveConstruct? || op.MoveAssign?) && x == op.id then op.source else x);
    }
  }

  lemma StepKeepsAccounts(s: State, op: Op, p: Ptr)
    requires Enabled(s, op) && Accounted(s, p)
    ensures Accounted(Step(s, op), p)
  {
    var t := Step(s, op);
    if op.MoveAssign? || op.Destroy? {
      forall a: Option<nat>
        ensures multiset(t.freed)[(p, a)] == multiset(s.freed)[(p, a)]
                  + if s.objects[op.id].p == Some(p) && s.objects[op.id].allocator == a then 1 else 0
      {
        ReleasedCount(s.freed, s.objects[op.id], p, a);
      }
      assert s.objects[op.id].p == Some(p) ==> HeldBy(s, p, op.id);
    }
    if Held(s, p) {
      var i :| HeldBy(s, p, i);
      OwnerMoves(s, op, p, i);
      assert OwnerAfter(op, i).Some? ==> HeldBy(t, p, OwnerAfter(op, i).value);
    } else {
      assert forall i :: i in s.objects ==> !HeldBy(s, p, i);
      if op.Create? && op.fields.p == Some(p) {
        assert HeldBy(t, p, op.id);
      } else {
        assert forall i :: !HeldBy(t, p, i);
      }
    }
  }

  lemma {:induction false} RunKeepsAccounts(s: State, ops: seq<Op>, p: Ptr)
    requires CanRun(s, ops) && Accounted(s, p)
    ensures Accounted(Run(s, ops), p)
    decreases |ops|
  {
    if ops != [] {
      StepKeepsAccounts(s, ops[0], p);
      RunKeepsAccounts(Step(s, ops[0]), ops[1..], p);
    }
  }

  /**
    Over every run from the start: an allocation is freed with the allocator it was
    constructed with or not at all, at most once, and precisely when it was made and no
    object holds it any more.
   */
  lemma FreedAtMostOnce(ops: seq<Op>, p: Ptr, a: Option<nat>)
    requires CanRun(INIT, ops)
    ensures var s := Run(INIT, ops);
            && multiset(s.freed)[(p, a)] <= 1
            && (multiset(s.freed)[(p, a)] == 1 <==> p in s.made && !Held(s, p) && a == s.made[p])
  {
    RunKeepsAccounts(INIT, ops, p);
  }

  /** When every object has been destroyed, each allocation has been given back exactly once, to its own
      allocator, and nothing else was. */
  lemma AllFreedAtTheEnd(ops: seq<Op>)
    requires CanRun(INIT, ops) && Run(INIT, ops).objects == map[]
    ensures var s := Run(INIT, ops);
            multiset(s.freed) == multiset(s.made.Items)
  {
    hide Run, CanRun;
    var s := Run(INIT, ops);
    forall f: Free
      ensures multiset(s.freed)[f] == multiset(s.made.Items)[f]
    {
      FreedAtMostOnce(ops, f.0, f.1);
      assert !Held(s, f.0);
    }
  }
}
