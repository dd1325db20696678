/** `ReplayWeakMember` of include/cppgc/member-replay.h, the draft that keeps
    a pointer in exactly one of two slots: the strong `Member` slot when
    `ReplayLeakWeak` holds (the recorder's "avoid-weak-pointers" switch, so
    the pointee is never collected), the `WeakMember` slot otherwise. The
    macro is evaluated again at every call, so each operation takes the
    flag's current value as `leakWeak`. */
module EitherSlotMember {
  import opened GcPointers

  class ReplayWeakMember {
    var strong: Ptr
    var weak: Ptr

    /** The slot the flag does not select holds nothing. */
    predicate OnlyActiveSlot(leakWeak: bool)
      reads this
    {
      if leakWeak then weak == Null else strong == Null
    }

    /** `Get`, and likewise `operator T*`, `operator->`, `operator*` and
        `GetRawStorage`: the pointer in the slot the flag selects. */
    function Get(leakWeak: bool): Ptr
      reads this
    {
      if leakWeak then strong else weak
    }

    /** `operator bool`. */
    predicate IsSet(leakWeak: bool)
      reads this
    {
      Get(leakWeak) != Null
    }

    /** The default constructor and the one from `nullptr`. */
    constructor Empty()
      ensures strong == Null && weak == Null
    {
      strong := Null;
      weak := Null;
    }

    /** Construction from a raw pointer, a reference, a sentinel, raw
        storage or a `Persistent`'s pointer: the pointer goes into the
        selected slot only. */
    constructor FromPointer(p: Ptr, leakWeak: bool)
      ensures Get(leakWeak) == p && OnlyActiveSlot(leakWeak)
    {
      if leakWeak {
        strong := p;
        weak := Null;
      } else {
        strong := Null;
        weak := p;
      }
    }

    /** The copy constructors: a member built from `other.Get()`. */
    constructor Copy(other: ReplayWeakMember, leakWeak: bool)
      ensures Get(leakWeak) == other.Get(leakWeak) && OnlyActiveSlot(leakWeak)
    {
      var p := other.Get(leakWeak);
      if leakWeak {
        strong := p;
        weak := Null;
      } else {
        strong := Null;
        weak := p;
      }
    }

    /** The move constructors: a copy, then `other.Clear()`. */
    constructor Move(other: ReplayWeakMember, leakWeak: bool)
      modifies other
      ensures Get(leakWeak) == old(other.Get(leakWeak)) && OnlyActiveSlot(leakWeak)
      ensures other.Get(leakWeak) == Null
      ensures leakWeak ==> other.weak == old(other.weak)
      ensures !leakWeak ==> other.strong == old(other.strong)
    {
      var p := other.Get(leakWeak);
      if leakWeak {
        strong := p;
        weak := Null;
        other.strong := Null;
      } else {
        strong := Null;
        weak := p;
        other.weak := Null;
      }
    }

    /** Copy and move construction from a plain member; the move clears it. */
    constructor FromMember(other: BasicMember, isMove: bool, leakWeak: bool)
      modifies other
      ensures Get(leakWeak) == old(other.raw) && OnlyActiveSlot(leakWeak)
      ensures other.raw == if isMove then Null else old(other.raw)
    {
      var p := other.raw;
      if leakWeak {
        strong := p;
        weak := Null;
      } else {
        strong := Null;
        weak := p;
      }
      if isMove {
        other.raw := Null;
      }
    }

    /** Every `operator=` that stores a pointer: from `T*`, `nullptr`, a
        sentinel, a `Persistent`, a plain member by copy, and the copy
        assignment, which stores `other.GetRawStorage()`. */
    method Assign(p: Ptr, leakWeak: bool)
      modifies this
      ensures Get(leakWeak) == p
      ensures leakWeak ==> weak == old(weak)
      ensures !leakWeak ==> strong == old(strong)
    {
      if leakWeak {
        strong := p;
      } else {
        weak := p;
      }
    }

    /** The copy assignment `operator=(const ReplayWeakMember&)`. */
    method CopyAssign(other: ReplayWeakMember, leakWeak: bool)
      modifies this
      ensures Get(leakWeak) == old(other.Get(leakWeak))
      ensures leakWeak ==> weak == old(weak)
      ensures !leakWeak ==> strong == old(strong)
    {
      Assign(other.Get(leakWeak), leakWeak);
    }

    /** The move assignment: the selected slot of `other` is moved into the
        selected slot of this member, which clears it in `other`. Moving a
        member into itself therefore empties it. */
    method MoveAssign(other: ReplayWeakMember, leakWeak: bool)
      modifies this, other
      ensures other != this ==> Get(leakWeak) == old(other.Get(leakWeak))
      ensures other.Get(leakWeak) == Null
      ensures leakWeak ==> weak == old(weak) && other.weak == old(other.weak)
      ensures !leakWeak ==> strong == old(strong) && other.strong == old(other.strong)
    {
      if leakWeak {
        strong := other.strong;
        other.strong := Null;
      } else {
        weak := other.weak;
        other.weak := Null;
      }
    }

    /** The heterogeneous move assignment from a plain member, which is
        cleared. */
    method MoveAssignMember(other: BasicMember, leakWeak: bool)
      modifies this, other
      ensures Get(leakWeak) == old(other.raw)
      ensures other.raw == Null
      ensures leakWeak ==> weak == old(weak)
      ensures !leakWeak ==> strong == old(strong)
    {
      var p := other.raw;
      other.raw := Null;
      if leakWeak {
        strong := p;
      } else {
        weak := p;
      }
    }

    /** `Swap` with another replay member: exchanges the selected slots. */
    method Swap(other: ReplayWeakMember, leakWeak: bool)
      modifies this, other
      ensures Get(leakWeak) == old(other.Get(leakWeak))
      ensures other.Get(leakWeak) == old(Get(leakWeak))
      ensures leakWeak ==> weak == old(weak) && other.weak == old(other.weak)
      ensures !leakWeak ==> strong == old(strong) && other.strong == old(other.strong)
    {
      if leakWeak {
        var t := strong;
        strong := other.strong;
        other.strong := t;
      } else {
        var t := weak;
        weak := other.weak;
        other.weak := t;
      }
    }

    /** `Swap` with a plain member: exchanges it with the selected slot. */
    method SwapWithMember(other: BasicMember, leakWeak: bool)
      modifies this, other
      ensures Get(leakWeak) == old(other.raw)
      ensures other.raw == old(Get(leakWeak))
      ensures leakWeak ==> weak == old(weak)
      ensures !leakWeak ==> strong == old(strong)
    {
      var t := other.raw;
      if leakWeak {
        other.raw := strong;
        strong := t;
      } else {
        other.raw := weak;
        weak := t;
      }
    }

    /** `Clear`, also `operator=(nullptr)`: empties the selected slot. */
    method Clear(leakWeak: bool)
      modifies this
      ensures Get(leakWeak) == Null && !IsSet(leakWeak)
      ensures leakWeak ==> weak == old(weak)
      ensures !leakWeak ==> strong == old(strong)
    {
      if leakWeak {
        strong := Null;
      } else {
        weak := Null;
      }
    }

    /** `Release`: returns the selected slot's pointer and clears it. */
    method Release(leakWeak: bool) returns (p: Ptr)
      modifies this
      ensures p == old(Get(leakWeak)) && Get(leakWeak) == Null
      ensures leakWeak ==> weak == old(weak)
      ensures !leakWeak ==> strong == old(strong)
    {
      p := Get(leakWeak);
      Clear(leakWeak);
    }

    /** `Trace`: the slots handed to the visitor, weak then strong, whatever
        the flag says. */
    function Trace(): seq<Ptr>
      reads this
    {
      [weak, strong]
    }
  }

  /** Under a fixed flag, the garbage collector is shown exactly the
      member's pointer and an empty slot: tracing both slots costs nothing. */
  lemma TraceShowsOnlyTheTarget(m: ReplayWeakMember, leakWeak: bool)
    requires m.OnlyActiveSlot(leakWeak)
    ensures m.Get(leakWeak) in m.Trace()
    ensures forall p :: p in m.Trace() && p != Null ==> p == m.Get(leakWeak)
  {
  }

  /** The draft depends on the flag never changing while a member lives: a
      pointer stored while weak pointers are allowed is invisible once the
      flag is set, and the other way round. */
  lemma FlagChangeHidesPointer(m: ReplayWeakMember, leakWeak: bool)
    requires m.OnlyActiveSlot(leakWeak) && m.IsSet(leakWeak)
    ensures !m.IsSet(!leakWeak) && m.Get(!leakWeak) == Null
  {
  }
}
