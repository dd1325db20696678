/** `ReplayWeakMember` of include/cppgc/member_replay.h, the draft that
    always keeps the pointer in the `WeakMember` slot and, while
    `ReplayLeakWeak` holds, mirrors it into the strong `Member` slot so that
    the pointee is never collected. Readers only ever look at the weak slot.
    As in the other draft, the flag's current value is passed to every
    operation as `leakWeak`. */
module MirrorMember {
  import opened GcPointers

  class ReplayWeakMember {
    var strong: Ptr
    var weak: Ptr

    /** Under a fixed flag: the strong slot mirrors the weak one when the
        flag is set, and is never written when it is not. */
    predicate Mirrored(leakWeak: bool)
      reads this
    {
      strong == if leakWeak then weak else Null
    }

    /** `Get`, `operator T*`, `operator->`, `operator*` and `GetRawStorage`:
        always the weak slot, whatever the flag. */
    function Get(): Ptr
      reads this
    {
      weak
    }

    /** `operator bool`. */
    predicate IsSet()
      reads this
    {
      weak != Null
    }

    /** The default constructor and the one from `nullptr`. */
    constructor Empty()
      ensures strong == Null && weak == Null
    {
      strong := Null;
      weak := Null;
    }

    /** Construction from a raw pointer, a reference, raw storage or a
        `Persistent`'s pointer. */
    constructor FromPointer(p: Ptr, leakWeak: bool)
      ensures Get() == p && Mirrored(leakWeak)
    {
      weak := p;
      strong := if leakWeak then p else Null;
    }

    /** The copy constructors: a member built from `other.Get()`. */
    constructor Copy(other: ReplayWeakMember, leakWeak: bool)
      ensures Get() == other.Get() && Mirrored(leakWeak)
    {
      weak := other.weak;
      strong := if leakWeak then other.weak else Null;
    }

    /** The move constructors: a copy of `other.Get()`, then `other.Clear()`. */
    constructor Move(other: ReplayWeakMember, leakWeak: bool)
      modifies other
      ensures Get() == old(other.Get()) && Mirrored(leakWeak)
      ensures other.weak == Null
      ensures other.strong == if leakWeak then Null else old(other.strong)
    {
      var p := other.weak;
      weak := p;
      strong := if leakWeak then p else Null;
      new;
      other.Clear(leakWeak);
    }

    /** Copy and move construction from a plain member; the move clears it. */
    constructor FromMember(other: BasicMember, isMove: bool, leakWeak: bool)
      modifies other
      ensures Get() == old(other.raw) && Mirrored(leakWeak)
      ensures other.raw == if isMove then Null else old(other.raw)
    {
      var p := other.raw;
      weak := p;
      strong := if leakWeak then p else Null;
      if isMove {
        other.raw := Null;
      }
    }

    /** Every `operator=` that stores a pointer: from `T*`, `nullptr`, a
        sentinel, a `Persistent`, and a plain member, by copy or by move.
        The heterogeneous move passes `other` on as a named reference, which
        selects the copy: the plain member is not cleared. */
    method Assign(p: Ptr, leakWeak: bool)
      modifies this
      ensures Get() == p
      ensures strong == if leakWeak then p else old(strong)
      ensures Mirrored(leakWeak) <== old(Mirrored(leakWeak))
    {
      if leakWeak {
        strong := p;
      }
      weak := p;
    }

    /** The copy assignment, which stores `other.GetRawStorage()`, the weak
        slot of `other`. */
    method CopyAssign(other: ReplayWeakMember, leakWeak: bool)
      modifies this
      ensures Get() == old(other.Get())
      ensures strong == if leakWeak then old(other.weak) else old(strong)
    {
      Assign(other.weak, leakWeak);
    }

    /** The move assignment: both slots of `other` are copied (the strong
        one only when the flag is set), then `other` is cleared. Moving a
        member into itself therefore empties it. */
    method MoveAssign(other: ReplayWeakMember, leakWeak: bool)
      modifies this, other
      ensures other != this ==> Get() == old(other.Get())
      ensures other != this ==> strong == if leakWeak then old(other.strong) else old(strong)
      ensures other.weak == Null
      ensures other.strong == if leakWeak then Null else old(other.strong)
      ensures other != this && old(other.Mirrored(leakWeak)) && old(Mirrored(leakWeak)) ==> Mirrored(leakWeak)
    {
      if leakWeak {
        strong := other.strong;
      }
      weak := other.weak;
      other.Clear(leakWeak);
    }

    /** `Swap` with another replay member: the weak slots always, the
        strong slots too when the flag is set. */
    method Swap(other: ReplayWeakMember, leakWeak: bool)
      modifies this, other
      ensures Get() == old(other.Get()) && other.Get() == old(Get())
      ensures leakWeak ==> strong == old(other.strong) && other.strong == old(strong)
      ensures !leakWeak ==> strong == old(strong) && other.strong == old(other.strong)
    {
      var w := weak;
      weak := other.weak;
      other.weak := w;
      if leakWeak {
        var s := strong;
        strong := other.strong;
        other.strong := s;
      }
    }

    /** `Swap` with a plain member: exchanges the weak slot with it, then
        resets the strong slot to the weak one when the flag is set. */
    method SwapWithMember(other: BasicMember, leakWeak: bool)
      modifies this, other
      ensures Get() == old(other.raw) && other.raw == old(Get())
      ensures strong == if leakWeak then weak else old(strong)
      ensures old(Mirrored(leakWeak)) ==> Mirrored(leakWeak)
    {
      var t := other.raw;
      other.raw := weak;
      weak := t;
      if leakWeak {
        strong := weak;
      }
    }

    /** `Clear`: the weak slot always, the strong slot too when the flag is
        set. */
    method Clear(leakWeak: bool)
      modifies this
      ensures weak == Null && !IsSet()
      ensures strong == if leakWeak then Null else old(strong)
      ensures old(Mirrored(leakWeak)) ==> Mirrored(leakWeak)
    {
      if leakWeak {
        strong := Null;
      }
      weak := Null;
    }

    /** `Release`: releases the strong slot when the flag is set, and
        returns what the weak slot held, clearing it. */
    method Release(leakWeak: bool) returns (p: Ptr)
      modifies this
      ensures p == old(Get()) && weak == Null
      ensures strong == if leakWeak then Null else old(strong)
      ensures old(Mirrored(leakWeak)) ==> Mirrored(leakWeak)
    {
      if leakWeak {
        strong := Null;
      }
      p := weak;
      weak := Null;
    }

    /** `Trace`: the slots handed to the visitor, weak then strong. */
    function Trace(): seq<Ptr>
      reads this
    {
      [weak, strong]
    }
  }

  /** Under a fixed flag, tracing shows the collector the member's pointer
      and nothing else; with the flag set the strong slot keeps it alive. */
  lemma TraceShowsOnlyTheTarget(m: ReplayWeakMember, leakWeak: bool)
    requires m.Mirrored(leakWeak)
    ensures m.Get() in m.Trace()
    ensures forall p :: p in m.Trace() && p != Null ==> p == m.Get()
    ensures leakWeak ==> m.Trace()[1] == m.Get()
  {
  }

  /** Unlike the either-slot draft, a change of flag never hides the
      pointer, since readers ignore the strong slot; but a pointer stored
      while the flag was clear is not mirrored, so it is held weakly only. */
  lemma FlagChangeKeepsPointer(m: ReplayWeakMember)
    requires m.Mirrored(false) && m.IsSet()
    ensures !m.Mirrored(true)
  {
  }
}
