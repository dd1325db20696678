/** Garbage-collected pointer slots as `cppgc` keeps them: a pointer is an
    address and `Null` is the null pointer. A plain `BasicMember` (`Member`
    or `WeakMember`) holds one pointer; copying a member copies its pointer,
    moving it copies the pointer and then clears the source, and `Release`
    returns the pointer and clears the slot. */
module GcPointers {
  type Ptr = nat
  const Null: Ptr := 0

  /** A plain `cppgc::internal::BasicMember`, used where a replay member is
      built from, assigned from or swapped with one. */
  class BasicMember {
    var raw: Ptr

    constructor(p: Ptr)
      ensures raw == p
    {
      raw := p;
    }
  }
}
