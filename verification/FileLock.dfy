/** Advisory file locks: the state the operating system keeps for one lock file, and the handle
    object that acquires, converts and releases it. */
module FileLocks {
  import opened Prelude

  /** One per open file description; never reused. */
  type Handle = nat

  datatype LockState = Free | SharedBy(holders: set<Handle>) | ExclusiveBy(holder: Handle)

  predicate Holds(l: LockState, h: Handle) {
    l == ExclusiveBy(h) || (l.SharedBy? && h in l.holders)
  }

  /** A non-blocking try succeeds: shared holders stack, anything else excludes. */
  predicate Available(l: LockState, exclusive: bool) {
    l.Free? || (l.SharedBy? && !exclusive)
  }

  function Take(l: LockState, h: Handle, exclusive: bool): (r: LockState)
    requires Available(l, exclusive)
    ensures Holds(r, h)
    ensures forall k :: k != h ==> (Holds(r, k) <==> Holds(l, k))
    ensures r.ExclusiveBy? <==> exclusive
  {
    if exclusive then ExclusiveBy(h)
    else if l.SharedBy? then SharedBy(l.holders + {h})
    else SharedBy({h})
  }

  /** Closing a set of handles; a lock with no holder left is free. */
  function Drop(l: LockState, gone: set<Handle>): (r: LockState)
    ensures forall k :: Holds(r, k) <==> Holds(l, k) && k !in gone
    ensures r.ExclusiveBy? ==> r == l
  {
    match l
    case Free => Free
    case ExclusiveBy(h) => if h in gone then Free else l
    case SharedBy(hs) => if hs <= gone then Free else SharedBy(hs - gone)
  }

  /** A try for the exclusive lock succeeds exactly if nobody holds it, a try for a shared one exactly if nobody
      holds it exclusively: shared holders stack. */
  lemma TriesSucceedExactly(l: LockState)
    requires l.SharedBy? ==> l.holders != {}
    ensures Available(l, true) <==> forall h :: !Holds(l, h)
    ensures Available(l, false) <==> forall h :: l != ExclusiveBy(h)
    ensures forall h :: Available(l, false) ==> Available(Take(l, h, false), false)
  {
    if l.SharedBy? {
      var h :| h in l.holders;
      assert Holds(l, h);
    } else if l.ExclusiveBy? {
      assert Holds(l, l.holder);
    }
  }

  /** What other processes may have made of the lock between the two halves of a conversion. */
  predicate LeftByOthers(meanwhile: LockState, h: Handle) {
    !Holds(meanwhile, h)
  }

  /** The kernel's record of one lock file. */
  class LockFile {
    var state: LockState

    constructor ()
      ensures state == Free
    {
      state := Free;
    }
  }

  const RELEASED := -1

  class FileLock {
    var handle: int
    const file: LockFile

    ghost predicate Valid()
      reads this, file
    {
      handle == RELEASED || (handle >= 0 && Holds(file.state, handle))
    }

    /** Adopts a handle whose try has just succeeded. */
    constructor (file: LockFile, h: Handle)
      requires Holds(file.state, h)
      ensures Valid() && handle == h && this.file == file
    {
      this.file := file;
      handle := h;
    }

    /** Drops the lock; a second call does nothing. */
    method Release()
      requires Valid()
      modifies this, file
      ensures Valid() && handle == RELEASED
      ensures file.state == if old(handle) == RELEASED then old(file.state) else Drop(old(file.state), {old(handle)})
    {
      if handle == RELEASED {
        return;
      }
      file.state := Drop(file.state, {handle});
      handle := RELEASED;
    }

    /** Neither platform converts atomically: the exclusive lock goes first, other processes may act
        (`meanwhile`), then a shared try is made; when that loses, the handle is closed. */
    method DowngradeToShared(meanwhile: LockState) returns (ok: bool)
      requires Valid() && (handle >= 0 ==> LeftByOthers(meanwhile, handle))
      modifies this, file
      ensures Valid()
      ensures old(handle) == RELEASED ==> !ok && file.state == old(file.state) && handle == RELEASED
      ensures old(handle) != RELEASED ==>
                && ok == Available(meanwhile, false)
                && handle == (if ok then old(handle) else RELEASED)
                && file.state == (if ok then Take(meanwhile, old(handle), false) else meanwhile)
    {
      if handle == RELEASED {
        return false;
      }
      file.state := Drop(file.state, {handle});
      file.state := meanwhile;
      if !Available(file.state, false) {
        handle := RELEASED;
        return false;
      }
      file.state := Take(file.state, handle, false);
      ok := true;
    }
  }

  /** Why a try did not return a lock. */
  datatype LockFailure = CannotOpen | HeldElsewhere

  /** tryExclusive and tryShared: open (`opens`), then one non-blocking attempt. */
  method TryAcquire(file: LockFile, h: Handle, exclusive: bool, opens: bool)
    returns (r: Result<FileLock, LockFailure>)
    requires !Holds(file.state, h)
    modifies file
    ensures r.Ok? <==> opens && Available(old(file.state), exclusive)
    ensures r.Ok? ==> fresh(r.value) && r.value.Valid() && r.value.file == file && r.value.handle == h
                      && file.state == Take(old(file.state), h, exclusive)
    ensures r.Err? ==> file.state == old(file.state) && (r.error.HeldElsewhere? <==> opens)
  {
    if !opens {
      return Err(CannotOpen);
    }
    if !Available(file.state, exclusive) {
      return Err(HeldElsewhere);
    }
    file.state := Take(file.state, h, exclusive);
    var lock := new FileLock(file, h);
    r := Ok(lock);
  }
}
