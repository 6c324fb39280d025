/** One lock file: its advisory lock and the registry of the leases a process holds. */
module FileLock {
  import opened Common

  /** What the operating system and the processes keep for one path; leases are numbered. */
  class LockFile {
    var holder: Option<nat>
    var registry: map<nat, nat>

    constructor ()
      ensures holder.None? && registry == map[]
    {
      holder, registry := None, map[];
    }
  }

  class FileLockLease {
    const id: nat
    const process: nat
    const path: LockFile
    var open: bool
    /** A close of the descriptor has failed, so the operating system may have dropped the lock. */
    ghost var unsure: bool

    constructor (lease: nat, owner: nat, file: LockFile)
      ensures id == lease && process == owner && path == file && !open && !unsure && Valid()
    {
      id, process, path, open, unsure := lease, owner, file, false, false;
    }

    /** A lease with an open descriptor is the one its process has registered, and has the lock unless a close of the
        descriptor has failed. */
    ghost predicate Valid()
      reads this, path
    {
      && (open ==> process in path.registry && path.registry[process] == id)
      && (open && !unsure ==> path.holder == Some(id))
      && (unsure ==> open)
    }

    /** `usable` is whether the parent and the file pass their checks and every call but the lock itself succeeds. */
    method Acquire(usable: bool) returns (acquired: bool)
      requires Valid()
      modifies this`open, path
      ensures Valid() && unsure == old(unsure)
      ensures forall b: FileLockLease ::
                old(allocated(b)) && b.path == path && b.id != id && old(b.Valid()) ==> b.Valid()
      ensures acquired == (old(open) || (usable && old(path.holder).None? && process !in old(path.registry)))
      ensures open == acquired
      ensures old(open) || !acquired ==> path.holder == old(path.holder) && path.registry == old(path.registry)
      ensures acquired && !old(open) ==>
                path.holder == Some(id) && path.registry == old(path.registry)[process := id]
    {
      if open {
        return true;
      }
      if !usable || path.holder.Some? {
        return false;
      }
      path.holder := Some(id);
      if process in path.registry {
        // Closing the new descriptor gives the lock back.
        path.holder := None;
        return false;
      }
      path.registry := path.registry[process := id];
      open := true;
      acquired := true;
    }

    /** A close that fails keeps the lease as it was, registered and open, even when the lock is `lost` with it; it
        can be released again. */
    method Release(closes: bool, lost: bool) returns (raised: bool)
      requires Valid()
      modifies this`open, this`unsure, path
      ensures Valid()
      ensures forall b: FileLockLease ::
                old(allocated(b)) && b.path == path && b.id != id && old(b.Valid()) ==> b.Valid()
      ensures raised == (old(open) && !closes)
      ensures raised ==> open && unsure && path.registry == old(path.registry)
      ensures raised ==> path.holder == if lost && old(path.holder) == Some(id) then None else old(path.holder)
      ensures !raised ==> !open
      ensures !old(open) ==> path.holder == old(path.holder) && path.registry == old(path.registry)
      ensures old(open) && !raised ==> path.holder != Some(id) && path.registry == old(path.registry) - {process}
      ensures old(open) && old(path.holder) != Some(id) ==> path.holder == old(path.holder)
      ensures old(open) && !old(unsure) && !raised ==> path.holder.None?
    {
      if !open {
        return false;
      }
      if path.holder == Some(id) && (closes || lost) {
        path.holder := None;
      }
      if !closes {
        unsure := true;
        return true;
      }
      open, unsure := false, false;
      if process in path.registry && path.registry[process] == id {
        path.registry := path.registry - {process};
      }
      raised := false;
    }
  }

  /** At most one lease on a path is open at a time in any one process, whatever closes have failed; and over all
      processes too, unless a close of one of them has failed. */
  lemma OneOpenLease(a: FileLockLease, b: FileLockLease)
    requires a.path == b.path && a.Valid() && b.Valid() && a.id != b.id
    ensures a.open && b.open ==> a.process != b.process && (a.unsure || b.unsure)
  {
  }
}
