/** The descriptor requests of a tracer: dup to, dup2 to, dup from and close in the tracee's table.

    The two tables may be one and the same, when tracer and tracee share their files. */
module RemoteFiles {
  import opened Errors
  import opened Areas
  import opened FdTable
  import opened Descriptors

  /** The arrays of two tables are the same or have nothing in common. */
  ghost predicate Separate(a: Files, b: Files)
    reads a, b
  {
    a == b || (a.fdt.fd != b.fdt.fd
               && {a.fdt.open, a.fdt.cloexec, a.fdt.full} !! {b.fdt.open, b.fdt.cloexec, b.fdt.full})
  }

  /** fcheck: the file in slot n, without a reference. */
  method Fcheck(files: Files, n: nat) returns (file: Option<FileId>)
    ensures file == files.SlotAt(n)
  {
    file := if n < files.fdt.fd.Length then files.fdt.fd[n] else None;
  }

  /** What a lookup makes of a slot: files with a mode in its mask do not count. */
  function Got(slot: Option<FileId>, mask: FileId -> bool): Option<FileId> {
    if slot.Some? && mask(slot.value) then None else slot
  }

  /** __fget_files: the file in slot n with a reference of the caller's own. fget_raw has an empty mask, that of
      fget and fget_files is FMODE_PATH. `loose` are the references that the caller holds, `left` those that it
      holds afterwards. */
  method Fget(files: Files, n: nat, mask: FileId -> bool, loose: multiset<FileId>)
    returns (file: Option<FileId>, left: multiset<FileId>)
    ensures file == Got(files.SlotAt(n), mask) && left == loose + RefOf(file)
  {
    file := if n < files.fdt.fd.Length then files.fdt.fd[n] else None;
    if file.Some? && mask(file.value) { file := None; }
    left := loose + RefOf(file);
  }

  /** fput of a reference of the caller's own. */
  method Fput(file: FileId, loose: multiset<FileId>) returns (left: multiset<FileId>)
    requires file in loose
    ensures left == loose - RefOf(Some(file))
  {
    left := loose - RefOf(Some(file));
  }

  /** The end of both dups: the caller's reference goes to the lowest free number of `to`, or is dropped. */
  method InstallLowest(to: Files, file: FileId, cloexec: bool, rlimit: nat, nrOpen: nat, limit: nat,
                       loose: multiset<FileId>, willing: bool)
    returns (err: Errno, n: nat, left: multiset<FileId>, ghost first: nat)
    requires to.Valid() && limit > 0 && file in loose
    modifies to, to.fdt.fd, to.fdt.open, to.fdt.cloexec, to.fdt.full
    ensures to.Valid() && to.Renewed() && left == loose - RefOf(Some(file))
    ensures err == OK ==> n == first && to.Placed(n, Some(file), cloexec)
    ensures err != OK ==> to.SameContents()
    ensures to.held == old(to.held) + if err == OK then RefOf(Some(file)) else multiset{}
    ensures old(to.LowestFree(0, first))
    ensures err == ENOMEM || err == if rlimit <= first then EMFILE
                                    else Files.RoomErr(old(to.fdt.fd.Length), first, nrOpen, limit)
    ensures err == ENOMEM ==> !willing && old(to.fdt.fd.Length) <= first < rlimit && first < nrOpen
  {
    hide FullExact, BitBits, Slots, RefOf, Files.Valid, Fdt.Valid, Files.Tidy, SlotIn, BitIn, Files.RoomErr,
      Files.LowestFree;
    err, n, first := to.AllocFd(0, rlimit, cloexec, nrOpen, limit, willing);
    if err == OK {
      assert to.OpenAt(n);
      left := to.FdInstall(n, file, loose);
    } else {
      left := Fput(file, loose);
    }
  }

  /** ptrace_dup_to_remote with an empty mask, and ptrace_dup_from_remote with FMODE_PATH and the tables exchanged:
      the file in slot fd of `from` also gets the lowest free number of `to`. */
  method DupAcross(from: Files, to: Files, fd: nat, mask: FileId -> bool, cloexec: bool, badFlags: bool, rlimit: nat,
                   nrOpen: nat, limit: nat, loose: multiset<FileId>, willing: bool)
    returns (err: Errno, n: nat, left: multiset<FileId>, ghost first: nat)
    requires from.Valid() && to.Valid() && Separate(from, to) && limit > 0
    modifies to, to.fdt.fd, to.fdt.open, to.fdt.cloexec, to.fdt.full
    ensures to.Valid() && to.Renewed() && (from != to ==> from.Valid() && unchanged(from))
    ensures err == OK ==> Got(old(from.SlotAt(fd)), mask).Some? && n == first
    ensures err == OK ==> to.Placed(n, old(from.SlotAt(fd)), cloexec)
    ensures err != OK ==> to.SameContents()
    ensures to.held == old(to.held) + if err == OK then RefOf(old(from.SlotAt(fd))) else multiset{}
    ensures left == loose
    ensures badFlags ==> err == EINVAL
    ensures !badFlags && Got(old(from.SlotAt(fd)), mask) == None ==> err == EBADF
    ensures !badFlags && Got(old(from.SlotAt(fd)), mask).Some? ==> old(to.LowestFree(0, first))
    ensures !badFlags && Got(old(from.SlotAt(fd)), mask).Some? && err != ENOMEM ==>
              err == if rlimit <= first then EMFILE
                     else Files.RoomErr(old(to.fdt.fd.Length), first, nrOpen, limit)
    ensures err == ENOMEM ==> !willing && old(to.fdt.fd.Length) <= first < rlimit && first < nrOpen
  {
    hide FullExact, BitBits, Slots, RefOf, Files.Valid, Fdt.Valid, Files.Tidy, SlotIn, BitIn, Files.RoomErr,
      Files.LowestFree;
    n, left, first := 0, loose, 0;
    if badFlags { return EINVAL, n, left, 0; }
    var file;
    file, left := Fget(from, fd, mask, left);
    OneMore(loose, file);
    if file == None { return EBADF, n, left, 0; }
    assert old(from.SlotAt(fd)) == Some(file.value);
    err, n, left, first := InstallLowest(to, file.value, cloexec, rlimit, nrOpen, limit, left, willing);
  }

  lemma {:induction false} OneMore(loose: multiset<FileId>, file: Option<FileId>)
    ensures loose + RefOf(file) - RefOf(file) == loose && (file == None ==> loose + RefOf(file) == loose)
    ensures file.Some? ==> file.value in loose + RefOf(file)
  {
  }

  /** do_dup2_to_remote: slot n of the tracee's table gets the file in slot fd of the tracer's. The table
      is expanded before the tracer's slot is read. */
  method Dup2ToRemote(local: Files, child: Files, fd: nat, n: nat, cloexec: bool, badFlags: bool, rlimit: nat,
                      nrOpen: nat, limit: nat, willing: bool)
    returns (err: Errno)
    requires local.Valid() && child.Valid() && Separate(local, child) && limit > 0
    modifies child, child.fdt.fd, child.fdt.open, child.fdt.cloexec, child.fdt.full
    ensures child.Valid() && child.Renewed() && (local != child ==> local.Valid() && unchanged(local))
    ensures err == OK ==> child.Placed(n, old(local.SlotAt(fd)), cloexec)
    ensures err != OK ==> child.SameContents() && child.held == old(child.held)
    ensures err == OK ==> child.held == old(child.held) + RefOf(old(local.SlotAt(fd))) - RefOf(old(child.SlotAt(n)))
    ensures err == ENOMEM ==> !willing && old(child.fdt.fd.Length) <= n < nrOpen
    ensures err != ENOMEM ==>
              err == if badFlags then EINVAL
                     else if rlimit <= n || old(local.SlotAt(fd)) == None
                          || Files.RoomErr(old(child.fdt.fd.Length), n, nrOpen, limit) != OK then EBADF
                     else if old(child.SlotAt(n)) == None && old(child.OpenAt(n)) then EBUSY else OK
  {
    hide RefOf, Files.Valid, Files.Tidy, Fdt.Valid, SlotIn, BitIn, Files.RoomErr;
    if badFlags { return EINVAL; }
    if n >= rlimit { return EBADF; }
    var expanded;
    err, expanded := child.ExpandFiles(n, nrOpen, limit, willing);
    var file := Fcheck(local, fd);
    assert file == old(local.SlotAt(fd));
    assert child.SlotAt(n) == old(child.SlotAt(n)) && child.OpenAt(n) == old(child.OpenAt(n));
    err := FinishDup2(child, err, file, n, cloexec);
  }

  /** The end of do_dup2_to_remote, once the table was expanded (or not) and the tracer's slot read. */
  method FinishDup2(child: Files, expandErr: Errno, file: Option<FileId>, n: nat, cloexec: bool) returns (err: Errno)
    requires child.Valid() && (expandErr == OK ==> n < child.fdt.fd.Length)
    modifies child`held, child.fdt.fd, child.fdt.open, child.fdt.cloexec, child.fdt.full
    ensures child.Valid()
    ensures err == OK ==> child.Placed(n, file, cloexec)
    ensures err != OK ==> child.SameContents() && child.held == old(child.held)
    ensures err == OK ==> child.held == old(child.held) + RefOf(file) - RefOf(old(child.SlotAt(n)))
    ensures err == if file == None || expandErr == EMFILE then EBADF else if expandErr != OK then expandErr
                   else if old(child.SlotAt(n)) == None && old(child.OpenAt(n)) then EBUSY else OK
  {
    hide RefOf, Files.Valid, Files.Tidy, Fdt.Valid, SlotIn, BitIn;
    if file == None { return EBADF; }
    if expandErr != OK { return if expandErr == EMFILE then EBADF else expandErr; }
    err := child.DoDup2(file.value, n, cloexec);
  }
}
