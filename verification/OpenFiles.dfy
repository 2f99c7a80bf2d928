/** kern/syscall/file_syscalls.c and kern/proc/proc.c: the system-wide table of
    open files, the per-process descriptor tables that point into it, and the
    reference counts. Each call is taken to run by itself. */
module OpenFiles {
  import opened Common

  const OPEN_MAX: nat := 128
  const SYSTEM_OPEN_MAX: nat := 1280
  const STDERR_FILENO: nat := 2

  type Pid = nat
  type Vnode = nat

  /** struct openfile: its vnode, NULL when the slot is free, and countRef. */
  datatype OpenFile = OpenFile(vn: Option<Vnode>, countRef: int)

  /** A descriptor table: each entry NULL or an index into the system table. */
  type Table = t: seq<Option<nat>> | |t| == 128 witness seq(128, _ => None)

  datatype Error = EBADF | EIO | ENFILE | EMFILE
  datatype Result = Ok(fd: nat) | Err(e: Error)

  /** The (process, descriptor) pairs that refer to open file i. */
  ghost function Refs(tables: map<Pid, Table>, i: nat): set<(Pid, nat)> {
    set p, fd | p in tables && 0 <= fd < OPEN_MAX && tables[p][fd] == Some(i) :: (p, fd)
  }

  /** A referenced slot is in range, still has its vnode, and its count is the
      number of descriptors that refer to it. */
  ghost predicate Counted(ft: seq<OpenFile>, tables: map<Pid, Table>) {
    |ft| == SYSTEM_OPEN_MAX &&
    (forall p, fd :: p in tables && 0 <= fd < OPEN_MAX && tables[p][fd].Some? ==> tables[p][fd].value < |ft|) &&
    forall i :: 0 <= i < |ft| && Refs(tables, i) != {} ==> ft[i].vn.Some? && ft[i].countRef == |Refs(tables, i)|
  }

  function Put(tables: map<Pid, Table>, p: Pid, fd: nat, v: Option<nat>): map<Pid, Table>
    requires p in tables && fd < OPEN_MAX
  {
    tables[p := tables[p][fd := v]]
  }

  /** Storing into one descriptor changes the references by that one pair. */
  lemma RefsPut(tables: map<Pid, Table>, p: Pid, fd: nat, v: Option<nat>, i: nat)
    requires p in tables && fd < OPEN_MAX
    ensures Refs(Put(tables, p, fd, v), i)
            == if v == Some(i) then Refs(tables, i) + {(p, fd)} else Refs(tables, i) - {(p, fd)}
    ensures (p, fd) in Refs(tables, i) <==> tables[p][fd] == Some(i)
  {}

  /** A new reference with its count, in an empty descriptor. */
  lemma AddKeeps(ft: seq<OpenFile>, tables: map<Pid, Table>, p: Pid, fd: nat, i: nat)
    requires Counted(ft, tables) && p in tables && fd < OPEN_MAX && tables[p][fd] == None
    requires i < |ft| && ft[i].vn.Some?
    requires Refs(tables, i) == {} ==> ft[i].countRef == 0
    ensures Counted(ft[i := ft[i].(countRef := ft[i].countRef + 1)], Put(tables, p, fd, Some(i)))
  {
    var tables' := Put(tables, p, fd, Some(i));
    forall k | 0 <= k < |ft| ensures Refs(tables', k) == if k == i then Refs(tables, k) + {(p, fd)} else Refs(tables, k) {
      RefsPut(tables, p, fd, Some(i), k);
    }
    RefsPut(tables, p, fd, Some(i), i);
  }

  /** A descriptor emptied and the count lowered; the vnode may go with the last. */
  lemma DropKeeps(ft: seq<OpenFile>, tables: map<Pid, Table>, p: Pid, fd: nat, i: nat, of: OpenFile)
    requires Counted(ft, tables) && p in tables && fd < OPEN_MAX && tables[p][fd] == Some(i)
    requires of.countRef == ft[i].countRef - 1 && (of.countRef > 0 ==> of.vn == ft[i].vn)
    ensures ft[i].vn.Some? && ft[i].countRef > 0 && |Refs(Put(tables, p, fd, None), i)| == of.countRef
    ensures Counted(ft[i := of], Put(tables, p, fd, None))
  {
    var tables' := Put(tables, p, fd, None);
    RefsPut(tables, p, fd, None, i);
    assert (p, fd) in Refs(tables, i);
    forall k | 0 <= k < |ft| ensures Refs(tables', k) == if k == i then Refs(tables, k) - {(p, fd)} else Refs(tables, k) {
      RefsPut(tables, p, fd, None, k);
    }
    assert |Refs(tables', i)| == |Refs(tables, i)| - 1;
  }

  /** Filling a free slot disturbs no reference: nothing refers to it. */
  lemma FillKeeps(ft: seq<OpenFile>, tables: map<Pid, Table>, i: nat, of: OpenFile)
    requires Counted(ft, tables) && i < |ft| && ft[i].vn == None
    ensures Refs(tables, i) == {} && Counted(ft[i := of], tables)
  {}

  /** Descriptor k of the table refers to a file on vnode v, with a count of one. */
  predicate OpensOwn(ft: seq<OpenFile>, t: Table, k: nat, v: Vnode)
    requires k < OPEN_MAX
  {
    t[k].Some? && t[k].value < |ft| && ft[t[k].value] == OpenFile(Some(v), 1)
  }

  /** The first free slot is i, and it has been filled with vnode v. */
  ghost predicate FilledFirst(ft: seq<OpenFile>, ft': seq<OpenFile>, i: nat, v: Vnode) {
    i < |ft| && ft[i].vn == None && (forall k :: 0 <= k < i ==> ft[k].vn.Some?) && ft' == ft[i := OpenFile(Some(v), 1)]
  }

  /** One reference to slot i less; the vnode goes with the last. */
  function Released(ft: seq<OpenFile>, i: nat): seq<OpenFile>
    requires i < |ft|
  {
    var n := ft[i].countRef - 1;
    ft[i := OpenFile(if n > 0 then ft[i].vn else None, n)]
  }

  /** One reference to slot i more. */
  function Shared(ft: seq<OpenFile>, i: nat): seq<OpenFile>
    requires i < |ft|
  {
    ft[i := ft[i].(countRef := ft[i].countRef + 1)]
  }

  /** The table after descriptor `to` of t, if open, was closed and `from` copied
      over it. */
  function Duplicated(ft: seq<OpenFile>, t: Table, from: nat, to: nat): seq<OpenFile>
    requires from < OPEN_MAX && to < OPEN_MAX && t[from].Some? && t[from].value < |ft|
    requires t[to].Some? ==> t[to].value < |ft|
  {
    Shared(if t[to].Some? then Released(ft, t[to].value) else ft, t[from].value)
  }

  class Files {
    var ft: seq<OpenFile>
    var tables: map<Pid, Table>

    ghost predicate Valid()
      reads this
    {
      Counted(ft, tables)
    }

    constructor ()
      ensures Valid() && tables == map[]
    {
      ft, tables := seq(SYSTEM_OPEN_MAX, _ => OpenFile(None, 0)), map[];
    }

    /** proc_create's part: an empty descriptor table. */
    method AddProcess(p: Pid)
      requires Valid() && p !in tables
      modifies this`tables
      ensures Valid() && tables == old(tables)[p := seq(OPEN_MAX, _ => None)]
    {
      tables := tables[p := seq(OPEN_MAX, _ => None)];
      forall i ensures Refs(tables, i) == Refs(old(tables), i) {}
    }

    /** The slot search of sys_open and std_open: the first free slot is filled
        with the vnode and a count of one. i is SYSTEM_OPEN_MAX if none is free. */
    method TakeSlot(v: Vnode) returns (i: nat)
      requires |ft| == SYSTEM_OPEN_MAX
      modifies this`ft
      ensures i <= SYSTEM_OPEN_MAX && forall k :: 0 <= k < i ==> old(ft)[k].vn.Some?
      ensures i == SYSTEM_OPEN_MAX ==> ft == old(ft)
      ensures i < SYSTEM_OPEN_MAX ==> FilledFirst(old(ft), ft, i, v)
    {
      i := 0;
      while i < SYSTEM_OPEN_MAX
        invariant i <= SYSTEM_OPEN_MAX && ft == old(ft)
        invariant forall k :: 0 <= k < i ==> ft[k].vn.Some?
      {
        if ft[i].vn == None {
          ft := ft[i := OpenFile(Some(v), 1)];
          return;
        }
        i := i + 1;
      }
    }

    /** sys_open, once vfs_open has produced the vnode. On EMFILE the descriptors
        are as before but the system slot stays occupied. */
    method SysOpen(p: Pid, v: Vnode) returns (r: Result)
      requires Valid() && p in tables
      modifies this
      ensures Valid()
      ensures r.Ok? ==> STDERR_FILENO < r.fd < OPEN_MAX && old(tables)[p][r.fd] == None &&
                        (forall k :: STDERR_FILENO < k < r.fd ==> old(tables)[p][k].Some?) &&
                        exists i :: FilledFirst(old(ft), ft, i, v) && tables == Put(old(tables), p, r.fd, Some(i))
      ensures !r.Ok? ==> tables == old(tables)
      ensures r == Err(ENFILE) ==> ft == old(ft)
      ensures r == Err(EMFILE) ==> exists i :: FilledFirst(old(ft), ft, i, v)
      ensures r == Err(ENFILE) <==> forall i :: 0 <= i < SYSTEM_OPEN_MAX ==> old(ft)[i].vn.Some?
      ensures r.Err? && r.e != ENFILE ==> r.e == EMFILE && forall k :: STDERR_FILENO < k < OPEN_MAX ==> old(tables)[p][k].Some?
    {
      var i := TakeSlot(v);
      if i == SYSTEM_OPEN_MAX { return Err(ENFILE); }
      FillKeeps(old(ft), tables, i, OpenFile(Some(v), 1));
      var fd := STDERR_FILENO + 1;
      while fd < OPEN_MAX
        invariant STDERR_FILENO < fd <= OPEN_MAX && tables == old(tables) && ft == old(ft)[i := OpenFile(Some(v), 1)]
        invariant forall k :: STDERR_FILENO < k < fd ==> tables[p][k].Some?
      {
        if tables[p][fd] == None {
          ReferFirst(old(ft), tables, p, fd, i, v);
          tables := Put(tables, p, fd, Some(i));
          return Ok(fd);
        }
        fd := fd + 1;
      }
      r := Err(EMFILE);
    }

    /** std_open for descriptor fd; v is what vfs_open produced, if it did, and -1
        the error. It does not look at what the descriptor held: the counts stay
        right exactly if that was nothing, or the only reference to a file (whose
        slot then stays occupied for good). */
    method StdOpen(p: Pid, fd: int, v: Option<Vnode>) returns (r: int)
      requires Valid() && p in tables
      modifies this
      ensures r == fd || r == -1
      ensures r >= 0 <==> 0 <= fd <= STDERR_FILENO && v.Some? && exists i :: 0 <= i < SYSTEM_OPEN_MAX && old(ft)[i].vn == None
      ensures r < 0 ==> Valid() && tables == old(tables) && ft == old(ft)
      ensures r >= 0 ==> exists i :: FilledFirst(old(ft), ft, i, v.value) && tables == Put(old(tables), p, r, Some(i))
      ensures r >= 0 ==> (Valid() <==> old(tables)[p][r] == None || old(ft)[old(tables)[p][r].value].countRef == 1)
    {
      if fd < 0 || fd > STDERR_FILENO { return -1; }
      if v == None { return -1; }
      var i := TakeSlot(v.value);
      if i == SYSTEM_OPEN_MAX { return -1; }
      if tables[p][fd] == None {
        ReferFirst(old(ft), tables, p, fd, i, v.value);
      } else {
        OverwriteIff(old(ft), tables, p, fd, i, v.value);
      }
      tables := Put(tables, p, fd, Some(i));
      r := fd;
    }

    /** proc_create followed by runprogram's three calls of std_open, the only
        calls there are; con[k] is what the k-th call of vfs_open produces. In a
        table just zeroed no descriptor is overwritten, so the counts stay right
        whether or not a call fails. */
    method StartProcess(p: Pid, con: seq<Option<Vnode>>) returns (ok: bool)
      requires Valid() && p !in tables && |con| == STDERR_FILENO + 1
      modifies this
      ensures Valid() && p in tables && tables == old(tables)[p := tables[p]]
      ensures forall k :: STDERR_FILENO < k < OPEN_MAX ==> tables[p][k] == None
      ensures ok ==> forall k :: 0 <= k <= STDERR_FILENO ==> con[k].Some? && OpensOwn(ft, tables[p], k, con[k].value)
      ensures !ok ==> None in con || forall i :: 0 <= i < SYSTEM_OPEN_MAX ==> ft[i].vn.Some?
    {
      AddProcess(p);
      var fd := 0;
      while fd <= STDERR_FILENO
        invariant 0 <= fd <= STDERR_FILENO + 1 && Valid() && p in tables && tables == old(tables)[p := tables[p]]
        invariant forall k :: fd <= k < OPEN_MAX ==> tables[p][k] == None
        invariant forall k :: 0 <= k < fd ==> con[k].Some? && OpensOwn(ft, tables[p], k, con[k].value)
      {
        ghost var ft0, t0 := ft, tables[p];
        var r := StdOpen(p, fd, con[fd]);
        if r != fd { return false; }
        forall k | 0 <= k < fd ensures OpensOwn(ft, tables[p], k, con[k].value) {
          assert OpensOwn(ft0, t0, k, con[k].value) && tables[p][k] == t0[k];
        }
        fd := fd + 1;
      }
      ok := true;
    }

    /** Drops a descriptor's reference: the count goes down, and with the last
        reference the vnode is taken out. EIO is what the source answers if the
        vnode was already gone, which cannot be. */
    method CloseDescriptor(p: Pid, fd: nat) returns (e: Option<Error>)
      requires Valid() && p in tables && fd < OPEN_MAX && tables[p][fd].Some?
      modifies this
      ensures Valid() && e == None
      ensures tables == Put(old(tables), p, fd, None)
      ensures var i := old(tables)[p][fd].value;
        i < |old(ft)| && old(ft)[i].vn.Some? && ft == Released(old(ft), i) && (ft[i].vn == None <==> Refs(tables, i) == {})
    {
      var i := tables[p][fd].value;
      var n := ft[i].countRef - 1;
      DropKeeps(ft, tables, p, fd, i, OpenFile(if n > 0 then ft[i].vn else None, n));
      tables := Put(tables, p, fd, None);
      if n > 0 {
        ft := ft[i := ft[i].(countRef := n)];
        return None;
      }
      var vn := ft[i].vn;
      ft := ft[i := OpenFile(None, n)];
      e := if vn == None then Some(EIO) else None;
    }

    /** sys_close. */
    method SysClose(p: Pid, fd: int) returns (r: Result)
      requires Valid() && p in tables
      modifies this
      ensures Valid()
      ensures r == Err(EBADF) <==> !(0 <= fd < OPEN_MAX) || old(tables)[p][fd] == None
      ensures r == Err(EBADF) ==> ft == old(ft) && tables == old(tables)
      ensures r != Err(EBADF) ==> r == Ok(0) && tables == Put(old(tables), p, fd, None) &&
                                  ft == Released(old(ft), old(tables)[p][fd].value)
      ensures r != Err(EBADF) ==> var i := old(tables)[p][fd].value; ft[i].vn == None <==> Refs(tables, i) == {}
    {
      if fd < 0 || fd >= OPEN_MAX { return Err(EBADF); }
      if tables[p][fd] == None { return Err(EBADF); }
      var e := CloseDescriptor(p, fd);
      assert e == None;
      r := Ok(0);
    }

    /** sys_dup2. */
    method SysDup2(p: Pid, oldfd: int, newfd: int) returns (r: Result)
      requires Valid() && p in tables
      modifies this
      ensures Valid()
      ensures r == Err(EBADF) <==> !(0 <= oldfd < OPEN_MAX) || !(0 <= newfd < OPEN_MAX) ||
                                   (oldfd != newfd && old(tables)[p][oldfd] == None)
      ensures r == Err(EBADF) ==> ft == old(ft) && tables == old(tables)
      ensures r != Err(EBADF) ==> r == Ok(newfd)
      ensures r != Err(EBADF) && oldfd == newfd ==> ft == old(ft) && tables == old(tables)
      ensures r != Err(EBADF) && oldfd != newfd ==> tables == Put(old(tables), p, newfd, old(tables)[p][oldfd]) &&
                                                    ft == Duplicated(old(ft), old(tables)[p], oldfd, newfd)
    {
      if oldfd < 0 || newfd < 0 || oldfd >= OPEN_MAX || newfd >= OPEN_MAX { return Err(EBADF); }
      if oldfd == newfd { return Ok(newfd); }
      if tables[p][oldfd] == None { return Err(EBADF); }
      var i := tables[p][oldfd].value;
      if tables[p][newfd].Some? {
        var e := CloseDescriptor(p, newfd);
        assert e == None;
        assert tables[p][newfd := Some(i)] == old(tables)[p][newfd := Some(i)];
      }
      ShareSlot(p, oldfd, newfd);
      r := Ok(newfd);
    }

    /** The end of sys_dup2: the empty newfd is made to refer to what oldfd does. */
    method ShareSlot(p: Pid, oldfd: nat, newfd: nat)
      requires Valid() && p in tables && oldfd < OPEN_MAX && newfd < OPEN_MAX
      requires tables[p][oldfd].Some? && tables[p][newfd] == None
      modifies this
      ensures Valid() && tables == Put(old(tables), p, newfd, old(tables)[p][oldfd])
      ensures old(tables)[p][oldfd].value < |old(ft)| && ft == Shared(old(ft), old(tables)[p][oldfd].value)
    {
      var i := tables[p][oldfd].value;
      assert (p, oldfd) in Refs(tables, i);
      AddKeeps(ft, tables, p, newfd, i);
      tables := Put(tables, p, newfd, Some(i));
      ft := ft[i := ft[i].(countRef := ft[i].countRef + 1)];
    }

    /** proc_file_table_copy: the child's empty table becomes a copy. */
    method CopyTable(src: Pid, dst: Pid)
      requires Valid() && src in tables && dst in tables && src != dst
      requires forall k :: 0 <= k < OPEN_MAX ==> tables[dst][k] == None
      modifies this
      ensures Valid() && tables == old(tables)[dst := old(tables)[src]]
      ensures forall i :: 0 <= i < SYSTEM_OPEN_MAX ==> ft[i].vn == old(ft)[i].vn
    {
      var fd := 0;
      while fd < OPEN_MAX
        invariant 0 <= fd <= OPEN_MAX && Valid() && src in tables && dst in tables
        invariant tables == old(tables)[dst := tables[dst]]
        invariant forall i :: 0 <= i < SYSTEM_OPEN_MAX ==> ft[i].vn == old(ft)[i].vn
        invariant forall k :: 0 <= k < fd ==> tables[dst][k] == tables[src][k]
        invariant forall k :: fd <= k < OPEN_MAX ==> tables[dst][k] == None
      {
        var of := tables[src][fd];
        if of.Some? {
          assert (src, fd) in Refs(tables, of.value);
          AddKeeps(ft, tables, dst, fd, of.value);
          ft := ft[of.value := ft[of.value].(countRef := ft[of.value].countRef + 1)];
          tables := Put(tables, dst, fd, of);
        } else {
          assert tables[dst][fd := of] == tables[dst];
        }
        fd := fd + 1;
      }
      assert tables[dst] == tables[src];
    }

    /** The descriptor loop of proc_destroy. A last reference closes the vnode but
        leaves it in the slot, which stays occupied. */
    method DestroyProcess(p: Pid)
      requires Valid() && p in tables
      modifies this
      ensures Valid() && tables == old(tables) - {p}
      ensures forall i :: 0 <= i < SYSTEM_OPEN_MAX ==> ft[i].vn == old(ft)[i].vn
    {
      var fd := 0;
      while fd < OPEN_MAX
        invariant 0 <= fd <= OPEN_MAX && Valid() && p in tables
        invariant tables == old(tables)[p := tables[p]]
        invariant forall i :: 0 <= i < SYSTEM_OPEN_MAX ==> ft[i].vn == old(ft)[i].vn
        invariant forall k :: 0 <= k < fd ==> tables[p][k] == None
      {
        if tables[p][fd].Some? {
          var i := tables[p][fd].value;
          DropKeeps(ft, tables, p, fd, i, ft[i].(countRef := ft[i].countRef - 1));
          ft := ft[i := ft[i].(countRef := ft[i].countRef - 1)];
        } else {
          assert tables[p][fd := None] == tables[p] && tables[p := tables[p]] == tables;
        }
        tables := Put(tables, p, fd, None);
        fd := fd + 1;
      }
      forall i ensures Refs(tables - {p}, i) == Refs(tables, i) {}
      tables := tables - {p};
    }
  }

  /** The first reference to a slot just filled. */
  lemma ReferFirst(ft: seq<OpenFile>, tables: map<Pid, Table>, p: Pid, fd: nat, i: nat, v: Vnode)
    requires Counted(ft, tables) && p in tables && fd < OPEN_MAX && tables[p][fd] == None
    requires i < |ft| && ft[i].vn == None
    ensures Counted(ft[i := OpenFile(Some(v), 1)], Put(tables, p, fd, Some(i)))
  {
    FillKeeps(ft, tables, i, OpenFile(Some(v), 0));
    var ft0 := ft[i := OpenFile(Some(v), 0)];
    AddKeeps(ft0, tables, p, fd, i);
    assert ft0[i := OpenFile(Some(v), 1)] == ft[i := OpenFile(Some(v), 1)];
  }

  /** Storing over a used descriptor leaves the count of its old file too high,
      unless no descriptor refers to that file any more. */
  lemma OverwriteIff(ft: seq<OpenFile>, tables: map<Pid, Table>, p: Pid, fd: nat, i: nat, v: Vnode)
    requires Counted(ft, tables) && p in tables && fd < OPEN_MAX && tables[p][fd].Some?
    requires i < |ft| && ft[i].vn == None
    ensures tables[p][fd].value < |ft|
    ensures Counted(ft[i := OpenFile(Some(v), 1)], Put(tables, p, fd, Some(i))) <==> ft[tables[p][fd].value].countRef == 1
  {
    var j, ft', tables' := tables[p][fd].value, ft[i := OpenFile(Some(v), 1)], Put(tables, p, fd, Some(i));
    FillKeeps(ft, tables, i, OpenFile(Some(v), 1));
    forall k | 0 <= k < |ft| ensures Refs(tables', k) ==
      if k == i then {(p, fd)} else if k == j then Refs(tables, k) - {(p, fd)} else Refs(tables, k)
    {
      RefsPut(tables, p, fd, Some(i), k);
    }
    RefsPut(tables, p, fd, Some(i), j);
    assert (p, fd) in Refs(tables, j);
    assert |Refs(tables', j)| == |Refs(tables, j)| - 1;
    if ft[j].countRef != 1 { assert Refs(tables', j) != {}; }
  }
}
