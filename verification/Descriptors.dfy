/** The descriptor table of a process, and the counts of open files that all tables share. */
module Descriptors {
  /** What a table entry names: file 0 is none; writer is what O_WRONLY and O_RDWR come to. */
  datatype Descriptor = Descriptor(file: int, offset: nat, cloexec: bool, writer: bool)

  type Table = map<nat, Descriptor>

  /** The reader or the writer count of a file. */
  datatype Counter = Counter(file: int, writer: bool)

  function CounterOf(d: Descriptor): Counter {
    Counter(d.file, d.writer)
  }

  // ---------- counting ----------

  /** The entries of a table that a counter counts. */
  ghost function Naming(t: Table, k: Counter): set<nat> {
    set fd | fd in t && t[fd].file != 0 && CounterOf(t[fd]) == k
  }

  ghost function Total(tables: seq<Table>, k: Counter): int {
    if tables == [] then 0 else |Naming(tables[0], k)| + Total(tables[1..], k)
  }

  /** The counts follow a table through a change. */
  ghost predicate Tracks(c: map<Counter, int>, c': map<Counter, int>, t: Table, t': Table) {
    forall k {:trigger Count(c', k)} :: Count(c', k) - Count(c, k) == |Naming(t', k)| - |Naming(t, k)|
  }

  function Count(c: map<Counter, int>, k: Counter): int {
    if k in c then c[k] else 0
  }

  lemma {:induction false} TotalSet(tables: seq<Table>, i: nat, t: Table, k: Counter)
    requires i < |tables|
    ensures Total(tables[i := t], k) == Total(tables, k) - |Naming(tables[i], k)| + |Naming(t, k)|
  {
    if i == 0 {
      assert tables[i := t][1..] == tables[1..];
    } else {
      assert tables[i := t][1..] == tables[1..][i - 1 := t];
      TotalSet(tables[1..], i - 1, t, k);
    }
  }

  /** Each count is the number of entries, over all tables, that name the file. */
  ghost predicate CountsAll(c: map<Counter, int>, tables: seq<Table>) {
    forall k {:trigger Count(c, k)} :: Count(c, k) == Total(tables, k)
  }

  /** If the counts are those of all tables, they still are when one table and the counts change together. */
  lemma Conserved(tables: seq<Table>, i: nat, t: Table, c: map<Counter, int>, c': map<Counter, int>)
    requires i < |tables| && Tracks(c, c', tables[i], t) && CountsAll(c, tables)
    ensures CountsAll(c', tables[i := t])
  {
    forall k ensures Count(c', k) == Total(tables[i := t], k) {
      TotalSet(tables, i, t, k);
      assert Count(c', k) - Count(c, k) == |Naming(t, k)| - |Naming(tables[i], k)|;
    }
  }

  /** No file is counted below what one table has of it. */
  lemma CountsAtLeast(c: map<Counter, int>, tables: seq<Table>, i: nat)
    requires i < |tables| && CountsAll(c, tables)
    ensures forall k {:trigger Count(c, k)} :: Count(c, k) >= |Naming(tables[i], k)|
  {
    forall k ensures Count(c, k) >= |Naming(tables[i], k)| {
      TotalAtLeast(tables, i, k);
    }
  }

  /** A new table, still empty, changes no count. */
  lemma CountsNew(c: map<Counter, int>, tables: seq<Table>)
    requires CountsAll(c, tables)
    ensures CountsAll(c, tables + [map[]])
  {
    forall k ensures Count(c, k) == Total(tables + [map[]], k) {
      TotalNew(tables, k);
    }
  }

  lemma {:induction false} TotalNew(tables: seq<Table>, k: Counter)
    ensures Total(tables + [map[]], k) == Total(tables, k)
  {
    if tables == [] {
      assert Total([map[]], k) == |Naming(map[], k)|;
      assert Naming(map[], k) == {};
    } else {
      assert (tables + [map[]])[1..] == tables[1..] + [map[]];
      TotalNew(tables[1..], k);
    }
  }

  /** No count is below what one table needs. */
  lemma {:induction false} TotalAtLeast(tables: seq<Table>, i: nat, k: Counter)
    requires i < |tables|
    ensures Total(tables, k) >= |Naming(tables[i], k)|
  {
    if i > 0 {
      TotalAtLeast(tables[1..], i - 1, k);
    } else {
      TotalPositive(tables[1..], k);
    }
  }

  lemma {:induction false} TotalPositive(tables: seq<Table>, k: Counter)
    ensures Total(tables, k) >= 0
  {
    if tables != [] { TotalPositive(tables[1..], k); }
  }

  lemma NamingWithout(t: Table, fd: nat, k: Counter)
    requires fd in t
    ensures |Naming(t - {fd}, k)| == |Naming(t, k)| - (if t[fd].file != 0 && CounterOf(t[fd]) == k then 1 else 0)
  {
    if t[fd].file != 0 && CounterOf(t[fd]) == k {
      assert Naming(t, k) == Naming(t - {fd}, k) + {fd};
    } else {
      assert Naming(t, k) == Naming(t - {fd}, k);
    }
  }

  lemma NamingWith(t: Table, fd: nat, d: Descriptor, k: Counter)
    requires fd !in t
    ensures |Naming(t[fd := d], k)| == |Naming(t, k)| + (if d.file != 0 && CounterOf(d) == k then 1 else 0)
  {
    assert t[fd := d] - {fd} == t;
    NamingWithout(t[fd := d], fd, k);
  }

  // ---------- the files ----------

  /** The counts kept by the files, and the counters that a close has brought down to zero. */
  class Files {
    var counts: map<Counter, int>
    ghost var drained: set<Counter>

    constructor ()
      ensures counts == map[] && drained == {}
    {
      counts := map[];
      drained := {};
    }

    /** What the constructors of FileDescriptor do. */
    method Opened(d: Descriptor)
      modifies this`counts
      ensures forall k {:trigger Count(counts, k)} ::
        Count(counts, k) == Count(old(counts), k) + (if d.file != 0 && CounterOf(d) == k then 1 else 0)
    {
      if d.file != 0 {
        counts := counts[CounterOf(d) := Count(counts, CounterOf(d)) + 1];
      }
    }

    /** What its destructor does. */
    method Closed(d: Descriptor)
      modifies this
      ensures forall k {:trigger Count(counts, k)} ::
        Count(counts, k) == Count(old(counts), k) - (if d.file != 0 && CounterOf(d) == k then 1 else 0)
      ensures drained == old(drained) + (if d.file != 0 && Count(counts, CounterOf(d)) <= 0 then {CounterOf(d)} else {})
    {
      if d.file != 0 {
        counts := counts[CounterOf(d) := Count(counts, CounterOf(d)) - 1];
        if Count(counts, CounterOf(d)) <= 0 {
          drained := drained + {CounterOf(d)};
        }
      }
    }
  }

  // ---------- one table ----------

  /** fd is the lowest number that is not marked. */
  ghost predicate Lowest(marked: set<nat>, fd: nat) {
    fd !in marked && forall i: nat :: i < fd ==> i in marked
  }

  /** What freeMultipleFds selects; a last number of -1 is the largest there is. */
  predicate Selected(t: Table, fd: nat, onlyCloExec: bool, first: nat, last: int) {
    fd in t && first <= fd && (last < 0 || fd <= last) && (onlyCloExec ==> t[fd].cloexec)
  }

  ghost function AllSelected(t: Table, onlyCloExec: bool, first: nat, last: int): set<nat> {
    set fd | fd in t && Selected(t, fd, onlyCloExec, first, last)
  }

  ghost function Remaining(t: Table, gone: set<nat>): Table {
    t - gone
  }

  /** What dup2 returns; -1 stands for EBADF. */
  function Dup2Result(t: Table, fd1: nat, fd2: int): int {
    if fd2 < 0 then -1 else if fd1 == fd2 then fd2 else if fd1 !in t then -1 else fd2
  }

  /** What the POSIX page of dup2 asks for: failure exactly if fd1 is not open, or fd2 is no number. */
  predicate PosixDup2(t: Table, fd1: nat, fd2: int, r: int) {
    r == if fd1 !in t || fd2 < 0 then -1 else fd2
  }

  /** dup2 returns what POSIX asks for unless a number that is not open is duplicated onto itself. */
  lemma Dup2RightExactly(t: Table, fd1: nat, fd2: int)
    ensures PosixDup2(t, fd1, fd2, Dup2Result(t, fd1, fd2)) <==> fd2 < 0 || fd1 != fd2 || fd1 in t
    ensures !PosixDup2(map[], 7, 7, Dup2Result(map[], 7, 7))
  {
  }

  /** The copy constructor copies all flags of the descriptor. */
  function DupOf(d: Descriptor): Descriptor {
    Descriptor(d.file, d.offset, d.cloexec, d.writer)
  }

  /** What the POSIX page of dup asks for: the same open file, with the close-on-exec flag clear. */
  predicate PosixDup(d: Descriptor, r: Descriptor) {
    r.file == d.file && r.writer == d.writer && r.offset == d.offset && !r.cloexec
  }

  /** dup gives what POSIX asks for exactly if the flag of the original is clear. */
  lemma DupRightExactly(d: Descriptor)
    ensures PosixDup(d, DupOf(d)) <==> !d.cloexec
    ensures !PosixDup(Descriptor(1, 0, true, false), DupOf(Descriptor(1, 0, true, false)))
  {
  }

  class FdTable {
    var fdMap: Table
    var nextFd: nat
    var fdBitmap: set<nat>
    var lastFd: nat

    /** Everything below lastFd is marked. */
    ghost predicate Packed()
      reads this`lastFd, this`fdBitmap
    {
      forall i: nat :: i < lastFd ==> i in fdBitmap
    }

    /** Everything below lastFd is marked, nothing from nextFd on is, and every entry is marked. */
    ghost predicate Valid()
      reads this
    {
      && Packed()
      && (forall i :: i in fdBitmap ==> i < nextFd)
      && fdMap.Keys <= fdBitmap
    }

    lemma StartPacked()
      requires lastFd == 0
      ensures Packed()
    {
    }

    /** A new table; that of a forked process inherits nextFd. */
    constructor (next: nat)
      ensures Valid() && fdMap == map[] && fdBitmap == {}
    {
      fdMap, nextFd, fdBitmap, lastFd := map[], next, {}, 0;
    }

    /** getFd: the lowest number that is not marked, as POSIX wants it. */
    method GetFd() returns (fd: nat)
      requires Valid()
      modifies this`nextFd, this`fdBitmap, this`lastFd
      ensures Valid() && Lowest(old(fdBitmap), fd) && fdBitmap == old(fdBitmap) + {fd}
    {
      var i := lastFd;
      while i < nextFd
        invariant lastFd <= i && forall j: nat :: j < i ==> j in fdBitmap
      {
        if i !in fdBitmap {
          lastFd := i;
          fdBitmap := fdBitmap + {i};
          return i;
        }
        i := i + 1;
      }
      fd := nextFd;
      fdBitmap := fdBitmap + {fd};
      nextFd := nextFd + 1;
    }

    /** allocateFd. */
    method AllocateFd(fd: nat)
      requires Valid()
      modifies this`nextFd, this`fdBitmap
      ensures Valid() && fdBitmap == old(fdBitmap) + {fd}
    {
      if fd >= nextFd {
        nextFd := fd + 1;
      }
      fdBitmap := fdBitmap + {fd};
    }

    /** freeFd: the entry, if there is one, is gone, and the count of its file is lower. */
    method FreeFd(fd: nat, files: Files)
      requires Valid()
      modifies this`fdMap, this`fdBitmap, this`lastFd, files
      ensures Valid() && fdBitmap == old(fdBitmap) - {fd} && fdMap == old(fdMap) - {fd}
      ensures Tracks(old(files.counts), files.counts, old(fdMap), fdMap)
      ensures old(files.drained) <= files.drained
      ensures forall k :: k in files.drained - old(files.drained) ==> k.file != 0 && Count(files.counts, k) <= 0
    {
      ghost var c, t := files.counts, fdMap;
      fdBitmap := fdBitmap - {fd};
      if fd in fdMap {
        var d := fdMap[fd];
        fdMap := fdMap - {fd};
        files.Closed(d);
        forall k ensures Count(files.counts, k) - Count(c, k) == |Naming(fdMap, k)| - |Naming(t, k)| {
          NamingWithout(t, fd, k);
        }
      } else {
        assert fdMap - {fd} == fdMap;
      }
      if fd < lastFd {
        lastFd := fd;
      }
    }

    /** addFileDescriptor: the entry replaces what was there. */
    method AddFileDescriptor(fd: nat, d: Descriptor, files: Files)
      requires Valid()
      modifies this, files
      ensures Valid() && fdBitmap == old(fdBitmap) + {fd} && fdMap == old(fdMap)[fd := d]
      ensures Tracks(old(files.counts), files.counts, old(fdMap), old(fdMap) - {fd})
      ensures old(files.drained) <= files.drained
      ensures forall k :: k in files.drained - old(files.drained) ==> k.file != 0 && Count(files.counts, k) <= 0
    {
      FreeFd(fd, files);
      AllocateFd(fd);
      fdMap := fdMap[fd := d];
    }

    /** getFd, a new descriptor, and addFileDescriptor, as the callers of open do it. */
    method Install(d: Descriptor, files: Files) returns (fd: nat)
      requires Valid()
      modifies this, files
      ensures Valid() && Lowest(old(fdBitmap), fd) && fdBitmap == old(fdBitmap) + {fd} && fdMap == old(fdMap)[fd := d]
      ensures Tracks(old(files.counts), files.counts, old(fdMap), fdMap)
    {
      ghost var c, t := files.counts, fdMap;
      fd := GetFd();
      files.Opened(d);
      ghost var c1 := files.counts;
      AddFileDescriptor(fd, d, files);
      TracksAdded(c, c1, files.counts, t, fd, d);
    }

    /** dup: the new entry has the lowest free number. */
    method Dup(fd: nat, files: Files) returns (ok: bool, newFd: nat)
      requires Valid()
      modifies this, files
      ensures Valid() && ok == (fd in old(fdMap))
      ensures ok ==> Lowest(old(fdBitmap), newFd) && fdBitmap == old(fdBitmap) + {newFd} && fdMap == old(fdMap)[newFd := DupOf(old(fdMap)[fd])]
      ensures !ok ==> fdMap == old(fdMap) && fdBitmap == old(fdBitmap)
      ensures Tracks(old(files.counts), files.counts, old(fdMap), fdMap)
    {
      ok, newFd := fd in fdMap, 0;
      if !ok {
        return;
      }
      newFd := Install(DupOf(fdMap[fd]), files);
    }

    /**
     * dup2: the entry replaces what was there, without its close-on-exec flag. The file is counted
     * before the old entry is closed, so that its count never comes down to zero on the way.
     */
    method Dup2(fd1: nat, fd2: int, files: Files) returns (r: int)
      requires Valid() && forall k {:trigger Count(files.counts, k)} :: Count(files.counts, k) >= |Naming(fdMap, k)|
      modifies this, files
      ensures Valid()
      ensures r == Dup2Result(old(fdMap), fd1, fd2)
      ensures r < 0 || fd1 == fd2 ==> fdMap == old(fdMap) && fdBitmap == old(fdBitmap)
      ensures r >= 0 && fd1 != fd2 ==>
        fdMap == old(fdMap)[fd2 := old(fdMap)[fd1].(cloexec := false)] && fdBitmap == old(fdBitmap) + {fd2}
      ensures Tracks(old(files.counts), files.counts, old(fdMap), fdMap)
      ensures r >= 0 && fd1 in old(fdMap) && CounterOf(old(fdMap)[fd1]) in files.drained ==> CounterOf(old(fdMap)[fd1]) in old(files.drained)
    {
      ghost var c, t, dry := files.counts, fdMap, files.drained;
      if fd2 < 0 {
        return -1;
      }
      if fd1 == fd2 {
        return fd2;
      }
      if fd1 !in fdMap {
        return -1;
      }
      var d := fdMap[fd1];
      files.Opened(d);
      ghost var c1 := files.counts;
      AddFileDescriptor(fd2, d, files);
      ghost var c2 := files.counts;
      StillCounted(c, c1, c2, t, fd1, fd2, d);
      fdMap := fdMap[fd2 := fdMap[fd2].(cloexec := false)];
      TracksAdded(c, c1, c2, t, fd2, d.(cloexec := false));
      return fd2;
    }

    /** close. */
    method Close(fd: nat, files: Files) returns (ok: bool)
      requires Valid()
      modifies this, files
      ensures Valid() && ok == (fd in old(fdMap)) && fdMap == old(fdMap) - {fd}
      ensures fdBitmap == if ok then old(fdBitmap) - {fd} else old(fdBitmap)
      ensures Tracks(old(files.counts), files.counts, old(fdMap), fdMap)
    {
      ok := fd in fdMap;
      if ok {
        FreeFd(fd, files);
      } else {
        assert fdMap - {fd} == fdMap;
      }
    }

    /** A number is no longer marked, and may be the next to be given out. */
    method Unmark(fd: nat)
      requires Packed()
      modifies this`fdBitmap, this`lastFd
      ensures Packed() && fdBitmap == old(fdBitmap) - {fd}
    {
      fdBitmap := fdBitmap - {fd};
      if fd < lastFd {
        lastFd := fd;
      }
    }

    /**
     * freeMultipleFds: exactly the selected entries go, with their marks; other marks stay, also
     * those of numbers that are reserved but have no entry.
     */
    method FreeMultipleFds(onlyCloExec: bool, first: nat, last: int, files: Files)
      requires Valid() && last >= -1 && (last < 0 || first < last)
      modifies this`fdMap, this`fdBitmap, this`lastFd, files
      ensures Valid()
      ensures var gone := AllSelected(old(fdMap), onlyCloExec, first, last);
        fdMap == old(fdMap) - gone && fdBitmap == old(fdBitmap) - gone
      ensures Tracks(old(files.counts), files.counts, old(fdMap), fdMap)
    {
      hide Tracks, Count, Naming, Selected, Remaining, AllSelected, Packed;
      ghost var t := fdMap;
      var all := first == 0 && last == -1 && !onlyCloExec;
      if all {
        lastFd := 0;
        StartPacked();
      }
      SelectedFrom(t, onlyCloExec, first, last);
      var fdsToRemove := CloseSelected(onlyCloExec, first, last, files);
      RemainingIs(t, fdsToRemove);
      if all {
        EveryOne(t);
        fdMap := map[];
      } else {
        fdMap := fdMap - fdsToRemove;
      }
    }

    /** The loop of freeMultipleFds; it leaves the map as it is. */
    method CloseSelected(onlyCloExec: bool, first: nat, last: int, files: Files) returns (fdsToRemove: set<nat>)
      requires Packed()
      modifies this`fdBitmap, this`lastFd, files
      ensures Packed() && fdsToRemove == AllSelected(fdMap, onlyCloExec, first, last)
      ensures fdBitmap == old(fdBitmap) - fdsToRemove
      ensures Tracks(old(files.counts), files.counts, fdMap, Remaining(fdMap, fdsToRemove))
    {
      hide Tracks, Count, Naming, Selected, Remaining, AllSelected, Packed;
      ghost var c, bits := files.counts, fdBitmap;
      ghost var sel := AllSelected(fdMap, onlyCloExec, first, last);
      var todo := fdMap.Keys;
      fdsToRemove := {};
      NoneRemoved(c, fdMap);
      SelectedFrom(fdMap, onlyCloExec, first, last);
      while todo != {}
        invariant todo <= fdMap.Keys && fdsToRemove == sel - todo
        invariant fdBitmap == bits - fdsToRemove && Packed()
        invariant Tracks(c, files.counts, fdMap, Remaining(fdMap, fdsToRemove))
        decreases |todo|
      {
        var fd :| fd in todo;
        SelectedIs(fdMap, fd, onlyCloExec, first, last);
        OneLess(sel, todo, fd, bits);
        todo := todo - {fd};
        if Selected(fdMap, fd, onlyCloExec, first, last) {
          ghost var c1 := files.counts;
          files.Closed(fdMap[fd]);
          Unmark(fd);
          TracksRemoved(c, c1, files.counts, fdMap, fdsToRemove, fd);
          fdsToRemove := fdsToRemove + {fd};
        }
      }
    }

    /** What copyDescriptors does in the place of addFileDescriptor. */
    method PlaceCopy(fd: nat, d: Descriptor)
      requires Valid()
      modifies this`fdMap, this`nextFd, this`fdBitmap
      ensures Valid() && fdMap == old(fdMap)[fd := d] && fdBitmap == old(fdBitmap) + {fd}
    {
      if fd >= nextFd {
        nextFd := fd + 1;
      }
      fdBitmap := fdBitmap + {fd};
      fdMap := fdMap[fd := d];
    }

    /** copyDescriptors: afterwards the entries are those of the other table. */
    method CopyDescriptors(from: FdTable, files: Files)
      requires Valid() && from != this
      modifies this, files
      ensures Valid() && fdMap == from.fdMap && fdBitmap == old(fdBitmap) - old(fdMap).Keys + from.fdMap.Keys
      ensures Tracks(old(files.counts), files.counts, old(fdMap), fdMap)
    {
      hide Valid, Tracks, Count, Naming, Selected, Remaining, AllSelected;
      ghost var c, t, bits0 := files.counts, fdMap, fdBitmap;
      FreeMultipleFds(false, 0, -1, files);
      EveryOne(t);
      ghost var bits, c0 := fdBitmap, files.counts;
      NoneRemoved(c0, t);
      var src := from.fdMap;
      var todo := src.Keys;
      NothingLeft(src);
      while todo != {}
        invariant Valid() && todo <= src.Keys && fdMap == Remaining(src, todo) && from.fdMap == src
        invariant fdBitmap == bits + (src.Keys - todo)
        invariant Tracks(c0, files.counts, map[], fdMap)
        decreases |todo|
      {
        var newFd :| newFd in todo;
        ghost var c1, t1 := files.counts, fdMap;
        OneMore(src, todo, newFd, bits);
        todo := todo - {newFd};
        files.Opened(src[newFd]);
        PlaceCopy(newFd, src[newFd]);
        TracksOpened(c0, c1, files.counts, t1, newFd, src[newFd]);
      }
      NothingLeft(src);
      TracksThen(c, c0, files.counts, t, map[], fdMap);
    }
  }

  lemma NothingLeft(src: Table)
    ensures Remaining(src, {}) == src && Remaining(src, src.Keys) == map[] && src.Keys - src.Keys == {} && src.Keys - {} == src.Keys
  {
  }

  lemma OneMore(src: Table, todo: set<nat>, fd: nat, bits: set<nat>)
    requires fd in todo && todo <= src.Keys
    ensures Remaining(src, todo)[fd := src[fd]] == Remaining(src, todo - {fd}) && fd !in Remaining(src, todo)
    ensures bits + (src.Keys - todo) + {fd} == bits + (src.Keys - (todo - {fd}))
  {
  }

  lemma EveryOne(t: Table)
    ensures AllSelected(t, false, 0, -1) == t.Keys && t - t.Keys == map[]
  {
    assert forall fd :: fd in t ==> Selected(t, fd, false, 0, -1);
  }

  lemma NoneRemoved(c: map<Counter, int>, t: Table)
    ensures Tracks(c, c, t, Remaining(t, {})) && Tracks(c, c, map[], map[])
  {
    assert Remaining(t, {}) == t;
  }

  lemma RemainingIs(t: Table, gone: set<nat>)
    ensures Remaining(t, gone) == t - gone
  {
  }

  lemma SelectedFrom(t: Table, onlyCloExec: bool, first: nat, last: int)
    ensures AllSelected(t, onlyCloExec, first, last) <= t.Keys
  {
  }

  lemma SelectedIs(t: Table, fd: nat, onlyCloExec: bool, first: nat, last: int)
    requires fd in t
    ensures fd in AllSelected(t, onlyCloExec, first, last) <==> Selected(t, fd, onlyCloExec, first, last)
  {
  }

  lemma OneLess(sel: set<nat>, todo: set<nat>, fd: nat, bits: set<nat>)
    requires fd in todo
    ensures sel - (todo - {fd}) == sel - todo + (if fd in sel then {fd} else {}) && fd !in sel - todo
    ensures bits - (sel - todo) - {fd} == bits - (sel - todo + {fd})
  {
  }

  lemma TracksThen(c: map<Counter, int>, c1: map<Counter, int>, c2: map<Counter, int>, t: Table, t1: Table, t2: Table)
    requires Tracks(c, c1, t, t1) && Tracks(c1, c2, t1, t2)
    ensures Tracks(c, c2, t, t2)
  {
    forall k ensures Count(c2, k) - Count(c, k) == |Naming(t2, k)| - |Naming(t, k)| {
      assert Count(c1, k) - Count(c, k) == |Naming(t1, k)| - |Naming(t, k)|;
    }
  }

  lemma TracksOpened(c: map<Counter, int>, c1: map<Counter, int>, c2: map<Counter, int>, t: Table, fd: nat, d: Descriptor)
    requires Tracks(c, c1, map[], t) && fd !in t
    requires forall k {:trigger Count(c2, k)} :: Count(c2, k) == Count(c1, k) + (if d.file != 0 && CounterOf(d) == k then 1 else 0)
    ensures Tracks(c, c2, map[], t[fd := d])
  {
    forall k ensures Count(c2, k) - Count(c, k) == |Naming(t[fd := d], k)| - |Naming(map[], k)| {
      NamingWith(t, fd, d, k);
      assert Count(c1, k) - Count(c, k) == |Naming(t, k)| - |Naming(map[], k)|;
    }
  }

  lemma TracksRemoved(c: map<Counter, int>, c1: map<Counter, int>, c2: map<Counter, int>, t: Table, gone: set<nat>, fd: nat)
    requires Tracks(c, c1, t, Remaining(t, gone)) && fd in t && fd !in gone
    requires forall k {:trigger Count(c2, k)} :: Count(c2, k) == Count(c1, k) - (if t[fd].file != 0 && CounterOf(t[fd]) == k then 1 else 0)
    ensures Tracks(c, c2, t, Remaining(t, gone + {fd}))
  {
    forall k ensures Count(c2, k) - Count(c, k) == |Naming(Remaining(t, gone + {fd}), k)| - |Naming(t, k)| {
      assert Remaining(t, gone + {fd}) == Remaining(t, gone) - {fd};
      NamingWithout(Remaining(t, gone), fd, k);
      assert Count(c1, k) - Count(c, k) == |Naming(Remaining(t, gone), k)| - |Naming(t, k)|;
    }
  }

  /** Counted first, and what was in the way taken out: together the counts follow the table. */
  lemma TracksAdded(c: map<Counter, int>, c1: map<Counter, int>, c2: map<Counter, int>, t: Table, fd: nat, d: Descriptor)
    requires forall k {:trigger Count(c1, k)} :: Count(c1, k) == Count(c, k) + (if d.file != 0 && CounterOf(d) == k then 1 else 0)
    requires Tracks(c1, c2, t, t - {fd})
    ensures Tracks(c, c2, t, t[fd := d])
  {
    forall k ensures Count(c2, k) - Count(c, k) == |Naming(t[fd := d], k)| - |Naming(t, k)| {
      assert (t - {fd})[fd := d] == t[fd := d];
      NamingWith(t - {fd}, fd, d, k);
      assert Count(c1, k) == Count(c, k) + (if d.file != 0 && CounterOf(d) == k then 1 else 0);
    }
  }

  /** The file of fd1 is still counted after the old entry at fd2 is closed. */
  lemma StillCounted(c: map<Counter, int>, c1: map<Counter, int>, c2: map<Counter, int>, t: Table, fd1: nat, fd2: nat, d: Descriptor)
    requires fd1 in t && t[fd1] == d && fd1 != fd2
    requires forall k {:trigger Count(c, k)} :: Count(c, k) >= |Naming(t, k)|
    requires forall k {:trigger Count(c1, k)} :: Count(c1, k) == Count(c, k) + (if d.file != 0 && CounterOf(d) == k then 1 else 0)
    requires Tracks(c1, c2, t, t - {fd2})
    ensures d.file != 0 ==> Count(c2, CounterOf(d)) > 0
  {
    var k := CounterOf(d);
    assert Count(c2, k) - Count(c1, k) == |Naming(t - {fd2}, k)| - |Naming(t, k)|;
    assert Count(c1, k) == Count(c, k) + (if d.file != 0 then 1 else 0);
    assert Count(c, k) >= |Naming(t, k)|;
  }

  // ---------- all tables ----------

  function With(t: Table, fd: nat, d: Descriptor): Table {
    t[fd := d]
  }

  /** The tables of all processes, and the files they share. */
  class Kernel {
    const files: Files
    var tables: seq<FdTable>
    ghost var maps: seq<Table>

    /** Every table is in order, and each file's counts are the live descriptors that name it. */
    ghost predicate Valid()
      reads this, files, tables
    {
      && |maps| == |tables|
      && (forall i, j :: 0 <= i < j < |tables| ==> tables[i] != tables[j])
      && (forall i :: 0 <= i < |tables| ==> tables[i].Valid() && tables[i].fdMap == maps[i])
      && CountsAll(files.counts, maps)
    }

    constructor ()
      ensures Valid() && tables == [] && fresh(files)
    {
      files := new Files();
      tables, maps := [], [];
    }

    /** A process without descriptors. */
    method Spawn() returns (t: FdTable)
      requires Valid()
      modifies this
      ensures Valid() && fresh(t) && tables == old(tables) + [t] && maps == old(maps) + [map[]]
      ensures t.fdBitmap == {}
    {
      t := new FdTable(0);
      CountsNew(files.counts, maps);
      tables := tables + [t];
      maps := maps + [map[]];
    }

    /** open: a descriptor for a file, at the lowest free number. */
    method Open(i: nat, d: Descriptor) returns (fd: nat)
      requires Valid() && i < |tables|
      modifies this`maps, files, tables[i]
      ensures Valid() && Lowest(old(tables[i].fdBitmap), fd) && maps == old(maps)[i := With(old(maps)[i], fd, d)]
      ensures tables[i].fdBitmap == old(tables[i].fdBitmap) + {fd}
    {
      hide CountsAll, Tracks, Count, Lowest;
      ghost var c := files.counts;
      fd := tables[i].Install(d, files);
      Conserved(maps, i, tables[i].fdMap, c, files.counts);
      maps := maps[i := tables[i].fdMap];
    }

    method Dup(i: nat, fd: nat) returns (ok: bool, newFd: nat)
      requires Valid() && i < |tables|
      modifies this`maps, files, tables[i]
      ensures Valid() && ok == (fd in old(maps)[i])
      ensures maps == if ok then old(maps)[i := With(old(maps)[i], newFd, DupOf(old(maps)[i][fd]))] else old(maps)
      ensures ok ==> Lowest(old(tables[i].fdBitmap), newFd)
      ensures tables[i].fdBitmap == old(tables[i].fdBitmap) + (if ok then {newFd} else {})
    {
      hide CountsAll, Tracks, Count, Lowest;
      ghost var c := files.counts;
      ok, newFd := tables[i].Dup(fd, files);
      Conserved(maps, i, tables[i].fdMap, c, files.counts);
      maps := maps[i := tables[i].fdMap];
    }

    /** No counter of the duplicated file comes down to zero on the way. */
    method Dup2(i: nat, fd1: nat, fd2: int) returns (r: int)
      requires Valid() && i < |tables|
      modifies this`maps, files, tables[i]
      ensures Valid() && r == Dup2Result(old(maps)[i], fd1, fd2)
      ensures maps == if r < 0 || fd1 == fd2 then old(maps) else old(maps)[i := With(old(maps)[i], fd2, old(maps)[i][fd1].(cloexec := false))]
      ensures tables[i].fdBitmap == old(tables[i].fdBitmap) + (if r < 0 || fd1 == fd2 then {} else {fd2 as nat})
      ensures r >= 0 && fd1 in old(maps)[i] && CounterOf(old(maps)[i][fd1]) in files.drained ==> CounterOf(old(maps)[i][fd1]) in old(files.drained)
    {
      hide CountsAll, Tracks, Count;
      ghost var c := files.counts;
      CountsAtLeast(c, maps, i);
      r := tables[i].Dup2(fd1, fd2, files);
      Conserved(maps, i, tables[i].fdMap, c, files.counts);
      maps := maps[i := tables[i].fdMap];
    }

    method Close(i: nat, fd: nat) returns (ok: bool)
      requires Valid() && i < |tables|
      modifies this`maps, files, tables[i]
      ensures Valid() && ok == (fd in old(maps)[i]) && maps == old(maps)[i := old(maps)[i] - {fd}]
      ensures tables[i].fdBitmap == old(tables[i].fdBitmap) - (if ok then {fd} else {})
    {
      hide CountsAll, Tracks, Count;
      ghost var c := files.counts;
      ok := tables[i].Close(fd, files);
      Conserved(maps, i, tables[i].fdMap, c, files.counts);
      maps := maps[i := tables[i].fdMap];
    }

    /** exec closes what is marked close-on-exec; other callers close ranges, or everything. */
    method CloseMany(i: nat, onlyCloExec: bool, first: nat, last: int)
      requires Valid() && i < |tables| && last >= -1 && (last < 0 || first < last)
      modifies this`maps, files, tables[i]
      ensures Valid() && maps == old(maps)[i := old(maps)[i] - AllSelected(old(maps)[i], onlyCloExec, first, last)]
      ensures tables[i].fdBitmap == old(tables[i].fdBitmap) - AllSelected(old(maps)[i], onlyCloExec, first, last)
    {
      hide CountsAll, Tracks, Count, AllSelected;
      ghost var c := files.counts;
      tables[i].FreeMultipleFds(onlyCloExec, first, last, files);
      Conserved(maps, i, tables[i].fdMap, c, files.counts);
      maps := maps[i := tables[i].fdMap];
    }

    /** fork: the child has a copy of every descriptor of its parent, and no other number is marked in it. */
    method Fork(i: nat)
      requires Valid() && i < |tables|
      modifies this, files
      ensures Valid() && |tables| == |old(tables)| + 1 && tables[..|old(tables)|] == old(tables)
      ensures maps == old(maps) + [old(maps)[i]]
      ensures fresh(tables[|old(tables)|]) && tables[|old(tables)|].fdBitmap == old(maps)[i].Keys
    {
      hide CountsAll, Tracks, Count;
      var parent := tables[i];
      ghost var n, was := |tables|, maps;
      var child := new FdTable(parent.nextFd);
      CountsNew(files.counts, maps);
      ghost var c := files.counts;
      child.CopyDescriptors(parent, files);
      tables := tables + [child];
      Conserved(was + [map[]], n, child.fdMap, c, files.counts);
      maps := was + [child.fdMap];
      assert (was + [map[]])[n := child.fdMap] == maps;
    }
  }
}
