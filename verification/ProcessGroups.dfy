/** Process groups: who leads a group when its members fork and exit, and when its id is free again. */
module ProcessGroups {
  datatype Membership = Leader | Member | NoGroup

  /** ProcessGroupManager. */
  class Manager {
    var groupIds: set<int>

    /** setGroupId. */
    method SetGroupId(id: int)
      modifies this
      ensures groupIds == old(groupIds) + {id}
    {
      groupIds := groupIds + {id};
    }

    /** returnGroupId. */
    method ReturnGroupId(id: int)
      modifies this
      ensures groupIds == old(groupIds) - {id}
    {
      groupIds := groupIds - {id};
    }
  }

  class Process {
    const pid: int
    var group: Group?
    var membership: Membership
    /** There is a session, and this process is its leader. */
    var leadsSession: bool

    constructor (pid: int)
      ensures this.pid == pid && group == null && membership == NoGroup && !leadsSession
    {
      this.pid, group, membership, leadsSession := pid, null, NoGroup, false;
    }

    /** setProcessGroup, with removal from the old group; leaders and memberships are not its business. */
    method SetProcessGroup(g: Group?, manager: Manager)
      modifies this`group, g, group, manager
      ensures group == g
      ensures var g0 := old(group); g0 != null && g0 != g ==> g0.members == Without(old(g0.members), this)
      ensures g != null ==> g.members == (if g == old(group) then Without(old(g.members), this) else old(g.members)) + [this]
      ensures g != null ==> g.leader == old(g.leader)
      ensures var g0 := old(group); g0 != null ==> g0.leader == old(g0.leader)
      ensures manager.groupIds == old(manager.groupIds) + (if g == null then {} else {g.id})
    {
      if group != null {
        var first := group.EraseAll(this);
      }
      group := g;
      if g != null {
        g.members := g.members + [this];
        manager.SetGroupId(g.id);
      }
    }
  }

  class Group {
    const id: int
    var leader: Process?
    var members: seq<Process>

    constructor (id: int, p: Process)
      ensures members == [] && leader == p && this.id == id
    {
      this.id, leader, members := id, p, [];
    }

    /**
     * The members are distinct processes of this group, exactly one of them is the leader, which
     * is the one that leader names, and the id is taken.
     */
    ghost predicate Valid(manager: Manager)
      reads this, members, manager
    {
      && Distinct(members)
      && (forall i :: 0 <= i < |members| ==> members[i].group == this)
      && leader != null && leader in members
      && (forall i :: 0 <= i < |members| ==> members[i].membership == if members[i] == leader then Leader else Member)
      && id in manager.groupIds
    }

    /** The destructor: whoever is left is in no group, and the id is free. */
    method Destroy(manager: Manager)
      requires Distinct(members)
      modifies this, members`group, members`membership, manager
      ensures members == [] && leader == old(leader) && manager.groupIds == old(manager.groupIds) - {id}
      ensures forall p :: p in old(members) ==> p.group == null && p.membership == NoGroup
    {
      var i := 0;
      while i < |members|
        invariant 0 <= i <= |members| && members == old(members)
        invariant forall j :: 0 <= j < i ==> members[j].group == null && members[j].membership == NoGroup
        invariant manager.groupIds == old(manager.groupIds)
        modifies members`group, members`membership
      {
        members[i].membership := NoGroup;
        members[i].group := null;
        i := i + 1;
      }
      manager.ReturnGroupId(id);
      members := [];
    }

    /** Erase the first entry for p, as the loop that breaks after the erasure does. */
    method EraseFirst(p: Process)
      requires Distinct(members) && p in members
      modifies this`members
      ensures members == Without(old(members), p)
    {
      ghost var was := members;
      var i := 0;
      while members[i] != p
        invariant 0 <= i < |members| && p in members[i..] && members == was
        decreases |members| - i
      {
        assert members[i..] == [members[i]] + members[i + 1..];
        i := i + 1;
      }
      WithoutAt(was, p, i);
      members := members[..i] + members[i + 1..];
    }

    /** Erase all entries for p, and find the first process of the rest. */
    method EraseAll(p: Process) returns (first: Process?)
      modifies this`members
      ensures members == Without(old(members), p)
      ensures first == if members == [] then null else members[0]
    {
      var i := 0;
      var kept: seq<Process> := [];
      first := null;
      assert members[..0] == [];
      while i < |members|
        invariant 0 <= i <= |members| && members == old(members) && kept == Without(members[..i], p)
        invariant first == if kept == [] then null else kept[0]
      {
        assert members[..i + 1] == members[..i] + [members[i]];
        WithoutSnoc(members[..i], members[i], p);
        if members[i] != p {
          if first == null {
            first := members[i];
          }
          kept := kept + [members[i]];
        }
        i := i + 1;
      }
      assert members[..|members|] == members;
      members := kept;
    }

    /** The leader leaves: the first of the others is the new leader, or the group is destroyed. */
    method LeaderExit(p: Process, manager: Manager)
      requires Valid(manager) && p == leader
      modifies this, members`group, members`membership, manager
      ensures members == Without(old(members), p)
      ensures members != [] ==> Valid(manager) && manager.groupIds == old(manager.groupIds) && leader == members[0]
      ensures members == [] ==> manager.groupIds == old(manager.groupIds) - {id}
    {
      ghost var was := members;
      ghost var i :| 0 <= i < |was| && was[i] == p;
      WithoutAt(was, p, i);
      WithoutPart(was, p);
      var newLeader := EraseAll(p);
      if newLeader != null {
        ghost var kept := members;
        assert kept == Without(was, p) && newLeader == kept[0] && newLeader in kept;
        newLeader.membership := Leader;
        leader := newLeader;
        forall k | 0 <= k < |kept|
          ensures kept[k].group == this && kept[k].membership == if kept[k] == newLeader then Leader else Member
        {
          assert kept[k] in kept && kept[k] in was && kept[k] != p;
        }
      } else {
        Destroy(manager);
      }
    }

    /** A member leaves. */
    method MemberExit(p: Process, ghost manager: Manager)
      requires Valid(manager) && p in members && p != leader
      modifies this`members
      ensures members == Without(old(members), p) && Valid(manager) && members != []
    {
      ghost var was := members;
      LeaderStays(was, p, leader);
      WithoutPart(was, p);
      EraseFirst(p);
      forall k | 0 <= k < |members|
        ensures members[k].group == this && members[k].membership == if members[k] == leader then Leader else Member
      {
        assert members[k] in members && members[k] in was;
      }
    }

    /**
     * What exit does to the group of p. The group stays valid without p, and with a new leader if p
     * was the leader; it is destroyed, and its id released, exactly when p was its last member.
     */
    method Exit(p: Process, manager: Manager)
      requires Valid(manager) && p in members
      modifies this, members`group, members`membership, manager
      ensures members == Without(old(members), p) && |members| == |old(members)| - 1
      ensures members != [] ==> Valid(manager) && manager.groupIds == old(manager.groupIds)
      ensures members != [] ==> leader == if p == old(leader) then members[0] else old(leader)
      ensures members == [] ==> manager.groupIds == old(manager.groupIds) - {id}
    {
      ghost var i :| 0 <= i < |members| && members[i] == p;
      WithoutAt(members, p, i);
      if p.membership == Member {
        MemberExit(p, manager);
      } else if p.membership == Leader {
        LeaderExit(p, manager);
      }
    }
  }

  ghost predicate Distinct(s: seq<Process>) {
    forall i, j :: 0 <= i < j < |s| ==> s[i] != s[j]
  }

  /** The other processes, in order. */
  function Without(s: seq<Process>, p: Process): seq<Process> {
    if s == [] then [] else (if s[0] == p then [] else [s[0]]) + Without(s[1..], p)
  }

  lemma {:induction false} WithoutSnoc(s: seq<Process>, x: Process, p: Process)
    ensures Without(s + [x], p) == Without(s, p) + (if x == p then [] else [x])
  {
    if s == [] {
      assert ([] + [x])[1..] == [];
    } else {
      assert (s + [x])[1..] == s[1..] + [x];
      WithoutSnoc(s[1..], x, p);
    }
  }

  lemma {:induction false} WithoutNone(s: seq<Process>, p: Process)
    requires p !in s
    ensures Without(s, p) == s
  {
    if s != [] {
      assert s[0] in s;
      WithoutNone(s[1..], p);
    }
  }

  /** Of distinct processes, leaving out one means leaving out one place. */
  lemma {:induction false} WithoutAt(s: seq<Process>, p: Process, i: nat)
    requires i < |s| && s[i] == p && Distinct(s)
    ensures Without(s, p) == s[..i] + s[i + 1..]
    ensures p !in Without(s, p) && |Without(s, p)| == |s| - 1
  {
    if i == 0 {
      WithoutNone(s[1..], p);
    } else {
      assert s[0] != s[i];
      WithoutAt(s[1..], p, i - 1);
      assert [s[0]] + (s[1..][..i - 1] + s[1..][i..]) == s[..i] + s[i + 1..];
    }
  }

  lemma WithoutPart(s: seq<Process>, p: Process)
    requires Distinct(s) && p in s
    ensures Distinct(Without(s, p)) && |Without(s, p)| == |s| - 1 && forall x :: x in Without(s, p) ==> x in s && x != p
  {
    var i :| 0 <= i < |s| && s[i] == p;
    WithoutAt(s, p, i);
  }

  /** The others are all still there. */
  lemma {:induction false} WithoutMembers(s: seq<Process>, p: Process)
    ensures forall x :: x in Without(s, p) <==> x in s && x != p
  {
    if s != [] {
      WithoutMembers(s[1..], p);
      assert s == [s[0]] + s[1..];
    }
  }

  lemma LeaderStays(s: seq<Process>, p: Process, l: Process?)
    requires l != null && l in s && l != p && p in s && Distinct(s)
    ensures l in Without(s, p)
  {
    var i :| 0 <= i < |s| && s[i] == p;
    var j :| 0 <= j < |s| && s[j] == l;
    WithoutAt(s, p, i);
    assert (s[..i] + s[i + 1..])[if j < i then j else j - 1] == l;
  }

  /** The forking constructor: the child is a member of its parent's group, if there is one. */
  method NewChild(parent: Process, pid: int, manager: Manager) returns (child: Process)
    requires parent.group != null ==> parent.group.Valid(manager) && parent in parent.group.members
    modifies parent.group, manager
    ensures fresh(child) && child.pid == pid && child.group == old(parent.group) && !child.leadsSession
    ensures parent.group == old(parent.group)
    ensures child.group != null ==>
      && child.group.Valid(manager) && child.group.members == old(parent.group.members) + [child]
      && child.group.leader == old(parent.group.leader) && child.membership == Member
    ensures child.group == null ==> child.membership == NoGroup
    ensures manager.groupIds == old(manager.groupIds)
  {
    child := new Process(pid);
    child.SetProcessGroup(parent.group, manager);
    if child.group != null {
      child.membership := Member;
    }
  }

  // ---------- all groups ----------

  ghost predicate PidsApart(procs: seq<Process>) {
    Distinct(procs) && forall p, q :: p in procs && q in procs && p.pid == q.pid ==> p == q
  }

  ghost predicate IdsApart(groups: set<Group>) {
    forall g, h :: g in groups && h in groups && g.id == h.id ==> g == h
  }

  /** The processes that run, and the groups that have not been destroyed. */
  class System {
    const manager: Manager
    var procs: seq<Process>
    ghost var groups: set<Group>

    constructor (manager: Manager)
      ensures Valid() && procs == [] && groups == {} && this.manager == manager
    {
      this.manager := manager;
      procs, groups := [], {};
    }

    /** A process is in the list of its group, if it has one. */
    ghost predicate Enrolled(p: Process)
      reads this, p, groups
    {
      if p.group == null then p.membership == NoGroup else p.group in groups && p in p.group.members
    }

    /** The members run, and a process with the id of the group as its own leads it. */
    ghost predicate Owns(g: Group)
      reads this, g
    {
      && (forall i :: 0 <= i < |g.members| ==> g.members[i] in procs)
      && (forall p :: p in procs && p.pid == g.id ==> p == g.leader)
    }

    /** Every group is in order by itself, no two have the same id, and every process is where it says. */
    ghost predicate Valid()
      reads this, manager, procs, groups
    {
      && PidsApart(procs) && IdsApart(groups)
      && (forall p :: p in procs ==> Enrolled(p))
      && (forall g :: g in groups ==> Owns(g) && g.Valid(manager))
    }

    /** No process has this id, and no group is left from one that had. */
    ghost predicate Unused(pid: int)
      reads this
    {
      (forall p :: p in procs ==> p.pid != pid) && (forall g :: g in groups ==> g.id != pid)
    }

    twostate predicate SameGroup(g: Group)
      reads g
    {
      g.members == old(g.members) && g.leader == old(g.leader)
    }

    twostate predicate SameProcess(p: Process)
      reads p
    {
      p.group == old(p.group) && p.membership == old(p.membership)
    }

    /** What a group needs to stay in order. */
    twostate lemma GroupKept(g: Group)
      requires old(Valid()) && g in old(groups) && SameGroup(g) && g.id in manager.groupIds
      requires forall i :: 0 <= i < |g.members| ==> g.members[i] in procs && SameProcess(g.members[i])
      requires forall p :: p in procs && p.pid == g.id ==> p in old(procs)
      ensures Owns(g) && g.Valid(manager)
    {
      assert old(Owns(g) && g.Valid(manager));
    }

    twostate lemma EnrolledKept(p: Process)
      requires old(Valid()) && p in old(procs) && SameProcess(p)
      requires p.group != null ==> p.group in groups && (p in old(p.group.members) ==> p in p.group.members)
      ensures Enrolled(p)
    {
      assert old(Enrolled(p));
    }

    /** A process without a parent of this subsystem. */
    method Spawn(pid: int) returns (p: Process)
      requires Valid() && Unused(pid)
      modifies this
      ensures Valid() && fresh(p) && procs == old(procs) + [p] && groups == old(groups) && p.pid == pid
      ensures p.group == null && p.membership == NoGroup && !p.leadsSession
    {
      p := new Process(pid);
      procs := procs + [p];
    }

    /**
     * exit. All groups stay in order; the group of the process goes, and its id with it, exactly if
     * the process was its last member.
     */
    method Exit(p: Process)
      requires Valid() && p in procs
      modifies this, manager, procs`group, procs`membership, groups
      ensures Valid() && procs == Without(old(procs), p)
      ensures forall q :: q in old(procs) ==> q.leadsSession == old(q.leadsSession)
      ensures old(p.group) == null ==> groups == old(groups) && manager.groupIds == old(manager.groupIds)
      ensures var g := old(p.group); g != null ==>
        && g.members == Without(old(g.members), p)
        && groups == old(groups) - (if g.members == [] then {g} else {})
        && manager.groupIds == old(manager.groupIds) - (if g.members == [] then {g.id} else {})
        && (g.members != [] ==> g.leader == if p == old(g.leader) then g.members[0] else old(g.leader))
      ensures forall h :: h in old(groups) && h != old(p.group) ==> SameGroup(h)
    {
      if p.group != null {
        ExitGroup(p);
      }
      procs := Without(procs, p);
      AfterExit(p);
    }

    /** The part of exit that removes group membership. */
    method ExitGroup(p: Process)
      requires Valid() && p in procs && p.group != null
      modifies this`groups, manager, procs`group, procs`membership, groups
      ensures var g := old(p.group);
        && g in old(groups) && groups == old(groups) - (if g.members == [] then {g} else {})
        && g.members == Without(old(g.members), p)
        && manager.groupIds == old(manager.groupIds) - (if g.members == [] then {g.id} else {})
        && (g.members != [] ==> g.Valid(manager) && g.leader == if p == old(g.leader) then g.members[0] else old(g.leader))
        && (g.members == [] ==> old(g.leader) == p)
        && (forall h :: h in old(groups) && h != g ==> SameGroup(h) && h.id in manager.groupIds)
        && (forall q :: q in procs && old(q.group) != g ==> SameProcess(q))
    {
      var g := p.group;
      InGroup(p);
      if p != g.leader { LeaderStays(g.members, p, g.leader); }
      g.Exit(p, manager);
      if g.members == [] {
        groups := groups - {g};
      }
    }

    /** fork. */
    method Fork(parent: Process, pid: int) returns (child: Process)
      requires Valid() && parent in procs && Unused(pid)
      modifies this, manager, groups
      ensures Valid() && fresh(child) && procs == old(procs) + [child] && groups == old(groups) && child.pid == pid
      ensures !child.leadsSession
      ensures child.group == old(parent.group) && manager.groupIds == old(manager.groupIds)
      ensures child.group != null ==> child.membership == Member && child.group.members == old(parent.group.members) + [child]
      ensures forall h :: h in groups && h != child.group ==> SameGroup(h)
    {
      if parent.group != null { InGroup(parent); }
      child := NewChild(parent, pid, manager);
      procs := procs + [child];
      AfterFork(child);
    }

    /** A new group for p, which leaves the one it is in, as setsid and setpgid found it. */
    method Found(p: Process)
      modifies p`group, p`membership, p.group, manager
      ensures fresh(p.group) && p.group.members == [p] && p.group.leader == p && p.group.id == p.pid && p.membership == Leader
      ensures manager.groupIds == old(manager.groupIds) + {p.pid}
      ensures var g := old(p.group); g != null ==> g.members == Without(old(g.members), p) && g.leader == old(g.leader)
    {
      var g := new Group(p.pid, p);
      p.SetProcessGroup(g, manager);
      p.membership := Leader;
    }

    /** The group with a given id, as setpgid looks for it. */
    method FindGroup(pgid: int) returns (g: Group?)
      requires Valid()
      ensures g != null ==> g in groups && g.id == pgid
      ensures g == null ==> forall h :: h in groups ==> h.id != pgid
    {
      var i := 0;
      while i < |procs|
        invariant 0 <= i <= |procs|
        invariant forall j :: 0 <= j < i ==> procs[j].group == null || procs[j].group.id != pgid
      {
        assert procs[i] in procs && Enrolled(procs[i]);
        if procs[i].group != null && procs[i].group.id == pgid {
          return procs[i].group;
        }
        i := i + 1;
      }
      g := null;
      forall h | h in groups ensures h.id != pgid {
        assert Owns(h) && h.Valid(manager);
        var k :| 0 <= k < |h.members| && h.members[k] == h.leader;
        assert h.members[k] in procs;
      }
    }

    /**
     * setsid, which the leader of a group may not call. The caller gets a group of its own. If it
     * leaves one other process behind, that group is destroyed although its leader is still there.
     * The frame says that nobody else comes to lead a session, or no longer leads one.
     */
    method SetSid(p: Process) returns (r: int)
      requires Valid() && p in procs
      modifies this, manager, procs`group, procs`membership, p`leadsSession, groups
      ensures Valid() && procs == old(procs)
      ensures r == if old(p.membership) == Leader then -1 else p.pid
      ensures old(p.membership) == Leader ==>
        groups == old(groups) && SameProcess(p) && p.leadsSession == old(p.leadsSession) && manager.groupIds == old(manager.groupIds)
      ensures old(p.membership) != Leader ==>
        p.leadsSession && p.membership == Leader && p.group != null && fresh(p.group) && p.group.members == [p] && p.group.id == p.pid
      ensures var g := old(p.group); old(p.membership) != Leader ==>
        && groups == old(groups) - (if g != null && |old(g.members)| == 2 then {g} else {}) + {p.group}
        && (g in groups ==> g.members == Without(old(g.members), p) && g.leader == old(g.leader))
        && (g != null && g !in groups ==> forall q :: q in old(g.members) && q != p ==> q.group == null && q.membership == NoGroup)
        && manager.groupIds == old(manager.groupIds) - (if g != null && |old(g.members)| == 2 then {g.id} else {}) + {p.pid}
      ensures forall h :: h in old(groups) && h != old(p.group) ==> SameGroup(h)
    {
      hide PidsApart, Distinct, Without;
      if p.membership == Leader {
        return -1;
      }
      if p.group != null {
        Abandon(p);
      }
      p.leadsSession := true;
      Found(p);
      groups := groups + {p.group};
      r := p.group.id;
      AfterMove(p);
    }

    /** The part of setsid that takes leave of the old group. */
    method Abandon(p: Process)
      requires Valid() && p in procs && p.group != null && p.membership != Leader
      modifies this`groups, manager, procs`group, procs`membership, groups
      ensures var g := old(p.group);
        && p.group == null && g in old(groups) && g.leader == old(g.leader)
        && groups == old(groups) - (if |old(g.members)| == 2 then {g} else {})
        && manager.groupIds == old(manager.groupIds) - (if |old(g.members)| == 2 then {g.id} else {})
        && (g in groups ==> g.members == Without(old(g.members), p))
        && (forall q :: q in procs && q != p && (old(q.group) != g || g in groups) ==> SameProcess(q))
        && (g !in groups ==> forall q :: q in procs && q != p && old(q.group) == g ==> q.group == null && q.membership == NoGroup)
      ensures forall h :: h in old(groups) && h != old(p.group) ==> SameGroup(h)
    {
      var g := p.group;
      ghost var was := g.members;
      InGroup(p);
      NotLeader(p);
      WithoutPart(was, p);
      WithoutMembers(was, p);
      LeaderStays(was, p, g.leader);
      p.SetProcessGroup(null, manager);
      if |g.members| <= 1 {
        g.Destroy(manager);
        groups := groups - {g};
        forall q | q in procs && q != p && old(q.group) == g ensures q.group == null && q.membership == NoGroup {
          assert old(Enrolled(q)) && q in was;
        }
      }
    }

    lemma NotLeader(p: Process)
      requires Valid() && p in procs && p.group != null && p.membership != Leader
      ensures p.group.leader != null && p.group.leader != p && p.group.leader in p.group.members
    {
      InGroup(p);
      var k :| 0 <= k < |p.group.members| && p.group.members[k] == p;
      assert p.group.members[k].membership != Leader;
    }

    /** p has gone from its group to the end of another one, or to a new one; no other group has changed. */
    twostate predicate Switched(p: Process)
      requires p.group != null
      reads *
    {
      var g := old(p.group);
      var n := p.group;
      && (if n in old(groups) then n.members == old(n.members) + [p] && n.leader == old(n.leader) else n.members == [p] && n.leader == p)
      && (g != null ==> g.members == Without(old(g.members), p) && g.leader == old(g.leader))
      && (forall h :: h in old(groups) && h != g && h != n ==> SameGroup(h))
    }

    /** setpgid goes through to its end. */
    ghost predicate Moves(p: Process, pid: int, pgid: int)
      reads p, p.group
    {
      && pgid >= 0 && (pid == 0 || pid == p.pid) && !p.leadsSession
      && (p.group == null || p.group.id != if pgid == 0 then p.pid else pgid)
    }

    /**
     * setpgid. The caller joins the group with this id, or founds one with its own process id if
     * there is none. The groups stay in order exactly if it was not the leader of the group it
     * leaves, for nobody takes its place.
     */
    method SetPgid(p: Process, pid0: int, pgid0: int) returns (r: int)
      requires Valid() && p in procs
      modifies this, manager, procs`group, procs`membership, groups
      ensures procs == old(procs) && r == (if pgid0 < 0 then -1 else 0)
      ensures !old(Moves(p, pid0, pgid0)) ==> Valid() && groups == old(groups) && SameProcess(p) && forall h :: h in groups ==> SameGroup(h)
      ensures old(Moves(p, pid0, pgid0)) ==> (Valid() <==> old(p.membership) != Leader)
      ensures old(Moves(p, pid0, pgid0)) ==> p.group != null && groups == old(groups) + {p.group} && Switched(p)
      ensures manager.groupIds == old(manager.groupIds) + (if old(Moves(p, pid0, pgid0)) then {p.group.id} else {})
      ensures var pgid := if pgid0 == 0 then p.pid else pgid0;
        old(Moves(p, pid0, pgid0)) ==>
          if p.group in old(groups) then p.group.id == pgid && p.membership == Member
          else p.group.id == p.pid && p.membership == Leader && forall h :: h in old(groups) ==> h.id != pgid
    {
      if pgid0 < 0 {
        return -1;
      }
      r := 0;
      var pid := if pid0 == 0 then p.pid else pid0;
      var pgid := if pgid0 == 0 then pid else pgid0;
      if pid != p.pid || (p.group != null && p.group.id == pgid) || p.leadsSession {
        return;
      }
      var g := FindGroup(pgid);
      if g != null {
        Join(p, g);
      } else {
        FoundOwn(p);
      }
    }

    /** The process moves to a group that there is. */
    method Join(p: Process, g: Group)
      requires Valid() && p in procs && g in groups && g != p.group
      modifies this, manager, procs`group, procs`membership, groups
      ensures procs == old(procs) && groups == old(groups) && p.group == g && p.membership == Member
      ensures (Valid() <==> old(p.membership) != Leader) && Switched(p) && manager.groupIds == old(manager.groupIds) + {p.group.id}
    {
      if p.group != null { InGroup(p); }
      p.SetProcessGroup(g, manager);
      p.membership := Member;
      AfterMove(p);
    }

    /** The process moves to a group of its own. */
    method FoundOwn(p: Process)
      requires Valid() && p in procs
      modifies this, manager, procs`group, procs`membership, groups
      ensures procs == old(procs) && p.group != null && p.group !in old(groups) && groups == old(groups) + {p.group}
      ensures p.group.id == p.pid && p.membership == Leader
      ensures (Valid() <==> old(p.membership) != Leader) && Switched(p) && manager.groupIds == old(manager.groupIds) + {p.group.id}
    {
      if p.group != null { InGroup(p); }
      Found(p);
      groups := groups + {p.group};
      AfterMove(p);
    }

    lemma InGroup(p: Process)
      requires Valid() && p in procs && p.group != null
      ensures p.group in groups && p in p.group.members && p.group.Valid(manager) && Owns(p.group)
      ensures forall i :: 0 <= i < |p.group.members| ==> p.group.members[i] in procs
    {
      assert Enrolled(p) && Owns(p.group);
    }

    /** Only the group of p has changed, and only in that p has left it; it is gone if nobody is left. */
    twostate predicate Left(p: Process)
      reads *
    {
      var g := old(p.group);
      && old(Valid()) && p in old(procs) && procs == Without(old(procs), p)
      && (forall h :: h in old(groups) && h != g ==> SameGroup(h) && h.id in manager.groupIds)
      && (forall q :: q in old(procs) && (g == null || old(q.group) != g) ==> SameProcess(q))
      && (g == null ==> groups == old(groups))
      && (g != null ==>
            && g in old(groups) && groups == old(groups) - (if g.members == [] then {g} else {})
            && g.members == Without(old(g.members), p)
            && (p != old(g.leader) ==> g.leader == old(g.leader)))
    }

    twostate lemma OthersKept(p: Process)
      requires Left(p)
      ensures forall h :: h in groups && h != old(p.group) ==> Owns(h) && h.Valid(manager)
    {
      WithoutMembers(old(procs), p);
      forall h | h in groups && h != old(p.group) ensures Owns(h) && h.Valid(manager) {
        assert old(Owns(h) && h.Valid(manager));
        GroupKept(h);
      }
    }

    twostate lemma StillEnrolled(p: Process)
      requires Left(p)
      requires var g := old(p.group); g != null && g.members != [] ==> g.Valid(manager)
      ensures forall q :: q in procs ==> Enrolled(q)
    {
      var g := old(p.group);
      WithoutMembers(old(procs), p);
      if g != null { WithoutMembers(old(g.members), p); }
      forall q | q in procs ensures Enrolled(q) {
        assert q in old(procs) && old(Enrolled(q));
        if old(q.group) == g && g != null {
          assert q in g.members;
        } else {
          EnrolledKept(q);
        }
      }
    }

    twostate lemma LeftOwns(p: Process)
      requires Left(p) && old(p.group) != null && old(p.group).members != []
      ensures Owns(old(p.group))
    {
      var g := old(p.group);
      WithoutMembers(old(procs), p);
      WithoutMembers(old(g.members), p);
      assert old(Enrolled(p) && Owns(g));
      forall i | 0 <= i < |g.members| ensures g.members[i] in procs {
        assert g.members[i] in old(g.members);
      }
    }

    twostate lemma AfterExit(p: Process)
      requires Left(p)
      requires var g := old(p.group); g != null && g.members != [] ==> g.Valid(manager)
      ensures Valid()
    {
      WithoutMembers(old(procs), p);
      WithoutPart(old(procs), p);
      OthersKept(p);
      StillEnrolled(p);
      if old(p.group) != null && old(p.group).members != [] { LeftOwns(p); }
    }

    twostate lemma AfterFork(new child: Process)
      requires old(Valid()) && child !in old(procs) && procs == old(procs) + [child] && groups == old(groups)
      requires forall q :: q in old(procs) ==> SameProcess(q) && q.pid != child.pid
      requires forall h :: h in groups ==> h.id != child.pid && h.id in manager.groupIds
      requires forall h :: h in groups && h != child.group ==> SameGroup(h)
      requires if child.group == null then child.membership == NoGroup else child.group in groups && child.group.Valid(manager)
      requires var g := child.group; g in old(groups) ==> g.members == old(g.members) + [child] && g.leader == old(g.leader)
      ensures Valid()
    {
      forall h | h in groups ensures Owns(h) && h.Valid(manager) {
        assert old(Owns(h) && h.Valid(manager));
        if h != child.group { GroupKept(h); }
      }
      forall q | q in procs ensures Enrolled(q) {
        if q != child { EnrolledKept(q); }
      }
    }

    /**
     * p has moved to another group, which is new or has it as a new member; its old group has only
     * lost p, or is destroyed, and all other groups are as before.
     */
    twostate predicate Moved(p: Process)
      reads *
    {
      var g := old(p.group);
      var n := p.group;
      && old(Valid()) && p in old(procs) && procs == old(procs) && n != null && n != g && n.id in manager.groupIds
      && (forall q :: q in procs && q != p && (g == null || old(q.group) != g) ==> SameProcess(q))
      && (forall h :: h in old(groups) && h != g && h != n ==> SameGroup(h) && h.id in manager.groupIds)
      && (if n in old(groups) then p.membership == Member && n.members == old(n.members) + [p] && n.leader == old(n.leader)
          else p.membership == Leader && n.members == [p] && n.leader == p && n.id == p.pid)
      && (g != null ==> g in old(groups) && g.leader == old(g.leader))
      && groups == old(groups) - (if g == null || g in groups then {} else {g}) + {n}
      && (g in groups ==>
            && g.members == Without(old(g.members), p) && g.id in manager.groupIds
            && forall q :: q in procs && q != p && old(q.group) == g ==> SameProcess(q))
      && (g != null && g !in groups ==> forall q :: q in procs && q != p && old(q.group) == g ==> q.group == null && q.membership == NoGroup)
    }

    /** Only p itself may lead a group with its process id. */
    twostate lemma OldIds(p: Process)
      requires old(Valid()) && p in old(procs) && old(p.membership) != Leader
      ensures forall h :: h in old(groups) ==> h.id != p.pid && old(h.leader) != p
    {
      forall h | h in old(groups) ensures h.id != p.pid && old(h.leader) != p {
        assert old(Owns(h) && h.Valid(manager));
        var k :| 0 <= k < |old(h.members)| && old(h.members)[k] == old(h.leader);
        assert old(h.members[k].membership) == Leader;
      }
    }

    twostate lemma UntouchedByMove(p: Process)
      requires Moved(p)
      ensures forall h :: h in groups && h != old(p.group) && h != p.group ==> Owns(h) && h.Valid(manager)
    {
      forall h | h in groups && h != old(p.group) && h != p.group ensures Owns(h) && h.Valid(manager) {
        assert old(Owns(h) && h.Valid(manager));
        GroupKept(h);
      }
    }

    twostate lemma LeftByMove(p: Process)
      requires Moved(p) && old(p.membership) != Leader && old(p.group) in groups
      ensures Owns(old(p.group)) && old(p.group).Valid(manager)
    {
      var g := old(p.group);
      OldIds(p);
      assert old(Owns(g) && g.Valid(manager) && Enrolled(p));
      WithoutMembers(old(g.members), p);
      WithoutPart(old(g.members), p);
      forall q | q in g.members
        ensures q in procs && SameProcess(q) && q.group == g && q.membership == if q == g.leader then Leader else Member
      {
        var k :| 0 <= k < |old(g.members)| && old(g.members)[k] == q;
        assert q in old(procs) && old(q.group) == g;
      }
    }

    twostate lemma EnteredByMove(p: Process)
      requires Moved(p) && old(p.membership) != Leader
      ensures Owns(p.group) && p.group.Valid(manager) && IdsApart(groups)
    {
      var n := p.group;
      OldIds(p);
      if n in old(groups) {
        assert old(Owns(n) && n.Valid(manager) && Enrolled(p));
        forall k | 0 <= k < |old(n.members)| ensures n.members[k] in procs && n.members[k] != p && SameProcess(n.members[k]) {
          assert old(n.members)[k] in procs;
        }
      }
    }

    twostate lemma EnrolledAfterMove(p: Process)
      requires Moved(p)
      ensures forall q :: q in procs ==> Enrolled(q)
    {
      var g := old(p.group);
      if g != null { WithoutMembers(old(g.members), p); }
      forall q | q in procs ensures Enrolled(q) {
        assert old(Enrolled(q));
        if q != p && (g == null || old(q.group) != g || g in groups) { EnrolledKept(q); }
      }
    }

    /** The groups are in order after a move exactly if no group has lost its leader and is still there. */
    twostate lemma AfterMove(p: Process)
      requires Moved(p)
      ensures old(p.membership) != Leader ==> Valid()
      ensures old(p.membership) == Leader && old(p.group) in groups ==> !Valid()
    {
      var g := old(p.group);
      assert old(Enrolled(p));
      if old(p.membership) != Leader {
        UntouchedByMove(p);
        EnteredByMove(p);
        EnrolledAfterMove(p);
        if g in groups { LeftByMove(p); }
      } else if g in groups {
        assert old(g.Valid(manager));
        WithoutMembers(old(g.members), p);
        assert !g.Valid(manager);
      }
    }
  }

  /** A process that founds a group and asks for another one leaves the first without a leader. */
  method LeaderlessGroup() returns (s: System)
    ensures fresh(s) && !s.Valid()
  {
    var manager := new Manager;
    s := new System(manager);
    var p := s.Spawn(1);
    var r := s.SetPgid(p, 0, 0);
    r := s.SetPgid(p, 0, 5);
  }
}
