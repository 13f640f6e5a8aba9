/** The lists of the process lister: which processes use each file the user named. */
module IndexSpec {
  /** The ref_set bits. */
  datatype Ref = File | Root | Cwd | Exe | Mmap

  const UNKNOWN := -1

  datatype Item = Proc(pid: int, refs: set<Ref>, uid: int) | Other(path: string)

  /** The owner is looked up until one is found. */
  function Known(uid: int, owner: int): int {
    if uid == UNKNOWN then owner else uid
  }

  /** Where add_file stops walking: before the first process with the same or a larger pid. */
  predicate Stops(x: Item, pid: int) {
    x.Proc? && x.pid >= pid
  }

  function Position(items: seq<Item>, pid: int): (at: nat)
    ensures at <= |items|
    ensures forall i :: 0 <= i < at ==> !Stops(items[i], pid)
    ensures at < |items| ==> Stops(items[at], pid)
  {
    if items == [] || Stops(items[0], pid) then 0 else 1 + Position(items[1..], pid)
  }

  function WithProc(items: seq<Item>, pid: int, ref: Ref, owner: int): seq<Item> {
    var at := Position(items, pid);
    if at < |items| && items[at].pid == pid then items[at := Proc(pid, items[at].refs + {ref}, Known(items[at].uid, owner))]
    else items[..at] + [Proc(pid, {ref}, owner)] + items[at..]
  }

  /** The processes stand in strictly ascending order of their pids, so one node per pid. */
  predicate Ascending(items: seq<Item>) {
    forall i, j :: 0 <= i < j < |items| && items[i].Proc? && items[j].Proc? ==> items[i].pid < items[j].pid
  }

  predicate Lists(x: Item, pid: int, ref: Ref) {
    x.Proc? && x.pid == pid && ref in x.refs
  }

  /** The list shows exactly the references seen: for each pid, the union of its refs. */
  ghost predicate Shows(items: seq<Item>, seen: set<(int, Ref)>) {
    && Ascending(items)
    && (forall i :: 0 <= i < |items| && items[i].Proc? ==> items[i].refs != {})
    && (forall pid, ref :: (pid, ref) in seen <==> exists i :: 0 <= i < |items| && Lists(items[i], pid, ref))
  }

  lemma AddedAscends(items: seq<Item>, pid: int, ref: Ref, owner: int)
    requires Ascending(items)
    ensures Ascending(WithProc(items, pid, ref, owner))
  {
  }

  lemma AddedKeepsLists(items: seq<Item>, pid: int, ref: Ref, owner: int, i: nat, p: int, r: Ref)
    requires Ascending(items) && i < |items| && Lists(items[i], p, r)
    ensures exists k :: 0 <= k < |WithProc(items, pid, ref, owner)| && Lists(WithProc(items, pid, ref, owner)[k], p, r)
  {
    var at := Position(items, pid);
    var merged := at < |items| && items[at].pid == pid;
    assert Lists(WithProc(items, pid, ref, owner)[if i < at || merged then i else i + 1], p, r);
  }

  lemma AddedListsNoMore(items: seq<Item>, pid: int, ref: Ref, owner: int, i: nat, p: int, r: Ref)
    requires Ascending(items) && i < |WithProc(items, pid, ref, owner)| && Lists(WithProc(items, pid, ref, owner)[i], p, r)
    requires (p, r) != (pid, ref)
    ensures exists k :: 0 <= k < |items| && Lists(items[k], p, r)
  {
    var at := Position(items, pid);
    var merged := at < |items| && items[at].pid == pid;
    assert Lists(items[if i <= at || merged then i else i - 1], p, r);
  }

  /** A reference is listed afterwards exactly when it was before or is the one added. */
  lemma AddedLists(items: seq<Item>, pid: int, ref: Ref, owner: int, p: int, r: Ref)
    requires Ascending(items)
    ensures (exists i :: 0 <= i < |WithProc(items, pid, ref, owner)| && Lists(WithProc(items, pid, ref, owner)[i], p, r))
      <==> (p, r) == (pid, ref) || exists i :: 0 <= i < |items| && Lists(items[i], p, r)
  {
    var after := WithProc(items, pid, ref, owner);
    if (p, r) == (pid, ref) {
      assert Lists(after[Position(items, pid)], p, r);
    } else {
      if i :| 0 <= i < |items| && Lists(items[i], p, r) {
        AddedKeepsLists(items, pid, ref, owner, i, p, r);
      }
      if i :| 0 <= i < |after| && Lists(after[i], p, r) {
        AddedListsNoMore(items, pid, ref, owner, i, p, r);
      }
    }
  }

  lemma AddedShows(items: seq<Item>, seen: set<(int, Ref)>, pid: int, ref: Ref, owner: int)
    requires Shows(items, seen)
    ensures Shows(WithProc(items, pid, ref, owner), seen + {(pid, ref)})
  {
    AddedAscends(items, pid, ref, owner);
    forall p, r ensures (p, r) in seen + {(pid, ref)} <==>
        exists i :: 0 <= i < |WithProc(items, pid, ref, owner)| && Lists(WithProc(items, pid, ref, owner)[i], p, r) {
      AddedLists(items, pid, ref, owner, p, r);
    }
  }

  lemma OtherShows(items: seq<Item>, seen: set<(int, Ref)>, path: string)
    requires Shows(items, seen)
    ensures Shows(items + [Other(path)], seen)
  {
    var after := items + [Other(path)];
    forall p, r ensures (p, r) in seen <==> exists i :: 0 <= i < |after| && Lists(after[i], p, r) {
      if (p, r) in seen {
        var i :| 0 <= i < |items| && Lists(items[i], p, r);
        assert Lists(after[i], p, r);
      }
    }
  }

  /** What one entry is told over time. */
  datatype Call = Uses(pid: int, ref: Ref, owner: int) | Mentions(path: string)

  function Built(calls: seq<Call>): seq<Item> {
    if calls == [] then []
    else
      var before := Built(calls[..|calls| - 1]);
      match calls[|calls| - 1]
      case Uses(pid, ref, owner) => WithProc(before, pid, ref, owner)
      case Mentions(path) => before + [Other(path)]
  }

  function Seen(calls: seq<Call>): set<(int, Ref)> {
    set c | c in calls && c.Uses? :: (c.pid, c.ref)
  }

  lemma {:induction false} BuiltShows(calls: seq<Call>)
    ensures Shows(Built(calls), Seen(calls))
  {
    if calls != [] {
      var before, last := calls[..|calls| - 1], calls[|calls| - 1];
      BuiltShows(before);
      assert calls == before + [last];
      if last.Uses? {
        AddedShows(Built(before), Seen(before), last.pid, last.ref, last.owner);
        assert Seen(calls) == Seen(before) + {(last.pid, last.ref)};
      } else {
        OtherShows(Built(before), Seen(before), last.path);
        assert Seen(calls) == Seen(before);
      }
    }
  }

  /** The same process and reference again changes nothing. */
  lemma AddingAgain(items: seq<Item>, pid: int, ref: Ref, owner: int)
    ensures var once := WithProc(items, pid, ref, owner); WithProc(once, pid, ref, owner) == once
  {
    var once := WithProc(items, pid, ref, owner);
    var at := Position(items, pid);
    assert Stops(once[at], pid) && forall i :: 0 <= i < at ==> once[i] == items[i];
    assert Position(once, pid) == at;
    assert once[at].refs + {ref} == once[at].refs;
  }

  /** The calls, then c n times over. */
  function Then(calls: seq<Call>, n: nat, c: Call): seq<Call> {
    if n == 0 then calls else Then(calls, n - 1, c) + [c]
  }

  /** An entry told the same thing several times looks as if it had been told once. */
  lemma {:induction false} ToldOnce(calls: seq<Call>, n: nat, pid: int, ref: Ref, owner: int)
    ensures Built(Then(calls, n, Uses(pid, ref, owner))) ==
      if n == 0 then Built(calls) else WithProc(Built(calls), pid, ref, owner)
  {
    if n > 0 {
      var all := Then(calls, n, Uses(pid, ref, owner));
      assert all[..|all| - 1] == Then(calls, n - 1, Uses(pid, ref, owner));
      ToldOnce(calls, n - 1, pid, ref, owner);
      AddingAgain(Built(calls), pid, ref, owner);
    }
  }

  function Procs(items: seq<Item>): (ps: seq<Item>)
    ensures forall i :: 0 <= i < |ps| ==> ps[i].Proc? && ps[i] in items
  {
    if items == [] then []
    else Procs(items[..|items| - 1]) + if items[|items| - 1].Proc? then [items[|items| - 1]] else []
  }

  lemma {:induction false} ProcsKeepAll(items: seq<Item>, x: Item)
    requires x in items && x.Proc?
    ensures x in Procs(items)
  {
    var last := |items| - 1;
    if x != items[last] {
      ProcsKeepAll(items[..last], x);
    }
  }

  lemma {:induction false} ProcsAscend(items: seq<Item>)
    requires Ascending(items)
    ensures Ascending(Procs(items))
  {
    if items != [] {
      var before, last := items[..|items| - 1], items[|items| - 1];
      ProcsAscend(before);
      forall x | x in Procs(before) && last.Proc? ensures x.pid < last.pid {
        var i :| 0 <= i < |before| && before[i] == x;
        assert items[i] == x;
      }
    }
  }

  lemma ProcsShow(items: seq<Item>, seen: set<(int, Ref)>)
    requires Shows(items, seen)
    ensures Shows(Procs(items), seen)
  {
    var ps := Procs(items);
    ProcsAscend(items);
    forall i | 0 <= i < |ps| ensures ps[i].refs != {} {
      assert ps[i] in items;
    }
    forall p, r ensures (p, r) in seen <==> exists i :: 0 <= i < |ps| && Lists(ps[i], p, r) {
      if (p, r) in seen {
        var i :| 0 <= i < |items| && Lists(items[i], p, r);
        ProcsKeepAll(items, items[i]);
      }
      if i :| 0 <= i < |ps| && Lists(ps[i], p, r) {
        var k :| 0 <= k < |items| && items[k] == ps[i];
        assert Lists(items[k], p, r);
      }
    }
  }

  lemma FirstPid(a: seq<Item>, b: seq<Item>, seen: set<(int, Ref)>)
    requires Shows(a, seen) && Shows(b, seen) && a != [] && b != [] && a[0].Proc? && b[0].Proc?
    requires forall i :: 0 <= i < |b| ==> b[i].Proc?
    ensures b[0].pid <= a[0].pid
  {
    var r :| r in a[0].refs;
    assert Lists(a[0], a[0].pid, r);
    assert (a[0].pid, r) in seen;
    var i :| 0 <= i < |b| && Lists(b[i], a[0].pid, r);
  }

  lemma FirstRefs(a: seq<Item>, b: seq<Item>, seen: set<(int, Ref)>, r: Ref)
    requires Shows(a, seen) && Shows(b, seen) && a != [] && b != [] && a[0].Proc? && b[0].Proc?
    requires forall i :: 0 <= i < |b| ==> b[i].Proc?
    requires a[0].pid == b[0].pid && r in a[0].refs
    ensures r in b[0].refs
  {
    assert Lists(a[0], a[0].pid, r);
    assert (a[0].pid, r) in seen;
    var i :| 0 <= i < |b| && Lists(b[i], a[0].pid, r);
  }

  lemma RestShows(a: seq<Item>, seen: set<(int, Ref)>)
    requires Shows(a, seen) && a != [] && forall i :: 0 <= i < |a| ==> a[i].Proc?
    ensures Shows(a[1..], set x | x in seen && x.0 != a[0].pid)
  {
  }

  lemma EmptyWhenNoneSeen(a: seq<Item>, seen: set<(int, Ref)>)
    requires Shows(a, seen) && forall i :: 0 <= i < |a| ==> a[i].Proc?
    ensures a == [] <==> seen == {}
  {
    if a != [] {
      var r :| r in a[0].refs;
      assert Lists(a[0], a[0].pid, r);
      assert (a[0].pid, r) in seen;
    }
    if seen != {} {
      var x :| x in seen;
      var (p, r) := x;
      assert (p, r) in seen;
      assert exists i :: 0 <= i < |a| && Lists(a[i], p, r);
    }
  }

  /** The same pids with the same references, in the same order. */
  predicate SameReferences(a: seq<Item>, b: seq<Item>) {
    |a| == |b| && forall i :: 0 <= i < |a| ==> a[i].Proc? && b[i].Proc? && a[i].pid == b[i].pid && a[i].refs == b[i].refs
  }

  lemma {:induction false} OneProcList(a: seq<Item>, b: seq<Item>, seen: set<(int, Ref)>)
    requires Shows(a, seen) && Shows(b, seen)
    requires forall i :: 0 <= i < |a| ==> a[i].Proc?
    requires forall i :: 0 <= i < |b| ==> b[i].Proc?
    ensures SameReferences(a, b)
  {
    if a == [] || b == [] {
      EmptyWhenNoneSeen(a, seen);
      EmptyWhenNoneSeen(b, seen);
    } else {
      FirstPid(a, b, seen);
      FirstPid(b, a, seen);
      forall r ensures r in a[0].refs <==> r in b[0].refs {
        if r in a[0].refs { FirstRefs(a, b, seen, r); }
        if r in b[0].refs { FirstRefs(b, a, seen, r); }
      }
      assert a[0].refs == b[0].refs;
      RestShows(a, seen);
      RestShows(b, seen);
      OneProcList(a[1..], b[1..], set x | x in seen && x.0 != a[0].pid);
      forall i | 1 <= i < |a| ensures a[i].pid == b[i].pid && a[i].refs == b[i].refs {
        assert a[i] == a[1..][i - 1] && b[i] == b[1..][i - 1];
      }
    }
  }

  /** The list of pids and references depends neither on the order nor on the number of the calls that built it. */
  lemma OrderDoesNotMatter(a: seq<Call>, b: seq<Call>)
    requires Seen(a) == Seen(b)
    ensures SameReferences(Procs(Built(a)), Procs(Built(b)))
  {
    BuiltShows(a);
    BuiltShows(b);
    ProcsShow(Built(a), Seen(a));
    ProcsShow(Built(b), Seen(b));
    OneProcList(Procs(Built(a)), Procs(Built(b)), Seen(a));
  }

  /** The first owner found for a process. */
  function FirstOwner(calls: seq<Call>, pid: int): int {
    if calls == [] then UNKNOWN
    else
      var before, last := FirstOwner(calls[..|calls| - 1], pid), calls[|calls| - 1];
      if last.Uses? && last.pid == pid then Known(before, last.owner) else before
  }

  predicate UsedBy(c: Call, pid: int) {
    c.Uses? && c.pid == pid
  }

  lemma {:induction false} NoOwner(calls: seq<Call>, pid: int)
    requires forall i :: 0 <= i < |calls| && UsedBy(calls[i], pid) ==> calls[i].owner == UNKNOWN
    ensures FirstOwner(calls, pid) == UNKNOWN
  {
    if calls != [] {
      NoOwner(calls[..|calls| - 1], pid);
    }
  }

  /** The owner is that of the earliest use that has one. */
  lemma {:induction false} EarliestOwner(calls: seq<Call>, pid: int, i: nat)
    requires i < |calls| && UsedBy(calls[i], pid) && calls[i].owner != UNKNOWN
    requires forall j :: 0 <= j < i && UsedBy(calls[j], pid) ==> calls[j].owner == UNKNOWN
    ensures FirstOwner(calls, pid) == calls[i].owner
  {
    var before := calls[..|calls| - 1];
    if i == |before| {
      NoOwner(before, pid);
    } else {
      assert before[i] == calls[i];
      EarliestOwner(before, pid, i);
    }
  }

  predicate OwnersShown(items: seq<Item>, calls: seq<Call>) {
    forall i :: 0 <= i < |items| && items[i].Proc? ==> items[i].uid == FirstOwner(calls, items[i].pid)
  }

  lemma {:induction false} UnlistedOwner(calls: seq<Call>, pid: int)
    requires forall i :: 0 <= i < |Built(calls)| && Built(calls)[i].Proc? ==> Built(calls)[i].pid != pid
    ensures FirstOwner(calls, pid) == UNKNOWN
  {
    forall c | c in calls && c.Uses? ensures c.pid != pid {
      BuiltShows(calls);
      assert (c.pid, c.ref) in Seen(calls);
      var i :| 0 <= i < |Built(calls)| && Lists(Built(calls)[i], c.pid, c.ref);
    }
    NoOwner(calls, pid);
  }

  lemma NotBefore(items: seq<Item>, pid: int)
    requires Ascending(items)
    requires var at := Position(items, pid); at == |items| || items[at].pid != pid
    ensures forall i :: 0 <= i < |items| && items[i].Proc? ==> items[i].pid != pid
  {
  }

  /** Each process is shown with the first owner found for it. */
  lemma {:induction false} BuiltOwners(calls: seq<Call>)
    ensures OwnersShown(Built(calls), calls)
  {
    if calls != [] {
      var before, last := calls[..|calls| - 1], calls[|calls| - 1];
      BuiltOwners(before);
      if last.Uses? {
        BuiltShows(before);
        var at := Position(Built(before), last.pid);
        if at == |Built(before)| || Built(before)[at].pid != last.pid {
          NotBefore(Built(before), last.pid);
          UnlistedOwner(before, last.pid);
        }
      }
    }
  }
}

/** The same lists in the heap: add_file and add_other walk and splice linked nodes. */
module FuserIndex {
  import opened IndexSpec

  class ItemNode {
    var data: Item
    var next: ItemNode?
    ghost const owner: FileEntry

    constructor (data: Item, next: ItemNode?, ghost owner: FileEntry)
      ensures this.data == data && this.next == next && this.owner == owner
    {
      this.data, this.next, this.owner := data, next, owner;
    }
  }

  datatype Name = Name(text: string, nameSpace: int)

  datatype Option<T> = None | Some(value: T)

  /** A file to look for; without a name of its own it reports to the entry `named`. */
  class FileEntry {
    const name: Option<Name>
    const byDevice: bool
    const wantsOwner: bool
    const dev: int
    const ino: int
    const named: FileEntry?
    var items: ItemNode?
    ghost var nodes: seq<ItemNode>
    /** What the nodes hold, and the calls that led to it. */
    ghost var contents: seq<Item>
    ghost var calls: seq<Call>

    ghost predicate Linked()
      reads this, nodes
    {
      && items == At(0)
      && (forall i, j :: 0 <= i < j < |nodes| ==> nodes[i] != nodes[j])
      && (forall n :: n in nodes ==> n.owner == this)
      && (forall i {:trigger nodes[i].next} :: 0 <= i < |nodes| ==> nodes[i].next == At(i + 1))
      && |contents| == |nodes|
      && (forall i {:trigger nodes[i].data} :: 0 <= i < |nodes| ==> nodes[i].data == contents[i])
    }

    ghost function At(i: int): ItemNode?
      reads this
    {
      if 0 <= i < |nodes| then nodes[i] else null
    }

    /** That is, contents == Built(calls); the quantifier keeps the equation folded where nobody asks about Built. */
    ghost predicate Valid()
      reads this, nodes
    {
      Linked() && forall c {:trigger Built(c)} :: c == calls ==> contents == Built(c)
    }

    constructor (name: Option<Name>, byDevice: bool, wantsOwner: bool, dev: int, ino: int, named: FileEntry?)
      ensures Valid() && contents == [] && calls == [] && nodes == []
      ensures this.name == name && this.byDevice == byDevice && this.wantsOwner == wantsOwner && this.dev == dev && this.ino == ino && this.named == named
    {
      this.name, this.byDevice, this.wantsOwner, this.dev, this.ino, this.named := name, byDevice, wantsOwner, dev, ino, named;
      items, nodes, contents, calls := null, [], [], [];
    }

    twostate lemma StaysValid()
      requires old(Valid()) && unchanged(this)
      requires forall n :: n in old(nodes) ==> n.next == old(n.next) && n.data == old(n.data)
      ensures Valid()
    {
      assert forall i :: 0 <= i < |nodes| ==> nodes[i] in old(nodes);
    }

    /** `this->next = *item; *item = this`, where `*item` is the link in front of the node at that index. */
    method Splice(prev: ItemNode?, item: ItemNode?, data: Item, ghost at: nat)
      requires Linked() && at <= |nodes|
      requires item == At(at) && prev == At(at - 1)
      modifies this, nodes
      ensures Linked() && calls == old(calls)
      ensures contents == old(contents)[..at] + [data] + old(contents)[at..]
      ensures |nodes| == old(|nodes|) + 1 && fresh(nodes[at])
      ensures nodes == old(nodes)[..at] + [nodes[at]] + old(nodes)[at..]
    {
      var node := new ItemNode(data, item, this);
      if prev == null {
        items := node;
      } else {
        prev.next := node;
      }
      nodes := nodes[..at] + [node] + nodes[at..];
      contents := contents[..at] + [data] + contents[at..];
    }

    /** `this->u.proc.ref_set |= ref`, and the owner if it was not known. */
    method Merge(item: ItemNode, ref: Ref, owner: int, ghost at: nat)
      requires Linked() && item == At(at) && item.data.Proc?
      modifies nodes`data, `contents
      ensures Linked()
      ensures contents == old(contents)[at := old(Proc(item.data.pid, item.data.refs + {ref}, Known(item.data.uid, owner)))]
    {
      item.data := Proc(item.data.pid, item.data.refs + {ref}, Known(item.data.uid, owner));
      contents := contents[at := item.data];
    }

    /** The walk of add_file, to the first process with the same or a larger pid. */
    method FindPlace(pid: int) returns (prev: ItemNode?, item: ItemNode?, ghost at: nat)
      requires Linked()
      ensures at == Position(contents, pid)
      ensures item == At(at) && prev == At(at - 1)
    {
      prev, item, at := null, items, 0;
      while item != null && !(item.data.Proc? && item.data.pid >= pid)
        invariant at <= |nodes|
        invariant item == At(at) && prev == At(at - 1)
        invariant forall i :: 0 <= i < at ==> !Stops(contents[i], pid)
        decreases |nodes| - at
      {
        prev, item, at := item, item.next, at + 1;
      }
      PositionIs(contents, pid, at);
    }

    method AddOrMerge(pid: int, ref: Ref, owner: int)
      requires Linked()
      modifies this, nodes
      ensures Linked() && calls == old(calls)
      ensures contents == WithProc(old(contents), pid, ref, owner)
      ensures forall n :: n in nodes ==> n in old(nodes) || fresh(n)
    {
      var prev, item, at := FindPlace(pid);
      if item != null && item.data.pid == pid {
        Merge(item, ref, owner, at);
      } else {
        Splice(prev, item, Proc(pid, {ref}, owner), at);
      }
    }

    /** The inner half of add_file. */
    method AddProc(pid: int, ref: Ref, owner: int)
      requires Valid()
      modifies this, nodes
      ensures Valid()
      ensures calls == old(calls) + [Uses(pid, ref, owner)]
      ensures forall n :: n in nodes ==> n in old(nodes) || fresh(n)
    {
      AddOrMerge(pid, ref, owner);
      calls := calls + [Uses(pid, ref, owner)];
      assert calls[..|calls| - 1] == old(calls);
    }

    /** The inner half of add_other: always at the end. */
    method AddOther(path: string)
      requires Valid()
      modifies this, nodes
      ensures Valid()
      ensures calls == old(calls) + [Mentions(path)] && contents == old(contents) + [Other(path)]
      ensures forall n :: n in nodes ==> n in old(nodes) || fresh(n)
    {
      var prev: ItemNode? := null;
      var item := items;
      ghost var at := 0;
      while item != null
        invariant 0 <= at <= |nodes|
        invariant item == At(at) && prev == At(at - 1)
        decreases |nodes| - at
      {
        prev, item, at := item, item.next, at + 1;
      }
      Splice(prev, null, Other(path), at);
      calls := calls + [Mentions(path)];
      assert calls[..|calls| - 1] == old(calls);
    }
  }

  /** The list of entries, in the order they were entered. */
  class FileTable {
    var files: seq<FileEntry>
    var lastNamed: FileEntry?
    ghost var owned: set<ItemNode>

    /** Every entry owns its nodes; an entry without a name reports to one with a name and has no items itself. */
    ghost predicate Valid()
      reads this, files, owned
    {
      && (forall f, n :: f in files && n in f.nodes ==> n in owned)
      && (forall f :: f in files ==> f.Valid())
      && (forall f {:trigger f.named} :: f in files && f.name.None? ==> IsNamed(f.named))
      && (forall f :: f in files && f.name.None? ==> f.nodes == [])
      && (lastNamed != null ==> IsNamed(lastNamed))
    }

    ghost predicate IsNamed(f: FileEntry?)
      reads `files
    {
      f != null && f in files && f.name.Some?
    }

    constructor ()
      ensures Valid() && files == [] && lastNamed == null
    {
      files, lastNamed, owned := [], null, {};
    }

    /** A new command line: the next entry gets a name whatever was last. */
    method ParseArgs()
      requires Valid()
      modifies `lastNamed
      ensures Valid() && files == old(files) && lastNamed == null
    {
      lastNamed := null;
    }

    /** enter_item: an entry repeats no name it can share with the last named entry. */
    method EnterItem(name: Name, byDevice: bool, wantsOwner: bool, dev: int, ino: int) returns (entry: FileEntry)
      requires Valid()
      modifies this
      ensures Valid() && fresh(entry) && files == old(files) + [entry]
      ensures entry.name.Some? ==> entry.name.value == name && lastNamed == entry
      ensures entry.name.None? ==> lastNamed == old(lastNamed) == entry.named
      ensures entry.name.None? <==> old(lastNamed) != null && old(lastNamed).name == Some(name)
      ensures entry.contents == [] && entry.byDevice == byDevice && entry.wantsOwner == wantsOwner && entry.dev == dev && entry.ino == ino
      ensures forall f :: f in old(files) ==> f.contents == old(f.contents) && f.calls == old(f.calls)
    {
      var own := if lastNamed != null && lastNamed.name == Some(name) then None else Some(name);
      entry := new FileEntry(own, byDevice, wantsOwner, dev, ino, lastNamed);
      files := files + [entry];
      if own.Some? {
        lastNamed := entry;
      }
    }

    /** The entry matches, and without a name of its own reports to f. */
    predicate Reports(k: nat, f: FileEntry, mountDev: int, device: int, inode: int)
      reads `files
      requires k < |files|
    {
      && (if files[k].byDevice then mountDev != 0 && mountDev == files[k].dev else device == files[k].dev && inode == files[k].ino)
      && f == if files[k].name.None? then files[k].named else files[k]
    }

    /** How many of the first k entries match and record in f. */
    ghost function Hits(f: FileEntry, k: nat, mountDev: int, device: int, inode: int): nat
      reads `files
      requires k <= |files|
    {
      if k == 0 then 0
      else Hits(f, k - 1, mountDev, device, inode) + if Reports(k - 1, f, mountDev, device, inode) then 1 else 0
    }

    method Record(target: FileEntry, pid: int, ref: Ref, owner: int)
      requires Valid() && IsNamed(target)
      modifies target, target.nodes, `owned
      ensures Valid() && fresh(owned - old(owned))
      ensures target.calls == old(target.calls) + [Uses(pid, ref, owner)]
      ensures forall f :: f in files && f != target ==> f.nodes == old(f.nodes) && f.calls == old(f.calls)
    {
      assert forall f, n :: f in files && f != target && n in f.nodes ==> n !in target.nodes by {
        forall f, n | f in files && n in f.nodes ensures n.owner == f {
          assert f.Valid();
        }
      }
      target.AddProc(pid, ref, owner);
      forall f | f in files && f != target ensures f.Valid() {
        f.StaysValid();
      }
      owned := owned + set n | n in target.nodes;
    }

    /** One turn of the loop in add_file. */
    method Consider(k: nat, mountDev: int, device: int, inode: int, pid: int, ref: Ref, owner: int)
      requires Valid() && k < |files|
      modifies files, owned, `owned
      ensures Valid() && fresh(owned - old(owned))
      ensures forall f :: f in files ==>
        f.calls == if Reports(k, f, mountDev, device, inode)
          then old(f.calls) + [Uses(pid, ref, if f.wantsOwner then owner else UNKNOWN)] else old(f.calls)
    {
      var file := files[k];
      if if file.byDevice then mountDev != 0 && mountDev == file.dev else device == file.dev && inode == file.ino {
        if file.name.None? {
          file := file.named;
        }
        Record(file, pid, ref, if file.wantsOwner then owner else UNKNOWN);
      }
    }

    /** The loop of add_file, as what each entry is told. */
    method ConsiderAll(mountDev: int, device: int, inode: int, pid: int, ref: Ref, owner: int)
      requires Valid()
      modifies files, owned, `owned
      ensures Valid() && fresh(owned - old(owned))
      ensures forall f :: f in files ==>
        f.calls == Then(old(f.calls), Hits(f, |files|, mountDev, device, inode), Uses(pid, ref, if f.wantsOwner then owner else UNKNOWN))
    {
      for k := 0 to |files|
        invariant Valid() && fresh(owned - old(owned))
        invariant forall f :: f in files ==>
          f.calls == Then(old(f.calls), Hits(f, k, mountDev, device, inode), Uses(pid, ref, if f.wantsOwner then owner else UNKNOWN))
      {
        Consider(k, mountDev, device, inode, pid, ref, owner);
      }
    }

    lemma {:induction false} HitsMean(f: FileEntry, k: nat, mountDev: int, device: int, inode: int)
      requires k <= |files|
      ensures Hits(f, k, mountDev, device, inode) > 0 <==> exists i :: 0 <= i < k && Reports(i, f, mountDev, device, inode)
    {
      if k > 0 {
        HitsMean(f, k - 1, mountDev, device, inode);
      }
    }

    /** A named entry is told when it matches or is repeated by one that matches. */
    ghost predicate Told(f: FileEntry, mountDev: int, device: int, inode: int)
      reads `files
    {
      f.name.Some? &&
        exists k ::
          0 <= k < |files| && (files[k] == f || (files[k].name.None? && files[k].named == f)) &&
          if files[k].byDevice then mountDev != 0 && mountDev == files[k].dev else device == files[k].dev && inode == files[k].ino
    }

    /** An entry without a name never gets a report. */
    lemma ReportsMean(f: FileEntry, mountDev: int, device: int, inode: int)
      requires Valid()
      ensures Hits(f, |files|, mountDev, device, inode) > 0 <==> Told(f, mountDev, device, inode)
    {
      HitsMean(f, |files|, mountDev, device, inode);
      forall k | 0 <= k < |files| && files[k].name.None? ensures IsNamed(files[k].named) {
      }
      forall k | 0 <= k < |files| ensures Reports(k, f, mountDev, device, inode) <==>
        && f.name.Some? && (files[k] == f || (files[k].name.None? && files[k].named == f))
        && if files[k].byDevice then mountDev != 0 && mountDev == files[k].dev else device == files[k].dev && inode == files[k].ino
      {
      }
    }

    /** What an entry holds after it was told of a use once for each report. */
    lemma HoldsAfter(f: FileEntry, before: seq<Call>, mountDev: int, device: int, inode: int, pid: int, ref: Ref, owner: int)
      requires Valid() && f in files && f.calls == Then(before, Hits(f, |files|, mountDev, device, inode), Uses(pid, ref, owner))
      ensures f.contents == if Told(f, mountDev, device, inode) then WithProc(Built(before), pid, ref, owner) else Built(before)
    {
      ReportsMean(f, mountDev, device, inode);
      ToldOnce(before, Hits(f, |files|, mountDev, device, inode), pid, ref, owner);
      assert f.contents == Built(f.calls);
    }

    /** add_file: a reference by a process is recorded, with its owner where one is asked for, in every named entry that matches or
      * is repeated by one that matches, once however many do, and nowhere else. */
    method AddFile(device: int, inode: int, unixDev: int, pid: int, ref: Ref, owner: int)
      requires Valid()
      modifies files, owned, `owned
      ensures Valid() && fresh(owned - old(owned))
      ensures forall f :: f in files ==> f.calls == Then(old(f.calls),
        Hits(f, |files|, if device != 0 then device else unixDev, device, inode), Uses(pid, ref, if f.wantsOwner then owner else UNKNOWN))
      ensures var mountDev := if device != 0 then device else unixDev;
        forall f :: f in files ==>
          f.contents ==
            if f.name.Some? &&
              (exists k ::
                 0 <= k < |files| && (files[k] == f || (files[k].name.None? && files[k].named == f)) &&
                 if files[k].byDevice then mountDev != 0 && mountDev == files[k].dev else device == files[k].dev && inode == files[k].ino)
            then WithProc(old(f.contents), pid, ref, if f.wantsOwner then owner else UNKNOWN)
            else old(f.contents)
    {
      var mountDev := if device != 0 then device else unixDev;
      assert forall f :: f in files ==> f.contents == Built(f.calls);
      ConsiderAll(mountDev, device, inode, pid, ref, owner);
      forall f | f in files
        ensures f.contents == if Told(f, mountDev, device, inode)
          then WithProc(old(f.contents), pid, ref, if f.wantsOwner then owner else UNKNOWN) else old(f.contents)
      {
        HoldsAfter(f, old(f.calls), mountDev, device, inode, pid, ref, if f.wantsOwner then owner else UNKNOWN);
      }
    }
  }

  lemma PositionIs(items: seq<Item>, pid: int, at: nat)
    requires at <= |items|
    requires forall i :: 0 <= i < at ==> !Stops(items[i], pid)
    requires at < |items| ==> Stops(items[at], pid)
    ensures Position(items, pid) == at
  {
  }

  /** Any two entries told about the same references list the same processes, in ascending order, one node per pid,
    * each with the union of its references, whatever the order of the calls; the owner is the first one found. */
  lemma SameReferencesSameList(f: FileEntry, g: FileEntry)
    requires f.Valid() && g.Valid() && Seen(f.calls) == Seen(g.calls)
    ensures Shows(f.contents, Seen(f.calls))
    ensures SameReferences(Procs(f.contents), Procs(g.contents))
    ensures OwnersShown(f.contents, f.calls)
  {
    assert f.contents == Built(f.calls) && g.contents == Built(g.calls);
    BuiltShows(f.calls);
    BuiltOwners(f.calls);
    OrderDoesNotMatter(f.calls, g.calls);
  }
}
