/** The cache of parsed translation units (src/Project.cpp): a singly linked list with a tail
    pointer and a bounded size. */
module UnitCache {
  import opened Options

  type Path = string
  type Args = seq<string>

  /** A translation unit together with its index: what has to be disposed of exactly once. */
  type Unit = nat

  datatype Entry = Entry(path: Path, args: Args, unit: Unit)

  class CachedUnit {
    const entry: Entry
    var next: CachedUnit?

    constructor (entry: Entry)
      ensures this.entry == entry && next == null
    {
      this.entry := entry;
      next := null;
    }
  }

  // --- The cache as a sequence, oldest first ---

  function Added(s: seq<Entry>, e: Entry, max: nat): seq<Entry>
    requires max >= 1 && |s| <= max
  {
    if |s| == max then s[1..] + [e] else s + [e]
  }

  /** What is thrown out to make room. */
  function Evicted(s: seq<Entry>, max: nat): set<Unit>
    requires max >= 1 && |s| <= max
  {
    if |s| == max then {s[0].unit} else {}
  }

  predicate Matches(e: Entry, path: Path, args: Args) {
    e.path == path && (args == [] || args == e.args)
  }

  /** The place of the first match, or the length. */
  function FirstMatch(s: seq<Entry>, path: Path, args: Args): (i: nat)
    ensures i <= |s|
    ensures i < |s| ==> Matches(s[i], path, args)
    ensures forall j :: 0 <= j < i ==> !Matches(s[j], path, args)
  {
    if s == [] || Matches(s[0], path, args) then 0 else 1 + FirstMatch(s[1..], path, args)
  }

  function Without(s: seq<Entry>, i: nat): seq<Entry>
    requires i < |s|
  {
    s[..i] + s[i + 1..]
  }

  // --- The linked list ---

  class Cache {
    const max: nat
    var first: CachedUnit?
    var last: CachedUnit?
    var size: int
    ghost var nodes: seq<CachedUnit>
    ghost var contents: seq<Entry>

    ghost predicate Valid()
      reads this, nodes
    {
      max >= 1 && size == |nodes| <= max && IsChain()
    }

    /** The nodes are a chain without repetition from first to last. */
    ghost predicate IsChain()
      reads this, nodes
    {
      && |nodes| == |contents|
      && (nodes == [] ==> first == null && last == null)
      && (nodes != [] ==> first == nodes[0] && last == nodes[|nodes| - 1] && nodes[|nodes| - 1].next == null)
      && (forall i :: 0 <= i < |nodes| - 1 ==> nodes[i].next == nodes[i + 1])
      && (forall i, j :: 0 <= i < j < |nodes| ==> nodes[i] != nodes[j])
      && (forall i :: 0 <= i < |nodes| ==> nodes[i].entry == contents[i])
    }

    constructor (max: nat)
      requires max >= 1
      ensures Valid() && contents == [] && this.max == max && fresh(nodes)
    {
      this.max := max;
      first, last, size, nodes, contents := null, null, 0, [], [];
    }

    /** Takes out the oldest. */
    method DropFirst()
      requires IsChain() && nodes != []
      modifies `first, `last, `nodes, `contents
      ensures IsChain() && nodes == old(nodes)[1..] && contents == old(contents)[1..]
    {
      first := first.next;
      if first == null {
        last := null;
      }
      nodes, contents := nodes[1..], contents[1..];
    }

    method Append(unit: CachedUnit)
      requires IsChain() && unit !in nodes && unit.next == null
      modifies `first, `last, `nodes, `contents, nodes
      ensures IsChain() && nodes == old(nodes) + [unit] && contents == old(contents) + [unit.entry]
    {
      if last == null {
        last, first := unit, unit;
      } else {
        last.next := unit;
        last := unit;
      }
      nodes, contents := nodes + [unit], contents + [unit.entry];
    }

    method AddCachedUnit(e: Entry)
      requires Valid()
      modifies this, nodes
      ensures Valid() && fresh(set n | n in nodes && n !in old(nodes))
      ensures contents == Added(old(contents), e, max)
      // the newest is the last, and only the oldest goes, if there is no room
      ensures contents == (if |old(contents)| == max then old(contents)[1..] else old(contents)) + [e]
    {
      var unit := new CachedUnit(e);
      if first == null {
        first, last, size := unit, unit, 1;
        nodes, contents := [unit], [e];
        return;
      }
      if size == max {
        DropFirst();
      } else {
        size := size + 1;
      }
      Append(unit);
    }

    /** Takes the node at position i out of the list; prev is the node before it. */
    method Unlink(prev: CachedUnit?, unit: CachedUnit, ghost i: nat)
      requires Valid() && i < |nodes| && unit == nodes[i]
      requires prev == if i > 0 then nodes[i - 1] else null
      modifies this, prev
      ensures Valid()
      ensures nodes == old(nodes[..i] + nodes[i + 1..]) && contents == Without(old(contents), i)
    {
      if prev != null {
        prev.next := unit.next;
        if unit == last {
          last := prev;
        }
      } else {
        first := unit.next;
        if first == null {
          last := null;
        }
      }
      size := size - 1;
      nodes, contents := nodes[..i] + nodes[i + 1..], Without(contents, i);
    }

    method InitJobFromCache(path: Path, args: Args) returns (found: Option<Entry>)
      requires Valid()
      modifies this, nodes
      ensures Valid() && forall n :: n in nodes ==> n in old(nodes)
      ensures var i := FirstMatch(old(contents), path, args);
        if i < |old(contents)|
        then found == Some(old(contents)[i]) && contents == old(contents)[..i] + old(contents)[i + 1..]
        else found == None && contents == old(contents)
      // a unit of the path is handed out exactly if there is one with these arguments, if any
      ensures found.None? <==> NoneFits(old(contents), path, args)
      ensures found.Some? ==> found.value.path == path && (args != [] ==> found.value.args == args)
    {
      var prev: CachedUnit? := null;
      var unit := first;
      ghost var i := 0;
      while unit != null
        invariant 0 <= i <= |nodes|
        invariant Valid() && nodes == old(nodes) && contents == old(contents)
        invariant unit == if i < |nodes| then nodes[i] else null
        invariant prev == if i > 0 then nodes[i - 1] else null
        invariant forall j :: 0 <= j < i ==> !Matches(contents[j], path, args)
        decreases |nodes| - i
      {
        if unit.entry.path == path && (args == [] || args == unit.entry.args) {
          FirstMatchAt(contents, path, args, i);
          MatchIsThereIff(contents, path, args);
          Unlink(prev, unit, i);
          found := Some(unit.entry);
          return;
        }
        prev := unit;
        unit := unit.next;
        i := i + 1;
      }
      FirstMatchAt(contents, path, args, |contents|);
      MatchIsThereIff(contents, path, args);
      found := None;
    }
  }

  /** No unit of this path has these arguments or, if none are given, any. */
  ghost predicate NoneFits(s: seq<Entry>, path: Path, args: Args) {
    forall e :: e in s && e.path == path ==> args != [] && args != e.args
  }

  lemma MatchIsThereIff(s: seq<Entry>, path: Path, args: Args)
    ensures FirstMatch(s, path, args) == |s| <==> NoneFits(s, path, args)
  {
    var i := FirstMatch(s, path, args);
    if i < |s| {
      assert s[i] in s;
    }
  }

  lemma {:induction false} FirstMatchAt(s: seq<Entry>, path: Path, args: Args, i: nat)
    requires i <= |s| && (i < |s| ==> Matches(s[i], path, args))
    requires forall j :: 0 <= j < i ==> !Matches(s[j], path, args)
    ensures FirstMatch(s, path, args) == i
  {
    var k := FirstMatch(s, path, args);
    assert !(k < i) && !(i < k);
  }
}
