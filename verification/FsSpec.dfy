/** The file system a caller sees: a table of files and directories, and what operations do to it. */
module FsSpec {
  import opened Bytes
  import opened IndexTree
  import opened Wrappers
  import opened Directory

  datatype Node = FileNode(bytes: seq<byte>) | DirNode(entries: seq<DirEntry>)

  /** Files and directories by inode number; inode 0 is the root directory. */
  type Table = seq<Node>

  const SLASH: byte := 47

  // ---------------------------------------------------------------- files

  /** `c` with `buf` written over it at `offset`; a gap past the end is filled with zeros. */
  function Overwrite(c: seq<byte>, offset: nat, buf: seq<byte>): (r: seq<byte>)
    ensures |r| == Max(|c|, offset + |buf|)
  {
    Splice(c + Zeros(Max(|c|, offset + |buf|) - |c|), offset, buf)
  }

  /** What a read of up to `n` bytes at `offset` delivers. */
  function ReadOf(c: seq<byte>, offset: nat, n: nat): (r: seq<byte>)
  {
    if offset >= |c| then []
    else if offset + n <= |c| then c[offset..offset + n]
    else c[offset..]
  }

  /** Byte by byte: the buffer where it was laid, the old bytes elsewhere, zeros in a gap. */
  lemma OverwriteBytes(c: seq<byte>, offset: nat, buf: seq<byte>, p: nat)
    requires p < Max(|c|, offset + |buf|)
    ensures Overwrite(c, offset, buf)[p]
         == if offset <= p < offset + |buf| then buf[p - offset] else if p < |c| then c[p] else 0
  {
  }

  /** A read returns the bytes from the offset on, up to the length asked for or the end of the file. */
  lemma ReadOfBytes(c: seq<byte>, offset: nat, n: nat)
    ensures |ReadOf(c, offset, n)| == if offset >= |c| then 0 else Min(n, |c| - offset)
    ensures forall k | 0 <= k < |ReadOf(c, offset, n)| :: offset + k < |c| && ReadOf(c, offset, n)[k] == c[offset + k]
  {
  }

  // ---------------------------------------------------------------- directories

  /** The inode number of the first entry called `name`. */
  function Lookup(es: seq<DirEntry>, name: Name): (r: Option<u32>)
    ensures r.Some? <==> exists k :: 0 <= k < |es| && es[k].name == name
  {
    if es == [] then None
    else if es[0].name == name then Some(es[0].id)
    else
      assert forall k | 1 <= k < |es| :: es[k] == es[1..][k - 1];
      Lookup(es[1..], name)
  }

  function NewNode(kind: Kind): (n: Node)
  {
    if kind == File then FileNode([]) else DirNode([])
  }

  /** `name` becomes an entry of directory `dir` for a new, empty node. */
  function Create(t: Table, dir: nat, name: Name, kind: Kind): (t': Table)
    requires dir < |t| < U32_LIMIT && t[dir].DirNode?
  {
    t[dir := DirNode(t[dir].entries + [DirEntry(name, |t|)])] + [NewNode(kind)]
  }

  /** The non-empty parts of a path between slashes. */
  function Components(path: Name): (cs: seq<Name>)
    ensures forall k | 0 <= k < |cs| :: cs[k] != [] && SLASH !in cs[k]
  {
    var n := SlashAt(path);
    var rest := if n < |path| then Components(path[n + 1..]) else [];
    if n == 0 then rest else [path[..n]] + rest
  }

  function SlashAt(path: Name): (n: nat)
    ensures n <= |path| && SLASH !in path[..n] && (n < |path| ==> path[n] == SLASH)
  {
    if path == [] || path[0] == SLASH then 0
    else
      var n := SlashAt(path[1..]);
      assert path[..n + 1] == [path[0]] + path[1..][..n];
      n + 1
  }

  /** Following names down from node `id`; fails at a missing name and at a file with names left. */
  function Walk(t: Table, id: nat, names: seq<Name>): (r: Option<nat>)
    decreases names
  {
    if id >= |t| then None
    else if names == [] then Some(id)
    else if t[id].FileNode? then None
    else
      match Lookup(t[id].entries, names[0])
      case None => None
      case Some(child) => Walk(t, child, names[1..])
  }

  // ---------------------------------------------------------------- the table is a tree

  ghost predicate UniqueNames(es: seq<DirEntry>)
  {
    forall j, k | 0 <= j < k < |es| :: es[j].name != es[k].name
  }

  /** Entry `k` of directory `dir` points to `id`. */
  ghost predicate Points(t: Table, dir: nat, k: nat, id: nat)
  {
    dir < |t| && t[dir].DirNode? && k < |t[dir].entries| && t[dir].entries[k].id == id
  }

  ghost predicate HasParent(t: Table, id: nat)
  {
    exists i: nat, k: nat :: Points(t, i, k, id)
  }

  /** Names are valid and unique per directory; every node but the root is named by exactly one entry, of a directory
    * with a smaller number. */
  ghost predicate IsTree(t: Table)
  {
    && |t| >= 1 && t[0].DirNode?
    && (forall i: nat | i < |t| && t[i].DirNode? :: ValidNames(t[i].entries) && UniqueNames(t[i].entries))
    && (forall i: nat, k: nat, id: nat | Points(t, i, k, id) :: i < id < |t|)
    && (forall id: nat | 1 <= id < |t| :: HasParent(t, id))
    && (forall i: nat, k: nat, i': nat, k': nat, id: nat | Points(t, i, k, id) && Points(t, i', k', id) ::
          i == i' && k == k')
  }

  /** Creating a name that is not taken keeps the tree a tree. */
  lemma CreateKeepsTree(t: Table, dir: nat, name: Name, kind: Kind)
    requires IsTree(t) && dir < |t| < U32_LIMIT && t[dir].DirNode?
    requires ValidName(name) && Lookup(t[dir].entries, name).None?
    ensures IsTree(Create(t, dir, name, kind))
  {
    var t' := Create(t, dir, name, kind);
    var n := |t[dir].entries|;
    forall i: nat, k: nat, id: nat
      ensures Points(t', i, k, id) <==> Points(t, i, k, id) || (i == dir && k == n && id == |t|)
    {
    }
    assert Points(t', dir, n, |t|) && HasParent(t', |t|);
    forall id: nat | 1 <= id < |t|
      ensures HasParent(t', id)
    {
      assert HasParent(t, id);
      var i: nat, k: nat :| Points(t, i, k, id);
      assert Points(t', i, k, id);
    }
  }

  /** Changing the bytes of a file keeps the tree a tree. */
  lemma FileChangeKeepsTree(t: Table, i: nat, bytes: seq<byte>)
    requires IsTree(t) && i < |t| && t[i].FileNode?
    ensures IsTree(t[i := FileNode(bytes)])
  {
    var t' := t[i := FileNode(bytes)];
    forall j: nat, k: nat, id: nat
      ensures Points(t', j, k, id) <==> Points(t, j, k, id)
    {
    }
    forall id: nat | 1 <= id < |t|
      ensures HasParent(t', id)
    {
      assert HasParent(t, id);
      var j: nat, k: nat :| Points(t, j, k, id);
      assert Points(t', j, k, id);
    }
  }

  /** An entry is found under its name. */
  lemma {:induction false} LookupFinds(es: seq<DirEntry>, k: nat)
    requires UniqueNames(es) && k < |es|
    ensures Lookup(es, es[k].name) == Some(es[k].id)
  {
    if k > 0 {
      LookupFinds(es[1..], k - 1);
    }
  }

  lemma {:induction false} LookupIndex(es: seq<DirEntry>, name: Name) returns (k: nat)
    requires Lookup(es, name).Some?
    ensures k < |es| && es[k].name == name && Lookup(es, name) == Some(es[k].id)
  {
    if es[0].name == name {
      k := 0;
    } else {
      k := LookupIndex(es[1..], name);
      k := k + 1;
    }
  }

  lemma {:induction false} WalkAppend(t: Table, id: nat, p: seq<Name>, name: Name)
    requires Walk(t, id, p).Some?
    ensures Walk(t, id, p).value < |t|
    ensures Walk(t, id, p + [name]) == Walk(t, Walk(t, id, p).value, [name])
    decreases p
  {
    if p != [] {
      assert (p + [name])[0] == p[0] && (p + [name])[1..] == p[1..] + [name];
      WalkAppend(t, Lookup(t[id].entries, p[0]).value, p[1..], name);
    } else {
      assert p + [name] == [name];
    }
  }

  /** Every node of a tree is reached from the root by some path. */
  lemma {:induction false} EveryNodeReachable(t: Table, id: nat) returns (p: seq<Name>)
    requires IsTree(t) && id < |t|
    ensures Walk(t, 0, p) == Some(id)
    decreases id
  {
    if id == 0 {
      p := [];
    } else {
      assert HasParent(t, id);
      var i: nat, k: nat :| Points(t, i, k, id);
      var q := EveryNodeReachable(t, i);
      var name := t[i].entries[k].name;
      LookupFinds(t[i].entries, k);
      WalkAppend(t, 0, q, name);
      assert Walk(t, i, [name]) == Walk(t, id, [name][1..]);
      p := q + [name];
    }
  }

  /** The last step of a path goes through the only entry that points to its target. */
  lemma LastStep(t: Table, p: seq<Name>, id: nat) returns (i: nat, k: nat)
    requires IsTree(t) && p != [] && Walk(t, 0, p) == Some(id)
    ensures Walk(t, 0, p[..|p| - 1]) == Some(i)
    ensures Points(t, i, k, id) && t[i].entries[k].name == p[|p| - 1]
  {
    var n := |p| - 1;
    assert p == p[..n] + [p[n]];
    WalkPrefix(t, 0, p[..n], p[n]);
    WalkAppend(t, 0, p[..n], p[n]);
    i := Walk(t, 0, p[..n]).value;
    k := LookupIndex(t[i].entries, p[n]);
    assert [p[n]][1..] == p[..0];
  }

  lemma {:induction false} WalkPrefix(t: Table, id: nat, p: seq<Name>, name: Name)
    requires Walk(t, id, p + [name]).Some?
    ensures Walk(t, id, p).Some?
    decreases p
  {
    if p != [] {
      assert (p + [name])[0] == p[0] && (p + [name])[1..] == p[1..] + [name];
      WalkPrefix(t, Lookup(t[id].entries, p[0]).value, p[1..], name);
    }
  }

  /** No node of a tree is reached by two paths. */
  lemma {:induction false} PathsAreUnique(t: Table, p: seq<Name>, q: seq<Name>, id: nat)
    requires IsTree(t) && Walk(t, 0, p) == Some(id) && Walk(t, 0, q) == Some(id)
    ensures p == q
    decreases |p|
  {
    if p != [] {
      var i, k := LastStep(t, p, id);
      if q != [] {
        var i', k' := LastStep(t, q, id);
        PathsAreUnique(t, p[..|p| - 1], q[..|q| - 1], i);
        assert p == p[..|p| - 1] + [p[|p| - 1]] && q == q[..|q| - 1] + [q[|q| - 1]];
      }
    } else if q != [] {
      var i, k := LastStep(t, q, id);
    }
  }

  /** Creation leaves every path that led somewhere leading there. */
  lemma {:induction false} CreateKeepsPaths(t: Table, dir: nat, name: Name, kind: Kind, id: nat, p: seq<Name>)
    requires dir < |t| < U32_LIMIT && t[dir].DirNode? && Walk(t, id, p).Some?
    ensures Walk(Create(t, dir, name, kind), id, p) == Walk(t, id, p)
    decreases p
  {
    if p != [] {
      var child := Lookup(t[id].entries, p[0]).value;
      CreateKeepsPaths(t, dir, name, kind, child, p[1..]);
      if id == dir {
        LookupExtend(t[dir].entries, DirEntry(name, |t|), p[0]);
      }
    }
  }

  lemma {:induction false} LookupExtend(es: seq<DirEntry>, e: DirEntry, name: Name)
    ensures Lookup(es + [e], name)
         == if Lookup(es, name).Some? then Lookup(es, name) else if e.name == name then Some(e.id) else None
  {
    if es != [] {
      assert (es + [e])[1..] == es[1..] + [e];
      LookupExtend(es[1..], e, name);
    }
  }

  /** The new node is found under its name, below every path to its directory. */
  lemma CreatedIsFound(t: Table, dir: nat, name: Name, kind: Kind, p: seq<Name>)
    requires IsTree(t) && dir < |t| < U32_LIMIT && t[dir].DirNode? && Lookup(t[dir].entries, name).None?
    requires Walk(t, 0, p) == Some(dir)
    ensures Walk(Create(t, dir, name, kind), 0, p + [name]) == Some(|t|)
  {
    var t' := Create(t, dir, name, kind);
    CreateKeepsPaths(t, dir, name, kind, 0, p);
    LookupExtend(t[dir].entries, DirEntry(name, |t|), name);
    WalkAppend(t', 0, p, name);
    assert [name][1..] == p[..0];
  }
}
