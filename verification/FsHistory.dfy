/** What a caller may rely on over whole runs: a file holds what was last written to it, a directory the names made in
  * it, and a path, once there, leads to the same node for good. */
module FsHistory {
  import opened Bytes
  import opened IndexTree
  import opened Wrappers
  import opened Directory
  import opened DiskFormat
  import opened FsSpec
  import opened Paths
  import opened Mount
  import opened Vfs
  import opened Format

  // ---------------------------------------------------------------- the last operation of a run

  ghost function TableAfter(g: Geometry, blocks: nat, t: Table, ops: seq<Op>): (t': Table)
    requires IsTree(t) && RunOk(g, blocks, t, ops)
    ensures IsTree(t')
  {
    RunOf(g, blocks, t, ops).0
  }

  /** A run is a shorter run followed by its last operation. */
  lemma {:induction false} LastOp(g: Geometry, blocks: nat, t: Table, ops: seq<Op>, op: Op)
    requires IsTree(t) && RunOk(g, blocks, t, ops + [op])
    ensures RunOk(g, blocks, t, ops) && Admissible(g, blocks, TableAfter(g, blocks, t, ops), op)
    ensures var t' := TableAfter(g, blocks, t, ops);
            && RunOf(g, blocks, t, ops + [op]).0 == Next(g, blocks, t', op)
            && RunOf(g, blocks, t, ops + [op]).1 == RunOf(g, blocks, t, ops).1 + [Sees(g, blocks, t', op)]
    decreases ops
  {
    hide IsTree, Admissible, Next, Sees;
    var all := ops + [op];
    NextIsTree(g, blocks, t, all[0]);
    if ops == [] {
      assert all == [op] && all[1..] == [];
      assert [Sees(g, blocks, t, op)] + [] == [] + [Sees(g, blocks, t, op)];
    } else {
      assert all[0] == ops[0] && all[1..] == ops[1..] + [op];
      LastOp(g, blocks, Next(g, blocks, t, ops[0]), ops[1..], op);
    }
  }

  // ---------------------------------------------------------------- files

  /** The size of file `i` after `ops`: as far as a write reached since the last clear. */
  function SizeAfter(ops: seq<Op>, i: nat, start: seq<byte>): (size: nat)
  {
    if ops == [] then |start|
    else
      var n := |ops| - 1;
      var before := SizeAfter(ops[..n], i, start);
      match ops[n]
      case Write(j, offset, buf) => if j == i && before < offset + |buf| then offset + |buf| else before
      case Clear(j) => if j == i then 0 else before
      case _ => before
  }

  /** Byte `p` of file `i` after `ops`: from the last write that covered it since the last clear, else what the file
    * started with, else 0. */
  function ByteAfter(ops: seq<Op>, i: nat, start: seq<byte>, p: nat): (b: byte)
  {
    if ops == [] then if p < |start| then start[p] else 0
    else
      var n := |ops| - 1;
      match ops[n]
      case Write(j, offset, buf) =>
        if j == i && offset <= p < offset + |buf| then buf[p - offset] else ByteAfter(ops[..n], i, start, p)
      case Clear(j) => if j == i then 0 else ByteAfter(ops[..n], i, start, p)
      case _ => ByteAfter(ops[..n], i, start, p)
  }

  /** The bytes of file `i`; none if it is a directory or does not exist yet. */
  ghost function FileBytes(t: Table, i: nat): (c: seq<byte>)
  {
    if i < |t| && t[i].FileNode? then t[i].bytes else []
  }

  /** `c` has the size and the bytes that `ops` gave file `i`. */
  ghost predicate IsHistory(c: seq<byte>, ops: seq<Op>, i: nat, start: seq<byte>)
  {
    |c| == SizeAfter(ops, i, start) && forall p: nat :: ByteAfter(ops, i, start, p) == if p < |c| then c[p] else 0
  }

  /** What one operation does to the bytes of file `i`. */
  lemma BytesStep(g: Geometry, blocks: nat, t: Table, op: Op, i: nat)
    requires IsTree(t) && Admissible(g, blocks, t, op)
    ensures var c, c' := FileBytes(t, i), FileBytes(Next(g, blocks, t, op), i);
            if op.Write? && op.i == i then c' == Overwrite(c, op.offset, op.buf)
            else if op.Clear? && op.i == i then c' == [] else c' == c
  {
    hide IsTree, Room, Overwrite, Lookup, NodeBytes;
  }

  lemma HistoryStep(c: seq<byte>, ops: seq<Op>, op: Op, i: nat, start: seq<byte>, c': seq<byte>)
    requires IsHistory(c, ops, i, start)
    requires if op.Write? && op.i == i then c' == Overwrite(c, op.offset, op.buf)
             else if op.Clear? && op.i == i then c' == [] else c' == c
    ensures IsHistory(c', ops + [op], i, start)
  {
    hide Overwrite;
    var all, n := ops + [op], |ops|;
    assert all[..n] == ops && all[n] == op;
    assert |c'| == SizeAfter(all, i, start);
    forall p: nat
      ensures ByteAfter(all, i, start, p) == if p < |c'| then c'[p] else 0
    {
      assert ByteAfter(ops, i, start, p) == if p < |c| then c[p] else 0;
      if op.Write? && op.i == i && p < |c'| { OverwriteBytes(c, op.offset, op.buf, p); }
    }
  }

  /** After any run a file has the size and the bytes that its writes and clears gave it. */
  lemma {:induction false} FileIsHistory(g: Geometry, blocks: nat, t: Table, ops: seq<Op>, i: nat)
    requires IsTree(t) && RunOk(g, blocks, t, ops)
    ensures IsHistory(FileBytes(TableAfter(g, blocks, t, ops), i), ops, i, FileBytes(t, i))
    decreases |ops|
  {
    hide IsTree, Admissible, Next, IsHistory, FileBytes;
    if ops == [] {
      StartIsHistory(FileBytes(t, i), i);
    } else {
      var n := |ops| - 1;
      assert ops == ops[..n] + [ops[n]];
      LastOp(g, blocks, t, ops[..n], ops[n]);
      FileIsHistory(g, blocks, t, ops[..n], i);
      var t' := TableAfter(g, blocks, t, ops[..n]);
      BytesStep(g, blocks, t', ops[n], i);
      HistoryStep(FileBytes(t', i), ops[..n], ops[n], i, FileBytes(t, i), FileBytes(Next(g, blocks, t', ops[n]), i));
    }
  }

  lemma StartIsHistory(c: seq<byte>, i: nat)
    ensures IsHistory(c, [], i, c)
  {
  }

  /** A read at the end of any run returns, byte by byte, what was last written there. */
  lemma ReadSeesWrites(g: Geometry, blocks: nat, t: Table, ops: seq<Op>, i: nat, offset: nat, len: nat)
    requires IsTree(t) && RunOk(g, blocks, t, ops + [Read(i, offset, len)])
    requires RunOk(g, blocks, t, ops) && i < |TableAfter(g, blocks, t, ops)|
    requires TableAfter(g, blocks, t, ops)[i].FileNode?
    ensures |RunOf(g, blocks, t, ops + [Read(i, offset, len)]).1| > |RunOf(g, blocks, t, ops).1|
    ensures var o := RunOf(g, blocks, t, ops + [Read(i, offset, len)]).1[|RunOf(g, blocks, t, ops).1|];
            var size := SizeAfter(ops, i, FileBytes(t, i));
            && o.Got? && |o.bytes| == (if offset >= size then 0 else Min(len, size - offset))
            && forall k: nat | k < |o.bytes| :: o.bytes[k] == ByteAfter(ops, i, FileBytes(t, i), offset + k)
  {
    hide IsTree, RunOk, RunOf, ReadOf;
    LastOp(g, blocks, t, ops, Read(i, offset, len));
    FileIsHistory(g, blocks, t, ops, i);
    ReadOfBytes(TableAfter(g, blocks, t, ops)[i].bytes, offset, len);
  }

  // ---------------------------------------------------------------- directories

  /** The names in directory `i` after `ops`: each that was made and was not there yet, in order. */
  function NamesAfter(ops: seq<Op>, i: nat, start: seq<Name>): (names: seq<Name>)
  {
    if ops == [] then start
    else
      var n := |ops| - 1;
      var before := NamesAfter(ops[..n], i, start);
      if ops[n].Make? && ops[n].i == i && ops[n].name !in before then before + [ops[n].name] else before
  }

  /** The names in directory `i`; none if it is a file or does not exist yet. */
  ghost function DirNames(t: Table, i: nat): (names: seq<Name>)
  {
    if i < |t| && t[i].DirNode? then NamesOf(t[i].entries) else []
  }

  lemma NamedIsListed(es: seq<DirEntry>, name: Name)
    ensures name in NamesOf(es) <==> Lookup(es, name).Some?
  {
    hide Lookup;
    if Lookup(es, name).Some? {
      var k :| 0 <= k < |es| && es[k].name == name;
      assert NamesOf(es)[k] == name;
    }
  }

  lemma NamesStep(g: Geometry, blocks: nat, t: Table, op: Op, i: nat)
    requires IsTree(t) && Admissible(g, blocks, t, op)
    ensures var names := DirNames(t, i);
            DirNames(Next(g, blocks, t, op), i)
            == if op.Make? && op.i == i && op.name !in names then names + [op.name] else names
  {
    hide IsTree, Room, Overwrite, Lookup, NodeBytes;
    if op.Make? {
      NamedIsListed(t[op.i].entries, op.name);
    }
  }

  /** After any run a directory holds the names that were made in it, in the order they were first made. */
  lemma {:induction false} DirIsHistory(g: Geometry, blocks: nat, t: Table, ops: seq<Op>, i: nat)
    requires IsTree(t) && RunOk(g, blocks, t, ops)
    ensures DirNames(TableAfter(g, blocks, t, ops), i) == NamesAfter(ops, i, DirNames(t, i))
    decreases |ops|
  {
    hide IsTree, Admissible, Next, DirNames;
    if ops != [] {
      var n := |ops| - 1;
      assert ops == ops[..n] + [ops[n]];
      LastOp(g, blocks, t, ops[..n], ops[n]);
      DirIsHistory(g, blocks, t, ops[..n], i);
      NamesStep(g, blocks, TableAfter(g, blocks, t, ops[..n]), ops[n], i);
    }
  }

  /** A listing at the end of any run shows the names made, in order. */
  lemma ListSeesMade(g: Geometry, blocks: nat, t: Table, ops: seq<Op>, i: nat)
    requires IsTree(t) && RunOk(g, blocks, t, ops + [List(i)])
    ensures var seen := RunOf(g, blocks, t, ops + [List(i)]).1;
            seen[|seen| - 1..] == [Names(NamesAfter(ops, i, DirNames(t, i)))]
  {
    hide IsTree, RunOk, RunOf;
    LastOp(g, blocks, t, ops, List(i));
    DirIsHistory(g, blocks, t, ops, i);
  }

  /** Making a node fails exactly when the name was made before; otherwise the answer is a number not in use, and the
    * node is empty and of the kind asked for. */
  lemma MakeAnswers(g: Geometry, blocks: nat, t: Table, ops: seq<Op>, i: nat, name: Name, kind: Kind)
    requires IsTree(t) && RunOk(g, blocks, t, ops + [Make(i, name, kind)])
    ensures var all := ops + [Make(i, name, kind)];
            var seen := RunOf(g, blocks, t, all).1;
            && RunOk(g, blocks, t, ops)
            && var x, t' := |TableAfter(g, blocks, t, ops)|, TableAfter(g, blocks, t, all);
               if name in NamesAfter(ops, i, DirNames(t, i)) then
                 seen[|seen| - 1..] == [Obs.Node(None)] && t' == TableAfter(g, blocks, t, ops)
               else
                 && seen[|seen| - 1..] == [Obs.Node(Some(x))] && |t'| == x + 1
                 && (kind == File ==> t'[x] == FileNode([])) && (kind == Directory ==> t'[x] == DirNode([]))
  {
    hide IsTree, RunOk, RunOf, Lookup, Room, NodeBytes;
    LastOp(g, blocks, t, ops, Make(i, name, kind));
    DirIsHistory(g, blocks, t, ops, i);
    NamedIsListed(TableAfter(g, blocks, t, ops)[i].entries, name);
  }

  // ---------------------------------------------------------------- paths

  lemma NextKeepsPath(g: Geometry, blocks: nat, t: Table, op: Op, p: seq<Name>, x: nat)
    requires IsTree(t) && Admissible(g, blocks, t, op) && Walk(t, 0, p) == Some(x)
    ensures Walk(Next(g, blocks, t, op), 0, p) == Some(x)
  {
    hide IsTree, Walk, Overwrite, Room, Lookup, NodeBytes;
    match op {
      case Write(i, offset, buf) => FileChangeKeepsWalks(t, i, Overwrite(t[i].bytes, offset, buf), 0, p);
      case Clear(i) => FileChangeKeepsWalks(t, i, [], 0, p);
      case Make(i, name, kind) => if Lookup(t[i].entries, name).None? { CreateKeepsPaths(t, i, name, kind, 0, p); }
      case _ =>
    }
  }

  /** Whatever is done, a path that leads to a node goes on leading to it. */
  lemma {:induction false} PathsLast(g: Geometry, blocks: nat, t: Table, ops: seq<Op>, p: seq<Name>, x: nat)
    requires IsTree(t) && RunOk(g, blocks, t, ops) && Walk(t, 0, p) == Some(x)
    ensures Walk(TableAfter(g, blocks, t, ops), 0, p) == Some(x)
    decreases ops
  {
    hide IsTree, Walk, Admissible, Next;
    if ops != [] {
      NextIsTree(g, blocks, t, ops[0]);
      NextKeepsPath(g, blocks, t, ops[0], p, x);
      PathsLast(g, blocks, Next(g, blocks, t, ops[0]), ops[1..], p, x);
    }
  }

  /** A node is found under every spelling of its path, in every run from the moment it was made. */
  lemma MadeIsFound(g: Geometry, blocks: nat, t: Table, dir: nat, name: Name, kind: Kind, later: seq<Op>,
                    p: seq<Name>, path: Name, gaps: seq<nat>)
    requires IsTree(t) && RunOk(g, blocks, t, [Make(dir, name, kind)] + later)
    requires RunOk(g, blocks, t, [Make(dir, name, kind)] + later + [Find(0, path)])
    requires Walk(t, 0, p) == Some(dir) && dir < |t| && t[dir].DirNode? && Lookup(t[dir].entries, name).None?
    requires Spells(path, p + [name], gaps)
    ensures var ops := [Make(dir, name, kind)] + later;
            var seen := RunOf(g, blocks, t, ops + [Find(0, path)]).1;
            seen[|seen| - 1..] == [Obs.Node(Some(|t|))]
  {
    var make := Make(dir, name, kind);
    var ops := [make] + later;
    assert Admissible(g, blocks, t, ops[0]);
    CreatedIsFound(t, dir, name, kind, p);
    hide IsTree, Walk, Admissible, Lookup, Create;
    NextIsTree(g, blocks, t, make);
    assert ops[0] == make && ops[1..] == later;
    PathsLast(g, blocks, Next(g, blocks, t, make), later, p + [name], |t|);
    LastOp(g, blocks, t, ops, Find(0, path));
    SplitSpelling(path, p + [name], gaps);
  }
}
