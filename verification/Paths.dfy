/** Slash paths: the spellings of a list of names, and the chain of directories a walk follows. */
module Paths {
  import opened Bytes
  import opened Wrappers
  import opened Directory
  import opened FsSpec

  // ---------------------------------------------------------------- spellings

  /** A name that can be a part of a path. */
  predicate IsPart(name: Name)
  {
    name != [] && SLASH !in name
  }

  function Slashes(n: nat): (s: Name)
  {
    seq(n, _ => SLASH)
  }

  /** The names `cs` in order, with `gaps[k]` slashes before name `k` and `gaps[|cs|]` behind the last. */
  function Spell(cs: seq<Name>, gaps: seq<nat>): (path: Name)
    requires |gaps| == |cs| + 1
  {
    if cs == [] then Slashes(gaps[0]) else Slashes(gaps[0]) + cs[0] + Spell(cs[1..], gaps[1..])
  }

  /** `path` spells `cs`: there is at least one slash between two names, and any number before and behind. */
  ghost predicate Spells(path: Name, cs: seq<Name>, gaps: seq<nat>)
  {
    && |gaps| == |cs| + 1 && (forall k | 0 <= k < |cs| :: IsPart(cs[k]))
    && (forall k | 1 <= k < |cs| :: gaps[k] >= 1)
    && path == Spell(cs, gaps)
  }

  lemma ComponentsSlash(path: Name)
    ensures Components([SLASH] + path) == Components(path)
  {
    assert ([SLASH] + path)[1..] == path;
  }

  lemma {:induction false} ComponentsSlashes(n: nat, path: Name)
    ensures Components(Slashes(n) + path) == Components(path)
  {
    if n == 0 {
      assert Slashes(0) + path == path;
    } else {
      assert Slashes(n) + path == [SLASH] + (Slashes(n - 1) + path);
      ComponentsSlash(Slashes(n - 1) + path);
      ComponentsSlashes(n - 1, path);
    }
  }

  lemma {:induction false} SlashAtName(name: Name, rest: Name)
    requires SLASH !in name && (rest == [] || rest[0] == SLASH)
    ensures SlashAt(name + rest) == |name|
  {
    if name != [] {
      assert (name + rest)[1..] == name[1..] + rest;
      SlashAtName(name[1..], rest);
    } else {
      assert name + rest == rest;
    }
  }

  lemma ComponentsName(name: Name, rest: Name)
    requires IsPart(name) && (rest == [] || rest[0] == SLASH)
    ensures Components(name + rest) == [name] + Components(rest)
  {
    SlashAtName(name, rest);
    assert (name + rest)[..|name|] == name;
    if rest != [] {
      assert (name + rest)[|name| + 1..] == rest[1..];
      assert rest == [SLASH] + rest[1..];
      ComponentsSlash(rest[1..]);
    }
  }

  /** Splitting any spelling of `cs` gives `cs`: every name, once, in order. */
  lemma {:induction false} SplitSpelling(path: Name, cs: seq<Name>, gaps: seq<nat>)
    requires Spells(path, cs, gaps)
    ensures Components(path) == cs
    decreases cs
  {
    hide Components;
    if cs == [] {
      assert Slashes(gaps[0]) + [] == path;
      ComponentsSlashes(gaps[0], []);
      NothingSpells();
    } else {
      var rest := Spell(cs[1..], gaps[1..]);
      assert path == Slashes(gaps[0]) + (cs[0] + rest);
      RestSpells(cs, gaps);
      hide Spells, Spell;
      assert IsPart(cs[0]);
      SplitSpelling(rest, cs[1..], gaps[1..]);
      ComponentsSlashes(gaps[0], cs[0] + rest);
      ComponentsName(cs[0], rest);
    }
  }

  lemma RestSpells(cs: seq<Name>, gaps: seq<nat>)
    requires cs != [] && |gaps| == |cs| + 1 && Spells(Spell(cs, gaps), cs, gaps)
    ensures var rest := Spell(cs[1..], gaps[1..]);
            Spells(rest, cs[1..], gaps[1..]) && (rest == [] || rest[0] == SLASH)
  {
    var rest := Spell(cs[1..], gaps[1..]);
    if |cs| > 1 {
      assert gaps[1..][0] >= 1 && Slashes(gaps[1])[0] == SLASH;
    } else {
      assert rest == Slashes(gaps[1]);
    }
  }

  /** Every path is a spelling of its parts. */
  lemma {:induction false} EveryPathSpells(path: Name) returns (gaps: seq<nat>)
    ensures Spells(path, Components(path), gaps)
    decreases |path|
  {
    hide Spells, Components, SlashAt;
    var n := SlashAt(path);
    if path == [] {
      gaps := [0];
      NothingSpells();
    } else if n == 0 {
      var g := EveryPathSpells(path[1..]);
      assert path == [SLASH] + path[1..];
      ComponentsSlash(path[1..]);
      gaps := MoreSlashes(path[1..], Components(path[1..]), g);
    } else {
      var g := EveryPathSpells(path[n..]);
      assert path == path[..n] + path[n..];
      ComponentsName(path[..n], path[n..]);
      gaps := MoreName(path[..n], path[n..], Components(path[n..]), g);
    }
  }

  lemma NothingSpells()
    ensures Components([]) == [] && Spells([], [], [0])
  {
  }

  lemma MoreName(name: Name, path: Name, cs: seq<Name>, g: seq<nat>) returns (gaps: seq<nat>)
    requires IsPart(name) && Spells(path, cs, g) && (path == [] || path[0] == SLASH)
    ensures Spells(name + path, [name] + cs, gaps)
  {
    gaps := [0] + g;
    assert ([name] + cs)[1..] == cs && gaps[1..] == g;
    assert Spell([name] + cs, gaps) == Slashes(0) + name + path == name + path;
  }

  lemma MoreSlashes(path: Name, cs: seq<Name>, g: seq<nat>) returns (gaps: seq<nat>)
    requires Spells(path, cs, g)
    ensures Spells([SLASH] + path, cs, gaps)
  {
    gaps := g[0 := g[0] + 1];
    assert Slashes(g[0] + 1) == [SLASH] + Slashes(g[0]);
    if cs != [] {
      assert gaps[1..] == g[1..];
    }
  }

  // ---------------------------------------------------------------- walks

  /** Directory `id` has an entry called `name` for node `child`. */
  ghost predicate Names(t: Table, id: nat, name: Name, child: nat)
  {
    exists k: nat :: Points(t, id, k, child) && t[id].entries[k].name == name
  }

  /** `ids` are the nodes passed on the way down along `names`. */
  ghost predicate Chain(t: Table, ids: seq<nat>, names: seq<Name>)
  {
    && |ids| == |names| + 1 && (forall k | 0 <= k < |ids| :: ids[k] < |t|)
    && forall k: nat | k < |names| :: Link(t, ids, names, k)
  }

  ghost predicate Link(t: Table, ids: seq<nat>, names: seq<Name>, k: nat)
    requires k < |names| && |ids| == |names| + 1
  {
    Names(t, ids[k], names[k], ids[k + 1])
  }

  /** Following `names` from `id`, from directory to entry, ends at `x`. */
  ghost predicate Reaches(t: Table, id: nat, names: seq<Name>, x: nat)
  {
    exists ids: seq<nat> :: Chain(t, ids, names) && ids[0] == id && ids[|names|] == x
  }

  lemma {:induction false} WalkReaches(t: Table, id: nat, names: seq<Name>)
    requires Walk(t, id, names).Some?
    ensures Reaches(t, id, names, Walk(t, id, names).value)
    decreases names
  {
    var x := Walk(t, id, names).value;
    if names == [] {
      assert Chain(t, [id], names);
    } else {
      var k := LookupIndex(t[id].entries, names[0]);
      var child := t[id].entries[k].id;
      assert Points(t, id, k, child) && t[id].entries[k].name == names[0];
      WalkReaches(t, child, names[1..]);
      var rest: seq<nat> :| Chain(t, rest, names[1..]) && rest[0] == child && rest[|names| - 1] == x;
      var ids := [id] + rest;
      forall j: nat | j < |names|
        ensures Link(t, ids, names, j)
      {
        if j > 0 { assert Link(t, rest, names[1..], j - 1); }
      }
      assert Chain(t, ids, names) && ids[|names|] == x;
    }
  }

  lemma {:induction false} ReachesWalk(t: Table, ids: seq<nat>, names: seq<Name>)
    requires IsTree(t) && Chain(t, ids, names)
    ensures Walk(t, ids[0], names) == Some(ids[|names|])
    decreases names
  {
    if names != [] {
      assert Link(t, ids, names, 0);
      var k: nat :| Points(t, ids[0], k, ids[1]) && t[ids[0]].entries[k].name == names[0];
      LookupFinds(t[ids[0]].entries, k);
      forall j: nat | j < |names| - 1
        ensures Link(t, ids[1..], names[1..], j)
      {
        assert Link(t, ids, names, j + 1);
      }
      ReachesWalk(t, ids[1..], names[1..]);
    }
  }

  /** A walk ends at `x` if and only if a chain of directory entries leads there; otherwise it fails. */
  lemma WalkExactly(t: Table, id: nat, names: seq<Name>)
    requires IsTree(t)
    ensures forall x: nat :: Walk(t, id, names) == Some(x) <==> Reaches(t, id, names, x)
  {
    hide IsTree;
    forall x: nat
      ensures Walk(t, id, names) == Some(x) <==> Reaches(t, id, names, x)
    {
      if Walk(t, id, names) == Some(x) { WalkReaches(t, id, names); }
      if Reaches(t, id, names, x) {
        var ids: seq<nat> :| Chain(t, ids, names) && ids[0] == id && ids[|names|] == x;
        ReachesWalk(t, ids, names);
      }
    }
  }

  /** Changing the bytes of a file leaves every walk where it was. */
  lemma {:induction false} FileChangeKeepsWalks(t: Table, i: nat, bytes: seq<byte>, id: nat, names: seq<Name>)
    requires i < |t| && t[i].FileNode?
    ensures Walk(t[i := FileNode(bytes)], id, names) == Walk(t, id, names)
    decreases names
  {
    if id < |t| && names != [] && t[id].DirNode? {
      match Lookup(t[id].entries, names[0])
      case None =>
      case Some(child) => FileChangeKeepsWalks(t, i, bytes, child, names[1..]);
    }
  }
}
