/** Directory entries: 28 name bytes, NUL-padded, and a little-endian inode number. */
module Directory {
  import opened Bytes
  import opened Wrappers

  const NAME_LENGTH_LIMIT: nat := 27
  const DIRENT_SZ: nat := 32

  type Name = seq<byte>

  datatype DirEntry = DirEntry(name: Name, id: u32)

  /** Names that `DirEntry::name` returns unchanged. */
  predicate ValidName(name: Name)
  {
    |name| <= NAME_LENGTH_LIMIT && 0 !in name
  }

  /** `DirEntry::new(name, id).as_bytes()`; a longer name panics there. */
  function EntryBytes(e: DirEntry): (s: seq<byte>)
    requires |e.name| <= NAME_LENGTH_LIMIT + 1
    ensures |s| == DIRENT_SZ
  {
    e.name + seq(NAME_LENGTH_LIMIT + 1 - |e.name|, _ => 0) + ToLE(e.id, 4)
  }

  /** Position of the first NUL at or after `from` among the 28 name bytes. */
  function FirstNul(s: seq<byte>, from: nat): (r: Option<nat>)
    requires |s| == DIRENT_SZ && from <= NAME_LENGTH_LIMIT + 1
    ensures r.Some? ==> from <= r.value <= NAME_LENGTH_LIMIT && s[r.value] == 0 && 0 !in s[from..r.value]
    ensures r.None? ==> 0 !in s[from..NAME_LENGTH_LIMIT + 1]
    decreases NAME_LENGTH_LIMIT + 1 - from
  {
    if from > NAME_LENGTH_LIMIT then None
    else if s[from] == 0 then Some(from)
    else
      var r := FirstNul(s, from + 1);
      assert r.Some? ==> s[from..r.value] == [s[from]] + s[from + 1..r.value];
      assert r.None? ==> s[from..NAME_LENGTH_LIMIT + 1] == [s[from]] + s[from + 1..NAME_LENGTH_LIMIT + 1];
      r
  }

  /** `name()`: the bytes before the first NUL; without a NUL the code panics. */
  function EntryName(s: seq<byte>): (r: Option<Name>)
    requires |s| == DIRENT_SZ
  {
    match FirstNul(s, 0)
    case Some(n) => Some(s[..n])
    case None => None
  }

  function EntryId(s: seq<byte>): (id: u32)
    requires |s| == DIRENT_SZ
  {
    FromLEBound(s[28..32]);
    Pow256At4();
    FromLE(s[28..32])
  }

  /** An entry's name is read back exactly when it has at most 27 bytes and no NUL. */
  lemma EntryNameRoundTrip(e: DirEntry)
    requires |e.name| <= NAME_LENGTH_LIMIT + 1
    ensures EntryName(EntryBytes(e)) == Some(e.name) <==> ValidName(e.name)
  {
    var s := EntryBytes(e);
    assert s[..|e.name|] == e.name;
    if ValidName(e.name) {
      FirstNulIs(s, 0, |e.name|);
    }
  }

  lemma {:induction false} FirstNulIs(s: seq<byte>, from: nat, n: nat)
    requires |s| == DIRENT_SZ && from <= n <= NAME_LENGTH_LIMIT && s[n] == 0
    requires forall k | from <= k < n :: s[k] != 0
    ensures FirstNul(s, from) == Some(n)
    decreases n - from
  {
    if from < n {
      FirstNulIs(s, from + 1, n);
    }
  }

  lemma EntryIdRoundTrip(e: DirEntry)
    requires |e.name| <= NAME_LENGTH_LIMIT + 1
    ensures EntryId(EntryBytes(e)) == e.id
  {
    assert EntryBytes(e)[28..32] == ToLE(e.id, 4);
    Pow256At4();
    FromToLE(e.id, 4);
  }

  ghost predicate ValidNames(es: seq<DirEntry>)
  {
    forall k | 0 <= k < |es| :: ValidName(es[k].name)
  }

  /** The contents of a directory file. */
  ghost function DirBytes(es: seq<DirEntry>): (s: seq<byte>)
    requires ValidNames(es)
    ensures |s| == DIRENT_SZ * |es|
  {
    if es == [] then [] else DirBytes(es[..|es| - 1]) + EntryBytes(es[|es| - 1])
  }

  lemma {:induction false} DirBytesAt(es: seq<DirEntry>, k: nat)
    requires ValidNames(es) && k < |es|
    ensures DirBytes(es)[DIRENT_SZ * k..DIRENT_SZ * k + DIRENT_SZ] == EntryBytes(es[k])
  {
    var n := |es| - 1;
    var rest := DirBytes(es[..n]);
    assert DirBytes(es) == rest + EntryBytes(es[n]);
    if k < n {
      DirBytesAt(es[..n], k);
      assert DirBytes(es)[DIRENT_SZ * k..DIRENT_SZ * k + DIRENT_SZ] == rest[DIRENT_SZ * k..DIRENT_SZ * k + DIRENT_SZ];
    }
  }

  /** Writing an entry behind the last one appends it. */
  lemma DirBytesAppend(es: seq<DirEntry>, e: DirEntry)
    requires ValidNames(es) && ValidName(e.name)
    ensures ValidNames(es + [e]) && DirBytes(es + [e]) == DirBytes(es) + EntryBytes(e)
  {
    assert (es + [e])[..|es|] == es;
  }
}
