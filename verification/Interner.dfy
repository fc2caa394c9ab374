/** An arena-based string interner: a hash index over slices of one byte arena,
    with the source's 32-bit offsets and ids and 16-bit lengths. It is proved to
    behave as a duplicate-free list of strings for any hash function. */
module Interner {
  import opened Prelude

  type Hash = Bytes -> int

  const U16: nat := 0x1_0000
  const U32: nat := 0x1_0000_0000

  datatype Slice = Slice(start: nat, len: nat)

  datatype Table = Table(arena: Bytes, offsets: seq<Slice>, lookup: map<int, seq<nat>>)

  const EMPTY := Table([], [], map[])

  function SliceOf(arena: Bytes, slice: Slice): Option<Bytes> {
    if slice.start + slice.len <= |arena| then Some(arena[slice.start..slice.start + slice.len]) else None
  }

  function GetBytes(t: Table, id: nat): Option<Bytes> {
    if id < |t.offsets| then SliceOf(t.arena, t.offsets[id]) else None
  }

  function Bucket(lookup: map<int, seq<nat>>, h: int): seq<nat> {
    if h in lookup then lookup[h] else []
  }

  /** First id of a bucket that denotes `s`. */
  function FindIn(t: Table, ids: seq<nat>, s: Bytes): Option<nat> {
    if ids == [] then None
    else if GetBytes(t, ids[0]) == Some(s) then Some(ids[0])
    else FindIn(t, ids[1..], s)
  }

  function GetBytesId(t: Table, hash: Hash, s: Bytes): Option<nat> {
    FindIn(t, Bucket(t.lookup, hash(s)), s)
  }

  /** The casts of the source truncate: ids and offsets to 32 bits, lengths to 16. */
  function Added(t: Table, hash: Hash, s: Bytes): Table {
    Table(
      t.arena + s,
      t.offsets + [Slice(|t.arena| % U32, |s| % U16)],
      t.lookup[hash(s) := Bucket(t.lookup, hash(s)) + [|t.offsets| % U32]])
  }

  function Interned(t: Table, hash: Hash, s: Bytes): (Table, nat) {
    match GetBytesId(t, hash, s)
    case Some(id) => (t, id)
    case None => (Added(t, hash, s), |t.offsets| % U32)
  }

  // ----- the list a table stands for

  function Concat(strings: seq<Bytes>): Bytes {
    if strings == [] then [] else Concat(strings[..|strings| - 1]) + strings[|strings| - 1]
  }

  /** Hash index over a list: ids by hash, ascending. */
  function Index(strings: seq<Bytes>, hash: Hash): map<int, seq<nat>> {
    if strings == [] then map[]
    else
      var n := |strings| - 1;
      var m := Index(strings[..n], hash);
      m[hash(strings[n]) := Bucket(m, hash(strings[n])) + [n]]
  }

  ghost predicate Distinct(strings: seq<Bytes>) {
    forall i, j :: 0 <= i < j < |strings| ==> strings[i] != strings[j]
  }

  ghost predicate SlicesMatch(offsets: seq<Slice>, strings: seq<Bytes>) {
    |offsets| == |strings| &&
    forall i :: 0 <= i < |strings| ==> offsets[i] == Slice(|Concat(strings[..i])|, |strings[i]|)
  }

  /** `t` represents the duplicate-free list `strings`. */
  ghost predicate Represents(t: Table, hash: Hash, strings: seq<Bytes>) {
    && Distinct(strings)
    && t.arena == Concat(strings)
    && SlicesMatch(t.offsets, strings)
    && t.lookup == Index(strings, hash)
  }

  lemma ConcatSnoc(strings: seq<Bytes>, s: Bytes)
    ensures Concat(strings + [s]) == Concat(strings) + s
  {
    assert (strings + [s])[..|strings|] == strings;
  }

  lemma {:induction false} ConcatPrefix(strings: seq<Bytes>, i: nat)
    requires i < |strings|
    ensures |Concat(strings[..i])| + |strings[i]| <= |Concat(strings)|
    ensures Concat(strings)[|Concat(strings[..i])|..|Concat(strings[..i])| + |strings[i]|] == strings[i]
    decreases |strings|
  {
    var n := |strings| - 1;
    var front := strings[..n];
    if i < n {
      ConcatPrefix(front, i);
      assert front[..i] == strings[..i] && front[i] == strings[i];
      PrefixSlice(Concat(front), strings[n], |Concat(strings[..i])|, |strings[i]|);
    }
  }

  lemma PrefixSlice(a: Bytes, b: Bytes, i: nat, n: nat)
    requires i + n <= |a|
    ensures (a + b)[i..i + n] == a[i..i + n]
  {
  }

  /** Every id denotes its string. */
  lemma GetBytesSpec(t: Table, hash: Hash, strings: seq<Bytes>, id: nat)
    requires Represents(t, hash, strings)
    ensures GetBytes(t, id) == if id < |strings| then Some(strings[id]) else None
  {
    if id < |strings| {
      ConcatPrefix(strings, id);
    }
  }

  lemma {:induction false} IndexSpec(strings: seq<Bytes>, hash: Hash, h: int, id: nat)
    ensures id in Bucket(Index(strings, hash), h) <==> id < |strings| && hash(strings[id]) == h
    decreases |strings|
  {
    if strings != [] {
      var n := |strings| - 1;
      IndexSpec(strings[..n], hash, h, id);
      assert id < n ==> strings[..n][id] == strings[id];
    }
  }

  lemma {:induction false} FindInSpec(t: Table, ids: seq<nat>, s: Bytes)
    ensures FindIn(t, ids, s).Some? ==> FindIn(t, ids, s).value in ids && GetBytes(t, FindIn(t, ids, s).value) == Some(s)
    ensures FindIn(t, ids, s).None? ==> forall id :: id in ids ==> GetBytes(t, id) != Some(s)
  {
    if ids != [] {
      FindInSpec(t, ids[1..], s);
    }
  }

  /** Where `s` stands in the list, by linear scan. */
  function Scan(strings: seq<Bytes>, s: Bytes): Option<nat> {
    if strings == [] then None
    else if strings[|strings| - 1] == s then Some(|strings| - 1)
    else Scan(strings[..|strings| - 1], s)
  }

  lemma {:induction false} ScanSpec(strings: seq<Bytes>, s: Bytes)
    ensures Scan(strings, s).Some? ==> Scan(strings, s).value < |strings| && strings[Scan(strings, s).value] == s
    ensures Scan(strings, s).None? <==> s !in strings
    decreases |strings|
  {
    if strings != [] && strings[|strings| - 1] != s {
      var front := strings[..|strings| - 1];
      ScanSpec(front, s);
      assert strings == front + [strings[|strings| - 1]];
    }
  }

  /** Hash lookup agrees with a linear scan, whatever the hash function. */
  lemma LookupIsScan(t: Table, hash: Hash, strings: seq<Bytes>, s: Bytes)
    requires Represents(t, hash, strings)
    ensures GetBytesId(t, hash, s) == Scan(strings, s)
  {
    var ids := Bucket(t.lookup, hash(s));
    FindInSpec(t, ids, s);
    ScanSpec(strings, s);
    var found, scan := FindIn(t, ids, s), Scan(strings, s);
    if found.Some? {
      GetBytesSpec(t, hash, strings, found.value);
      IndexSpec(strings, hash, hash(s), found.value);
      assert strings[found.value] == s;
    }
    if scan.Some? {
      IndexSpec(strings, hash, hash(s), scan.value);
      GetBytesSpec(t, hash, strings, scan.value);
    }
  }

  // ----- interning

  /** One more string fits the 32-bit arena and id space. */
  predicate RoomLeft(t: Table) {
    |t.arena| < U32 && |t.offsets| < U32
  }

  lemma SlicesSnoc(offsets: seq<Slice>, strings: seq<Bytes>, s: Bytes)
    requires SlicesMatch(offsets, strings)
    ensures SlicesMatch(offsets + [Slice(|Concat(strings)|, |s|)], strings + [s])
  {
    var strings' := strings + [s];
    forall i | 0 <= i < |strings'|
      ensures (offsets + [Slice(|Concat(strings)|, |s|)])[i] == Slice(|Concat(strings'[..i])|, |strings'[i]|)
    {
      assert strings'[..i] == strings[..i];
      assert strings[..|strings|] == strings;
    }
  }

  lemma IndexSnoc(strings: seq<Bytes>, hash: Hash, s: Bytes)
    ensures Index(strings + [s], hash) ==
            Index(strings, hash)[hash(s) := Bucket(Index(strings, hash), hash(s)) + [|strings|]]
  {
    assert (strings + [s])[..|strings|] == strings;
  }

  lemma DistinctSnoc(strings: seq<Bytes>, s: Bytes)
    requires Distinct(strings) && s !in strings
    ensures Distinct(strings + [s])
  {
  }

  lemma AddedFields(t: Table, hash: Hash, s: Bytes)
    requires RoomLeft(t) && |s| < U16
    ensures Added(t, hash, s) == Table(
              t.arena + s,
              t.offsets + [Slice(|t.arena|, |s|)],
              t.lookup[hash(s) := Bucket(t.lookup, hash(s)) + [|t.offsets|]])
  {
  }

  lemma AddedRepresents(t: Table, hash: Hash, strings: seq<Bytes>, s: Bytes)
    requires Represents(t, hash, strings) && s !in strings && RoomLeft(t) && |s| < U16
    ensures Represents(Added(t, hash, s), hash, strings + [s])
  {
    AddedFields(t, hash, s);
    DistinctSnoc(strings, s);
    ConcatSnoc(strings, s);
    SlicesSnoc(t.offsets, strings, s);
    IndexSnoc(strings, hash, s);
  }

  /** The list after interning `s`. */
  ghost function With(strings: seq<Bytes>, s: Bytes): seq<Bytes> {
    if s in strings then strings else strings + [s]
  }

  lemma InternedOld(t: Table, hash: Hash, strings: seq<Bytes>, s: Bytes)
    requires Represents(t, hash, strings) && s in strings
    ensures Interned(t, hash, s).0 == t
    ensures Interned(t, hash, s).1 < |strings| && strings[Interned(t, hash, s).1] == s
  {
    LookupIsScan(t, hash, strings, s);
    ScanSpec(strings, s);
  }

  lemma InternedNew(t: Table, hash: Hash, strings: seq<Bytes>, s: Bytes)
    requires Represents(t, hash, strings) && s !in strings && RoomLeft(t)
    ensures Interned(t, hash, s).0 == Added(t, hash, s)
    ensures Interned(t, hash, s).1 == |strings|
  {
    LookupIsScan(t, hash, strings, s);
    ScanSpec(strings, s);
  }

  /** A string within the 16-bit length limit is added to the list, or found. */
  lemma InternRefinesList(t: Table, hash: Hash, strings: seq<Bytes>, s: Bytes)
    requires Represents(t, hash, strings)
    requires s in strings || (RoomLeft(t) && |s| < U16)
    ensures Represents(Interned(t, hash, s).0, hash, With(strings, s))
    ensures Interned(t, hash, s).1 < |With(strings, s)| && With(strings, s)[Interned(t, hash, s).1] == s
  {
    if s in strings {
      InternedOld(t, hash, strings, s);
    } else {
      InternedNew(t, hash, strings, s);
      AddedRepresents(t, hash, strings, s);
      assert With(strings, s)[|strings|] == s;
    }
  }

  /** Ids handed out earlier keep denoting the same bytes. */
  lemma IdsAreStable(t: Table, hash: Hash, strings: seq<Bytes>, s: Bytes, id: nat)
    requires Represents(t, hash, strings) && id < |strings|
    requires s in strings || (RoomLeft(t) && |s| < U16)
    ensures GetBytes(Interned(t, hash, s).0, id) == GetBytes(t, id) == Some(strings[id])
  {
    InternRefinesList(t, hash, strings, s);
    GetBytesSpec(t, hash, strings, id);
    GetBytesSpec(Interned(t, hash, s).0, hash, With(strings, s), id);
  }

  /** A new string comes back from its id exactly when it is within 65535 bytes:
      the length cast truncates anything longer. */
  lemma InternRecoversIff(t: Table, hash: Hash, strings: seq<Bytes>, s: Bytes)
    requires Represents(t, hash, strings) && RoomLeft(t)
    requires forall i :: 0 <= i < |strings| ==> |strings[i]| < U16
    ensures GetBytes(Interned(t, hash, s).0, Interned(t, hash, s).1) == Some(s) <==> |s| < U16
  {
    LookupIsScan(t, hash, strings, s);
    ScanSpec(strings, s);
    if |s| < U16 {
      InternRefinesList(t, hash, strings, s);
      GetBytesSpec(Interned(t, hash, s).0, hash, With(strings, s), Interned(t, hash, s).1);
    }
  }

  /** And a string that is too long is stored again on every call. */
  lemma LongStringNeverFound(t: Table, hash: Hash, s: Bytes)
    requires forall i :: 0 <= i < |t.offsets| ==> t.offsets[i].len < U16
    requires U16 <= |s|
    ensures GetBytesId(t, hash, s).None?
    ensures var (t', id) := Interned(t, hash, s);
            && |t'.offsets| == |t.offsets| + 1
            && (forall i :: 0 <= i < |t'.offsets| ==> t'.offsets[i].len < U16)
  {
    FindInSpec(t, Bucket(t.lookup, hash(s)), s);
  }

  // ----- whole runs

  /** Intern a series of strings, collecting the ids. */
  function InternAll(t: Table, hash: Hash, run: seq<Bytes>): (Table, seq<nat>) {
    if run == [] then (t, [])
    else
      var (t', ids) := InternAll(t, hash, run[..|run| - 1]);
      var (t'', id) := Interned(t', hash, run[|run| - 1]);
      (t'', ids + [id])
  }

  /** The distinct strings of a run in first-seen order. */
  ghost function FirstSeen(run: seq<Bytes>): seq<Bytes> {
    if run == [] then [] else With(FirstSeen(run[..|run| - 1]), run[|run| - 1])
  }

  ghost predicate FitsLimits(run: seq<Bytes>) {
    && |Concat(FirstSeen(run))| < U32 && |FirstSeen(run)| < U32
    && forall i :: 0 <= i < |run| ==> |run[i]| < U16
  }

  lemma {:induction false} FirstSeenGrows(run: seq<Bytes>, s: Bytes)
    ensures |FirstSeen(run)| <= |With(FirstSeen(run), s)|
    ensures |Concat(FirstSeen(run))| <= |Concat(With(FirstSeen(run), s))|
    ensures FirstSeen(run) <= With(FirstSeen(run), s)
  {
    ConcatSnoc(FirstSeen(run), s);
  }

  lemma FitsLimitsPrefix(run: seq<Bytes>)
    requires run != [] && FitsLimits(run)
    ensures FitsLimits(run[..|run| - 1])
  {
    FirstSeenGrows(run[..|run| - 1], run[|run| - 1]);
  }

  /** Each id of a run denotes the string it was returned for. */
  ghost predicate IdsDenote(ids: seq<nat>, list: seq<Bytes>, run: seq<Bytes>) {
    |ids| == |run| && forall i :: 0 <= i < |run| ==> ids[i] < |list| && list[ids[i]] == run[i]
  }

  lemma IdsDenoteSnoc(ids: seq<nat>, list: seq<Bytes>, run: seq<Bytes>, list': seq<Bytes>, id: nat, s: Bytes)
    requires IdsDenote(ids, list, run) && list <= list' && id < |list'| && list'[id] == s
    ensures IdsDenote(ids + [id], list', run + [s])
  {
  }

  lemma FirstSeenSnoc(front: seq<Bytes>, s: Bytes)
    ensures FirstSeen(front + [s]) == With(FirstSeen(front), s)
    ensures FitsLimits(front + [s]) ==> FitsLimits(front) && |s| < U16
  {
    var run := front + [s];
    assert run[..|front|] == front && run[|front|] == s;
    if FitsLimits(run) {
      FitsLimitsPrefix(run);
    }
  }

  lemma RunStep(t: Table, ids: seq<nat>, hash: Hash, front: seq<Bytes>, s: Bytes)
    requires FitsLimits(front + [s])
    requires Represents(t, hash, FirstSeen(front)) && IdsDenote(ids, FirstSeen(front), front)
    ensures Represents(Interned(t, hash, s).0, hash, FirstSeen(front + [s]))
    ensures IdsDenote(ids + [Interned(t, hash, s).1], FirstSeen(front + [s]), front + [s])
  {
    FirstSeenSnoc(front, s);
    FirstSeenGrows(front, s);
    InternRefinesList(t, hash, FirstSeen(front), s);
    IdsDenoteSnoc(ids, FirstSeen(front), front, With(FirstSeen(front), s), Interned(t, hash, s).1, s);
  }

  /** Any run within the limits refines a duplicate-free list: the table stands for
      the distinct strings in first-seen order, and every id returned along the way
      still denotes the string it was returned for. */
  lemma {:induction false} RunRefinesList(hash: Hash, run: seq<Bytes>)
    requires FitsLimits(run)
    ensures Represents(InternAll(EMPTY, hash, run).0, hash, FirstSeen(run))
    ensures IdsDenote(InternAll(EMPTY, hash, run).1, FirstSeen(run), run)
    decreases |run|
  {
    if run != [] {
      var front, s := run[..|run| - 1], run[|run| - 1];
      assert run == front + [s];
      FirstSeenSnoc(front, s);
      RunRefinesList(hash, front);
      var (t, ids) := InternAll(EMPTY, hash, front);
      RunStep(t, ids, hash, front, s);
    }
  }

  /** Equal ids mean equal bytes and the other way round, over the whole run. */
  lemma SameIdIffSameBytes(hash: Hash, run: seq<Bytes>, i: nat, j: nat)
    requires FitsLimits(run) && i < |run| && j < |run|
    ensures |InternAll(EMPTY, hash, run).1| == |run|
    ensures InternAll(EMPTY, hash, run).1[i] == InternAll(EMPTY, hash, run).1[j] <==> run[i] == run[j]
  {
    RunRefinesList(hash, run);
    var ids := InternAll(EMPTY, hash, run).1;
    DenotesDistinct(FirstSeen(run), ids[i], ids[j]);
  }

  lemma DenotesDistinct(list: seq<Bytes>, i: nat, j: nat)
    requires Distinct(list) && i < |list| && j < |list|
    ensures list[i] == list[j] <==> i == j
  {
  }

  // ----- runs with strings of any length

  /** The low 16 bits of a length. */
  function Low16(n: nat): (low: nat)
    ensures low <= n && low < U16
    ensures n < U16 ==> low == n
  {
    if n < U16 then n else Low16(n - U16)
  }

  lemma {:induction false} Low16IsCast(n: nat)
    ensures Low16(n) == n % U16
  {
    if U16 <= n {
      Low16IsCast(n - U16);
    }
  }

  /** What the 16-bit length keeps of a string; short strings are kept whole. */
  function Cut(s: Bytes): Bytes {
    s[..Low16(|s|)]
  }

  /** `stored` are the strings added so far, long ones again and again. */
  ghost predicate Stores(t: Table, hash: Hash, stored: seq<Bytes>) {
    && t.arena == Concat(stored) && t.lookup == Index(stored, hash) && |t.offsets| == |stored|
    && forall i :: 0 <= i < |stored| ==> t.offsets[i] == Slice(|Concat(stored[..i])|, Low16(|stored[i]|))
  }

  lemma StoredBytes(t: Table, hash: Hash, stored: seq<Bytes>, id: nat)
    requires Stores(t, hash, stored) && id < |stored|
    ensures GetBytes(t, id) == Some(Cut(stored[id]))
  {
    ConcatPrefix(stored, id);
    InnerSlice(t.arena, |Concat(stored[..id])|, |stored[id]|, Low16(|stored[id]|));
  }

  lemma InnerSlice(a: Bytes, i: nat, n: nat, m: nat)
    requires m <= n && i + n <= |a|
    ensures a[i..i + n][..m] == a[i..i + m]
  {
  }

  lemma AddedParts(t: Table, hash: Hash, s: Bytes)
    requires RoomLeft(t)
    ensures Added(t, hash, s) == Table(
              t.arena + s,
              t.offsets + [Slice(|t.arena|, Low16(|s|))],
              t.lookup[hash(s) := Bucket(t.lookup, hash(s)) + [|t.offsets|]])
  {
    Low16IsCast(|s|);
    SmallIsKept(|t.arena|);
    SmallIsKept(|t.offsets|);
  }

  lemma SmallIsKept(n: nat)
    requires n < U32
    ensures n % U32 == n
  {
  }

  /** With room left, no id wraps around. */
  lemma InternedIs(t: Table, hash: Hash, s: Bytes)
    requires RoomLeft(t)
    ensures Interned(t, hash, s) ==
            if GetBytesId(t, hash, s).Some? then (t, GetBytesId(t, hash, s).value) else (Added(t, hash, s), |t.offsets|)
  {
    SmallIsKept(|t.offsets|);
  }

  lemma CutSlicesSnoc(offsets: seq<Slice>, stored: seq<Bytes>, s: Bytes, low: nat)
    requires |offsets| == |stored| && low == Low16(|s|)
    requires forall i :: 0 <= i < |stored| ==> offsets[i] == Slice(|Concat(stored[..i])|, Low16(|stored[i]|))
    ensures var more, all := offsets + [Slice(|Concat(stored)|, low)], stored + [s];
            forall i :: 0 <= i < |all| ==> more[i] == Slice(|Concat(all[..i])|, Low16(|all[i]|))
  {
    var more, all := offsets + [Slice(|Concat(stored)|, low)], stored + [s];
    forall i | 0 <= i < |all| ensures more[i] == Slice(|Concat(all[..i])|, Low16(|all[i]|)) {
      assert all[..i] == stored[..i];
      assert stored[..|stored|] == stored;
    }
  }

  lemma AddedStores(t: Table, hash: Hash, stored: seq<Bytes>, s: Bytes)
    requires Stores(t, hash, stored) && RoomLeft(t)
    ensures Stores(Added(t, hash, s), hash, stored + [s])
  {
    AddedParts(t, hash, s);
    ConcatSnoc(stored, s);
    IndexSnoc(stored, hash, s);
    CutSlicesSnoc(t.offsets, stored, s, Low16(|s|));
  }

  lemma AddedKeepsBytes(t: Table, hash: Hash, stored: seq<Bytes>, s: Bytes, id: nat)
    requires Stores(t, hash, stored) && RoomLeft(t) && id < |stored|
    ensures GetBytes(Added(t, hash, s), id) == GetBytes(t, id)
  {
    AddedStores(t, hash, stored, s);
    StoredBytes(t, hash, stored, id);
    StoredBytes(Added(t, hash, s), hash, stored + [s], id);
  }

  lemma {:induction false} FindInGrows(t: Table, u: Table, ids: seq<nat>, more: seq<nat>, s: Bytes)
    requires forall id :: id in ids ==> GetBytes(u, id) == GetBytes(t, id)
    ensures FindIn(u, ids + more, s) == if FindIn(t, ids, s).Some? then FindIn(t, ids, s) else FindIn(u, more, s)
    decreases |ids|
  {
    if ids == [] {
      assert ids + more == more;
    } else {
      assert (ids + more)[1..] == ids[1..] + more;
      FindInGrows(t, u, ids[1..], more, s);
    }
  }

  /** A lookup in the grown table: as before, or else the new entry. */
  lemma AddedLookup(t: Table, hash: Hash, stored: seq<Bytes>, added: Bytes, s: Bytes)
    requires Stores(t, hash, stored) && RoomLeft(t)
    ensures GetBytesId(Added(t, hash, added), hash, s) ==
            if GetBytesId(t, hash, s).Some? then GetBytesId(t, hash, s)
            else if hash(added) == hash(s) && Cut(added) == s then Some(|stored|)
            else None
  {
    var u, ids := Added(t, hash, added), Bucket(t.lookup, hash(s));
    AddedParts(t, hash, added);
    forall id | id in ids ensures GetBytes(u, id) == GetBytes(t, id) {
      IndexSpec(stored, hash, hash(s), id);
      AddedKeepsBytes(t, hash, stored, added, id);
    }
    AddedStores(t, hash, stored, added);
    StoredBytes(u, hash, stored + [added], |stored|);
    var more := if hash(added) == hash(s) then [|stored|] else [];
    assert ids + [] == ids;
    assert Bucket(u.lookup, hash(s)) == ids + more;
    FindInGrows(t, u, ids, more, s);
    assert more != [] ==> more[1..] == [];
  }

  /** Every id denotes its string's cut, and a short string is found under its id. */
  ghost predicate IdsHold(t: Table, hash: Hash, ids: seq<nat>, run: seq<Bytes>) {
    && |ids| == |run|
    && forall i :: 0 <= i < |run| ==>
         && GetBytes(t, ids[i]) == Some(Cut(run[i]))
         && (|run[i]| < U16 ==> GetBytesId(t, hash, run[i]) == Some(ids[i]))
  }

  /** What one call adds. */
  ghost function StoredAfter(t: Table, hash: Hash, stored: seq<Bytes>, s: Bytes): seq<Bytes> {
    if GetBytesId(t, hash, s).Some? then stored else stored + [s]
  }

  lemma InternStores(t: Table, hash: Hash, stored: seq<Bytes>, s: Bytes)
    requires Stores(t, hash, stored) && RoomLeft(t)
    ensures var (u, id) := Interned(t, hash, s);
            && Stores(u, hash, StoredAfter(t, hash, stored, s)) && GetBytes(u, id) == Some(Cut(s))
            && (|s| < U16 ==> GetBytesId(u, hash, s) == Some(id))
  {
    InternedIs(t, hash, s);
    if GetBytesId(t, hash, s).Some? {
      FoundIsCut(t, hash, stored, s);
    } else {
      AddedIsFound(t, hash, stored, s);
    }
  }

  lemma FoundIsCut(t: Table, hash: Hash, stored: seq<Bytes>, s: Bytes)
    requires Stores(t, hash, stored) && GetBytesId(t, hash, s).Some?
    ensures GetBytes(t, GetBytesId(t, hash, s).value) == Some(s) == Some(Cut(s))
  {
    var id := GetBytesId(t, hash, s).value;
    FindInSpec(t, Bucket(t.lookup, hash(s)), s);
    IndexSpec(stored, hash, hash(s), id);
    StoredBytes(t, hash, stored, id);
    CutShort(s);
  }

  lemma AddedIsFound(t: Table, hash: Hash, stored: seq<Bytes>, s: Bytes)
    requires Stores(t, hash, stored) && RoomLeft(t) && GetBytesId(t, hash, s).None?
    ensures var u := Added(t, hash, s);
            && Stores(u, hash, stored + [s]) && GetBytes(u, |t.offsets|) == Some(Cut(s))
            && (|s| < U16 ==> GetBytesId(u, hash, s) == Some(|t.offsets|))
  {
    AddedStores(t, hash, stored, s);
    StoredBytes(Added(t, hash, s), hash, stored + [s], |stored|);
    AddedLookup(t, hash, stored, s, s);
    CutShort(s);
  }

  lemma CutShort(s: Bytes)
    ensures |s| < U16 <==> Cut(s) == s
  {
    assert s[..|s|] == s;
  }

  lemma IdsHoldStep(t: Table, hash: Hash, stored: seq<Bytes>, ids: seq<nat>, run: seq<Bytes>, s: Bytes)
    requires Stores(t, hash, stored) && RoomLeft(t) && IdsHold(t, hash, ids, run)
    ensures IdsHold(Interned(t, hash, s).0, hash, ids, run)
  {
    InternedIs(t, hash, s);
    if GetBytesId(t, hash, s).None? {
      forall i | 0 <= i < |run|
        ensures GetBytes(Added(t, hash, s), ids[i]) == GetBytes(t, ids[i])
        ensures |run[i]| < U16 ==> GetBytesId(Added(t, hash, s), hash, run[i]) == GetBytesId(t, hash, run[i])
      {
        AddedKeepsBytes(t, hash, stored, s, ids[i]);
        AddedLookup(t, hash, stored, s, run[i]);
      }
    }
  }

  lemma AnyRunStep(t: Table, hash: Hash, stored: seq<Bytes>, ids: seq<nat>, front: seq<Bytes>, s: Bytes)
    requires Stores(t, hash, stored) && RoomLeft(t) && IdsHold(t, hash, ids, front)
    ensures var (u, id) := Interned(t, hash, s);
            Stores(u, hash, StoredAfter(t, hash, stored, s)) && IdsHold(u, hash, ids + [id], front + [s])
  {
    InternStores(t, hash, stored, s);
    IdsHoldStep(t, hash, stored, ids, front, s);
    IdsHoldSnoc(Interned(t, hash, s).0, hash, ids, front, Interned(t, hash, s).1, s);
  }

  lemma IdsHoldSnoc(u: Table, hash: Hash, ids: seq<nat>, front: seq<Bytes>, id: nat, s: Bytes)
    requires IdsHold(u, hash, ids, front) && GetBytes(u, id) == Some(Cut(s))
    requires |s| < U16 ==> GetBytesId(u, hash, s) == Some(id)
    ensures IdsHold(u, hash, ids + [id], front + [s])
  {
  }

  lemma InternGrows(t: Table, hash: Hash, s: Bytes)
    ensures |t.arena| <= |Interned(t, hash, s).0.arena| && |t.offsets| <= |Interned(t, hash, s).0.offsets|
  {
  }

  lemma {:induction false} AnyRunStores(hash: Hash, run: seq<Bytes>) returns (stored: seq<Bytes>)
    requires RoomLeft(InternAll(EMPTY, hash, run).0)
    ensures Stores(InternAll(EMPTY, hash, run).0, hash, stored)
    ensures IdsHold(InternAll(EMPTY, hash, run).0, hash, InternAll(EMPTY, hash, run).1, run)
    decreases |run|
  {
    stored := [];
    if run != [] {
      var front, s := run[..|run| - 1], run[|run| - 1];
      assert run == front + [s];
      var (t, ids) := InternAll(EMPTY, hash, front);
      InternGrows(t, hash, s);
      var before := AnyRunStores(hash, front);
      AnyRunStep(t, hash, before, ids, front, s);
      stored := StoredAfter(t, hash, before, s);
    }
  }

  /** In any run that leaves room in the 32-bit arena and ids, for any hash: every id denotes its string
      up to the 16-bit length, so every short string comes back whole, also among
      long ones; and two short strings have the same id exactly when they are equal. */
  lemma AnyRunRecovers(hash: Hash, run: seq<Bytes>, i: nat, j: nat)
    requires RoomLeft(InternAll(EMPTY, hash, run).0) && i < |run| && j < |run|
    ensures var (t, ids) := InternAll(EMPTY, hash, run);
            && |ids| == |run| && GetBytes(t, ids[i]) == Some(Cut(run[i]))
            && (|run[i]| < U16 ==> GetBytes(t, ids[i]) == Some(run[i]))
            && (|run[i]| < U16 && |run[j]| < U16 ==> (ids[i] == ids[j] <==> run[i] == run[j]))
  {
    var stored := AnyRunStores(hash, run);
    CutShort(run[i]);
    CutShort(run[j]);
  }

  /** A long string answers for a short one exactly when its kept part is the short
      string and the two hashes collide: then the short string shares its id. */
  lemma LongAnswersForShortIff(hash: Hash, long: Bytes, short: Bytes)
    requires U16 <= |long| < U32 && |short| < U16
    ensures var ids := InternAll(EMPTY, hash, [long, short]).1;
            |ids| == 2 && (ids[0] == ids[1] <==> Cut(long) == short && hash(long) == hash(short))
  {
    var one := Added(EMPTY, hash, long);
    assert Stores(EMPTY, hash, []);
    assert [long][..0] == [] && [long, short][..1] == [long];
    InternedIs(EMPTY, hash, long);
    assert InternAll(EMPTY, hash, [long]) == (one, [] + [0]);
    AddedLookup(EMPTY, hash, [], long, short);
    AddedParts(EMPTY, hash, long);
    InternedIs(one, hash, short);
  }

  // ----- rebuilding from the serialized parts

  /** The lookup that indexing the slices one by one builds. */
  function Reindexed(arena: Bytes, offsets: seq<Slice>, hash: Hash): map<int, seq<nat>> {
    if offsets == [] then map[]
    else
      var n := |offsets| - 1;
      var m := Reindexed(arena, offsets[..n], hash);
      match SliceOf(arena, offsets[n])
      case Some(bytes) => m[hash(bytes) := Bucket(m, hash(bytes)) + [n % U32]]
      case None => m
  }

  lemma {:induction false} ReindexIsIndex(arena: Bytes, offsets: seq<Slice>, hash: Hash, strings: seq<Bytes>)
    requires |offsets| == |strings| <= U32
    requires forall i :: 0 <= i < |strings| ==> SliceOf(arena, offsets[i]) == Some(strings[i])
    ensures Reindexed(arena, offsets, hash) == Index(strings, hash)
    decreases |offsets|
  {
    if offsets != [] {
      var n := |offsets| - 1;
      assert forall i :: 0 <= i < n ==> offsets[..n][i] == offsets[i] && strings[..n][i] == strings[i];
      ReindexIsIndex(arena, offsets[..n], hash, strings[..n]);
      assert n % U32 == n;
    }
  }

  /** Rebuilding from arena and offsets gives back the same table. */
  lemma FromPartsRoundTrip(t: Table, hash: Hash, strings: seq<Bytes>)
    requires Represents(t, hash, strings) && |strings| <= U32
    ensures Reindexed(t.arena, t.offsets, hash) == t.lookup
  {
    forall i | 0 <= i < |strings| ensures SliceOf(t.arena, t.offsets[i]) == Some(strings[i]) {
      GetBytesSpec(t, hash, strings, i);
    }
    ReindexIsIndex(t.arena, t.offsets, hash, strings);
  }

  /** What the rebuilt index sees of the strings. */
  function Cuts(stored: seq<Bytes>): (cuts: seq<Bytes>)
    ensures |cuts| == |stored|
    ensures forall i :: 0 <= i < |stored| ==> cuts[i] == Cut(stored[i])
  {
    seq(|stored|, i requires 0 <= i < |stored| => Cut(stored[i]))
  }

  ghost predicate SameHashes(a: seq<Bytes>, b: seq<Bytes>, hash: Hash) {
    |a| == |b| && forall i :: 0 <= i < |a| ==> hash(a[i]) == hash(b[i])
  }

  lemma {:induction false} SameIndex(a: seq<Bytes>, b: seq<Bytes>, hash: Hash)
    requires SameHashes(a, b, hash)
    ensures Index(a, hash) == Index(b, hash)
    decreases |a|
  {
    if a != [] {
      SameIndex(a[..|a| - 1], b[..|b| - 1], hash);
    }
  }

  lemma OtherIndex(a: seq<Bytes>, b: seq<Bytes>, hash: Hash, i: nat)
    requires i < |a| == |b| && hash(a[i]) != hash(b[i])
    ensures Index(a, hash) != Index(b, hash)
  {
    IndexSpec(a, hash, hash(a[i]), i);
    IndexSpec(b, hash, hash(a[i]), i);
  }

  /** Rebuilding any table indexes the strings as far as they were kept, so it gives
      back the same index exactly when no long string's kept part hashes elsewhere. */
  lemma FromPartsKeepsIndexIff(t: Table, hash: Hash, stored: seq<Bytes>)
    requires Stores(t, hash, stored) && |stored| <= U32
    ensures Reindexed(t.arena, t.offsets, hash) == Index(Cuts(stored), hash)
    ensures Reindexed(t.arena, t.offsets, hash) == t.lookup <==>
            forall i :: 0 <= i < |stored| && U16 <= |stored[i]| ==> hash(Cut(stored[i])) == hash(stored[i])
  {
    forall i | 0 <= i < |stored| ensures SliceOf(t.arena, t.offsets[i]) == Some(Cuts(stored)[i]) {
      StoredBytes(t, hash, stored, i);
    }
    ReindexIsIndex(t.arena, t.offsets, hash, Cuts(stored));
    IndexOfCutsIff(stored, hash);
  }

  lemma IndexOfCutsIff(stored: seq<Bytes>, hash: Hash)
    ensures Index(Cuts(stored), hash) == Index(stored, hash) <==>
            forall i :: 0 <= i < |stored| && U16 <= |stored[i]| ==> hash(Cut(stored[i])) == hash(stored[i])
  {
    forall i | 0 <= i < |stored| && |stored[i]| < U16 ensures Cut(stored[i]) == stored[i] {
      CutShort(stored[i]);
    }
    if i: nat :| i < |stored| && hash(Cut(stored[i])) != hash(stored[i]) {
      OtherIndex(Cuts(stored), stored, hash, i);
    } else {
      SameIndex(Cuts(stored), stored, hash);
    }
  }

  // ----- the interner as the source runs it

  class StringInterner {
    var arena: Bytes
    var lookup: map<int, seq<nat>>
    var offsets: seq<Slice>
    const hash: Hash

    ghost function View(): Table
      reads this
    {
      Table(arena, offsets, lookup)
    }

    constructor (hash: Hash)
      ensures View() == EMPTY && this.hash == hash
    {
      this.hash := hash;
      arena, lookup, offsets := [], map[], [];
    }

    constructor FromParts(arena: Bytes, offsets: seq<Slice>, hash: Hash)
      ensures View() == Table(arena, offsets, Reindexed(arena, offsets, hash)) && this.hash == hash
    {
      this.hash := hash;
      this.arena := arena;
      this.offsets := offsets;
      var lookup: map<int, seq<nat>> := map[];
      for n := 0 to |offsets|
        invariant lookup == Reindexed(arena, offsets[..n], hash)
      {
        assert offsets[..n + 1][..n] == offsets[..n];
        match SliceOf(arena, offsets[n]) {
          case Some(bytes) =>
            lookup := lookup[hash(bytes) := Bucket(lookup, hash(bytes)) + [n % U32]];
          case None =>
        }
      }
      assert offsets[..|offsets|] == offsets;
      this.lookup := lookup;
    }

    method Lookup(s: Bytes) returns (id: Option<nat>)
      ensures id == GetBytesId(View(), hash, s)
    {
      var ids := Bucket(lookup, hash(s));
      for n := 0 to |ids|
        invariant FindIn(View(), ids[n..], s) == FindIn(View(), ids, s)
      {
        assert ids[n..][1..] == ids[n + 1..];
        if GetBytes(Table(arena, offsets, lookup), ids[n]) == Some(s) {
          return Some(ids[n]);
        }
      }
      return None;
    }

    method InternBytes(s: Bytes) returns (id: nat)
      modifies this
      ensures (View(), id) == Interned(old(View()), hash, s)
    {
      var found := Lookup(s);
      if found.Some? {
        return found.value;
      }
      var start := |arena| % U32;
      var len := |s| % U16;
      arena := arena + s;
      id := |offsets| % U32;
      offsets := offsets + [Slice(start, len)];
      lookup := lookup[hash(s) := Bucket(lookup, hash(s)) + [id]];
    }
  }
}
