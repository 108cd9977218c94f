/** struct dir_entry (fs/dir.h) and directories as finite maps from names: the bytes of a directory file are
    entries of 32 bytes, a free one has type 0 and an empty name. */
module FsEntries {
  import opened Basics
  import opened FsFormat

  const ENTRY_SIZE := 32
  const MAX_FILE_NAME_LEN := 16
  const FT_UNKNOWN := 0

  type Name = seq<bv8>

  datatype Entry = Entry(name: Name, ino: nat, ftype: nat)

  // ---- one entry ----

  /** A C string: the bytes before the first 0. */
  function CString(s: seq<bv8>): (r: Name)
    ensures |r| <= |s| && forall i :: 0 <= i < |r| ==> r[i] != 0 && r[i] == s[i]
    ensures |r| < |s| ==> s[|r|] == 0
  {
    if s == [] || s[0] == 0 then [] else [s[0]] + CString(s[1..])
  }

  /** A name that fits into an entry with its terminator. */
  predicate NameOk(name: Name) {
    |name| < MAX_FILE_NAME_LEN && forall i :: 0 <= i < |name| ==> name[i] != 0
  }

  ghost predicate EntryOk(e: Entry) {
    NameOk(e.name) && e.ino < 0x1_0000_0000 && e.ftype < 0x1_0000_0000 && (e.ftype == FT_UNKNOWN <==> e.name == []) && (e.ftype == FT_UNKNOWN ==> e.ino == 0)
  }

  type EntryBytes = s: seq<bv8> | |s| == 32 witness seq(32, _ => 0)

  /** The name padded with zeros, the number at 16, the type at 24; the last four bytes are padding. */
  function EncodeEntry(e: Entry, pad: seq<bv8>): (s: EntryBytes)
    requires |e.name| < MAX_FILE_NAME_LEN && |pad| == 4
  {
    seq(32, i requires 0 <= i < 32 =>
      if i < |e.name| then e.name[i]
      else if i < 16 then 0
      else if i < 24 then ByteOf(e.ino, i - 16)
      else if i < 28 then ByteOf(e.ftype, i - 24)
      else pad[i - 28])
  }

  function DecodeEntry(s: EntryBytes): Entry {
    Entry(CString(s[..16]), U32(s, 16) + 0x1_0000_0000 * U32(s, 20), U32(s, 24))
  }

  lemma {:induction false} CStringOf(name: Name, s: seq<bv8>)
    requires |name| < |s| && s[|name|] == 0
    requires forall i :: 0 <= i < |name| ==> name[i] != 0 && s[i] == name[i]
    ensures CString(s) == name
  {
    if name != [] {
      CStringOf(name[1..], s[1..]);
    }
  }

  lemma WordsOf(e: Entry, pad: seq<bv8>)
    requires |e.name| < MAX_FILE_NAME_LEN && |pad| == 4 && e.ino < 0x1_0000_0000 && e.ftype < 0x1_0000_0000
    ensures U32(EncodeEntry(e, pad), 16) == e.ino && U32(EncodeEntry(e, pad), 20) == 0 && U32(EncodeEntry(e, pad), 24) == e.ftype
  {
    hide U32;
    var s := EncodeEntry(e, pad);
    Le32RoundTrip(s, 16, e.ino);
    HighBytesZero(e.ino);
    Le32RoundTrip(s, 20, 0);
    Le32RoundTrip(s, 24, e.ftype);
  }

  /** Reading an entry gives back what was written, whatever the padding. */
  lemma EntryRoundTrip(e: Entry, pad: seq<bv8>)
    requires NameOk(e.name) && |pad| == 4 && e.ino < 0x1_0000_0000 && e.ftype < 0x1_0000_0000
    ensures DecodeEntry(EncodeEntry(e, pad)) == e
  {
    WordsOf(e, pad);
    hide U32;
    CStringOf(e.name, EncodeEntry(e, pad)[..16]);
  }

  /** Where the parts of an entry lie: the name from 0 on and zeros up to 16, the number from 16 on, the type from 24 on,
      the padding from 28 on. */
  lemma EntryLayout(e: Entry, pad: seq<bv8>)
    requires NameOk(e.name) && |pad| == 4 && e.ino < 0x1_0000_0000 && e.ftype < 0x1_0000_0000
    ensures var s := EncodeEntry(e, pad);
            && s[..|e.name|] == e.name && (forall i :: |e.name| <= i < 16 ==> s[i] == 0)
            && U32(s, 16) == e.ino && U32(s, 20) == 0 && U32(s, 24) == e.ftype && s[28..] == pad
  {
    WordsOf(e, pad);
    hide U32, ByteOf;
  }

  // ---- a directory file ----

  predicate Whole(c: seq<bv8>) { |c| % ENTRY_SIZE == 0 }

  function EntryAt(c: seq<bv8>, i: nat): Entry
    requires 32 * i + 32 <= |c|
  {
    DecodeEntry(c[32 * i..32 * i + 32])
  }

  /** The entries of a directory file. */
  function Entries(c: seq<bv8>): (es: seq<Entry>)
    ensures |es| == |c| / 32
  {
    seq(|c| / 32, i requires 0 <= i < |c| / 32 => EntryAt(c, i))
  }

  predicate Live(e: Entry) { e.ftype != FT_UNKNOWN }

  ghost predicate UniqueNames(es: seq<Entry>) {
    forall i, j :: 0 <= i < j < |es| && Live(es[i]) && Live(es[j]) ==> es[i].name != es[j].name
  }

  /** What every directory keeps: whole entries, names that fit, a free entry is all zeros, and live names differ. */
  ghost predicate Tidy(es: seq<Entry>) {
    (forall i :: 0 <= i < |es| ==> EntryOk(es[i])) && UniqueNames(es)
  }

  type Listing = map<Name, (nat, nat)>

  /** The finite map that a directory stands for. */
  function View(es: seq<Entry>): Listing {
    if es == [] then map[]
    else if Live(es[0]) then View(es[1..])[es[0].name := (es[0].ino, es[0].ftype)] else View(es[1..])
  }

  lemma TidyTail(es: seq<Entry>)
    requires Tidy(es) && es != []
    ensures Tidy(es[1..])
  {
    forall i, j | 0 <= i < j < |es[1..]| && Live(es[1..][i]) && Live(es[1..][j]) ensures es[1..][i].name != es[1..][j].name {
      assert es[1..][i] == es[i + 1] && es[1..][j] == es[j + 1];
    }
  }

  /** Entry `i` is the live one with that name. */
  ghost predicate IsAt(es: seq<Entry>, name: Name, i: nat) {
    i < |es| && Live(es[i]) && es[i].name == name
  }

  lemma {:induction false} ViewAt(es: seq<Entry>, name: Name, i: nat)
    requires Tidy(es) && IsAt(es, name, i)
    ensures name in View(es) && View(es)[name] == (es[i].ino, es[i].ftype)
  {
    if i > 0 {
      TidyTail(es);
      assert es[1..][i - 1] == es[i];
      ViewAt(es[1..], name, i - 1);
    }
  }

  lemma {:induction false} ViewHas(es: seq<Entry>, name: Name) returns (i: nat)
    requires Tidy(es) && name in View(es)
    ensures IsAt(es, name, i)
  {
    if Live(es[0]) && es[0].name == name {
      i := 0;
    } else {
      TidyTail(es);
      i := ViewHas(es[1..], name);
      assert es[1..][i] == es[i + 1];
      i := i + 1;
    }
  }

  /** A name is in the map iff an entry holds it; names are never empty there. */
  lemma ViewExactly(es: seq<Entry>, name: Name)
    requires Tidy(es)
    ensures name in View(es) <==> exists i: nat :: IsAt(es, name, i)
    ensures name in View(es) ==> name != []
  {
    if name in View(es) {
      var i := ViewHas(es, name);
      assert EntryOk(es[i]);
    }
    if i: nat :| IsAt(es, name, i) {
      ViewAt(es, name, i);
    }
  }

  /** The comparison of dir_look_up, which looks at names only, finds exactly the live entry of a name that is
      not empty. */
  lemma NameMeansLive(es: seq<Entry>, name: Name, i: nat)
    requires Tidy(es) && i < |es| && name != []
    ensures es[i].name == name <==> IsAt(es, name, i)
  {
    assert EntryOk(es[i]);
  }

  /** Storing an entry in slot `i` of the file, or behind the last, stores it there in the sequence of entries. */
  lemma EntriesAfterStore(c: seq<bv8>, c': seq<bv8>, i: nat, bytes: EntryBytes)
    requires Whole(c) && 32 * i <= |c| && |c'| == (if 32 * i + 32 > |c| then 32 * i + 32 else |c|)
    requires forall o :: 0 <= o < |c'| ==> c'[o] == if 32 * i <= o < 32 * i + 32 then bytes[o - 32 * i] else if o < |c| then c[o] else 0
    ensures Whole(c') && i <= |Entries(c)| && Entries(c') == Put(Entries(c), i, DecodeEntry(bytes))
  {
    hide DecodeEntry;
    forall k | 0 <= k < |Entries(c')| ensures Entries(c')[k] == Put(Entries(c), i, DecodeEntry(bytes))[k] {
      if k == i {
        assert c'[32 * k..32 * k + 32] == bytes;
      } else {
        assert c'[32 * k..32 * k + 32] == c[32 * k..32 * k + 32];
      }
    }
  }

  // ---- linking and unlinking ----

  /** dir_link puts the entry into the first free slot, or behind the last. */
  function FirstFree(es: seq<Entry>): (i: nat)
    ensures i <= |es| && (i < |es| ==> !Live(es[i])) && forall k :: 0 <= k < i ==> Live(es[k])
  {
    if es == [] || !Live(es[0]) then 0 else 1 + FirstFree(es[1..])
  }

  function Put(es: seq<Entry>, i: nat, e: Entry): seq<Entry>
    requires i <= |es|
  {
    if i < |es| then es[i := e] else es + [e]
  }

  lemma PutTidy(es: seq<Entry>, i: nat, e: Entry)
    requires Tidy(es) && i <= |es| && (i < |es| ==> !Live(es[i])) && EntryOk(e) && Live(e) && e.name !in View(es)
    ensures Tidy(Put(es, i, e))
  {
    var es' := Put(es, i, e);
    forall k | 0 <= k < |es'| && k != i && Live(es'[k]) ensures es'[k].name != e.name {
      assert es'[k] == es[k];
      if es[k].name == e.name { ViewAt(es, e.name, k); }
    }
    hide View, EntryOk;
    forall k | 0 <= k < |es'| ensures EntryOk(es'[k]) {
      if k != i { assert es'[k] == es[k]; }
    }
  }

  /** Entry `i` gives this name this number and type. */
  ghost predicate Binds(es: seq<Entry>, name: Name, v: (nat, nat), i: nat) {
    IsAt(es, name, i) && v == (es[i].ino, es[i].ftype)
  }

  ghost predicate Bound(es: seq<Entry>, name: Name, v: (nat, nat)) {
    exists i: nat :: Binds(es, name, v, i)
  }

  lemma BoundInView(es: seq<Entry>, name: Name, v: (nat, nat))
    requires Tidy(es)
    ensures Bound(es, name, v) <==> name in View(es) && View(es)[name] == v
  {
    hide Tidy;
    if Bound(es, name, v) {
      var i: nat :| Binds(es, name, v, i);
      ViewAt(es, name, i);
    }
    if name in View(es) {
      var i := ViewHas(es, name);
      ViewAt(es, name, i);
      assert Binds(es, name, View(es)[name], i);
    }
  }

  /** A map is what the entries bind. */
  lemma SameView(es: seq<Entry>, m: Listing)
    requires Tidy(es) && forall name, v :: name in m && m[name] == v <==> Bound(es, name, v)
    ensures View(es) == m
  {
    hide Tidy, Bound, View;
    forall name ensures name in View(es) <==> name in m {
      if name in m { BoundInView(es, name, m[name]); assert Bound(es, name, m[name]); }
      if name in View(es) { BoundInView(es, name, View(es)[name]); assert Bound(es, name, View(es)[name]); }
    }
    forall name | name in m ensures View(es)[name] == m[name] {
      BoundInView(es, name, m[name]);
      assert Bound(es, name, m[name]);
    }
  }

  lemma PutBinds(es: seq<Entry>, i: nat, e: Entry, name: Name, v: (nat, nat))
    requires i <= |es| && (i < |es| ==> !Live(es[i])) && Live(e)
    ensures Bound(Put(es, i, e), name, v) <==> Bound(es, name, v) || (name == e.name && v == (e.ino, e.ftype))
  {
    var es' := Put(es, i, e);
    if Bound(es, name, v) {
      var k: nat :| Binds(es, name, v, k);
      assert Binds(es', name, v, k);
    }
    if name == e.name && v == (e.ino, e.ftype) { assert Binds(es', name, v, i); }
    if Bound(es', name, v) {
      var k: nat :| Binds(es', name, v, k);
      assert k != i ==> Binds(es, name, v, k);
    }
  }

  /** A link adds exactly its name to the map. */
  lemma PutView(es: seq<Entry>, i: nat, e: Entry)
    requires Tidy(es) && i <= |es| && (i < |es| ==> !Live(es[i])) && EntryOk(e) && Live(e) && e.name !in View(es)
    ensures View(Put(es, i, e)) == View(es)[e.name := (e.ino, e.ftype)]
  {
    PutTidy(es, i, e);
    var m := View(es)[e.name := (e.ino, e.ftype)];
    hide Tidy, View, Bound, Put, EntryOk;
    forall name, v ensures name in m && m[name] == v <==> Bound(Put(es, i, e), name, v) {
      PutBinds(es, i, e, name, v);
      BoundInView(es, name, v);
      BoundInView(es, e.name, v);
    }
    SameView(Put(es, i, e), m);
  }

  function FreeEntry(): Entry { Entry([], 0, FT_UNKNOWN) }

  lemma ClearTidy(es: seq<Entry>, i: nat)
    requires Tidy(es) && i < |es|
    ensures Tidy(es[i := FreeEntry()])
  {
  }

  lemma ClearBinds(es: seq<Entry>, at: Name, i: nat, name: Name, v: (nat, nat))
    requires UniqueNames(es) && IsAt(es, at, i)
    ensures Bound(es[i := FreeEntry()], name, v) <==> Bound(es, name, v) && name != at
  {
    var es' := es[i := FreeEntry()];
    if Bound(es, name, v) && name != at {
      var k: nat :| Binds(es, name, v, k);
      assert Binds(es', name, v, k);
    }
    if Bound(es', name, v) {
      var k: nat :| Binds(es', name, v, k);
      assert Binds(es, name, v, k);
    }
  }

  /** An unlink removes exactly its name from the map. */
  lemma ClearView(es: seq<Entry>, name: Name, i: nat)
    requires Tidy(es) && IsAt(es, name, i)
    ensures View(es[i := FreeEntry()]) == View(es) - {name}
  {
    ClearTidy(es, i);
    var m := View(es) - {name};
    var es' := es[i := FreeEntry()];
    hide View, Bound, EntryOk;
    forall n, v ensures n in m && m[n] == v <==> Bound(es', n, v) {
      ClearBinds(es, name, i, n, v);
      BoundInView(es, n, v);
    }
    SameView(es', m);
  }

  // ---- listing ----

  /** The live entries from index `i` on, in order: what repeated calls of sys_readdir give. */
  function LiveFrom(es: seq<Entry>, i: nat): seq<Entry>
    decreases |es| - i
  {
    if i >= |es| then [] else (if Live(es[i]) then [es[i]] else []) + LiveFrom(es, i + 1)
  }

  lemma {:induction false} LiveFromHas(es: seq<Entry>, i: nat, k: nat)
    requires i <= k < |es| && Live(es[k])
    ensures es[k] in LiveFrom(es, i)
    decreases |es| - i
  {
    if i < k {
      LiveFromHas(es, i + 1, k);
    } else {
      assert ([es[k]] + LiveFrom(es, i + 1))[0] == es[k];
    }
  }

  lemma {:induction false} LiveFromOnly(es: seq<Entry>, i: nat, e: Entry) returns (k: nat)
    requires e in LiveFrom(es, i)
    ensures i <= k < |es| && Live(es[k]) && es[k] == e
    decreases |es| - i
  {
    if Live(es[i]) && es[i] == e {
      k := i;
    } else {
      k := LiveFromOnly(es, i + 1, e);
    }
  }

  ghost predicate NamesApart(q: seq<Entry>) {
    forall a, b :: 0 <= a < b < |q| ==> q[a].name != q[b].name
  }

  /** Each live name is listed once. */
  lemma {:induction false} ListedOnce(es: seq<Entry>, i: nat)
    requires Tidy(es)
    ensures NamesApart(LiveFrom(es, i))
    decreases |es| - i
  {
    if i < |es| {
      ListedOnce(es, i + 1);
      if Live(es[i]) {
        var rest := LiveFrom(es, i + 1);
        forall b | 0 <= b < |rest| ensures rest[b].name != es[i].name {
          var k := LiveFromOnly(es, i + 1, rest[b]);
        }
        hide LiveFrom, EntryOk;
        assert LiveFrom(es, i) == [es[i]] + rest by { ListedNext(es, i); }
      }
    }
  }

  lemma ListedNext(es: seq<Entry>, i: nat)
    requires i < |es| && Live(es[i])
    ensures LiveFrom(es, i) == [es[i]] + LiveFrom(es, i + 1)
  {
  }

  /** The listing and the map agree: a name is bound to (number, type) iff that entry is listed. */
  lemma ListingIsView(es: seq<Entry>, e: Entry)
    requires Tidy(es)
    ensures e in LiveFrom(es, 0) <==> Live(e) && e.name in View(es) && View(es)[e.name] == (e.ino, e.ftype)
  {
    if e in LiveFrom(es, 0) {
      var k := LiveFromOnly(es, 0, e);
      ViewAt(es, e.name, k);
    }
    if Live(e) && e.name in View(es) && View(es)[e.name] == (e.ino, e.ftype) {
      var k := ViewHas(es, e.name);
      ViewAt(es, e.name, k);
      LiveFromHas(es, 0, k);
    }
  }
}
