/**
 How tools/gen_settings_schema.py decides what a setting is from the uses of it in the source code (`readers`).
 */
module SettingTypes {
  import opened Prelude

  datatype Base = Bool | Int | Float | String

  /** One read of a key: with which accessor, with what default, and within what bounds if it names any. */
  datatype Entry = Entry(base: Base, default: string, range: Option<(string, string)>, path: string)

  datatype Read = Read(key: string, entry: Entry)

  datatype Kind = Toggle | Number | Text

  datatype Setting = Setting(kind: Kind, default: string, range: Option<(string, string)>, precision: nat)

  predicate Typed(e: Entry) { e.base != String }

  predicate Bounded(e: Entry) { Typed(e) && e.range.Some? }

  /** Two typed reads disagree on the kind, or two bounded ones on the bounds. */
  predicate Conflicted(entries: seq<Entry>) {
    (exists a: nat, b: nat ::
      a < |entries| && b < |entries| && Typed(entries[a]) && Typed(entries[b]) && entries[a].base != entries[b].base) ||
    exists a: nat, b: nat ::
      a < |entries| && b < |entries| && Bounded(entries[a]) && Bounded(entries[b]) &&
      entries[a].range != entries[b].range
  }

  /** The first entry that satisfies p. */
  function First(entries: seq<Entry>, p: Entry -> bool): (e: Option<Entry>)
    ensures e.Some? ==> e.value in entries && p(e.value)
    ensures e.None? ==> forall x :: x in entries ==> !p(x)
  {
    if entries == [] then None else if p(entries[0]) then Some(entries[0]) else First(entries[1..], p)
  }

  /** The first bounded read, else the first typed one, else the first. */
  function Chosen(entries: seq<Entry>): (e: Entry)
    requires entries != []
    ensures e in entries
  {
    var bounded, typed := First(entries, Bounded), First(entries, Typed);
    if bounded.Some? then bounded.value else if typed.Some? then typed.value else entries[0]
  }

  lemma {:induction false} FirstIs(entries: seq<Entry>, p: Entry -> bool) returns (i: nat)
    requires First(entries, p).Some?
    ensures i < |entries| && entries[i] == First(entries, p).value && p(entries[i])
    ensures forall j: nat :: j < i ==> !p(entries[j])
  {
    if p(entries[0]) {
      i := 0;
    } else {
      i := FirstIs(entries[1..], p);
      i := i + 1;
      assert forall j: nat :: 0 < j < i ==> entries[j] == entries[1..][j - 1];
    }
  }

  function KindOf(b: Base): Kind { match b case Bool => Toggle case String => Text case _ => Number }

  function PrecisionOf(b: Base): nat { if b == Bool || b == Int then 0 else 2 }

  function SettingOf(e: Entry): Setting { Setting(KindOf(e.base), e.default, e.range, PrecisionOf(e.base)) }

  /**
   A setting is that of one read: of the first that is bounded and no string; without such a read, of the first that is
   no string; and of the first of all if every read is a string.
   */
  lemma {:induction false} SettingIs(entries: seq<Entry>) returns (i: nat)
    requires entries != []
    ensures i < |entries| && SettingAs(SettingOf(Chosen(entries)), entries[i])
    ensures if exists e :: e in entries && e.base != String && e.range.Some? then
        entries[i].base != String && entries[i].range.Some? &&
        forall j: nat :: j < i ==> entries[j].base == String || entries[j].range.None?
      else if exists e :: e in entries && e.base != String then
        entries[i].base != String && forall j: nat :: j < i ==> entries[j].base == String
      else i == 0
  {
    if First(entries, Bounded).Some? {
      i := FirstIs(entries, Bounded);
    } else if First(entries, Typed).Some? {
      i := FirstIs(entries, Typed);
    } else {
      i := 0;
    }
  }

  /** A toggle for a boolean, a text for a string, and two decimals only for a float; a string's are never asked for. */
  predicate SettingAs(s: Setting, e: Entry) {
    s.default == e.default && s.range == e.range && (s.kind == Toggle <==> e.base == Bool) &&
    (s.kind == Text <==> e.base == String) && (s.precision == 0 <==> e.base in {Bool, Int}) && s.precision in {0, 2}
  }

  /** The reads of a key, in walk order. */
  function EntriesOf(uses: seq<Read>, key: string): seq<Entry> {
    if uses == [] then []
    else
      var last := uses[|uses| - 1];
      EntriesOf(uses[..|uses| - 1], key) + if last.key == key then [last.entry] else []
  }

  lemma {:induction false} EntriesAre(uses: seq<Read>, key: string, e: Entry)
    ensures e in EntriesOf(uses, key) <==> Read(key, e) in uses
  {
    if uses != [] {
      EntriesAre(uses[..|uses| - 1], key, e);
      assert uses == uses[..|uses| - 1] + [uses[|uses| - 1]];
    }
  }

  lemma {:induction false} EntriesStep(uses: seq<Read>, n: nat, key: string)
    requires n < |uses|
    ensures EntriesOf(uses[..n + 1], key) == EntriesOf(uses[..n], key) + if uses[n].key == key then [uses[n].entry]
      else []
  {
    assert uses[..n + 1][..n] == uses[..n];
  }

  /** The keys read, in the order of their first reads, with their reads. */
  ghost predicate Grouped(uses: seq<Read>, keys: seq<string>, grouped: map<string, seq<Entry>>) {
    (forall k :: k in keys <==> k in grouped) &&
    forall k :: (if k in grouped then grouped[k] else []) == EntriesOf(uses, k)
  }

  lemma {:induction false} GroupStep(uses: seq<Read>, n: nat, keys: seq<string>, grouped: map<string, seq<Entry>>)
    requires n < |uses| && Grouped(uses[..n], keys, grouped)
    ensures var key := uses[n].key; var before := if key in grouped then grouped[key] else [];
      Grouped(uses[..n + 1], if key in grouped then keys else keys + [key], grouped[key := before + [uses[n].entry]])
  {
    hide EntriesOf;
    forall k
      ensures EntriesOf(uses[..n + 1], k) == EntriesOf(uses[..n], k) + if uses[n].key == k then [uses[n].entry] else []
    {
      EntriesStep(uses, n, k);
    }
  }

  /** The reads gathered under their keys. */
  method Group(uses: seq<Read>) returns (keys: seq<string>, grouped: map<string, seq<Entry>>)
    ensures Grouped(uses, keys, grouped) && forall k :: k in grouped ==> grouped[k] != []
  {
    keys, grouped := [], map[];
    for n := 0 to |uses|
      invariant Grouped(uses[..n], keys, grouped) && forall k :: k in grouped ==> grouped[k] != []
    {
      GroupStep(uses, n, keys, grouped);
      var key := uses[n].key;
      if key !in grouped {
        keys := keys + [key];
        grouped := grouped[key := []];
      }
      grouped := grouped[key := grouped[key] + [uses[n].entry]];
    }
    assert uses[..|uses|] == uses;
  }

  /** The keys of `keys` sorted into settings and conflicts. */
  ghost predicate Resolved(keys: seq<string>, grouped: map<string, seq<Entry>>, found: map<string, Setting>,
      conflicts: map<string, seq<Entry>>)
    requires forall k :: k in keys ==> k in grouped && grouped[k] != []
  {
    (forall k :: k in conflicts <==> k in keys && Conflicted(grouped[k])) &&
    (forall k :: k in conflicts ==> conflicts[k] == grouped[k]) &&
    (forall k :: k in found <==> k in keys && !Conflicted(grouped[k])) &&
    forall k :: k in found ==> found[k] == SettingOf(Chosen(grouped[k]))
  }

  lemma {:induction false} ResolveStep(keys: seq<string>, grouped: map<string, seq<Entry>>, n: nat,
      found: map<string, Setting>, conflicts: map<string, seq<Entry>>)
    requires (forall k :: k in keys ==> k in grouped && grouped[k] != []) && n < |keys| &&
      Resolved(keys[..n], grouped, found, conflicts)
    ensures var key := keys[n]; var entries := grouped[key];
      if Conflicted(entries) then Resolved(keys[..n + 1], grouped, found, conflicts[key := entries])
      else Resolved(keys[..n + 1], grouped, found[key := SettingOf(Chosen(entries))], conflicts)
  {
    hide Conflicted, Chosen, SettingOf;
    assert forall k :: k in keys[..n + 1] <==> k in keys[..n] || k == keys[n] by {
      assert keys[..n + 1] == keys[..n] + [keys[n]];
    }
  }

  /** The keys in turn. */
  method ResolveKeys(keys: seq<string>, grouped: map<string, seq<Entry>>)
      returns (found: map<string, Setting>, conflicts: map<string, seq<Entry>>)
    requires forall k :: k in keys ==> k in grouped && grouped[k] != []
    ensures Resolved(keys, grouped, found, conflicts)
  {
    found, conflicts := map[], map[];
    assert Resolved(keys[..0], grouped, found, conflicts);
    hide Conflicted, Chosen, SettingOf, Resolved;
    for n := 0 to |keys|
      invariant Resolved(keys[..n], grouped, found, conflicts)
    {
      ResolveStep(keys, grouped, n, found, conflicts);
      var entries := grouped[keys[n]];
      if Conflicted(entries) {
        conflicts := conflicts[keys[n] := entries];
      } else {
        found := found[keys[n] := SettingOf(Chosen(entries))];
      }
    }
    assert keys[..|keys|] == keys;
  }

  /** readers: the settings that every read agrees on, and the keys whose reads conflict. */
  method Readers(uses: seq<Read>) returns (found: map<string, Setting>, conflicts: map<string, seq<Entry>>)
    ensures forall k :: k in conflicts <==> EntriesOf(uses, k) != [] && Conflicted(EntriesOf(uses, k))
    ensures forall k :: k in conflicts ==> conflicts[k] == EntriesOf(uses, k)
    ensures forall k :: k in found <==> EntriesOf(uses, k) != [] && !Conflicted(EntriesOf(uses, k))
    ensures forall k :: k in found ==> found[k] == SettingOf(Chosen(EntriesOf(uses, k)))
  {
    hide Conflicted, Chosen, SettingOf, EntriesOf;
    var keys, grouped := Group(uses);
    found, conflicts := ResolveKeys(keys, grouped);
    assert forall k :: (k in keys <==> EntriesOf(uses, k) != []) && (k in keys ==> grouped[k] == EntriesOf(uses, k));
  }

  // ---------------------------------------------------------------- the walk order does not matter

  /** The same reads, in whatever order and however often. */
  ghost predicate SameReads(a: seq<Entry>, b: seq<Entry>) { forall e :: e in a <==> e in b }

  /** A key that only strings are read for names one range, or none, in all its reads. */
  ghost predicate StringsAgree(entries: seq<Entry>) {
    (forall e :: e in entries ==> !Typed(e)) ==>
      forall a: nat, b: nat :: a < |entries| && b < |entries| ==> entries[a].range == entries[b].range
  }

  lemma {:induction false} ConflictCarries(a: seq<Entry>, b: seq<Entry>)
    requires SameReads(a, b) && Conflicted(a)
    ensures Conflicted(b)
  {
    if i: nat, j: nat :| i < |a| && j < |a| && Typed(a[i]) && Typed(a[j]) && a[i].base != a[j].base {
      assert a[i] in b && a[j] in b;
    } else {
      var i: nat, j: nat :| i < |a| && j < |a| && Bounded(a[i]) && Bounded(a[j]) && a[i].range != a[j].range;
      assert a[i] in b && a[j] in b;
    }
  }

  /** What agrees in two settings: all but the default. */
  predicate SameType(a: Setting, b: Setting) { a.kind == b.kind && a.range == b.range && a.precision == b.precision }

  lemma {:induction false} ChosenAgrees(a: seq<Entry>, b: seq<Entry>)
    requires SameReads(a, b) && a != [] && b != [] && !Conflicted(a) && StringsAgree(a)
    ensures Chosen(a).base == Chosen(b).base && Chosen(a).range == Chosen(b).range
  {
    var x, y := Chosen(a), Chosen(b);
    assert x in a && y in a;
    var i: nat :| i < |a| && a[i] == x;
    var j: nat :| j < |a| && a[j] == y;
    assert First(a, Bounded).Some? <==> First(b, Bounded).Some?;
    assert First(a, Typed).Some? <==> First(b, Typed).Some?;
  }

  /**
   Of one key: whether its reads conflict, and the type it is given if they do not, depend only on which reads there
   are.
   */
  lemma {:induction false} OrderDoesNotMatter(a: seq<Entry>, b: seq<Entry>)
    requires SameReads(a, b) && a != [] && b != []
    ensures Conflicted(a) <==> Conflicted(b)
    ensures !Conflicted(a) && StringsAgree(a) ==> SameType(SettingOf(Chosen(a)), SettingOf(Chosen(b)))
  {
    hide Conflicted, Chosen;
    if Conflicted(a) {
      ConflictCarries(a, b);
    }
    if Conflicted(b) {
      ConflictCarries(b, a);
    }
    if !Conflicted(a) && StringsAgree(a) {
      ChosenAgrees(a, b);
    }
  }

  /** A walk in another order: the same reads, each as often. */
  ghost predicate Reordered(a: seq<Read>, b: seq<Read>) { multiset(a) == multiset(b) }

  /**
   For any order of the walk, the same keys are read, the same conflict, and each key that does not has the same kind,
   bounds and precision.
   */
  lemma {:induction false} WalkOrderDoesNotMatter(a: seq<Read>, b: seq<Read>, key: string)
    requires Reordered(a, b)
    ensures var p, q := EntriesOf(a, key), EntriesOf(b, key);
      (p == [] <==> q == []) && (Conflicted(p) <==> Conflicted(q)) &&
      (p != [] && !Conflicted(p) && StringsAgree(p) ==> SameType(SettingOf(Chosen(p)), SettingOf(Chosen(q))))
  {
    hide Conflicted, Chosen, StringsAgree, SettingOf;
    var p, q := EntriesOf(a, key), EntriesOf(b, key);
    forall e
      ensures e in p <==> e in q
    {
      EntriesAre(a, key, e);
      EntriesAre(b, key, e);
      assert Read(key, e) in a <==> Read(key, e) in multiset(a);
    }
    assert p != [] ==> p[0] in q;
    assert q != [] ==> q[0] in p;
    if p != [] {
      OrderDoesNotMatter(p, q);
    }
  }

  // ---------------------------------------------------------------- walks of files

  /** The reads of a walk, file by file, each file's in its own order. */
  function Flat(files: seq<seq<Read>>): seq<Read> {
    if files == [] then [] else Flat(files[..|files| - 1]) + files[|files| - 1]
  }

  /** The setting a walk makes of a key it reads. */
  function SettingIn(files: seq<seq<Read>>, key: string): Setting
    requires EntriesOf(Flat(files), key) != []
  {
    SettingOf(Chosen(EntriesOf(Flat(files), key)))
  }

  /** A walk of the same files in another order. */
  ghost predicate Rewalked(a: seq<seq<Read>>, b: seq<seq<Read>>) { multiset(a) == multiset(b) }

  lemma {:induction false} EntriesJoin(a: seq<Read>, b: seq<Read>, key: string)
    ensures EntriesOf(a + b, key) == EntriesOf(a, key) + EntriesOf(b, key)
  {
    if b == [] {
      assert a + b == a;
    } else {
      var front := b[..|b| - 1];
      assert (a + b)[..|a + b| - 1] == a + front && (a + b)[|a + b| - 1] == b[|b| - 1];
      EntriesJoin(a, front, key);
    }
  }

  lemma {:induction false} FlatJoin(a: seq<seq<Read>>, b: seq<seq<Read>>)
    ensures Flat(a + b) == Flat(a) + Flat(b)
  {
    if b == [] {
      assert a + b == a;
    } else {
      var front := b[..|b| - 1];
      assert (a + b)[..|a + b| - 1] == a + front && (a + b)[|a + b| - 1] == b[|b| - 1];
      FlatJoin(a, front);
    }
  }

  lemma {:induction false} FlatHolds(files: seq<seq<Read>>, r: Read)
    ensures r in Flat(files) <==> exists f :: f in files && r in f
  {
    if files != [] {
      var n := |files| - 1;
      FlatHolds(files[..n], r);
      assert files == files[..n] + [files[n]];
    }
  }

  lemma {:induction false} RewalkedReads(a: seq<seq<Read>>, b: seq<seq<Read>>, key: string)
    requires Rewalked(a, b)
    ensures SameReads(EntriesOf(Flat(a), key), EntriesOf(Flat(b), key))
  {
    forall e
      ensures e in EntriesOf(Flat(a), key) <==> e in EntriesOf(Flat(b), key)
    {
      EntriesAre(Flat(a), key, e);
      EntriesAre(Flat(b), key, e);
      FlatHolds(a, Read(key, e));
      FlatHolds(b, Read(key, e));
      assert forall f :: f in a <==> f in multiset(a);
      assert forall f :: f in b <==> f in multiset(b);
    }
  }

  /** The file reads the key. */
  predicate Uses(file: seq<Read>, key: string) { EntriesOf(file, key) != [] }

  function FirstRead(file: seq<Read>, key: string): Entry
    requires Uses(file, key)
  {
    EntriesOf(file, key)[0]
  }

  /** The first reads of the key in the files that read it name one range, or none. */
  ghost predicate FilesAgree(files: seq<seq<Read>>, key: string) {
    forall a: nat, b: nat :: a < |files| && b < |files| && Uses(files[a], key) && Uses(files[b], key) ==>
      FirstRead(files[a], key).range == FirstRead(files[b], key).range
  }

  /** Only strings are read for the key. */
  ghost predicate OnlyStrings(entries: seq<Entry>) { forall e :: e in entries ==> !Typed(e) }

  /** The first read of the walk is the first of its first file that reads the key. */
  lemma {:induction false} FirstFile(files: seq<seq<Read>>, key: string) returns (a: nat)
    requires EntriesOf(Flat(files), key) != []
    ensures a < |files| && Uses(files[a], key) && FirstRead(files[a], key) == EntriesOf(Flat(files), key)[0]
  {
    var n := |files| - 1;
    EntriesJoin(Flat(files[..n]), files[n], key);
    if EntriesOf(Flat(files[..n]), key) != [] {
      a := FirstFile(files[..n], key);
    } else {
      a := n;
    }
  }

  lemma {:induction false} ChosenOfStrings(entries: seq<Entry>)
    requires entries != [] && OnlyStrings(entries)
    ensures Chosen(entries) == entries[0]
  {
  }

  /** The walk with its k-th file first. */
  function ToFront(files: seq<seq<Read>>, k: nat): (r: seq<seq<Read>>)
    requires k < |files|
    ensures Rewalked(files, r)
  {
    assert files == files[..k] + [files[k]] + files[k + 1..];
    [files[k]] + files[..k] + files[k + 1..]
  }

  lemma {:induction false} FrontComesFirst(files: seq<seq<Read>>, k: nat, key: string)
    requires k < |files| && Uses(files[k], key)
    ensures EntriesOf(Flat(ToFront(files, k)), key) != []
    ensures EntriesOf(Flat(ToFront(files, k)), key)[0] == FirstRead(files[k], key)
  {
    var rest := files[..k] + files[k + 1..];
    assert ToFront(files, k) == [files[k]] + rest;
    FlatJoin([files[k]], rest);
    assert Flat([files[k]]) == files[k] by {
      assert [files[k]][..0] == [];
    }
    EntriesJoin(files[k], Flat(rest), key);
  }

  /** A key of which only strings are read depends on the order where the first reads of two files differ in range. */
  lemma {:induction false} DisagreeingFilesDepend(files: seq<seq<Read>>, key: string) returns (others: seq<seq<Read>>)
    requires OnlyStrings(EntriesOf(Flat(files), key)) && !FilesAgree(files, key)
    ensures EntriesOf(Flat(files), key) != [] && Rewalked(files, others) && EntriesOf(Flat(others), key) != []
    ensures SettingIn(files, key).range != SettingIn(others, key).range
  {
    hide Chosen, Typed, EntriesOf;
    var a: nat, b: nat :| a < |files| && b < |files| && Uses(files[a], key) && Uses(files[b], key) &&
      FirstRead(files[a], key).range != FirstRead(files[b], key).range;
    FrontComesFirst(files, a, key);
    FrontComesFirst(files, b, key);
    RewalkedReads(files, ToFront(files, a), key);
    RewalkedReads(files, ToFront(files, b), key);
    var p, q := EntriesOf(Flat(ToFront(files, a)), key), EntriesOf(Flat(ToFront(files, b)), key);
    assert p[0] in p && EntriesOf(Flat(files), key) != [];
    ChosenOfStrings(EntriesOf(Flat(files), key));
    ChosenOfStrings(p);
    ChosenOfStrings(q);
    others := if EntriesOf(Flat(files), key)[0].range == FirstRead(files[a], key).range then ToFront(files, b)
              else ToFront(files, a);
  }

  /** Every order of the files gives the key the type it has in this one. */
  ghost predicate OrderFree(files: seq<seq<Read>>, key: string)
    requires EntriesOf(Flat(files), key) != []
  {
    forall others :: Rewalked(files, others) && EntriesOf(Flat(others), key) != [] ==>
      SameType(SettingIn(files, key), SettingIn(others, key))
  }

  /**
   A key without a conflict has one type in every walk of the files exactly when it is read typed somewhere or the first
   reads of the files that read it agree on the range.
   */
  lemma {:induction false} OrderFreeIff(files: seq<seq<Read>>, key: string)
    requires EntriesOf(Flat(files), key) != [] && !Conflicted(EntriesOf(Flat(files), key))
    ensures OrderFree(files, key) <==> !OnlyStrings(EntriesOf(Flat(files), key)) || FilesAgree(files, key)
  {
    hide Conflicted, Chosen, SettingOf, EntriesOf, Typed, FilesAgree, OnlyStrings, SameType;
    if !OnlyStrings(EntriesOf(Flat(files), key)) || FilesAgree(files, key) {
      forall others | Rewalked(files, others) && EntriesOf(Flat(others), key) != []
        ensures SameType(SettingIn(files, key), SettingIn(others, key))
      {
        RewalkedType(files, others, key);
      }
    } else {
      var others := DisagreeingFilesDepend(files, key);
      TypesDiffer(SettingIn(files, key), SettingIn(others, key));
    }
  }

  lemma TypesDiffer(a: Setting, b: Setting)
    requires a.range != b.range
    ensures !SameType(a, b)
  {
  }

  lemma {:induction false} RewalkedType(files: seq<seq<Read>>, others: seq<seq<Read>>, key: string)
    requires Rewalked(files, others) && EntriesOf(Flat(files), key) != [] && EntriesOf(Flat(others), key) != []
    requires !Conflicted(EntriesOf(Flat(files), key))
    requires !OnlyStrings(EntriesOf(Flat(files), key)) || FilesAgree(files, key)
    ensures SameType(SettingIn(files, key), SettingIn(others, key))
  {
    hide Conflicted, Chosen, EntriesOf, Typed;
    var p, q := EntriesOf(Flat(files), key), EntriesOf(Flat(others), key);
    RewalkedReads(files, others, key);
    if OnlyStrings(p) {
      ChosenOfStrings(p);
      ChosenOfStrings(q);
      var a := FirstFile(files, key);
      var b := FirstFile(others, key);
      assert others[b] in multiset(others);
      var c: nat :| c < |files| && files[c] == others[b];
      StringsAreText(p[0], q[0], p, q);
    } else {
      TypedAgree(p, q);
    }
  }

  lemma StringsAreText(x: Entry, y: Entry, p: seq<Entry>, q: seq<Entry>)
    requires x in p && y in q && OnlyStrings(p) && OnlyStrings(q) && x.range == y.range
    ensures SameType(SettingOf(x), SettingOf(y))
  {
  }

  lemma TypedAgree(p: seq<Entry>, q: seq<Entry>)
    requires SameReads(p, q) && p != [] && q != [] && !Conflicted(p) && !OnlyStrings(p)
    ensures SameType(SettingOf(Chosen(p)), SettingOf(Chosen(q)))
  {
    hide Conflicted, Chosen;
    OrderDoesNotMatter(p, q);
  }
}
