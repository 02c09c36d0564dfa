// The client-side folder store, shaped like the article store, and its UUID
// generator. The generator prefers the platform's `crypto.randomUUID`; without
// it, it fills the version-4 template with random hexadecimal digits. Both the
// platform's answer and the random draws are inputs here.

module FolderStore {
  import opened Seqs
  import opened Entities

  /** `Math.random() * 16 | 0`: one random draw, an integer in [0, 16). */
  type Nibble = n: int | 0 <= n < 16

  /** Where the id comes from: the platform's `randomUUID`, or the fallback's random draws. */
  datatype UuidSource = Native(uuid: string) | Fallback(draws: seq<Nibble>)

  /** `n` copies of 'x'. */
  function Xs(n: nat): (s: string)
    ensures |s| == n && forall i :: 0 <= i < n ==> s[i] == 'x'
  {
    seq(n, _ => 'x')
  }

  /** "xxxxxxxx-xxxx-4xxx-yxxx-xxxxxxxxxxxx". */
  const Template := Xs(8) + "-" + Xs(4) + "-4" + Xs(3) + "-y" + Xs(3) + "-" + Xs(12)

  /** `v.toString(16)` for one hexadecimal digit: lower-case. */
  function HexDigit(v: Nibble): char {
    if v < 10 then ('0' as int + v) as char else ('a' as int + v - 10) as char
  }

  predicate IsLowerHex(c: char) { '0' <= c <= '9' || 'a' <= c <= 'f' }

  /** `r & 0x3 | 0x8`: the variant bits of a version-4 UUID. */
  function VariantNibble(r: Nibble): Nibble {
    ((r as bv8 & 0x3) | 0x8) as int
  }

  /** The number of template characters the fallback replaces (`/[xy]/g`). */
  function Placeholders(t: string): nat {
    if t == [] then 0 else (if t[0] == 'x' || t[0] == 'y' then 1 else 0) + Placeholders(t[1..])
  }

  /** `t.replace(/[xy]/g, ...)`, consuming one draw per placeholder from left to right. */
  function Fill(t: string, draws: seq<Nibble>): (u: string)
    requires |draws| == Placeholders(t)
    ensures |u| == |t|
    ensures forall i :: 0 <= i < |t| && t[i] == 'x' ==> IsLowerHex(u[i])
    ensures forall i :: 0 <= i < |t| && t[i] == 'y' ==> u[i] in "89ab"
    ensures forall i :: 0 <= i < |t| && t[i] != 'x' && t[i] != 'y' ==> u[i] == t[i]
  {
    if t == [] then []
    else if t[0] == 'x' then [HexDigit(draws[0])] + Fill(t[1..], draws[1..])
    else if t[0] == 'y' then [HexDigit(VariantNibble(draws[0]))] + Fill(t[1..], draws[1..])
    else [t[0]] + Fill(t[1..], draws)
  }

  /** n copies of 'x' are n placeholders. */
  lemma {:induction false} XsPlaceholders(n: nat)
    ensures Placeholders(Xs(n)) == n
  {
    if n > 0 {
      assert Xs(n)[1..] == Xs(n - 1);
      XsPlaceholders(n - 1);
    }
  }

  /** The first three groups, up to the version digit and the three draws after it. */
  lemma HeadPlaceholders()
    ensures Placeholders(Xs(8) + "-" + Xs(4) + "-4" + Xs(3)) == 15
  {
    XsPlaceholders(8);
    XsPlaceholders(4);
    XsPlaceholders(3);
    assert Placeholders("-") == 0 && Placeholders("-4") == 0;
    PlaceholdersAppend(Xs(8), "-");
    PlaceholdersAppend(Xs(8) + "-", Xs(4));
    PlaceholdersAppend(Xs(8) + "-" + Xs(4), "-4");
    PlaceholdersAppend(Xs(8) + "-" + Xs(4) + "-4", Xs(3));
  }

  /** The template has 31 placeholders, so the fallback takes 31 draws. */
  lemma TemplatePlaceholders()
    ensures Placeholders(Template) == 31
  {
    var head := Xs(8) + "-" + Xs(4) + "-4" + Xs(3);
    HeadPlaceholders();
    XsPlaceholders(3);
    XsPlaceholders(12);
    assert Placeholders("-") == 0 && Placeholders("-y") == 1;
    PlaceholdersAppend(head, "-y");
    PlaceholdersAppend(head + "-y", Xs(3));
    PlaceholdersAppend(head + "-y" + Xs(3), "-");
    PlaceholdersAppend(head + "-y" + Xs(3) + "-", Xs(12));
  }

  lemma {:induction false} PlaceholdersAppend(a: string, b: string)
    ensures Placeholders(a + b) == Placeholders(a) + Placeholders(b)
  {
    if a == [] {
      assert a + b == b;
    } else {
      assert (a + b)[1..] == a[1..] + b;
      PlaceholdersAppend(a[1..], b);
    }
  }

  /** `generateUUID()`: the platform's id when it has one, the filled template otherwise. */
  function GenerateUuid(src: UuidSource): (u: string)
    requires src.Fallback? ==> |src.draws| == 31
    ensures src.Native? ==> u == src.uuid
    ensures src.Fallback? ==> |u| == |Template|
    ensures src.Fallback? ==> forall i :: 0 <= i < |Template| && Template[i] == 'x' ==> IsLowerHex(u[i])
    ensures src.Fallback? ==> forall i :: 0 <= i < |Template| && Template[i] == 'y' ==> u[i] in "89ab"
    ensures src.Fallback? ==> forall i :: 0 <= i < |Template| && Template[i] != 'x' && Template[i] != 'y' ==> u[i] == Template[i]
  {
    match src
    case Native(u) => u
    case Fallback(draws) => TemplatePlaceholders(); Fill(Template, draws)
  }

  /**
   * The fallback id is a well-formed version-4 UUID: 36 characters, dashes at
   * 8, 13, 18 and 23, the version digit '4' at 14, a variant digit from
   * {8, 9, a, b} at 19, and lower-case hexadecimal everywhere else.
   */
  lemma FallbackUuidShape(draws: seq<Nibble>)
    requires |draws| == 31
    ensures var u := GenerateUuid(Fallback(draws));
      |u| == 36 &&
      u[8] == '-' && u[13] == '-' && u[18] == '-' && u[23] == '-' &&
      u[14] == '4' && u[19] in "89ab" &&
      forall i :: 0 <= i < 36 && i !in {8, 13, 14, 18, 19, 23} ==> IsLowerHex(u[i])
  {
    var u := GenerateUuid(Fallback(draws));
    assert forall i :: 0 <= i < 36 && i !in {8, 13, 14, 18, 19, 23} ==> Template[i] == 'x';
  }

  /** The record `addFolder` builds; `createdAt` and `updatedAt` each read the clock. */
  function NewFolder(d: FolderDraft, id: string, created: Timestamp, updated: Timestamp): (f: Folder)
    ensures f.id == id && f.name == d.name && f.category == d.category
    ensures f.createdAt == created && f.updatedAt == updated
  {
    Folder(id, d.name, d.category, created, updated)
  }

  /** `{ ...folder, ...patch, updatedAt: now }`. */
  function Merge(f: Folder, p: FolderPatch, now: Timestamp): (r: Folder)
    ensures r.updatedAt == now
    ensures r.id == (if p.id.Some? then p.id.value else f.id)
    ensures r.name == (if p.name.Some? then p.name.value else f.name)
    ensures r.category == (if p.category.Some? then p.category.value else f.category)
    ensures r.createdAt == (if p.createdAt.Some? then p.createdAt.value else f.createdAt)
    ensures p == NoFolderChange ==> r == f.(updatedAt := now)
  {
    Folder(Patched(p.id, f.id), Patched(p.name, f.name), Patched(p.category, f.category),
      Patched(p.createdAt, f.createdAt), now)
  }

  /** The new `folders` after `updateFolder(id, p)`. */
  function Updated(s: seq<Folder>, id: string, p: FolderPatch, now: Timestamp): (r: seq<Folder>)
    ensures |r| == |s|
    ensures forall i :: 0 <= i < |s| && s[i].id == id ==> r[i] == Merge(s[i], p, now)
    ensures forall i :: 0 <= i < |s| && s[i].id != id ==> r[i] == s[i]
    ensures (forall f :: f in s ==> f.id != id) ==> r == s
  {
    Map(s, (f: Folder) => if f.id == id then Merge(f, p, now) else f)
  }

  /** The new `folders` after `deleteFolder(id)`. */
  function Removed(s: seq<Folder>, id: string): (r: seq<Folder>)
    ensures forall f :: multiset(r)[f] == if f.id == id then 0 else multiset(s)[f]
    ensures Subsequence(r, s)
    ensures (forall f :: f in s ==> f.id != id) ==> r == s
  {
    var keep := (f: Folder) => f.id != id;
    FilterMultiset(s, keep);
    FilterSubsequence(s, keep);
    if forall f :: f in s ==> f.id != id then FilterAll(s, keep); Filter(s, keep)
    else Filter(s, keep)
  }

  /** `getFoldersByCategory(c)`. */
  function ByCategory(s: seq<Folder>, c: Category): (r: seq<Folder>)
    ensures forall f :: f in r <==> f in s && f.category == c
    ensures forall f :: multiset(r)[f] == if f.category == c then multiset(s)[f] else 0
    ensures Subsequence(r, s)
  {
    var inCategory := (f: Folder) => f.category == c;
    FilterMultiset(s, inCategory);
    FilterSubsequence(s, inCategory);
    Filter(s, inCategory)
  }

  /** `getFolderById(id)`: the first folder with that id, if any. */
  function FindById(s: seq<Folder>, id: string): (r: Option<Folder>)
    ensures r.None? <==> forall f :: f in s ==> f.id != id
    ensures r.Some? ==> exists i :: (0 <= i < |s| && s[i] == r.value && r.value.id == id &&
      forall j :: 0 <= j < i ==> s[j].id != id)
  {
    Find(s, (f: Folder) => f.id == id)
  }

  /** The store. */
  class Store {
    var folders: seq<Folder>

    constructor ()
      ensures folders == []
    {
      folders := [];
    }

    /**
     * Appends one folder whose id `generateUUID` produced from `src`;
     * `created` and `updated` are the two `new Date()` readings.
     */
    method AddFolder(d: FolderDraft, src: UuidSource, created: Timestamp, updated: Timestamp)
      requires src.Fallback? ==> |src.draws| == 31
      modifies this
      ensures folders == old(folders) + [NewFolder(d, GenerateUuid(src), created, updated)]
    {
      var id := GenerateUuid(src);
      folders := folders + [NewFolder(d, id, created, updated)];
    }

    method UpdateFolder(id: string, p: FolderPatch, now: Timestamp)
      modifies this
      ensures folders == Updated(old(folders), id, p, now)
    {
      folders := Updated(folders, id, p, now);
    }

    /** Removes the folder only: its articles live in another store and stay where they are. */
    method DeleteFolder(id: string)
      modifies this
      ensures folders == Removed(old(folders), id)
    {
      folders := Removed(folders, id);
    }

    function GetFoldersByCategory(c: Category): (r: seq<Folder>)
      reads this
      ensures forall f :: f in r <==> f in folders && f.category == c
    {
      ByCategory(folders, c)
    }

    function GetFolderById(id: string): (r: Option<Folder>)
      reads this
      ensures r.Some? ==> r.value in folders && r.value.id == id
      ensures r.None? <==> forall f :: f in folders ==> f.id != id
    {
      FindById(folders, id)
    }
  }

  /** After `addFolder` with an unused id, looking the id up yields the new folder. */
  lemma AddThenFind(s: seq<Folder>, d: FolderDraft, id: string, created: Timestamp, updated: Timestamp)
    requires forall f :: f in s ==> f.id != id
    ensures FindById(s + [NewFolder(d, id, created, updated)], id) == Some(NewFolder(d, id, created, updated))
  {
    var t := s + [NewFolder(d, id, created, updated)];
    forall j | 0 <= j < |s| ensures t[j].id != id {
      assert t[j] == s[j] && s[j] in s;
    }
    assert t[|s|] in t;
    var r := FindById(t, id);
    var i :| 0 <= i < |t| && t[i] == r.value && r.value.id == id;
    assert i == |s|;
  }

  /** A patch holding only a name changes the name and `updatedAt` and nothing else. */
  lemma MergeNameOnly(f: Folder, name: string, now: Timestamp)
    ensures Merge(f, NoFolderChange.(name := Some(name)), now) == f.(name := name, updatedAt := now)
  {
  }
}
